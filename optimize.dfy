/** The packing part of `handleOptimizeLoad`: input checks, expansion and
    pre-filter, one attempt per container on the units still to pack, the leftover
    report and the final consolidation. */
module Optimize {
  import opened Util
  import opened Geometry
  import opened Layout
  import opened Validity
  import opened Search
  import opened Report
  import opened Packing
  import opened Prefilter

  // ---------------------------------------------------------------------------
  // One attempt per container

  function AllFalse(n: nat): seq<bool>
  {
    seq(n, _ => false)
  }

  /** A container attempt on the pool, every unit marked not placed. */
  function Attempt(alg: Strategy, c: Container, k: nat, pool: seq<Instance>): PackState
  {
    PackRun(alg, c, k, pool, AllFalse(|pool|), SortOrder(pool, |pool|))
  }

  function Ids(ps: seq<Placement>): set<string>
  {
    set p | p in ps :: p.inst.instanceId
  }

  /** `itemsStillToPack.filter(item => !packedIds.has(item.instanceId))`. */
  function RemovePacked(pool: seq<Instance>, ids: set<string>): seq<Instance>
  {
    if pool == [] then []
    else if pool[0].instanceId in ids then RemovePacked(pool[1..], ids)
    else [pool[0]] + RemovePacked(pool[1..], ids)
  }

  /** The filter keeps exactly the pool's units whose id is not in the set. */
  lemma {:induction false} RemovePackedSpec(pool: seq<Instance>, ids: set<string>)
    ensures forall x :: x in RemovePacked(pool, ids) <==> x in pool && x.instanceId !in ids
  {
    if pool != [] {
      RemovePackedSpec(pool[1..], ids);
      assert pool == [pool[0]] + pool[1..];
    }
  }

  /** The state of the container loop: the units still to pack, every committed
      unit in commit order, the weight of each container and the report entries
      gathered so far. */
  datatype RunState = RunState(pool: seq<Instance>, packed: seq<Placement>, weights: seq<real>, entries: seq<UnplacedEntry>)

  /** A container attempt as a function of the container index and the pool. */
  type AttemptFn = (nat, seq<Instance>) -> PackState

  function AttemptBy(alg: Strategy, c: Container): AttemptFn
  {
    (k: nat, pool: seq<Instance>) => Attempt(alg, c, k, pool)
  }

  /** One turn of the container loop: an empty pool records weight 0, otherwise the
      attempt's units, weight and report are added and its units leave the pool. */
  function ContainerStep(at: AttemptFn, st: RunState, k: nat): RunState
  {
    if |st.pool| == 0 then st.(weights := st.weights + [0.0])
    else
      var a := at(k, st.pool);
      RunState(RemovePacked(st.pool, Ids(a.placed)), st.packed + a.placed, st.weights + [a.weight],
        st.entries + Values(a.rows))
  }

  /** The container loop after n turns. */
  function ContainerRun(at: AttemptFn, pool: seq<Instance>, entries: seq<UnplacedEntry>, n: nat): RunState
  {
    if n == 0 then RunState(pool, [], [], entries)
    else ContainerStep(at, ContainerRun(at, pool, entries, n - 1), n - 1)
  }

  // ---------------------------------------------------------------------------
  // What the loop keeps true

  /** The units of container k, in commit order. */
  function InContainer(ps: seq<Placement>, k: nat): seq<Placement>
  {
    if ps == [] then []
    else InContainer(ps[..|ps| - 1], k) + (if ps[|ps| - 1].containerId == k then [ps[|ps| - 1]] else [])
  }

  lemma {:induction false} InContainerAppend(a: seq<Placement>, b: seq<Placement>, k: nat)
    ensures InContainer(a + b, k) == InContainer(a, k) + InContainer(b, k)
  {
    if b == [] {
      assert a + b == a;
    } else {
      assert (a + b)[..|a + b| - 1] == a + b[..|b| - 1];
      InContainerAppend(a, b[..|b| - 1], k);
    }
  }

  /** Selecting by container keeps all of a list from one container or none of it. */
  lemma {:induction false} InContainerUniform(b: seq<Placement>, k: nat, j: nat)
    requires forall i :: 0 <= i < |b| ==> b[i].containerId == k
    ensures InContainer(b, j) == if j == k then b else []
  {
    if b != [] {
      InContainerUniform(b[..|b| - 1], k, j);
    }
  }

  lemma {:induction false} InContainerEmpty(b: seq<Placement>, j: nat)
    requires forall i :: 0 <= i < |b| ==> b[i].containerId < j
    ensures InContainer(b, j) == []
  {
    if b != [] {
      InContainerEmpty(b[..|b| - 1], j);
    }
  }

  /** What the loop records for one container: its units satisfy the validator in
      commit order, its weight is their total, and it is within the payload limit
      once a unit is in. */
  predicate ContainerOk(c: Container, ps: seq<Placement>, w: real)
  {
    ValidPacking(c, ps) && w == SumWeights(ps) && (ps == [] || w <= c.maxPayloadKg)
  }

  /** Every attempt tags its units with its own container and records their
      effective dimensions. */
  ghost predicate AttemptsTagged(at: AttemptFn)
  {
    forall k: nat, pool: seq<Instance>, i :: 0 <= i < |at(k, pool).placed| ==>
      at(k, pool).placed[i].containerId == k && WellFormed(at(k, pool).placed[i])
  }

  /** Every attempt commits units of its own pool. */
  ghost predicate AttemptsFromPool(at: AttemptFn)
  {
    forall k: nat, pool: seq<Instance>, i :: 0 <= i < |at(k, pool).placed| ==> at(k, pool).placed[i].inst in pool
  }

  /** Every attempt leaves a valid packing of the weight it reports. */
  ghost predicate AttemptsValid(c: Container, at: AttemptFn)
  {
    forall k: nat, pool: seq<Instance> :: ContainerOk(c, at(k, pool).placed, at(k, pool).weight)
  }

  /** Every unit an attempt commits is a unit of its pool. */
  lemma AttemptFromPool(alg: Strategy, c: Container, k: nat, pool: seq<Instance>)
    ensures forall i :: 0 <= i < |Attempt(alg, c, k, pool).placed| ==> Attempt(alg, c, k, pool).placed[i].inst in pool
  {
    CommittedMatchesPlaced(alg, c, k, pool, AllFalse(|pool|), SortOrder(pool, |pool|));
  }

  /** Both strategies' attempts meet what the container loop relies on: the
      packing invariant of every attempt, and units drawn from its pool. */
  lemma StrategiesAreGood(alg: Strategy, c: Container)
    ensures AttemptsTagged(AttemptBy(alg, c)) && AttemptsFromPool(AttemptBy(alg, c)) && AttemptsValid(c, AttemptBy(alg, c))
  {
    forall k: nat, pool: seq<Instance>
      ensures PackInvariant(c, k, Attempt(alg, c, k, pool))
      ensures forall i :: 0 <= i < |Attempt(alg, c, k, pool).placed| ==> Attempt(alg, c, k, pool).placed[i].inst in pool
    {
      PackRunInvariant(alg, c, k, pool, AllFalse(|pool|), SortOrder(pool, |pool|));
      AttemptFromPool(alg, c, k, pool);
    }
  }

  /** One weight per turn, and units only name containers already attempted. */
  predicate RunShape(n: nat, st: RunState)
  {
    |st.weights| == n &&
    forall i :: 0 <= i < |st.packed| ==> st.packed[i].containerId < n && WellFormed(st.packed[i])
  }

  lemma ContainerStepShape(at: AttemptFn, n: nat, st: RunState)
    requires AttemptsTagged(at)
    requires RunShape(n, st)
    ensures RunShape(n + 1, ContainerStep(at, st, n))
  {
  }

  lemma {:induction false} ContainerRunShape(at: AttemptFn, pool: seq<Instance>, entries: seq<UnplacedEntry>, n: nat)
    requires AttemptsTagged(at)
    ensures RunShape(n, ContainerRun(at, pool, entries, n))
  {
    if n > 0 {
      ContainerRunShape(at, pool, entries, n - 1);
      ContainerStepShape(at, n - 1, ContainerRun(at, pool, entries, n - 1));
    }
  }

  /** The loop records one weight per turn, whatever the attempts do. */
  lemma {:induction false} ContainerRunWeights(at: AttemptFn, pool: seq<Instance>, entries: seq<UnplacedEntry>, n: nat)
    ensures |ContainerRun(at, pool, entries, n).weights| == n
  {
    if n > 0 {
      ContainerRunWeights(at, pool, entries, n - 1);
    }
  }

  /** A turn leaves the units of every earlier container alone. */
  lemma ContainerStepKeepsEarlier(at: AttemptFn, n: nat, st: RunState, k: nat)
    requires AttemptsTagged(at)
    requires k < n
    ensures InContainer(ContainerStep(at, st, n).packed, k) == InContainer(st.packed, k)
  {
    if |st.pool| > 0 {
      var a := at(n, st.pool);
      InContainerAppend(st.packed, a.placed, k);
      InContainerUniform(a.placed, n, k);
    }
  }

  /** After turn k, the units of container k never change. */
  lemma {:induction false} ContainerRunKeepsEarlier(at: AttemptFn, pool: seq<Instance>,
                                                    entries: seq<UnplacedEntry>, n: nat, k: nat)
    requires AttemptsTagged(at)
    requires k < n
    ensures InContainer(ContainerRun(at, pool, entries, n).packed, k) == InContainer(ContainerRun(at, pool, entries, k + 1).packed, k)
  {
    var units := InContainer(ContainerRun(at, pool, entries, k + 1).packed, k);
    var P := (st: RunState) => InContainer(st.packed, k) == units;
    forall st: RunState, j: nat | k + 1 <= j && P(st)
      ensures P(ContainerStep(at, st, j))
    {
      ContainerStepKeepsEarlier(at, j, st, k);
    }
    ContainerRunKeeps(at, P, pool, entries, k + 1, n);
  }

  /** After turn k, the weight recorded for container k never changes. */
  lemma {:induction false} ContainerRunKeepsWeight(at: AttemptFn, pool: seq<Instance>,
                                                   entries: seq<UnplacedEntry>, n: nat, k: nat)
    requires k < n
    ensures |ContainerRun(at, pool, entries, n).weights| == n
    ensures |ContainerRun(at, pool, entries, k + 1).weights| == k + 1
    ensures ContainerRun(at, pool, entries, n).weights[k] == ContainerRun(at, pool, entries, k + 1).weights[k]
  {
    ContainerRunWeights(at, pool, entries, n);
    ContainerRunWeights(at, pool, entries, k + 1);
    if n > k + 1 {
      ContainerRunKeepsWeight(at, pool, entries, n - 1, k);
      ContainerRunWeights(at, pool, entries, n - 1);
    }
  }

  /** The turn of container n records exactly what its attempt committed. */
  lemma ContainerStepNew(at: AttemptFn, c: Container, n: nat, st: RunState)
    requires AttemptsTagged(at) && AttemptsValid(c, at)
    requires RunShape(n, st)
    ensures n < |ContainerStep(at, st, n).weights|
    ensures ContainerOk(c, InContainer(ContainerStep(at, st, n).packed, n), ContainerStep(at, st, n).weights[n])
  {
    InContainerEmpty(st.packed, n);
    var r := ContainerStep(at, st, n);
    if |st.pool| > 0 {
      var a := at(n, st.pool);
      assert r.packed == st.packed + a.placed && r.weights[n] == a.weight;
      InContainerAppend(st.packed, a.placed, n);
      InContainerUniform(a.placed, n, n);
      assert [] + a.placed == a.placed;
      assert InContainer(r.packed, n) == a.placed;
      assert ContainerOk(c, a.placed, a.weight);
    } else {
      assert r.packed == st.packed && r.weights[n] == 0.0;
    }
  }

  /** The turn of container k leaves it as its attempt made it. */
  lemma ContainerRunNew(at: AttemptFn, c: Container, pool: seq<Instance>, entries: seq<UnplacedEntry>, k: nat)
    requires AttemptsTagged(at) && AttemptsValid(c, at)
    ensures k < |ContainerRun(at, pool, entries, k + 1).weights|
    ensures ContainerOk(c, InContainer(ContainerRun(at, pool, entries, k + 1).packed, k), ContainerRun(at, pool, entries, k + 1).weights[k])
  {
    ContainerRunShape(at, pool, entries, k);
    ContainerStepNew(at, c, k, ContainerRun(at, pool, entries, k));
  }

  /** Each container the loop attempted holds a valid packing whose total weight is
      the recorded one, within the payload limit once a unit is in. */
  lemma ContainerRunValidAt(at: AttemptFn, c: Container, pool: seq<Instance>,
                            entries: seq<UnplacedEntry>, n: nat, k: nat)
    requires AttemptsTagged(at) && AttemptsValid(c, at)
    requires k < n
    ensures |ContainerRun(at, pool, entries, n).weights| == n
    ensures ContainerOk(c, InContainer(ContainerRun(at, pool, entries, n).packed, k), ContainerRun(at, pool, entries, n).weights[k])
  {
    ContainerRunKeepsEarlier(at, pool, entries, n, k);
    ContainerRunKeepsWeight(at, pool, entries, n, k);
    ContainerRunNew(at, c, pool, entries, k);
  }

  /** The pool only loses units, and every committed unit came from the starting
      pool. */
  predicate PoolFrom(pool0: seq<Instance>, st: RunState)
  {
    (forall x :: x in st.pool ==> x in pool0) &&
    forall i :: 0 <= i < |st.packed| ==> st.packed[i].inst in pool0
  }

  /** The pool never holds a unit whose id was committed. */
  predicate PoolFresh(st: RunState)
  {
    forall x :: x in st.pool ==> x.instanceId !in Ids(st.packed)
  }

  /** Two units committed to different containers never share an id. */
  predicate DistinctAcross(ps: seq<Placement>)
  {
    forall i, j :: 0 <= i < j < |ps| && ps[i].containerId != ps[j].containerId ==>
      ps[i].inst.instanceId != ps[j].inst.instanceId
  }

  lemma IdsAppend(a: seq<Placement>, b: seq<Placement>)
    ensures Ids(a + b) == Ids(a) + Ids(b)
  {
  }

  lemma ContainerStepPoolFrom(at: AttemptFn, pool0: seq<Instance>, st: RunState, n: nat)
    requires AttemptsFromPool(at)
    requires PoolFrom(pool0, st)
    ensures PoolFrom(pool0, ContainerStep(at, st, n))
  {
    if |st.pool| > 0 {
      var a := at(n, st.pool);
      RemovePackedSpec(st.pool, Ids(a.placed));
      var r := ContainerStep(at, st, n);
      var m := |st.packed|;
      assert forall i :: m <= i < |r.packed| ==> r.packed[i] == a.placed[i - m];
    }
  }

  lemma ContainerStepFresh(at: AttemptFn, st: RunState, n: nat)
    requires PoolFresh(st)
    ensures PoolFresh(ContainerStep(at, st, n))
  {
    if |st.pool| > 0 {
      RemovePackedSpec(st.pool, Ids(at(n, st.pool).placed));
      IdsAppend(st.packed, at(n, st.pool).placed);
    }
  }

  /** Appending units of one new container, drawn from a pool that holds no
      committed id, keeps ids apart across containers. */
  lemma AppendDistinctAcross(ps: seq<Placement>, pool: seq<Instance>, more: seq<Placement>, n: nat)
    requires DistinctAcross(ps)
    requires forall x :: x in pool ==> x.instanceId !in Ids(ps)
    requires forall i :: 0 <= i < |more| ==> more[i].containerId == n && more[i].inst in pool
    ensures DistinctAcross(ps + more)
  {
    var r := ps + more;
    var m := |ps|;
    forall i, j | 0 <= i < j < |r| && r[i].containerId != r[j].containerId
      ensures r[i].inst.instanceId != r[j].inst.instanceId
    {
      if j >= m && i < m {
        assert r[j] == more[j - m];
        assert r[i] == ps[i];
        assert ps[i].inst.instanceId in Ids(ps);
      }
    }
  }

  lemma ContainerStepDistinct(at: AttemptFn, st: RunState, n: nat)
    requires AttemptsTagged(at) && AttemptsFromPool(at)
    requires PoolFresh(st) && DistinctAcross(st.packed)
    ensures DistinctAcross(ContainerStep(at, st, n).packed)
  {
    if |st.pool| > 0 {
      AppendDistinctAcross(st.packed, st.pool, at(n, st.pool).placed, n);
    }
  }

  /** The pool of the loop only loses units, and every committed unit came from the
      starting pool. */
  lemma {:induction false} ContainerRunPoolFrom(at: AttemptFn, pool: seq<Instance>, entries: seq<UnplacedEntry>, n: nat)
    requires AttemptsFromPool(at)
    ensures PoolFrom(pool, ContainerRun(at, pool, entries, n))
  {
    if n > 0 {
      ContainerRunPoolFrom(at, pool, entries, n - 1);
      ContainerStepPoolFrom(at, pool, ContainerRun(at, pool, entries, n - 1), n - 1);
    }
  }

  /** The pool of the loop never holds a unit whose id was committed. */
  lemma {:induction false} ContainerRunFresh(at: AttemptFn, pool: seq<Instance>, entries: seq<UnplacedEntry>, n: nat)
    ensures PoolFresh(ContainerRun(at, pool, entries, n))
  {
    if n > 0 {
      ContainerRunFresh(at, pool, entries, n - 1);
      ContainerStepFresh(at, ContainerRun(at, pool, entries, n - 1), n - 1);
    }
  }

  /** Induction over the container loop: a property of the loop state that holds
      after turn m and that every later turn keeps holds after any later turn. */
  lemma {:induction false} ContainerRunKeeps(at: AttemptFn, P: RunState -> bool, pool: seq<Instance>,
                                             entries: seq<UnplacedEntry>, m: nat, n: nat)
    requires m <= n
    requires P(ContainerRun(at, pool, entries, m))
    requires forall st: RunState, j: nat :: m <= j && P(st) ==> P(ContainerStep(at, st, j))
    ensures P(ContainerRun(at, pool, entries, n))
  {
    if n > m {
      ContainerRunKeeps(at, P, pool, entries, m, n - 1);
    }
  }

  /** No id is committed to two containers. */
  lemma ContainerRunDistinct(at: AttemptFn, pool: seq<Instance>, entries: seq<UnplacedEntry>, n: nat)
    requires AttemptsTagged(at) && AttemptsFromPool(at)
    ensures DistinctAcross(ContainerRun(at, pool, entries, n).packed)
  {
    var P := (st: RunState) => PoolFresh(st) && DistinctAcross(st.packed);
    forall st: RunState, k: nat | P(st)
      ensures P(ContainerStep(at, st, k))
    {
      ContainerStepFresh(at, st, k);
      ContainerStepDistinct(at, st, k);
    }
    ContainerRunKeeps(at, P, pool, entries, 0, n);
  }

  /** One turn of the container loop, on fresh `placed` flags for the pool. */
  method ContainerTurn(alg: Strategy, c: Container, k: nat, st: RunState) returns (r: RunState)
    ensures r == ContainerStep(AttemptBy(alg, c), st, k)
  {
    if |st.pool| == 0 {
      r := st.(weights := st.weights + [0.0]);
    } else {
      var flags := new bool[|st.pool|](_ => false);
      assert flags[..] == AllFalse(|st.pool|);
      var placed, report, w := PackContainer(alg, c, k, st.pool, flags);
      r := RunState(RemovePacked(st.pool, Ids(placed)), st.packed + placed, st.weights + [w], st.entries + report);
    }
  }

  /** The container loop. */
  method RunContainers(alg: Strategy, c: Container, pool0: seq<Instance>, entries0: seq<UnplacedEntry>, n: nat)
    returns (r: RunState)
    ensures r == ContainerRun(AttemptBy(alg, c), pool0, entries0, n)
  {
    r := RunState(pool0, [], [], entries0);
    for k := 0 to n
      invariant r == ContainerRun(AttemptBy(alg, c), pool0, entries0, k)
    {
      r := ContainerTurn(alg, c, k, r);
    }
  }

  // ---------------------------------------------------------------------------
  // The whole optimisation

  const NotPackedReason := "Not packed in any available container."
  const BadContainerError := "Valid positive container dimensions required."
  const NoItemsError := "Add items before generating 3D preview."

  /** One entry per unit left over after the last container. */
  function Leftovers(pool: seq<Instance>): seq<UnplacedEntry>
  {
    seq(|pool|, i requires 0 <= i < |pool| => UnplacedEntry(pool[i].item.name, 1, NotPackedReason))
  }

  datatype PackingResult = PackingResult(packed: seq<Placement>, weights: seq<real>, totalWeight: real,
                                         unplaced: seq<UnplacedEntry>)

  /** The message shown when the packing run throws. */
  function PackingError(alg: Strategy): string
  {
    "Error during " + (if alg == BestFit then "Best Fit Decreasing (BFD)" else "First Fit Decreasing (FFD)")
    + " packing. Check console."
  }

  /** The report entries handed to the consolidation: the pre-filter's drops, the
      entries of every container attempt, then one per leftover unit. */
  function PipelineEntries(alg: Strategy, c: Container, items: seq<Item>, n: nat): seq<UnplacedEntry>
  {
    var f := PreFilter(Expand(items), c);
    var run := ContainerRun(AttemptBy(alg, c), f.kept, Values(f.rows), n);
    run.entries + Leftovers(run.pool)
  }

  /** The packing pipeline on valid input, when its consolidation completes. */
  function Pipeline(alg: Strategy, c: Container, items: seq<Item>, n: nat): PackingResult
  {
    var f := PreFilter(Expand(items), c);
    var run := ContainerRun(AttemptBy(alg, c), f.kept, Values(f.rows), n);
    PackingResult(run.packed, run.weights, Sum(run.weights), Consolidate(PipelineEntries(alg, c, items, n)))
  }

  function Optimize(alg: Strategy, c: Container, items: seq<Item>, n: nat): Result<PackingResult, string>
  {
    if c.length <= 0.0 || c.width <= 0.0 || c.height <= 0.0 then Err(BadContainerError)
    else if items == [] then Err(NoItemsError)
    else if ConsolidationThrows(PipelineEntries(alg, c, items, n)) then Err(PackingError(alg))
    else Ok(Pipeline(alg, c, items, n))
  }

  /** The run fails in exactly three ways: a non-positive container dimension, an
      empty item list, or an unplaced unit whose item name is inherited from
      `Object.prototype`. A run that completes reports no such name. */
  lemma OptimizeOutcome(alg: Strategy, c: Container, items: seq<Item>, n: nat)
    ensures var r := Optimize(alg, c, items, n);
      (r == Err(BadContainerError) <==> c.length <= 0.0 || c.width <= 0.0 || c.height <= 0.0) &&
      (r == Err(NoItemsError) <==> 0.0 < c.length && 0.0 < c.width && 0.0 < c.height && items == []) &&
      (r == Err(PackingError(alg)) <==>
         0.0 < c.length && 0.0 < c.width && 0.0 < c.height && items != [] &&
         exists name :: name in NamesOf(PipelineEntries(alg, c, items, n)) && InheritedName(name)) &&
      (r.Ok? ==> forall name :: name in NamesOf(r.value.unplaced) ==> !InheritedName(name))
  {
    var all := PipelineEntries(alg, c, items, n);
    ThrowsOnName(all);
    if Optimize(alg, c, items, n).Ok? {
      ConsolidateSpec(all);
      DedupSameElements(NamesOf(all));
    }
  }

  /** Every committed unit fits the container in some permitted orientation: the
      pre-filter's drops never enter an attempt. */
  lemma PackedUnitsFit(alg: Strategy, c: Container, items: seq<Item>, n: nat)
    ensures var r := Pipeline(alg, c, items, n);
      forall i :: 0 <= i < |r.packed| ==>
        r.packed[i].inst in Expand(items) && FitsSomeOrientation(r.packed[i].inst.item, c)
  {
    var f := PreFilter(Expand(items), c);
    StrategiesAreGood(alg, c);
    ContainerRunPoolFrom(AttemptBy(alg, c), f.kept, Values(f.rows), n);
    PreFilterKeeps(Expand(items), c);
  }

  /** One weight per container and the total is their sum; each container's units
      pass the validator in commit order and weigh what is recorded for it, within
      the payload limit once a unit is in; and no id is committed to two
      containers. */
  lemma PipelineContainers(alg: Strategy, c: Container, items: seq<Item>, n: nat)
    ensures var r := Pipeline(alg, c, items, n);
      |r.weights| == n && r.totalWeight == Sum(r.weights) &&
      (forall k :: 0 <= k < n ==> ContainerOk(c, InContainer(r.packed, k), r.weights[k])) &&
      DistinctAcross(r.packed)
  {
    var f := PreFilter(Expand(items), c);
    var at := AttemptBy(alg, c);
    StrategiesAreGood(alg, c);
    ContainerRunShape(at, f.kept, Values(f.rows), n);
    forall k | 0 <= k < n
      ensures ContainerOk(c, InContainer(ContainerRun(at, f.kept, Values(f.rows), n).packed, k),
                          ContainerRun(at, f.kept, Values(f.rows), n).weights[k])
    {
      ContainerRunValidAt(at, c, f.kept, Values(f.rows), n, k);
    }
    ContainerRunDistinct(at, f.kept, Values(f.rows), n);
  }

  /** A leftover entry names its unit's item. */
  lemma LeftoverNames(entries: seq<UnplacedEntry>, pool: seq<Instance>)
    ensures forall x :: x in pool ==> x.item.name in NamesOf(entries + Leftovers(pool))
  {
    forall x | x in pool ensures x.item.name in NamesOf(entries + Leftovers(pool)) {
      var i :| 0 <= i < |pool| && pool[i] == x;
      assert NamesOf(entries + Leftovers(pool))[|entries| + i] == x.item.name;
    }
  }

  /** The final report names each unplaced item once: exactly the names of the
      pre-filter's drops, of the units a container attempt could not commit and of
      the units left over, in first-seen order, with quantities summed. */
  lemma PipelineReport(alg: Strategy, c: Container, items: seq<Item>, n: nat)
    ensures var f := PreFilter(Expand(items), c);
      var run := ContainerRun(AttemptBy(alg, c), f.kept, Values(f.rows), n);
      var all := run.entries + Leftovers(run.pool);
      var r := Pipeline(alg, c, items, n);
      (forall x :: x in run.pool ==> x.item.name in NamesOf(r.unplaced)) &&
      NamesOf(r.unplaced) == Dedup(NamesOf(all)) &&
      TotalQuantity(r.unplaced) == TotalQuantity(all)
  {
    var f := PreFilter(Expand(items), c);
    var run := ContainerRun(AttemptBy(alg, c), f.kept, Values(f.rows), n);
    var all := run.entries + Leftovers(run.pool);
    ConsolidateSpec(all);
    ConsolidateKeepsTotal(all);
    DedupSameElements(NamesOf(all));
    LeftoverNames(run.entries, run.pool);
  }

  /** Adds a leftover entry for every unit still in the pool. */
  method ReportLeftovers(pool: seq<Instance>, entries: seq<UnplacedEntry>) returns (r: seq<UnplacedEntry>)
    ensures r == entries + Leftovers(pool)
  {
    r := entries;
    for i := 0 to |pool|
      invariant r == entries + Leftovers(pool[..i])
    {
      assert Leftovers(pool[..i + 1]) == Leftovers(pool[..i]) + [UnplacedEntry(pool[i].item.name, 1, NotPackedReason)];
      r := r + [UnplacedEntry(pool[i].item.name, 1, NotPackedReason)];
    }
    assert pool[..|pool|] == pool;
  }

  /** `weightsPerContainerResult.reduce((sum, w) => sum + w, 0)`. */
  method TotalWeight(weights: seq<real>) returns (total: real)
    ensures total == Sum(weights)
  {
    total := 0.0;
    for k := 0 to |weights|
      invariant total == Sum(weights[..k])
    {
      assert weights[..k + 1][..k] == weights[..k];
      total := total + weights[k];
    }
    assert weights[..|weights|] == weights;
  }

  /** `handleOptimizeLoad` from the container checks to the consolidated report. */
  method OptimizeLoad(alg: Strategy, c: Container, items: seq<Item>, n: nat)
    returns (r: Result<PackingResult, string>)
    ensures r == Optimize(alg, c, items, n)
  {
    if c.length <= 0.0 || c.width <= 0.0 || c.height <= 0.0 {
      return Err(BadContainerError);
    }
    if |items| == 0 {
      return Err(NoItemsError);
    }
    var pool, rows := ExpandAndFilter(items, c);
    var run := RunContainers(alg, c, pool, Values(rows), n);
    var entries := ReportLeftovers(run.pool, run.entries);
    var report := ConsolidateReport(entries);
    if report.None? {
      return Err(PackingError(alg));
    }
    var total := TotalWeight(run.weights);
    return Ok(PackingResult(run.packed, run.weights, total, report.value));
  }
}
