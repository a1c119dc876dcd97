/** One container attempt of either greedy strategy (`packItemsFFDAlgorithm`,
    `packItemsBFDAlgorithm`): the units are sorted by nominal volume, largest first,
    then each unit not yet marked placed is searched for a pair (orientation,
    anchor); a found pair is committed, otherwise the unit is reported under its own
    key with the reason it could not go in. */
module Packing {
  import opened Util
  import opened Geometry
  import opened Layout
  import opened Validity
  import opened Anchors
  import opened Search
  import opened Report

  // ---------------------------------------------------------------------------
  // The sort

  /** The comparator: a larger nominal volume first, then a larger largest
      dimension (tolerance taken to its limit). */
  predicate Before(a: Item, b: Item)
  {
    Volume(a) > Volume(b) || (Volume(a) == Volume(b) && MaxDimension(a) > MaxDimension(b))
  }

  /** The order the stable sort leaves positions i and j of its input in: by the
      comparator, and by position where the comparator sees no difference. */
  predicate Precedes(input: seq<Instance>, i: nat, j: nat)
  {
    i < |input| && j < |input| &&
    (Before(input[i].item, input[j].item) || (!Before(input[j].item, input[i].item) && i < j))
  }

  /** A list of input positions in sorted order. */
  predicate Ordered(input: seq<Instance>, o: seq<nat>)
  {
    forall a, b :: 0 <= a < b < |o| ==> Precedes(input, o[a], o[b])
  }

  /** Inserts position x before the first listed position that x strictly
      precedes by the comparator. */
  function InsertIndex(input: seq<Instance>, o: seq<nat>, x: nat): (r: seq<nat>)
    requires x < |input| && forall a :: 0 <= a < |o| ==> o[a] < |input|
    ensures |r| == |o| + 1
    ensures forall y :: y in r <==> y in o || y == x
  {
    if o == [] then [x]
    else if Before(input[x].item, input[o[0]].item) then [x] + o
    else
      assert o == [o[0]] + o[1..];
      [o[0]] + InsertIndex(input, o[1..], x)
  }

  /** `[...input].sort(comparator)` on the first n units, as the list of their
      positions (JavaScript's sort is stable). */
  function SortOrder(input: seq<Instance>, n: nat): (o: seq<nat>)
    requires n <= |input|
    ensures forall a :: 0 <= a < |o| ==> o[a] < n
  {
    if n == 0 then []
    else
      var prev := SortOrder(input, n - 1);
      var r := InsertIndex(input, prev, n - 1);
      assert forall a :: 0 <= a < |r| ==> r[a] in r;
      r
  }

  /** The comparator is a strict weak order: a unit strictly before b is strictly
      before every unit that b is not strictly after. */
  lemma BeforeMixed(a: Item, b: Item, c: Item)
    requires Before(a, b) && !Before(c, b)
    ensures Before(a, c)
  {
  }

  lemma {:induction false} InsertIndexOrdered(input: seq<Instance>, o: seq<nat>, x: nat)
    requires x < |input| && forall a :: 0 <= a < |o| ==> o[a] < x
    requires Ordered(input, o)
    ensures Ordered(input, InsertIndex(input, o, x))
  {
    if o != [] {
      var r := InsertIndex(input, o, x);
      if Before(input[x].item, input[o[0]].item) {
        forall b | 0 <= b < |o| ensures Precedes(input, x, o[b]) {
          if b > 0 {
            assert Precedes(input, o[0], o[b]);
            if !Before(input[o[0]].item, input[o[b]].item) {
              BeforeMixed(input[x].item, input[o[0]].item, input[o[b]].item);
            }
          }
        }
        forall a, b | 0 <= a < b < |r| ensures Precedes(input, r[a], r[b]) {
          if a > 0 {
            assert r[a] == o[a - 1] && r[b] == o[b - 1];
          } else {
            assert r[b] == o[b - 1];
          }
        }
      } else {
        var t := InsertIndex(input, o[1..], x);
        InsertIndexOrdered(input, o[1..], x);
        forall y | y in t ensures Precedes(input, o[0], y) {
          if y != x {
            var b :| 0 <= b < |o[1..]| && o[1..][b] == y;
            assert o[b + 1] == y;
          }
        }
        forall a, b | 0 <= a < b < |r| ensures Precedes(input, r[a], r[b]) {
          if a == 0 {
            assert r[b] == t[b - 1];
            assert t[b - 1] in t;
          } else {
            assert r[a] == t[a - 1] && r[b] == t[b - 1];
          }
        }
      }
    }
  }

  /** The sort lists every position exactly once, by decreasing volume, then by
      decreasing largest dimension, and keeps the input order between units the
      comparator does not tell apart. */
  lemma {:induction false} SortOrderSpec(input: seq<Instance>, n: nat)
    requires n <= |input|
    ensures |SortOrder(input, n)| == n
    ensures forall y: nat :: y in SortOrder(input, n) <==> y < n
    ensures Distinct(SortOrder(input, n))
    ensures var o := SortOrder(input, n);
      forall a, b :: 0 <= a < b < n ==>
        !Before(input[o[b]].item, input[o[a]].item) &&
        (Before(input[o[a]].item, input[o[b]].item) || o[a] < o[b])
  {
    if n > 0 {
      SortOrderSpec(input, n - 1);
    }
    SortOrderOrdered(input, n);
    var o := SortOrder(input, n);
    forall a, b | 0 <= a < b < |o| ensures o[a] != o[b] {
      assert Precedes(input, o[a], o[b]);
    }
  }

  lemma {:induction false} SortOrderOrdered(input: seq<Instance>, n: nat)
    requires n <= |input|
    ensures Ordered(input, SortOrder(input, n))
  {
    if n > 0 {
      SortOrderOrdered(input, n - 1);
      InsertIndexOrdered(input, SortOrder(input, n - 1), n - 1);
    }
  }

  // ---------------------------------------------------------------------------
  // Commits and reports

  /** `allItemsToPackInput.find(i => i.instanceId === id)`. */
  function FirstIndexWithId(input: seq<Instance>, id: string): (r: Option<nat>)
    ensures r.Some? ==> r.value < |input| && input[r.value].instanceId == id
    ensures r.Some? ==> forall j :: 0 <= j < r.value ==> input[j].instanceId != id
    ensures r.None? ==> forall j :: 0 <= j < |input| ==> input[j].instanceId != id
  {
    if input == [] then None
    else if input[0].instanceId == id then Some(0)
    else match FirstIndexWithId(input[1..], id)
      case Some(i) => Some(i + 1)
      case None => None
  }

  /** Marks as placed the first input unit with the committed unit's id. */
  function MarkPlaced(flags: seq<bool>, input: seq<Instance>, id: string): seq<bool>
    requires |flags| == |input|
  {
    match FirstIndexWithId(input, id)
    case Some(i) => flags[i := true]
    case None => flags
  }

  function Tag(alg: Strategy): string
  {
    match alg
    case FirstFit => "FFD"
    case BestFit => "BFD"
  }

  function LowerTag(alg: Strategy): string
  {
    match alg
    case FirstFit => "ffd"
    case BestFit => "bfd"
  }

  const WeightReason := "Exceeds weight limit (Cont. "
  const SpaceReason := "No suitable space/orientation (Cont. "

  /** The reason written for a unit the strategy could not commit in container k
      (counted from 0, shown from 1). */
  function ReasonFor(alg: Strategy, overweight: bool, k: nat): string
  {
    (if overweight then WeightReason else SpaceReason) + NatToString(k + 1) + " - " + Tag(alg) + ")."
  }

  predicate IsWeightReason(r: string)
  {
    |WeightReason| <= |r| && r[..|WeightReason|] == WeightReason
  }

  /** The weight reason is given exactly when the payload would be exceeded. */
  lemma ReasonForSpec(alg: Strategy, overweight: bool, k: nat)
    ensures IsWeightReason(ReasonFor(alg, overweight, k)) <==> overweight
  {
    var r := ReasonFor(alg, overweight, k);
    if overweight {
      assert r[..|WeightReason|] == WeightReason;
    } else {
      assert r[..|SpaceReason|] == SpaceReason;
      assert r[4] != WeightReason[4];
    }
  }

  /** The report key of a unit in container k. */
  function UnplacedKey(alg: Strategy, inst: Instance, k: nat): string
  {
    inst.item.id + "_" + inst.instanceId + "_" + LowerTag(alg) + "_unplaced_cont" + NatToString(k)
  }

  /** The state of one container attempt: the caller's `placed` flags, the units
      committed so far, the report map and the running weight. */
  datatype PackState = PackState(flags: seq<bool>, placed: seq<Placement>, rows: seq<Row>, weight: real)

  /** Whether the unit at input position idx is committed by this step. */
  predicate Commits(alg: Strategy, c: Container, input: seq<Instance>, st: PackState, idx: nat)
    requires idx < |input| && |st.flags| == |input|
  {
    !st.flags[idx] && Search.Search(alg, c, st.placed, st.weight, input[idx].item).Some?
  }

  /** One iteration of the strategy's outer loop, on the unit at input position idx. */
  function PackStep(alg: Strategy, c: Container, k: nat, input: seq<Instance>, st: PackState, idx: nat): (r: PackState)
    requires idx < |input| && |st.flags| == |input|
    ensures |r.flags| == |input|
  {
    if st.flags[idx] then st
    else
      var inst := input[idx];
      match Search.Search(alg, c, st.placed, st.weight, inst.item)
      case Some(ch) =>
        PackState(MarkPlaced(st.flags, input, inst.instanceId),
          st.placed + [Placement(inst, ch.rotation, ch.dims, ch.anchor, k)],
          st.rows, st.weight + inst.item.weight)
      case None =>
        var reason := ReasonFor(alg, !WithinPayload(c, st.weight, inst.item), k);
        PackState(st.flags, st.placed, Upsert(st.rows, UnplacedKey(alg, inst, k), inst.item.name, reason), st.weight)
  }

  predicate Positions(input: seq<Instance>, order: seq<nat>)
  {
    forall a :: 0 <= a < |order| ==> order[a] < |input|
  }

  /** The outer loop over the positions in order, from the caller's flags. */
  function PackRun(alg: Strategy, c: Container, k: nat, input: seq<Instance>, flags: seq<bool>, order: seq<nat>): (r: PackState)
    requires |flags| == |input| && Positions(input, order)
    ensures |r.flags| == |input|
  {
    if order == [] then PackState(flags, [], [], 0.0)
    else PackStep(alg, c, k, input, PackRun(alg, c, k, input, flags, order[..|order| - 1]), order[|order| - 1])
  }

  /** The input positions committed by the loop, in commit order. */
  function Committed(alg: Strategy, c: Container, k: nat, input: seq<Instance>, flags: seq<bool>, order: seq<nat>): seq<nat>
    requires |flags| == |input| && Positions(input, order)
  {
    if order == [] then []
    else
      var init := order[..|order| - 1];
      var idx := order[|order| - 1];
      Committed(alg, c, k, input, flags, init) +
        (if Commits(alg, c, input, PackRun(alg, c, k, input, flags, init), idx) then [idx] else [])
  }

  function SumWeights(ps: seq<Placement>): real
  {
    if ps == [] then 0.0 else SumWeights(ps[..|ps| - 1]) + Weight(ps[|ps| - 1])
  }

  /** What a container attempt keeps true after every step: the units satisfy the
      validator in commit order, each records its own effective dimensions and this
      container, the running weight is their total weight, and once a unit is in the
      total is within the payload limit. */
  predicate PackInvariant(c: Container, k: nat, st: PackState)
  {
    ValidPacking(c, st.placed) &&
    (forall i :: 0 <= i < |st.placed| ==> WellFormed(st.placed[i]) && st.placed[i].containerId == k) &&
    st.weight == SumWeights(st.placed) &&
    (st.placed == [] || st.weight <= c.maxPayloadKg)
  }

  /** Committing a unit the validator accepts, within the payload limit, keeps the
      invariant. */
  lemma CommitKeepsInvariant(c: Container, k: nat, st: PackState, p: Placement, flags: seq<bool>)
    requires PackInvariant(c, k, st)
    requires CheckPlacementValidity(c, p.dims, p.base, st.placed)
    requires WellFormed(p) && p.containerId == k
    requires st.weight + Weight(p) <= c.maxPayloadKg
    ensures PackInvariant(c, k, PackState(flags, st.placed + [p], st.rows, st.weight + Weight(p)))
  {
    ValidPackingSnoc(c, st.placed, p);
    assert (st.placed + [p])[..|st.placed|] == st.placed;
  }

  /** A pair the search returns gives a placement the validator accepts, that
      records its own effective dimensions and that keeps the payload within the
      limit. */
  lemma SearchedPlacementValid(alg: Strategy, c: Container, k: nat, st: PackState, inst: Instance)
    requires Search.Search(alg, c, st.placed, st.weight, inst.item).Some?
    ensures var ch := Search.Search(alg, c, st.placed, st.weight, inst.item).value;
      var p := Placement(inst, ch.rotation, ch.dims, ch.anchor, k);
      CheckPlacementValidity(c, p.dims, p.base, st.placed) && WellFormed(p) &&
      st.weight + Weight(p) <= c.maxPayloadKg
  {
    SearchSpec(alg, c, st.placed, st.weight, inst.item);
  }

  lemma PackStepKeepsInvariant(alg: Strategy, c: Container, k: nat, input: seq<Instance>, st: PackState, idx: nat)
    requires idx < |input| && |st.flags| == |input|
    requires PackInvariant(c, k, st)
    ensures PackInvariant(c, k, PackStep(alg, c, k, input, st, idx))
  {
    if Commits(alg, c, input, st, idx) {
      var inst := input[idx];
      var ch := Search.Search(alg, c, st.placed, st.weight, inst.item).value;
      var p := Placement(inst, ch.rotation, ch.dims, ch.anchor, k);
      SearchedPlacementValid(alg, c, k, st, inst);
      CommitKeepsInvariant(c, k, st, p, MarkPlaced(st.flags, input, inst.instanceId));
    } else {
      PackStepGrows(alg, c, k, input, st, idx);
      NoCommitKeepsWeight(alg, c, k, input, st, idx);
    }
  }

  lemma NoCommitKeepsWeight(alg: Strategy, c: Container, k: nat, input: seq<Instance>, st: PackState, idx: nat)
    requires idx < |input| && |st.flags| == |input|
    requires !Commits(alg, c, input, st, idx)
    ensures PackStep(alg, c, k, input, st, idx).weight == st.weight
  {
  }

  lemma {:induction false} PackRunInvariant(alg: Strategy, c: Container, k: nat, input: seq<Instance>, flags: seq<bool>, order: seq<nat>)
    requires |flags| == |input| && Positions(input, order)
    ensures PackInvariant(c, k, PackRun(alg, c, k, input, flags, order))
  {
    if order != [] {
      var init := order[..|order| - 1];
      PackRunInvariant(alg, c, k, input, flags, init);
      PackStepKeepsInvariant(alg, c, k, input, PackRun(alg, c, k, input, flags, init), order[|order| - 1]);
    }
  }

  /** A step either appends one unit to the container or leaves its contents alone,
      and it appends exactly when it commits. */
  lemma PackStepGrows(alg: Strategy, c: Container, k: nat, input: seq<Instance>, st: PackState, idx: nat)
    requires idx < |input| && |st.flags| == |input|
    ensures var r := PackStep(alg, c, k, input, st, idx);
      if Commits(alg, c, input, st, idx) then
        |r.placed| == |st.placed| + 1 && r.placed[..|st.placed|] == st.placed &&
        r.placed[|st.placed|].inst == input[idx] && r.placed[|st.placed|].containerId == k
      else r.placed == st.placed
  {
    var r := PackStep(alg, c, k, input, st, idx);
    if Commits(alg, c, input, st, idx) {
      assert r.placed[..|st.placed|] == st.placed;
    }
  }

  /** The committed positions and the container's units correspond one to one, in
      order, and every committed position was visited. */
  lemma {:induction false} CommittedMatchesPlaced(alg: Strategy, c: Container, k: nat, input: seq<Instance>, flags: seq<bool>, order: seq<nat>)
    requires |flags| == |input| && Positions(input, order)
    ensures var placed := PackRun(alg, c, k, input, flags, order).placed;
      var cm := Committed(alg, c, k, input, flags, order);
      |cm| == |placed| &&
      forall a :: 0 <= a < |cm| ==> cm[a] in order && cm[a] < |input| && placed[a].inst == input[cm[a]]
  {
    if order != [] {
      var init := order[..|order| - 1];
      var idx := order[|order| - 1];
      CommittedMatchesPlaced(alg, c, k, input, flags, init);
      var st := PackRun(alg, c, k, input, flags, init);
      PackStepGrows(alg, c, k, input, st, idx);
      var cm := Committed(alg, c, k, input, flags, order);
      var placed := PackRun(alg, c, k, input, flags, order).placed;
      forall a | 0 <= a < |cm|
        ensures cm[a] in order && cm[a] < |input| && placed[a].inst == input[cm[a]]
      {
        if a < |Committed(alg, c, k, input, flags, init)| {
          assert cm[a] == Committed(alg, c, k, input, flags, init)[a];
          assert placed[a] == st.placed[a];
          assert cm[a] in init;
        }
      }
    }
  }

  /** When the loop visits every position once, as it does over the sort's output,
      no input unit is committed twice. */
  lemma {:induction false} CommittedAtMostOnce(alg: Strategy, c: Container, k: nat, input: seq<Instance>, flags: seq<bool>, order: seq<nat>)
    requires |flags| == |input| && Positions(input, order)
    requires Distinct(order)
    ensures Distinct(Committed(alg, c, k, input, flags, order))
  {
    if order != [] {
      var init := order[..|order| - 1];
      var idx := order[|order| - 1];
      CommittedAtMostOnce(alg, c, k, input, flags, init);
      CommittedMatchesPlaced(alg, c, k, input, flags, init);
      var prev := Committed(alg, c, k, input, flags, init);
      assert idx !in init;
      assert idx !in prev;
    }
  }

  /** The container's contents only grow: the units after a prefix of the loop are
      a prefix of the final units. */
  lemma {:induction false} PlacedOnlyGrows(alg: Strategy, c: Container, k: nat, input: seq<Instance>, flags: seq<bool>, order: seq<nat>, j: nat)
    requires |flags| == |input| && Positions(input, order) && j <= |order|
    ensures var before := PackRun(alg, c, k, input, flags, order[..j]).placed;
      var after := PackRun(alg, c, k, input, flags, order).placed;
      |before| <= |after| && after[..|before|] == before
  {
    if j < |order| {
      var init := order[..|order| - 1];
      assert init[..j] == order[..j];
      PlacedOnlyGrows(alg, c, k, input, flags, init, j);
      PackStepGrows(alg, c, k, input, PackRun(alg, c, k, input, flags, init), order[|order| - 1]);
    } else {
      assert order[..j] == order;
    }
  }

  /** A unit the step does not commit is written to the report under its key,
      with count 1 and the weight reason exactly when the payload would be
      exceeded; the report's other keys keep their values. */
  lemma PackStepReports(alg: Strategy, c: Container, k: nat, input: seq<Instance>, st: PackState, idx: nat)
    requires idx < |input| && |st.flags| == |input|
    requires !st.flags[idx] && !Commits(alg, c, input, st, idx)
    ensures var r := PackStep(alg, c, k, input, st, idx);
      var key := UnplacedKey(alg, input[idx], k);
      Lookup(r.rows, key).Some? && Lookup(r.rows, key).value.count == 1 &&
      (IsWeightReason(Lookup(r.rows, key).value.reason) <==>
        st.weight + input[idx].item.weight > c.maxPayloadKg) &&
      forall other :: other != key ==> Lookup(r.rows, other) == Lookup(st.rows, other)
  {
    var inst := input[idx];
    var over := !WithinPayload(c, st.weight, inst.item);
    UpsertSpec(st.rows, UnplacedKey(alg, inst, k), inst.item.name, ReasonFor(alg, over, k));
    ReasonForSpec(alg, over, k);
  }

  /** A unit already marked placed is skipped: the step changes nothing. */
  lemma PackStepSkipsPlaced(alg: Strategy, c: Container, k: nat, input: seq<Instance>, st: PackState, idx: nat)
    requires idx < |input| && |st.flags| == |input|
    requires st.flags[idx]
    ensures PackStep(alg, c, k, input, st, idx) == st
  {
  }

  /** A commit marks the unit placed in the caller's flags (through the first
      input unit with its id) and touches no flag of a unit with another id. */
  lemma PackStepMarks(alg: Strategy, c: Container, k: nat, input: seq<Instance>, st: PackState, idx: nat)
    requires idx < |input| && |st.flags| == |input|
    requires Commits(alg, c, input, st, idx)
    ensures var r := PackStep(alg, c, k, input, st, idx);
      (exists i :: 0 <= i <= idx && input[i].instanceId == input[idx].instanceId && r.flags[i]) &&
      forall i :: 0 <= i < |input| && input[i].instanceId != input[idx].instanceId ==> r.flags[i] == st.flags[i]
  {
    var f := FirstIndexWithId(input, input[idx].instanceId);
    assert f.Some?;
    assert f.value <= idx;
  }

  // ---------------------------------------------------------------------------
  // The imperative attempt

  /** The body of the outer loop for the unit at input position idx: skip it when
      it is marked placed, otherwise search, then commit or report. */
  method PackUnit(alg: Strategy, c: Container, k: nat, input: seq<Instance>, flags: array<bool>, idx: nat,
                  placed: seq<Placement>, rows: seq<Row>, weight: real)
    returns (placed': seq<Placement>, rows': seq<Row>, weight': real)
    requires flags.Length == |input| && idx < |input|
    modifies flags
    ensures PackState(flags[..], placed', rows', weight') ==
      PackStep(alg, c, k, input, PackState(old(flags[..]), placed, rows, weight), idx)
  {
    placed', rows', weight' := placed, rows, weight;
    if !flags[idx] {
      var inst := input[idx];
      var found: Option<Choice>;
      if alg == FirstFit {
        found := FirstFitSearch(c, placed, weight, inst.item);
      } else {
        found := BestFitSearch(c, placed, weight, inst.item);
      }
      if found.Some? {
        var ch := found.value;
        placed' := placed + [Placement(inst, ch.rotation, ch.dims, ch.anchor, k)];
        weight' := weight + inst.item.weight;
        var original := FirstIndexWithId(input, inst.instanceId);
        if original.Some? {
          flags[original.value] := true;
        }
      } else {
        var reason := ReasonFor(alg, weight + inst.item.weight > c.maxPayloadKg, k);
        rows' := Upsert(rows, UnplacedKey(alg, inst, k), inst.item.name, reason);
      }
    }
  }

  /** One container attempt. `flags` are the `placed` fields of the caller's units,
      read when a unit's turn comes and set in place on a commit. */
  method PackContainer(alg: Strategy, c: Container, k: nat, input: seq<Instance>, flags: array<bool>)
    returns (placed: seq<Placement>, report: seq<UnplacedEntry>, weight: real)
    requires flags.Length == |input|
    modifies flags
    ensures var st := PackRun(alg, c, k, input, old(flags[..]), SortOrder(input, |input|));
      flags[..] == st.flags && placed == st.placed && report == Values(st.rows) && weight == st.weight
  {
    var order := SortOrder(input, |input|);
    ghost var flags0 := flags[..];
    var rows: seq<Row> := [];
    placed := [];
    weight := 0.0;
    for j := 0 to |order|
      invariant PackRun(alg, c, k, input, flags0, order[..j]) == PackState(flags[..], placed, rows, weight)
    {
      assert order[..j + 1][..j] == order[..j];
      placed, rows, weight := PackUnit(alg, c, k, input, flags, order[j], placed, rows, weight);
    }
    assert order[..|order|] == order;
    report := Values(rows);
  }
}
