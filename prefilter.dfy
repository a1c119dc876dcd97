/** Instance expansion and the dimensional pre-filter of `handleOptimizeLoad`: every
    item definition becomes `quantity` units with ids `<id>_instance_<i>`; a unit
    that fits the container in none of its permitted orientations is reported and
    never reaches a container attempt. */
module Prefilter {
  import opened Util
  import opened Geometry
  import opened Orientations
  import opened Layout
  import opened Validity
  import opened Search
  import opened Report

  function InstanceId(item: Item, i: nat): string
  {
    item.id + "_instance_" + NatToString(i)
  }

  /** How many times `for (let i = 0; i < item.quantity; i++)` runs. */
  function Count(item: Item): nat
  {
    if item.quantity < 0 then 0 else item.quantity
  }

  /** The units of one item definition, in loop order. */
  function Copies(item: Item): seq<Instance>
  {
    seq(Count(item), i requires 0 <= i < Count(item) => Instance(item, InstanceId(item, i)))
  }

  /** The units of all item definitions, item by item. */
  function Expand(items: seq<Item>): seq<Instance>
  {
    if items == [] then [] else Expand(items[..|items| - 1]) + Copies(items[|items| - 1])
  }

  /** Every unit belongs to a listed item and carries that item's id and its own
      number below the item's quantity. */
  lemma {:induction false} ExpandExactly(items: seq<Item>, x: Instance)
    ensures x in Expand(items) <==>
      exists a, i :: 0 <= a < |items| && 0 <= i < items[a].quantity &&
        x == Instance(items[a], InstanceId(items[a], i))
  {
    if items != [] {
      var init := items[..|items| - 1];
      var last := items[|items| - 1];
      ExpandExactly(init, x);
      if x in Copies(last) {
        var i :| 0 <= i < |Copies(last)| && Copies(last)[i] == x;
        assert 0 <= |items| - 1 < |items| && 0 <= i < items[|items| - 1].quantity &&
          x == Instance(items[|items| - 1], InstanceId(items[|items| - 1], i));
      }
      if exists a, i :: (0 <= a < |items| && 0 <= i < items[a].quantity &&
        x == Instance(items[a], InstanceId(items[a], i))) {
        var a, i :| 0 <= a < |items| && 0 <= i < items[a].quantity &&
          x == Instance(items[a], InstanceId(items[a], i));
        if a < |init| {
          assert init[a] == items[a];
        } else {
          assert Copies(last)[i] == x;
        }
      }
    }
  }

  /** The container's bounds, per axis, admit the dimensions. */
  predicate FitsIn(d: Dims, c: Container)
  {
    d.l <= c.length && d.w <= c.width && d.h <= c.height
  }

  predicate FitsSomeOrientation(item: Item, c: Container)
  {
    exists r :: r in GenerateOrientations(item) && FitsIn(EffectiveDimensions(item, r), c)
  }

  /** The orientation loop of the pre-filter, which stops at the first orientation
      that fits. */
  method CanFitDimensionally(item: Item, c: Container) returns (fits: bool)
    ensures fits <==> FitsSomeOrientation(item, c)
  {
    var os := GenerateOrientations(item);
    fits := false;
    var i := 0;
    while i < |os| && !fits
      invariant 0 <= i <= |os|
      invariant fits <==> exists j :: 0 <= j < i && FitsIn(EffectiveDimensions(item, os[j]), c)
    {
      var d := EffectiveDimensions(item, os[i]);
      if d.l <= c.length && d.w <= c.width && d.h <= c.height {
        fits := true;
      }
      i := i + 1;
    }
  }

  /** A unit the pre-filter drops can never be committed to any container: the
      validator only accepts boxes inside the container, so the search of either
      strategy finds nothing for it whatever the container already holds. */
  lemma OversizedNeverPlaced(alg: Strategy, c: Container, placed: seq<Placement>, current: real, item: Item)
    requires !FitsSomeOrientation(item, c)
    ensures Search.Search(alg, c, placed, current, item).None?
  {
    SearchSpec(alg, c, placed, current, item);
    if Search.Search(alg, c, placed, current, item).Some? {
      var ch := Search.Search(alg, c, placed, current, item).value;
      AcceptedBoxFitsContainer(c, ch.dims, ch.anchor, placed);
      assert FitsIn(EffectiveDimensions(item, ch.rotation), c);
    }
  }

  const OversizedReason := "Exceeds container dimensions in all orientations."

  function OversizedKey(x: Instance): string
  {
    x.item.id + "_" + x.instanceId + "_dim_oversized_prefilter"
  }

  /** The units kept for packing and the pre-filter's report map. */
  datatype Filtered = Filtered(kept: seq<Instance>, rows: seq<Row>)

  /** The pre-filter on one unit: keep it, or report it under its own key. */
  function FilterStep(f: Filtered, x: Instance, c: Container): Filtered
  {
    if FitsSomeOrientation(x.item, c) then Filtered(f.kept + [x], f.rows)
    else Filtered(f.kept, Upsert(f.rows, OversizedKey(x), x.item.name, OversizedReason))
  }

  /** The pre-filter over units in order, from a given state. */
  function FilterFrom(f: Filtered, insts: seq<Instance>, c: Container): Filtered
  {
    if insts == [] then f
    else FilterStep(FilterFrom(f, insts[..|insts| - 1], c), insts[|insts| - 1], c)
  }

  function PreFilter(insts: seq<Instance>, c: Container): Filtered
  {
    FilterFrom(Filtered([], []), insts, c)
  }

  lemma {:induction false} FilterFromAppend(f: Filtered, a: seq<Instance>, b: seq<Instance>, c: Container)
    ensures FilterFrom(f, a + b, c) == FilterFrom(FilterFrom(f, a, c), b, c)
  {
    if b == [] {
      assert a + b == a;
    } else {
      assert (a + b)[..|a + b| - 1] == a + b[..|b| - 1];
      FilterFromAppend(f, a, b[..|b| - 1], c);
    }
  }

  /** The pre-filter keeps exactly the units that fit in some orientation. */
  lemma {:induction false} PreFilterKeeps(insts: seq<Instance>, c: Container)
    ensures forall x :: x in PreFilter(insts, c).kept <==> x in insts && FitsSomeOrientation(x.item, c)
  {
    if insts != [] {
      PreFilterKeeps(insts[..|insts| - 1], c);
      assert insts == insts[..|insts| - 1] + [insts[|insts| - 1]];
    }
  }

  predicate ReportedOversized(rows: seq<Row>, key: string)
  {
    var t := Lookup(rows, key);
    t.Some? && t.value.count == 1 && t.value.reason == OversizedReason
  }

  /** A pre-filter step keeps every oversize report already written, and writes
      one for a unit that fits in no orientation. */
  lemma FilterStepReports(f: Filtered, x: Instance, c: Container, key: string)
    requires ReportedOversized(f.rows, key) || (key == OversizedKey(x) && !FitsSomeOrientation(x.item, c))
    ensures ReportedOversized(FilterStep(f, x, c).rows, key)
  {
    if !FitsSomeOrientation(x.item, c) {
      UpsertSpec(f.rows, OversizedKey(x), x.item.name, OversizedReason);
    }
  }

  /** Every unit that fits in no orientation is in the pre-filter's report, with
      count 1 and the oversize reason. */
  lemma {:induction false} PreFilterReports(insts: seq<Instance>, c: Container)
    ensures forall x :: x in insts && !FitsSomeOrientation(x.item, c) ==>
      ReportedOversized(PreFilter(insts, c).rows, OversizedKey(x))
  {
    if insts != [] {
      var init := insts[..|insts| - 1];
      var x := insts[|insts| - 1];
      PreFilterReports(init, c);
      var f := PreFilter(init, c);
      assert insts == init + [x];
      forall y | y in insts && !FitsSomeOrientation(y.item, c)
        ensures ReportedOversized(FilterStep(f, x, c).rows, OversizedKey(y))
      {
        FilterStepReports(f, x, c, OversizedKey(y));
      }
    }
  }

  /** The quantity loop for one item definition, building each unit and passing it
      through the pre-filter. */
  method ExpandItem(item: Item, c: Container, pool: seq<Instance>, rows: seq<Row>)
    returns (pool': seq<Instance>, rows': seq<Row>)
    ensures Filtered(pool', rows') == FilterFrom(Filtered(pool, rows), Copies(item), c)
  {
    pool', rows' := pool, rows;
    var i: nat := 0;
    while i < item.quantity
      invariant i <= Count(item)
      invariant Filtered(pool', rows') == FilterFrom(Filtered(pool, rows), Copies(item)[..i], c)
    {
      var x := Instance(item, InstanceId(item, i));
      assert Copies(item)[..i + 1][..i] == Copies(item)[..i];
      var fits := CanFitDimensionally(item, c);
      if fits {
        pool' := pool' + [x];
      } else {
        rows' := Upsert(rows', OversizedKey(x), x.item.name, OversizedReason);
      }
      i := i + 1;
    }
    assert Copies(item)[..i] == Copies(item);
  }

  /** The item loop of the expansion. */
  method ExpandAndFilter(items: seq<Item>, c: Container) returns (pool: seq<Instance>, rows: seq<Row>)
    ensures Filtered(pool, rows) == PreFilter(Expand(items), c)
  {
    pool, rows := [], [];
    for a := 0 to |items|
      invariant Filtered(pool, rows) == PreFilter(Expand(items[..a]), c)
    {
      assert items[..a + 1][..a] == items[..a];
      FilterFromAppend(Filtered([], []), Expand(items[..a]), Copies(items[a]), c);
      pool, rows := ExpandItem(items[a], c, pool, rows);
    }
    assert items[..|items|] == items;
  }
}
