/** The placement validator (`checkPlacementValidity`): container bounds, overlap
    with the units already in the container, and support from below. Tolerances are
    taken in the exact-arithmetic limit: a comparison with an epsilon margin becomes
    the strict comparison and an "equal within epsilon" test becomes equality. */
module Validity {
  import opened Geometry
  import opened Layout

  /** An axis-aligned box in local packing space. */
  datatype Box3 = Box3(minX: real, maxX: real, minY: real, maxY: real, minZ: real, maxZ: real)

  function BoxAt(base: Point, d: Dims): Box3
  {
    Box3(base.x, base.x + d.l, base.y, base.y + d.h, base.z, base.z + d.w)
  }

  function BoxOf(p: Placement): Box3
  {
    BoxAt(p.base, p.dims)
  }

  predicate InsideContainer(c: Container, b: Box3)
  {
    0.0 <= b.minX && b.maxX <= c.length &&
    0.0 <= b.minY && b.maxY <= c.height &&
    0.0 <= b.minZ && b.maxZ <= c.width
  }

  predicate OverlapX(a: Box3, b: Box3) { a.minX < b.maxX && a.maxX > b.minX }
  predicate OverlapY(a: Box3, b: Box3) { a.minY < b.maxY && a.maxY > b.minY }
  predicate OverlapZ(a: Box3, b: Box3) { a.minZ < b.maxZ && a.maxZ > b.minZ }

  /** Positive-volume intersection: the intervals overlap on all three axes. */
  predicate Overlaps(a: Box3, b: Box3)
  {
    OverlapX(a, b) && OverlapY(a, b) && OverlapZ(a, b)
  }

  predicate OverlapsSome(b: Box3, existing: seq<Placement>)
  {
    exists i :: 0 <= i < |existing| && Overlaps(b, BoxOf(existing[i]))
  }

  function Min(a: real, b: real): real { if a <= b then a else b }
  function Max(a: real, b: real): real { if a >= b then a else b }

  /** The candidate's base lies in the plane of the other box's top face. */
  predicate RestsOn(b: Box3, s: Box3)
  {
    b.minY == s.maxY
  }

  /** The x/z rectangles of the two boxes share a region of positive area. */
  predicate HasContactArea(b: Box3, s: Box3)
  {
    Min(b.maxX, s.maxX) - Max(b.minX, s.minX) > 0.0 &&
    Min(b.maxZ, s.maxZ) - Max(b.minZ, s.minZ) > 0.0
  }

  /** A non-stackable unit whose top face the candidate would partly cover. */
  predicate Blocks(b: Box3, p: Placement)
  {
    p.inst.item.nonStackable && RestsOn(b, BoxOf(p)) && OverlapX(b, BoxOf(p)) && OverlapZ(b, BoxOf(p))
  }

  /** A unit whose top face carries the candidate over a positive area. */
  predicate Supports(b: Box3, p: Placement)
  {
    RestsOn(b, BoxOf(p)) && HasContactArea(b, BoxOf(p))
  }

  datatype SupportVerdict = Supported | Blocked | Unsupported

  /** The support loop: units are visited in placement order; a blocking unit
      rejects at once, the first supporting unit ends the loop (`break`). */
  function SupportScan(b: Box3, existing: seq<Placement>): SupportVerdict
  {
    if existing == [] then Unsupported
    else if Blocks(b, existing[0]) then Blocked
    else if Supports(b, existing[0]) then Supported
    else SupportScan(b, existing[1..])
  }

  /** Declarative reading of the support loop: some unit supports the candidate and
      neither it nor any unit visited before it blocks. */
  predicate SupportedInOrder(b: Box3, existing: seq<Placement>)
  {
    exists i :: 0 <= i < |existing| && Supports(b, existing[i]) &&
      forall j :: 0 <= j <= i ==> !Blocks(b, existing[j])
  }

  lemma {:induction false} SupportScanExactly(b: Box3, existing: seq<Placement>)
    ensures SupportScan(b, existing) == Supported <==> SupportedInOrder(b, existing)
  {
    if existing != [] {
      SupportScanExactly(b, existing[1..]);
      if SupportedInOrder(b, existing) && !Blocks(b, existing[0]) && !Supports(b, existing[0]) {
        var i :| 0 <= i < |existing| && Supports(b, existing[i]) &&
          forall j :: 0 <= j <= i ==> !Blocks(b, existing[j]);
        assert i > 0;
        assert Supports(b, existing[1..][i - 1]);
        assert SupportedInOrder(b, existing[1..]);
      }
      if SupportedInOrder(b, existing[1..]) && !Blocks(b, existing[0]) {
        var i :| 0 <= i < |existing| - 1 && Supports(b, existing[1..][i]) &&
          forall j :: 0 <= j <= i ==> !Blocks(b, existing[1..][j]);
        assert forall j :: 0 <= j <= i + 1 ==> !Blocks(b, existing[j]) by {
          forall j | 0 <= j <= i + 1 ensures !Blocks(b, existing[j]) {
            if j > 0 { assert existing[j] == existing[1..][j - 1]; }
          }
        }
        assert Supports(b, existing[i + 1]);
      }
    }
  }

  /** Every rectangle of positive contact is also an overlap in x and z, so a
      non-stackable unit that would carry the candidate blocks it instead. */
  lemma NonStackableNeverSupports(b: Box3, p: Placement)
    requires Supports(b, p) && p.inst.item.nonStackable
    ensures Blocks(b, p)
  {
  }

  /** The validator. It returns false at the first failing check, in the source's
      order: bounds, overlap with any unit, then support for a base above the floor. */
  function CheckPlacementValidity(c: Container, d: Dims, base: Point, existing: seq<Placement>): (ok: bool)
    ensures ok ==> InsideContainer(c, BoxAt(base, d))
    ensures ok ==> forall i :: 0 <= i < |existing| ==> !Overlaps(BoxAt(base, d), BoxOf(existing[i]))
    ensures ok && base.y > 0.0 ==>
      exists i :: 0 <= i < |existing| && Supports(BoxAt(base, d), existing[i]) &&
        !existing[i].inst.item.nonStackable
  {
    var b := BoxAt(base, d);
    SupportScanExactly(b, existing);
    if !InsideContainer(c, b) then false
    else if OverlapsSome(b, existing) then false
    else if b.minY > 0.0 then SupportScan(b, existing) == Supported
    else true
  }

  /** The order dependence of the support loop, on a concrete case: a unit resting
      half on a stackable unit and half on a non-stackable one is accepted when the
      stackable unit was placed first and rejected when the non-stackable one was. */
  lemma SupportDependsOnPlacementOrder()
    ensures
      var unit := Dims(1.0, 1.0, 1.0);
      var crate := Item("c", "crate", Box, 1.0, 1.0, 1.0, 1.0, 1, false, Util.None, RotationPreferences(false, false, false));
      var fragile := crate.(nonStackable := true);
      var s := Placement(Instance(crate, "c_instance_0"), Identity, unit, Point(0.0, 0.0, 0.0), 0);
      var n := Placement(Instance(fragile, "f_instance_0"), Identity, unit, Point(1.0, 0.0, 0.0), 0);
      var c := Container(2.0, 2.0, 2.0, 100.0);
      CheckPlacementValidity(c, unit, Point(0.5, 1.0, 0.0), [s, n]) &&
      !CheckPlacementValidity(c, unit, Point(0.5, 1.0, 0.0), [n, s])
  {
    var unit := Dims(1.0, 1.0, 1.0);
    var crate := Item("c", "crate", Box, 1.0, 1.0, 1.0, 1.0, 1, false, Util.None, RotationPreferences(false, false, false));
    var fragile := crate.(nonStackable := true);
    var s := Placement(Instance(crate, "c_instance_0"), Identity, unit, Point(0.0, 0.0, 0.0), 0);
    var n := Placement(Instance(fragile, "f_instance_0"), Identity, unit, Point(1.0, 0.0, 0.0), 0);
    var b := BoxAt(Point(0.5, 1.0, 0.0), unit);
    assert Supports(b, s) && !Blocks(b, s);
    assert Blocks(b, n);
    assert [s, n][1..] == [n];
    assert !OverlapsSome(b, [s, n]);
  }

  /** Each unit of a container passed the validator against the units placed before
      it: the state every strategy commit preserves. */
  predicate ValidPacking(c: Container, ps: seq<Placement>)
  {
    forall i :: 0 <= i < |ps| ==> CheckPlacementValidity(c, ps[i].dims, ps[i].base, ps[..i])
  }

  lemma ValidPackingSnoc(c: Container, ps: seq<Placement>, p: Placement)
    requires ValidPacking(c, ps)
    requires CheckPlacementValidity(c, p.dims, p.base, ps)
    ensures ValidPacking(c, ps + [p])
  {
    var qs := ps + [p];
    forall i | 0 <= i < |qs|
      ensures CheckPlacementValidity(c, qs[i].dims, qs[i].base, qs[..i])
    {
      if i < |ps| {
        assert qs[..i] == ps[..i];
      } else {
        assert qs[..i] == ps;
      }
    }
  }

  /** The physical invariants of a container's contents: every unit inside the
      container, no two units overlapping, and every unit above the floor carried by
      a stackable unit placed before it. */
  lemma {:induction false} ValidPackingInvariants(c: Container, ps: seq<Placement>)
    requires ValidPacking(c, ps)
    ensures forall i :: 0 <= i < |ps| ==> InsideContainer(c, BoxOf(ps[i]))
    ensures forall i, j :: 0 <= i < |ps| && 0 <= j < |ps| && i != j ==> !Overlaps(BoxOf(ps[i]), BoxOf(ps[j]))
    ensures forall i :: 0 <= i < |ps| && ps[i].base.y > 0.0 ==>
      exists j :: 0 <= j < i && Supports(BoxOf(ps[i]), ps[j]) && !ps[j].inst.item.nonStackable
  {
    forall i, j | 0 <= i < |ps| && 0 <= j < |ps| && i != j
      ensures !Overlaps(BoxOf(ps[i]), BoxOf(ps[j]))
    {
      if i < j {
        assert ps[..j][i] == ps[i];
        assert CheckPlacementValidity(c, ps[j].dims, ps[j].base, ps[..j]);
      } else {
        assert ps[..i][j] == ps[j];
        assert CheckPlacementValidity(c, ps[i].dims, ps[i].base, ps[..i]);
      }
    }
    forall i | 0 <= i < |ps| && ps[i].base.y > 0.0
      ensures exists j :: 0 <= j < i && Supports(BoxOf(ps[i]), ps[j]) && !ps[j].inst.item.nonStackable
    {
      assert CheckPlacementValidity(c, ps[i].dims, ps[i].base, ps[..i]);
      var j :| 0 <= j < i && Supports(BoxOf(ps[i]), ps[..i][j]) && !ps[..i][j].inst.item.nonStackable;
      assert ps[..i][j] == ps[j];
    }
  }

  /** A unit that fits in no orientation can never be placed: a box the validator
      accepts is inside the container, so its extents are at most the container's. */
  lemma AcceptedBoxFitsContainer(c: Container, d: Dims, base: Point, existing: seq<Placement>)
    requires CheckPlacementValidity(c, d, base, existing)
    ensures d.l <= c.length && d.w <= c.width && d.h <= c.height
  {
  }
}
