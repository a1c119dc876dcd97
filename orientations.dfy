/** The orientation enumerator (`generateOrientationsToTry`): the quarter-turn
    rotations an item may be tried in, deduplicated, in search-priority order. */
module Orientations {
  import opened Util
  import opened Geometry

  const TurnAboutX := Rotation(Quarter, Zero, Zero)
  const TurnAboutY := Rotation(Zero, Quarter, Zero)
  const TurnAboutZ := Rotation(Zero, Zero, Quarter)
  const TurnAboutXY := Rotation(Quarter, Quarter, Zero)
  const TurnAboutXZ := Rotation(Quarter, Zero, Quarter)
  const TurnAboutYZ := Rotation(Zero, Quarter, Quarter)

  /** Every triple handed to `addOrientation`, in call order, duplicates included. */
  function Candidates(item: Item): seq<Rotation>
  {
    var p := item.rotationPreferences;
    match item.shape
    case Box =>
      [Identity]
      + (if p.allowX then [Identity, TurnAboutX] else [Identity])
      + (if p.allowY then [Identity, TurnAboutY] else [Identity])
      + (if p.allowZ then [Identity, TurnAboutZ] else [Identity])
      + (if p.allowX && p.allowY then [TurnAboutXY] else [])
      + (if p.allowX && p.allowZ then [TurnAboutXZ] else [])
      + (if p.allowY && p.allowZ then [TurnAboutYZ] else [])
    case Cylinder =>
      [Identity]
      + (if p.allowY then [TurnAboutY] else [])
      + (if p.allowX then [TurnAboutX] else [])
      + (if p.allowZ then [TurnAboutZ] else [])
  }

  /** `addOrientation` pushes a triple only when its key is not yet in the set, so
      the result is the candidate list with later repeats dropped. */
  function GenerateOrientations(item: Item): (os: seq<Rotation>)
    ensures |os| > 0 && os[0] == Identity
    ensures Distinct(os)
    ensures item.shape == Cylinder ==> |os| <= 4
  {
    DedupHead(Candidates(item));
    DedupDistinct(Candidates(item));
    Dedup(Candidates(item))
  }

  function QuarterCount(r: Rotation): nat
  {
    (if r.x == Quarter then 1 else 0) + (if r.y == Quarter then 1 else 0) + (if r.z == Quarter then 1 else 0)
  }

  /** Independent description of the rotations the enumerator may return: only
      permitted axes are turned; a box turns about at most two axes, a cylinder about
      at most one. */
  predicate Permitted(item: Item, r: Rotation)
  {
    var p := item.rotationPreferences;
    (r.x == Quarter ==> p.allowX) && (r.y == Quarter ==> p.allowY) && (r.z == Quarter ==> p.allowZ) &&
    QuarterCount(r) <= (if item.shape == Box then 2 else 1)
  }

  /** The enumerator returns exactly the permitted rotations. */
  lemma OrientationsArePermitted(item: Item, r: Rotation)
    ensures r in GenerateOrientations(item) <==> Permitted(item, r)
  {
    DedupSameElements(Candidates(item));
  }

  /** The candidate pattern of a fully rotatable box, de-duplicated step by step:
      the repeated identity is dropped, every other rotation is new. */
  lemma DedupPattern4<T>(i: T, x: T)
    requires x != i
    ensures Dedup([i, i, x, i]) == [i, x]
  {
    DedupSnoc([], i);
    assert [] + [i] == [i];
    DedupSnoc([i], i);
    assert [i] + [i] == [i, i];
    DedupSnoc([i, i], x);
    assert [i, i] + [x] == [i, i, x];
    DedupSnoc([i, i, x], i);
    assert [i, i, x] + [i] == [i, i, x, i];
  }

  lemma DedupPattern7<T>(i: T, x: T, y: T, z: T)
    requires x != i && y !in [i, x] && z !in [i, x, y]
    ensures Dedup([i, i, x, i, y, i, z]) == [i, x, y, z]
  {
    DedupPattern4(i, x);
    DedupSnoc([i, i, x, i], y);
    assert [i, i, x, i] + [y] == [i, i, x, i, y];
    DedupSnoc([i, i, x, i, y], i);
    assert [i, i, x, i, y] + [i] == [i, i, x, i, y, i];
    DedupSnoc([i, i, x, i, y, i], z);
    assert [i, i, x, i, y, i] + [z] == [i, i, x, i, y, i, z];
  }

  lemma DedupPattern10<T>(i: T, x: T, y: T, z: T, a: T, b: T, c: T)
    requires x != i && y !in [i, x] && z !in [i, x, y]
    requires a !in [i, x, y, z] && b !in [i, x, y, z, a] && c !in [i, x, y, z, a, b]
    ensures Dedup([i, i, x, i, y, i, z, a, b, c]) == [i, x, y, z, a, b, c]
  {
    DedupPattern7(i, x, y, z);
    DedupSnoc([i, i, x, i, y, i, z], a);
    assert [i, i, x, i, y, i, z] + [a] == [i, i, x, i, y, i, z, a];
    DedupSnoc([i, i, x, i, y, i, z, a], b);
    assert [i, i, x, i, y, i, z, a] + [b] == [i, i, x, i, y, i, z, a, b];
    DedupSnoc([i, i, x, i, y, i, z, a, b], c);
    assert [i, i, x, i, y, i, z, a, b] + [c] == [i, i, x, i, y, i, z, a, b, c];
  }

  /** The candidate list of a fully rotatable box, deduplicated. */
  lemma DedupFullBoxCandidates(s: seq<Rotation>)
    requires s == [Identity, Identity, TurnAboutX, Identity, TurnAboutY, Identity, TurnAboutZ, TurnAboutXY, TurnAboutXZ, TurnAboutYZ]
    ensures Dedup(s) == [Identity, TurnAboutX, TurnAboutY, TurnAboutZ, TurnAboutXY, TurnAboutXZ, TurnAboutYZ]
  {
    DedupPattern10(Identity, TurnAboutX, TurnAboutY, TurnAboutZ, TurnAboutXY, TurnAboutXZ, TurnAboutYZ);
  }

  /** A box that may turn about every axis is tried in seven orientations, in this
      order. */
  lemma {:induction false} FullyRotatableBox(item: Item)
    requires item.shape == Box
    requires item.rotationPreferences == RotationPreferences(true, true, true)
    ensures GenerateOrientations(item)
      == [Identity, TurnAboutX, TurnAboutY, TurnAboutZ, TurnAboutXY, TurnAboutXZ, TurnAboutYZ]
    ensures |GenerateOrientations(item)| == 7
  {
    assert Candidates(item) == [Identity, Identity, TurnAboutX, Identity, TurnAboutY, Identity, TurnAboutZ,
                                TurnAboutXY, TurnAboutXZ, TurnAboutYZ];
    DedupFullBoxCandidates(Candidates(item));
  }

  /** With every axis allowed, the seven orientations reach all six arrangements of
      a box's length, width and height. */
  lemma FullyRotatableBoxReachesEveryArrangement(item: Item)
    requires item.shape == Box
    requires item.rotationPreferences == RotationPreferences(true, true, true)
    ensures var l, w, h := item.length, item.width, item.height;
      (set r | r in GenerateOrientations(item) :: EffectiveDimensions(item, r))
      == {Dims(l, w, h), Dims(l, h, w), Dims(w, l, h), Dims(w, h, l), Dims(h, l, w), Dims(h, w, l)}
  {
    FullyRotatableBox(item);
    var os := GenerateOrientations(item);
    var l, w, h := item.length, item.width, item.height;
    assert EffectiveDimensions(item, Identity) == Dims(l, w, h);
    assert EffectiveDimensions(item, TurnAboutX) == Dims(l, h, w);
    assert EffectiveDimensions(item, TurnAboutY) == Dims(w, l, h);
    assert EffectiveDimensions(item, TurnAboutZ) == Dims(h, w, l);
    assert EffectiveDimensions(item, TurnAboutXY) == Dims(w, h, l);
    assert EffectiveDimensions(item, TurnAboutXZ) == Dims(h, l, w);
    assert EffectiveDimensions(item, TurnAboutYZ) == Dims(w, h, l);
  }

  /** An item with no axis permitted, box or cylinder, is tried as entered only. */
  lemma NoRotationAllowed(item: Item)
    requires item.rotationPreferences == RotationPreferences(false, false, false)
    ensures GenerateOrientations(item) == [Identity]
  {
    if item.shape == Box {
      var s0: seq<Rotation> := [Identity];
      assert Dedup(s0) == [Identity];
      var s1 := s0 + [Identity];  DedupSnoc(s0, Identity);
      var s2 := s1 + [Identity];  DedupSnoc(s1, Identity);
      var s3 := s2 + [Identity];  DedupSnoc(s2, Identity);
      assert Candidates(item) == s3;
    } else {
      assert Candidates(item) == [Identity];
      assert Dedup([Identity]) == [Identity];
    }
  }
}
