/** The extreme-point anchor generator the two strategies inline: the container
    origin plus, for every unit already in the container, the point on its top face
    (only when the unit is stackable), the point past its length face and the point
    past its width face; sorted by (x, y, z) and deduplicated. */
module Anchors {
  import opened Util
  import opened Geometry
  import opened Layout

  /** Strict lexicographic order on (x, y, z): the sort comparator and the best-fit
      replacement test, with the tolerance taken to its limit. */
  predicate LexLess(a: Point, b: Point)
  {
    a.x < b.x || (a.x == b.x && a.y < b.y) || (a.x == b.x && a.y == b.y && a.z < b.z)
  }

  predicate LexLe(a: Point, b: Point)
  {
    LexLess(a, b) || a == b
  }

  lemma LexLessTransitive(a: Point, b: Point, c: Point)
    requires LexLess(a, b) && LexLess(b, c)
    ensures LexLess(a, c)
  {
  }

  lemma LexLeTransitive(a: Point, b: Point, c: Point)
    requires LexLe(a, b) && LexLe(b, c)
    ensures LexLe(a, c)
  {
  }

  /** Any two points are comparable, and a point is never strictly below itself. */
  lemma LexTotal(a: Point, b: Point)
    ensures LexLess(a, b) || a == b || LexLess(b, a)
    ensures !(LexLess(a, b) && LexLess(b, a))
  {
  }

  /** On top of a unit, at its back-left corner. */
  function TopAnchor(p: Placement): Point
  {
    Point(p.base.x, p.base.y + p.dims.h, p.base.z)
  }

  /** Past the unit's length face, on its floor level. */
  function LengthFaceAnchor(p: Placement): Point
  {
    Point(p.base.x + p.dims.l, p.base.y, p.base.z)
  }

  /** Past the unit's width face, on its floor level. */
  function WidthFaceAnchor(p: Placement): Point
  {
    Point(p.base.x, p.base.y, p.base.z + p.dims.w)
  }

  /** The points one unit contributes, in push order. */
  function AnchorsOf(p: Placement): seq<Point>
  {
    (if !p.inst.item.nonStackable then [TopAnchor(p)] else []) + [LengthFaceAnchor(p), WidthFaceAnchor(p)]
  }

  /** All contributed points, unit by unit in placement order. */
  function RawAnchors(placed: seq<Placement>): seq<Point>
  {
    if placed == [] then [] else RawAnchors(placed[..|placed| - 1]) + AnchorsOf(placed[|placed| - 1])
  }

  /** A unit contributes its two face points always and its top point only when it
      is stackable: no point is ever proposed on top of a non-stackable unit. */
  predicate ContributedBy(a: Point, p: Placement)
  {
    a == LengthFaceAnchor(p) || a == WidthFaceAnchor(p) || (!p.inst.item.nonStackable && a == TopAnchor(p))
  }

  lemma {:induction false} RawAnchorsExactly(placed: seq<Placement>, a: Point)
    ensures a in RawAnchors(placed) <==> exists i :: 0 <= i < |placed| && ContributedBy(a, placed[i])
  {
    if placed != [] {
      var init := placed[..|placed| - 1];
      RawAnchorsExactly(init, a);
      if exists i :: 0 <= i < |init| && ContributedBy(a, init[i]) {
        var i :| 0 <= i < |init| && ContributedBy(a, init[i]);
        assert placed[i] == init[i];
      }
      if exists i :: 0 <= i < |placed| && ContributedBy(a, placed[i]) {
        var i :| 0 <= i < |placed| && ContributedBy(a, placed[i]);
        if i < |init| {
          assert init[i] == placed[i];
        }
      }
    }
  }

  predicate Sorted(s: seq<Point>)
  {
    forall i, j :: 0 <= i < j < |s| ==> LexLe(s[i], s[j])
  }

  predicate StrictlySorted(s: seq<Point>)
  {
    forall i, j :: 0 <= i < j < |s| ==> LexLess(s[i], s[j])
  }

  /** A point not above the head of a sorted list is not above any of its points. */
  lemma BelowHead(s: seq<Point>, a: Point)
    requires Sorted(s) && s != [] && LexLe(a, s[0])
    ensures forall j :: 0 <= j < |s| ==> LexLe(a, s[j])
  {
    forall j | 0 <= j < |s| ensures LexLe(a, s[j]) {
      LexLeTransitive(a, s[0], s[j]);
    }
  }

  /** The head of a sorted list is not above any point of its tail with a point
      above the head added. */
  lemma HeadBelowRest(s: seq<Point>, a: Point, t: seq<Point>)
    requires Sorted(s) && s != [] && !LexLe(a, s[0])
    requires multiset(t) == multiset(s[1..]) + multiset{a}
    ensures forall j :: 0 <= j < |t| ==> LexLe(s[0], t[j])
  {
    LexTotal(a, s[0]);
    forall j | 0 <= j < |t| ensures LexLe(s[0], t[j]) {
      var x := t[j];
      assert x in multiset(t);
      if x != a {
        assert x in multiset(s[1..]);
        var i :| 0 <= i < |s[1..]| && s[1..][i] == x;
        assert s[i + 1] == x;
      }
    }
  }

  /** Inserts a point into a sorted list, before the first point not below it. */
  function Insert(s: seq<Point>, a: Point): (r: seq<Point>)
    requires Sorted(s)
    ensures Sorted(r)
    ensures multiset(r) == multiset(s) + multiset{a}
  {
    if s == [] then [a]
    else if LexLe(a, s[0]) then
      BelowHead(s, a);
      [a] + s
    else
      var t := Insert(s[1..], a);
      assert s == [s[0]] + s[1..];
      HeadBelowRest(s, a, t);
      [s[0]] + t
  }

  /** The anchor sort: orders the points by (x, y, z). */
  function SortPoints(s: seq<Point>): (r: seq<Point>)
    ensures Sorted(r)
    ensures multiset(r) == multiset(s)
  {
    if s == [] then []
    else
      assert s == s[..|s| - 1] + [s[|s| - 1]];
      Insert(SortPoints(s[..|s| - 1]), s[|s| - 1])
  }

  /** Keeping the first of each run of equal points in a sorted list leaves a
      strictly increasing list with the same last point. */
  lemma {:induction false} DedupOfSorted(s: seq<Point>)
    requires Sorted(s)
    ensures StrictlySorted(Dedup(s))
    ensures s != [] ==> |Dedup(s)| > 0 && Dedup(s)[|Dedup(s)| - 1] == s[|s| - 1]
  {
    if s != [] {
      var init := s[..|s| - 1];
      var x := s[|s| - 1];
      assert Sorted(init);
      DedupOfSorted(init);
      DedupSameElements(init);
      var d := Dedup(init);
      if x in init {
        var k :| 0 <= k < |init| && init[k] == x;
        assert LexLe(init[k], init[|init| - 1]);
        assert LexLe(init[|init| - 1], x);
        LexTotal(x, init[|init| - 1]);
      } else if init != [] {
        var last := d[|d| - 1];
        assert last == init[|init| - 1];
        assert LexLess(last, x) by {
          assert LexLe(init[|init| - 1], x);
        }
        var r := d + [x];
        forall i, j | 0 <= i < j < |r| ensures LexLess(r[i], r[j]) {
          if j == |r| - 1 && i < |d| - 1 {
            LexLessTransitive(d[i], last, x);
          }
        }
      }
    }
  }

  /** The deduplicated, sorted anchor list offered to every orientation. */
  function CandidateAnchors(placed: seq<Placement>): seq<Point>
  {
    Dedup(SortPoints([Origin] + RawAnchors(placed)))
  }

  /** The anchor list contains the origin and exactly the contributed points. */
  lemma CandidateAnchorsExactly(placed: seq<Placement>, a: Point)
    ensures a in CandidateAnchors(placed) <==>
      a == Origin || exists i :: 0 <= i < |placed| && ContributedBy(a, placed[i])
  {
    var pts := [Origin] + RawAnchors(placed);
    var sorted := SortPoints(pts);
    DedupSameElements(sorted);
    assert a in sorted <==> a in multiset(sorted);
    assert a in pts <==> a in multiset(pts);
    RawAnchorsExactly(placed, a);
  }

  /** The anchor list is sorted by (x, y, z), holds no point twice and contains the
      origin. */
  lemma CandidateAnchorsSorted(placed: seq<Placement>)
    ensures StrictlySorted(CandidateAnchors(placed))
    ensures Distinct(CandidateAnchors(placed))
    ensures Origin in CandidateAnchors(placed)
  {
    DedupOfSorted(SortPoints([Origin] + RawAnchors(placed)));
    var c := CandidateAnchors(placed);
    forall i, j | 0 <= i < j < |c| ensures c[i] != c[j] {
      LexTotal(c[i], c[j]);
    }
    CandidateAnchorsExactly(placed, Origin);
  }

  /** A strictly increasing list whose elements are none of them below m starts
      with m when it contains m. */
  lemma SmallestComesFirst(c: seq<Point>, m: Point)
    requires StrictlySorted(c) && m in c
    requires forall a :: a in c ==> !LexLess(a, m)
    ensures c[0] == m
  {
    var k :| 0 <= k < |c| && c[k] == m;
  }

  /** No contributed point lies below the origin once every unit stands inside the
      container, so the origin is then tried first. */
  lemma OriginFirst(placed: seq<Placement>)
    requires forall i :: 0 <= i < |placed| ==>
      placed[i].base.x >= 0.0 && placed[i].base.y >= 0.0 && placed[i].base.z >= 0.0 &&
      placed[i].dims.l >= 0.0 && placed[i].dims.w >= 0.0 && placed[i].dims.h >= 0.0
    ensures |CandidateAnchors(placed)| > 0 && CandidateAnchors(placed)[0] == Origin
  {
    CandidateAnchorsSorted(placed);
    var c := CandidateAnchors(placed);
    forall a | a in c ensures !LexLess(a, Origin) {
      CandidateAnchorsExactly(placed, a);
      if a != Origin {
        var i :| 0 <= i < |placed| && ContributedBy(a, placed[i]);
      }
    }
    SmallestComesFirst(c, Origin);
  }

  /** The anchor loop of either strategy: collects the contributed points unit by
      unit, then sorts and deduplicates them. */
  method GenerateAnchors(placed: seq<Placement>) returns (anchors: seq<Point>)
    ensures anchors == CandidateAnchors(placed)
    ensures Origin in anchors && StrictlySorted(anchors)
  {
    var pts := [Origin];
    for i := 0 to |placed|
      invariant pts == [Origin] + RawAnchors(placed[..i])
    {
      assert placed[..i + 1][..i] == placed[..i];
      var p := placed[i];
      if !p.inst.item.nonStackable {
        pts := pts + [TopAnchor(p)];
      }
      pts := pts + [LengthFaceAnchor(p)];
      pts := pts + [WidthFaceAnchor(p)];
    }
    assert placed[..|placed|] == placed;
    anchors := Dedup(SortPoints(pts));
    CandidateAnchorsSorted(placed);
  }
}
