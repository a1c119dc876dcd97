/** The per-unit search of the two strategies: every (orientation, anchor) pair is
    tried in the order of the nested loops, orientation outside, anchor inside.
    First fit commits the first pair the validator accepts; best fit commits the
    accepted pair with the lexicographically smallest anchor. */
module Search {
  import opened Util
  import opened Geometry
  import opened Layout
  import opened Validity
  import opened Anchors
  import opened Orientations

  /** One tried pair: the rotation, the effective dimensions under it, the anchor. */
  datatype Choice = Choice(rotation: Rotation, dims: Dims, anchor: Point)

  /** The inner loop's pairs for one orientation. */
  function Row(item: Item, r: Rotation, anchors: seq<Point>): seq<Choice>
  {
    seq(|anchors|, k requires 0 <= k < |anchors| => Choice(r, EffectiveDimensions(item, r), anchors[k]))
  }

  /** All pairs, in loop order. */
  function Trials(item: Item, rots: seq<Rotation>, anchors: seq<Point>): seq<Choice>
  {
    if rots == [] then []
    else Trials(item, rots[..|rots| - 1], anchors) + Row(item, rots[|rots| - 1], anchors)
  }

  lemma {:induction false} TrialsAppend(item: Item, a: seq<Rotation>, b: seq<Rotation>, anchors: seq<Point>)
    ensures Trials(item, a + b, anchors) == Trials(item, a, anchors) + Trials(item, b, anchors)
  {
    if b == [] {
      assert a + b == a;
    } else {
      assert (a + b)[..|a + b| - 1] == a + b[..|b| - 1];
      TrialsAppend(item, a, b[..|b| - 1], anchors);
    }
  }

  lemma TrialsPrefix(item: Item, rots: seq<Rotation>, i: nat, anchors: seq<Point>)
    requires i < |rots|
    ensures Trials(item, rots[..i + 1], anchors) == Trials(item, rots[..i], anchors) + Row(item, rots[i], anchors)
  {
    assert rots[..i + 1][..i] == rots[..i];
  }

  /** The pairs are exactly the listed orientations combined with the listed anchors,
      each with the dimensions its orientation gives. */
  lemma {:induction false} TrialsExactly(item: Item, rots: seq<Rotation>, anchors: seq<Point>, ch: Choice)
    ensures ch in Trials(item, rots, anchors) <==>
      ch.rotation in rots && ch.anchor in anchors && ch.dims == EffectiveDimensions(item, ch.rotation)
  {
    if rots != [] {
      var init := rots[..|rots| - 1];
      TrialsExactly(item, init, anchors, ch);
      assert rots == init + [rots[|rots| - 1]];
      var row := Row(item, rots[|rots| - 1], anchors);
      if ch.anchor in anchors && ch.rotation == rots[|rots| - 1] && ch.dims == EffectiveDimensions(item, ch.rotation) {
        var k :| 0 <= k < |anchors| && anchors[k] == ch.anchor;
        assert row[k] == ch;
      }
    }
  }

  /** The validator's verdict on a pair. */
  predicate Accepts(c: Container, placed: seq<Placement>, ch: Choice)
  {
    CheckPlacementValidity(c, ch.dims, ch.anchor, placed)
  }

  /** The validator as a test on pairs, for a fixed container and contents. */
  function AcceptedBy(c: Container, placed: seq<Placement>): Choice -> bool
  {
    ch => Accepts(c, placed, ch)
  }

  /** First fit: the state of the search after the pairs so far; once a pair is
      accepted the loops stop and the later pairs are not looked at. */
  function FirstOf(ok: Choice -> bool, cs: seq<Choice>): Option<Choice>
  {
    if cs == [] then None
    else
      var prev := FirstOf(ok, cs[..|cs| - 1]);
      if prev.Some? then prev
      else if ok(cs[|cs| - 1]) then Some(cs[|cs| - 1])
      else None
  }

  /** Best fit: an accepted pair replaces the best so far only when its anchor is
      strictly smaller by (x, y, z). */
  function BestFrom(ok: Choice -> bool, seed: Option<Choice>, cs: seq<Choice>): Option<Choice>
  {
    if cs == [] then seed
    else
      var prev := BestFrom(ok, seed, cs[..|cs| - 1]);
      var x := cs[|cs| - 1];
      if ok(x) && (prev.None? || LexLess(x.anchor, prev.value.anchor)) then Some(x)
      else prev
  }

  /** Best fit over all pairs, starting with no best pair. */
  function BestOf(ok: Choice -> bool, cs: seq<Choice>): Option<Choice>
  {
    BestFrom(ok, None, cs)
  }

  /** Before first fit has found a pair, the earlier pairs do not matter. */
  lemma {:induction false} FirstOfAfterNone(ok: Choice -> bool, cs: seq<Choice>, more: seq<Choice>)
    requires FirstOf(ok, cs).None?
    ensures FirstOf(ok, cs + more) == FirstOf(ok, more)
  {
    if more != [] {
      assert (cs + more)[..|cs + more| - 1] == cs + more[..|more| - 1];
      FirstOfAfterNone(ok, cs, more[..|more| - 1]);
    } else {
      assert cs + more == cs;
    }
  }

  /** Best fit over two runs of pairs is best fit over the second run, seeded with
      the best pair of the first. */
  lemma {:induction false} BestFromAppend(ok: Choice -> bool, seed: Option<Choice>, cs: seq<Choice>, more: seq<Choice>)
    ensures BestFrom(ok, seed, cs + more) == BestFrom(ok, BestFrom(ok, seed, cs), more)
  {
    if more != [] {
      assert (cs + more)[..|cs + more| - 1] == cs + more[..|more| - 1];
      BestFromAppend(ok, seed, cs, more[..|more| - 1]);
    } else {
      assert cs + more == cs;
    }
  }

  /** Once first fit has found a pair, more pairs change nothing. */
  lemma {:induction false} FirstOfKeeps(ok: Choice -> bool, cs: seq<Choice>, more: seq<Choice>)
    requires FirstOf(ok, cs).Some?
    ensures FirstOf(ok, cs + more) == FirstOf(ok, cs)
  {
    if more != [] {
      assert (cs + more)[..|cs + more| - 1] == cs + more[..|more| - 1];
      FirstOfKeeps(ok, cs, more[..|more| - 1]);
    } else {
      assert cs + more == cs;
    }
  }

  /** First fit returns the earliest accepted pair, and nothing exactly when no pair
      is accepted. */
  lemma {:induction false} FirstOfSpec(ok: Choice -> bool, cs: seq<Choice>)
    ensures FirstOf(ok, cs).None? <==> forall i :: 0 <= i < |cs| ==> !ok(cs[i])
    ensures FirstOf(ok, cs).Some? ==>
      exists i :: 0 <= i < |cs| && cs[i] == FirstOf(ok, cs).value && ok(cs[i]) &&
        forall j :: 0 <= j < i ==> !ok(cs[j])
  {
    if cs != [] {
      var init := cs[..|cs| - 1];
      FirstOfSpec(ok, init);
      if FirstOf(ok, init).Some? {
        var i :| 0 <= i < |init| && init[i] == FirstOf(ok, init).value && ok(init[i]) &&
          forall j :: 0 <= j < i ==> !ok(init[j]);
        assert cs[i] == init[i];
        assert forall j :: 0 <= j < i ==> cs[j] == init[j];
      } else {
        assert forall j :: 0 <= j < |cs| - 1 ==> cs[j] == init[j];
      }
    }
  }

  /** The position of first fit's pair in the list it searched. */
  lemma FirstIndex(ok: Choice -> bool, cs: seq<Choice>) returns (i: nat)
    requires FirstOf(ok, cs).Some?
    ensures i < |cs| && cs[i] == FirstOf(ok, cs).value && forall j :: 0 <= j < i ==> !ok(cs[j])
  {
    FirstOfSpec(ok, cs);
    i :| 0 <= i < |cs| && cs[i] == FirstOf(ok, cs).value && ok(cs[i]) && forall j :: 0 <= j < i ==> !ok(cs[j]);
  }

  /** Position i holds an accepted pair whose anchor is not above any accepted
      pair's anchor and is strictly below the anchor of every accepted pair before
      it. */
  predicate BestAt(ok: Choice -> bool, cs: seq<Choice>, i: int)
  {
    0 <= i < |cs| && ok(cs[i]) &&
    (forall j :: 0 <= j < |cs| && ok(cs[j]) ==> LexLe(cs[i].anchor, cs[j].anchor)) &&
    (forall j :: 0 <= j < i && ok(cs[j]) ==> LexLess(cs[i].anchor, cs[j].anchor))
  }

  /** Best fit finds nothing exactly when no pair is accepted. */
  lemma {:induction false} BestOfNone(ok: Choice -> bool, cs: seq<Choice>)
    ensures BestOf(ok, cs).None? <==> forall i :: 0 <= i < |cs| ==> !ok(cs[i])
  {
    if cs != [] {
      var init := cs[..|cs| - 1];
      BestOfNone(ok, init);
      assert forall j :: 0 <= j < |cs| - 1 ==> cs[j] == init[j];
    }
  }

  /** Best fit returns the earliest pair among those with the smallest accepted
      anchor (ties keep the earliest pair, since replacement needs a strictly
      smaller anchor). */
  lemma {:induction false} BestOfSpec(ok: Choice -> bool, cs: seq<Choice>) returns (i: int)
    requires BestOf(ok, cs).Some?
    ensures BestAt(ok, cs, i) && cs[i] == BestOf(ok, cs).value
  {
    var init := cs[..|cs| - 1];
    var x := cs[|cs| - 1];
    var prev := BestOf(ok, init);
    assert forall j :: 0 <= j < |cs| - 1 ==> cs[j] == init[j];
    if prev.None? {
      BestOfNone(ok, init);
      i := |cs| - 1;
    } else {
      var k := BestOfSpec(ok, init);
      if ok(x) && LexLess(x.anchor, prev.value.anchor) {
        i := |cs| - 1;
        forall j | 0 <= j < |cs| - 1 && ok(cs[j]) ensures LexLess(x.anchor, cs[j].anchor) {
          assert LexLe(init[k].anchor, init[j].anchor);
          if init[k].anchor != init[j].anchor {
            LexLessTransitive(x.anchor, init[k].anchor, init[j].anchor);
          }
        }
      } else {
        i := k;
        if ok(x) {
          LexTotal(x.anchor, prev.value.anchor);
        }
      }
    }
  }

  /** The two strategies. */
  datatype Strategy = FirstFit | BestFit

  /** The payload gate every orientation passes before its anchors are tried (the
      tolerance of the source's `> max + epsilon` taken to its limit). */
  predicate WithinPayload(c: Container, current: real, item: Item)
  {
    current + item.weight <= c.maxPayloadKg
  }

  /** The pair a strategy takes from the pairs it tries. */
  function Choose(alg: Strategy, ok: Choice -> bool, cs: seq<Choice>): Option<Choice>
  {
    match alg
    case FirstFit => FirstOf(ok, cs)
    case BestFit => BestOf(ok, cs)
  }

  /** Either strategy takes an accepted pair it tried, and takes none exactly when
      no pair is accepted. */
  lemma ChooseSpec(alg: Strategy, ok: Choice -> bool, cs: seq<Choice>)
    ensures Choose(alg, ok, cs).None? <==> forall i :: 0 <= i < |cs| ==> !ok(cs[i])
    ensures Choose(alg, ok, cs).Some? ==> Choose(alg, ok, cs).value in cs && ok(Choose(alg, ok, cs).value)
  {
    FirstOfSpec(ok, cs);
    BestOfNone(ok, cs);
    if alg == BestFit && BestOf(ok, cs).Some? {
      var i := BestOfSpec(ok, cs);
    }
  }

  /** What a strategy commits for one unit, given the units already in the
      container and their total weight. */
  function Search(alg: Strategy, c: Container, placed: seq<Placement>, current: real, item: Item): Option<Choice>
  {
    if !WithinPayload(c, current, item) then None
    else Choose(alg, AcceptedBy(c, placed), Trials(item, GenerateOrientations(item), CandidateAnchors(placed)))
  }

  /** Whatever a strategy commits is accepted by the validator, uses one of the
      unit's permitted orientations with its effective dimensions and one of the
      generated anchors, and keeps the payload within the limit; nothing is
      committed exactly when the payload would be exceeded or no pair is accepted. */
  lemma SearchSpec(alg: Strategy, c: Container, placed: seq<Placement>, current: real, item: Item)
    ensures Search(alg, c, placed, current, item).None? <==>
      !WithinPayload(c, current, item) ||
      forall ch :: ch in Trials(item, GenerateOrientations(item), CandidateAnchors(placed)) ==> !Accepts(c, placed, ch)
    ensures Search(alg, c, placed, current, item).Some? ==>
      var ch := Search(alg, c, placed, current, item).value;
      Accepts(c, placed, ch) && WithinPayload(c, current, item) &&
      ch.rotation in GenerateOrientations(item) && ch.dims == EffectiveDimensions(item, ch.rotation) &&
      ch.anchor in CandidateAnchors(placed)
  {
    var cs := Trials(item, GenerateOrientations(item), CandidateAnchors(placed));
    var ok := AcceptedBy(c, placed);
    ChooseSpec(alg, ok, cs);
    var r := Search(alg, c, placed, current, item);
    if r.Some? {
      assert ok(r.value);
      TrialsExactly(item, GenerateOrientations(item), CandidateAnchors(placed), r.value);
    } else if WithinPayload(c, current, item) {
      forall ch | ch in cs ensures !Accepts(c, placed, ch) {
        var i :| 0 <= i < |cs| && cs[i] == ch;
        assert !ok(cs[i]);
      }
    }
    if WithinPayload(c, current, item) && forall ch :: ch in cs ==> !Accepts(c, placed, ch) {
      forall i | 0 <= i < |cs| ensures !ok(cs[i]) {
        assert cs[i] in cs;
      }
    }
  }

  /** Every accepted pair of best fit's search is at least as far back, left and
      down as the committed one. */
  lemma BestFitIsSmallest(c: Container, placed: seq<Placement>, current: real, item: Item, ch: Choice)
    requires Search(BestFit, c, placed, current, item).Some?
    requires ch in Trials(item, GenerateOrientations(item), CandidateAnchors(placed)) && Accepts(c, placed, ch)
    ensures LexLe(Search(BestFit, c, placed, current, item).value.anchor, ch.anchor)
  {
    var cs := Trials(item, GenerateOrientations(item), CandidateAnchors(placed));
    var ok := AcceptedBy(c, placed);
    assert Search(BestFit, c, placed, current, item) == BestOf(ok, cs);
    var i := BestOfSpec(ok, cs);
    var j :| 0 <= j < |cs| && cs[j] == ch;
    assert ok(cs[j]);
  }

  /** First fit commits the first accepted pair in trial order (orientations in
      list order, anchors in list order within each): the first accepted anchor of
      the first orientation that has one. */
  lemma FirstFitIsFirst(c: Container, placed: seq<Placement>, current: real, item: Item) returns (i: nat)
    requires Search(FirstFit, c, placed, current, item).Some?
    ensures var cs := Trials(item, GenerateOrientations(item), CandidateAnchors(placed));
      i < |cs| && cs[i] == Search(FirstFit, c, placed, current, item).value &&
      forall j :: 0 <= j < i ==> !Accepts(c, placed, cs[j])
  {
    var cs := Trials(item, GenerateOrientations(item), CandidateAnchors(placed));
    var ok := AcceptedBy(c, placed);
    assert Search(FirstFit, c, placed, current, item) == FirstOf(ok, cs);
    i := FirstIndex(ok, cs);
  }

  /** Best fit keeps the earliest pair among equally small anchors: every accepted
      pair tried before the committed one has a strictly larger anchor. */
  lemma BestFitKeepsEarliest(c: Container, placed: seq<Placement>, current: real, item: Item) returns (i: nat)
    requires Search(BestFit, c, placed, current, item).Some?
    ensures var cs := Trials(item, GenerateOrientations(item), CandidateAnchors(placed));
      i < |cs| && cs[i] == Search(BestFit, c, placed, current, item).value &&
      forall j :: 0 <= j < i && Accepts(c, placed, cs[j]) ==> LexLess(cs[i].anchor, cs[j].anchor)
  {
    var cs := Trials(item, GenerateOrientations(item), CandidateAnchors(placed));
    var ok := AcceptedBy(c, placed);
    assert Search(BestFit, c, placed, current, item) == BestOf(ok, cs);
    var k := BestOfSpec(ok, cs);
    i := k;
    forall j | 0 <= j < i && Accepts(c, placed, cs[j]) ensures LexLess(cs[i].anchor, cs[j].anchor) {
      assert ok(cs[j]);
    }
  }

  /** The first-fit anchor loop for one orientation: the first accepted anchor
      ends it. */
  method FirstFitOverAnchors(c: Container, placed: seq<Placement>, item: Item, r: Rotation, d: Dims, anchors: seq<Point>)
    returns (found: Option<Choice>)
    requires d == EffectiveDimensions(item, r)
    ensures found == FirstOf(AcceptedBy(c, placed), Row(item, r, anchors))
  {
    ghost var ok := AcceptedBy(c, placed);
    ghost var row := Row(item, r, anchors);
    found := None;
    var j := 0;
    while j < |anchors| && found.None?
      invariant 0 <= j <= |anchors|
      invariant found == FirstOf(ok, row[..j])
    {
      assert row[..j + 1][..j] == row[..j];
      assert row[j] == Choice(r, d, anchors[j]);
      if CheckPlacementValidity(c, d, anchors[j], placed) {
        found := Some(Choice(r, d, anchors[j]));
      }
      j := j + 1;
    }
    if found.Some? {
      assert row[..j] + row[j..] == row;
      FirstOfKeeps(ok, row[..j], row[j..]);
    } else {
      assert row[..j] == row;
    }
  }

  /** Once a prefix of the orientations yields a pair, the rest cannot change it. */
  lemma FirstOfPrefixDecides(ok: Choice -> bool, item: Item, rots: seq<Rotation>, i: nat, anchors: seq<Point>)
    requires i <= |rots|
    requires FirstOf(ok, Trials(item, rots[..i], anchors)).Some?
    ensures FirstOf(ok, Trials(item, rots, anchors)) == FirstOf(ok, Trials(item, rots[..i], anchors))
  {
    assert rots == rots[..i] + rots[i..];
    TrialsAppend(item, rots[..i], rots[i..], anchors);
    FirstOfKeeps(ok, Trials(item, rots[..i], anchors), Trials(item, rots[i..], anchors));
  }

  /** The first-fit loops: orientations in order, the payload gate, then anchors in
      order; the first accepted pair ends both loops. */
  method FirstFitSearch(c: Container, placed: seq<Placement>, current: real, item: Item) returns (found: Option<Choice>)
    ensures found == Search(FirstFit, c, placed, current, item)
  {
    var rots := GenerateOrientations(item);
    ghost var ok := AcceptedBy(c, placed);
    ghost var all := CandidateAnchors(placed);
    found := None;
    var i := 0;
    while i < |rots| && found.None?
      invariant 0 <= i <= |rots|
      invariant found == (if WithinPayload(c, current, item) then FirstOf(ok, Trials(item, rots[..i], all)) else None)
    {
      var r := rots[i];
      var d := EffectiveDimensions(item, r);
      TrialsPrefix(item, rots, i, all);
      if current + item.weight <= c.maxPayloadKg {
        var anchors := GenerateAnchors(placed);
        FirstOfAfterNone(ok, Trials(item, rots[..i], all), Row(item, r, all));
        found := FirstFitOverAnchors(c, placed, item, r, d, anchors);
      }
      i := i + 1;
    }
    if found.Some? {
      FirstOfPrefixDecides(ok, item, rots, i, all);
    } else {
      assert rots[..i] == rots;
    }
  }

  /** The best-fit anchor loop for one orientation: an accepted anchor replaces the
      best pair so far only when it is strictly smaller. */
  method BestFitOverAnchors(c: Container, placed: seq<Placement>, item: Item, r: Rotation, d: Dims, anchors: seq<Point>,
                            seed: Option<Choice>)
    returns (best: Option<Choice>)
    requires d == EffectiveDimensions(item, r)
    ensures best == BestFrom(AcceptedBy(c, placed), seed, Row(item, r, anchors))
  {
    ghost var ok := AcceptedBy(c, placed);
    ghost var row := Row(item, r, anchors);
    best := seed;
    for j := 0 to |anchors|
      invariant best == BestFrom(ok, seed, row[..j])
    {
      assert row[..j + 1][..j] == row[..j];
      assert row[j] == Choice(r, d, anchors[j]);
      var anchor := anchors[j];
      if CheckPlacementValidity(c, d, anchor, placed) {
        if best.None? || LexLess(anchor, best.value.anchor) {
          best := Some(Choice(r, d, anchor));
        }
      }
    }
    assert row[..|anchors|] == row;
  }

  /** The best-fit loops: every orientation that passes the payload gate and every
      anchor is tried. */
  method BestFitSearch(c: Container, placed: seq<Placement>, current: real, item: Item) returns (best: Option<Choice>)
    ensures best == Search(BestFit, c, placed, current, item)
  {
    var rots := GenerateOrientations(item);
    ghost var ok := AcceptedBy(c, placed);
    ghost var all := CandidateAnchors(placed);
    best := None;
    for i := 0 to |rots|
      invariant best == (if WithinPayload(c, current, item) then BestOf(ok, Trials(item, rots[..i], all)) else None)
    {
      var r := rots[i];
      var d := EffectiveDimensions(item, r);
      TrialsPrefix(item, rots, i, all);
      if current + item.weight <= c.maxPayloadKg {
        var anchors := GenerateAnchors(placed);
        BestFromAppend(ok, None, Trials(item, rots[..i], all), Row(item, r, all));
        best := BestFitOverAnchors(c, placed, item, r, d, anchors, best);
      }
    }
    assert rots[..|rots|] == rots;
  }
}
