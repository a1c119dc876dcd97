/** Unplaced-item reports: the keyed report map each strategy and the pre-filter
    fill (a JavaScript `Map`, which keeps insertion order and keeps a key's position
    when it is set again), and the final consolidation by item name
    (`consolidateFinalUnplacedReport`). */
module Report {
  import opened Util

  /** One line of a report as the user sees it. */
  datatype UnplacedEntry = UnplacedEntry(itemName: string, quantity: int, reason: string)

  /** The value stored under a key of a report map. */
  datatype Tally = Tally(name: string, count: int, reason: string)

  /** A report map as its entries in insertion order. */
  datatype Row = Row(key: string, tally: Tally)

  function KeysOf(rows: seq<Row>): seq<string>
  {
    seq(|rows|, i requires 0 <= i < |rows| => rows[i].key)
  }

  /** Where a key is stored, if it is. */
  function KeyIndex(rows: seq<Row>, key: string): (r: Option<nat>)
    ensures r.Some? ==> r.value < |rows| && rows[r.value].key == key
    ensures r.Some? ==> forall j :: 0 <= j < r.value ==> rows[j].key != key
    ensures r.None? ==> forall j :: 0 <= j < |rows| ==> rows[j].key != key
  {
    if rows == [] then None
    else if rows[0].key == key then Some(0)
    else match KeyIndex(rows[1..], key)
      case Some(i) => Some(i + 1)
      case None => None
  }

  /** `map.get(key)`. */
  function Lookup(rows: seq<Row>, key: string): Option<Tally>
  {
    match KeyIndex(rows, key)
    case Some(i) => Some(rows[i].tally)
    case None => None
  }

  /** What every report write does: take the stored value or a fresh one with this
      name, set its count to 1 and its reason, and store it under the key. */
  function Upsert(rows: seq<Row>, key: string, name: string, reason: string): seq<Row>
  {
    match KeyIndex(rows, key)
    case Some(i) => rows[i := Row(key, Tally(rows[i].tally.name, 1, reason))]
    case None => rows + [Row(key, Tally(name, 1, reason))]
  }

  /** A write stores the new reason with count 1 under its key, keeps the name first
      stored there, leaves every other key's value alone, and adds the key at the end
      only when it is new. */
  lemma UpsertSpec(rows: seq<Row>, key: string, name: string, reason: string)
    ensures var r := Upsert(rows, key, name, reason);
      Lookup(r, key) == Some(Tally(if Lookup(rows, key).Some? then Lookup(rows, key).value.name else name, 1, reason))
    ensures var r := Upsert(rows, key, name, reason);
      forall other :: other != key ==> Lookup(r, other) == Lookup(rows, other)
    ensures KeysOf(Upsert(rows, key, name, reason)) ==
      if key in KeysOf(rows) then KeysOf(rows) else KeysOf(rows) + [key]
  {
    var r := Upsert(rows, key, name, reason);
    match KeyIndex(rows, key)
    case Some(i) =>
      assert KeysOf(r) == KeysOf(rows);
      forall other | other != key ensures Lookup(r, other) == Lookup(rows, other) {
        KeyIndexUnchanged(rows, i, r[i], other);
      }
      assert key in KeysOf(rows) by { assert KeysOf(rows)[i] == key; }
      KeyIndexFirst(r, i, key);
    case None =>
      assert KeysOf(r) == KeysOf(rows) + [key];
      assert key !in KeysOf(rows);
      forall other | other != key ensures Lookup(r, other) == Lookup(rows, other) {
        KeyIndexSnoc(rows, r[|rows|], other);
      }
      KeyIndexSnoc(rows, r[|rows|], key);
  }

  /** The stored position of a key is its first occurrence. */
  lemma {:induction false} KeyIndexFirst(rows: seq<Row>, i: nat, key: string)
    requires i < |rows| && rows[i].key == key
    requires forall j :: 0 <= j < i ==> rows[j].key != key
    ensures KeyIndex(rows, key) == Some(i)
  {
    if i > 0 {
      KeyIndexFirst(rows[1..], i - 1, key);
    }
  }

  /** Replacing a row with one under the same key does not move any other key. */
  lemma {:induction false} KeyIndexUnchanged(rows: seq<Row>, i: nat, row: Row, other: string)
    requires i < |rows| && row.key == rows[i].key && other != row.key
    ensures KeyIndex(rows[i := row], other) == KeyIndex(rows, other)
    ensures Lookup(rows[i := row], other) == Lookup(rows, other)
  {
    if rows[0].key != other && i > 0 {
      assert rows[i := row][1..] == rows[1..][i - 1 := row];
      KeyIndexUnchanged(rows[1..], i - 1, row, other);
    }
  }

  /** Appending a row does not move a key already present. */
  lemma {:induction false} KeyIndexSnoc(rows: seq<Row>, row: Row, other: string)
    requires forall j :: 0 <= j < |rows| ==> rows[j].key != row.key
    ensures Lookup(rows + [row], other) == if other == row.key then Some(row.tally) else Lookup(rows, other)
  {
    if rows != [] {
      assert (rows + [row])[1..] == rows[1..] + [row];
      KeyIndexSnoc(rows[1..], row, other);
    }
  }

  /** `forEach` over the map values, in insertion order. */
  function Values(rows: seq<Row>): seq<UnplacedEntry>
  {
    seq(|rows|, i requires 0 <= i < |rows| => UnplacedEntry(rows[i].tally.name, rows[i].tally.count, rows[i].tally.reason))
  }

  // ---------------------------------------------------------------------------
  // Consolidation by item name

  /** An entry of the consolidation record: the summed quantity and the set of
      reasons, kept in the order they were first added. */
  datatype Group = Group(itemName: string, quantity: int, reasons: seq<string>)

  function GroupNames(gs: seq<Group>): seq<string>
  {
    seq(|gs|, i requires 0 <= i < |gs| => gs[i].itemName)
  }

  /** Where the record holds a name, if it does. */
  function GroupIndex(gs: seq<Group>, name: string): (r: Option<nat>)
    ensures r.Some? ==> r.value < |gs| && gs[r.value].itemName == name
    ensures r.None? ==> name !in GroupNames(gs)
  {
    if gs == [] then None
    else if gs[|gs| - 1].itemName == name then Some(|gs| - 1)
    else
      var r := GroupIndex(gs[..|gs| - 1], name);
      assert GroupNames(gs) == GroupNames(gs[..|gs| - 1]) + [gs[|gs| - 1].itemName];
      r
  }

  /** One step of the consolidation loop. */
  function AddEntry(gs: seq<Group>, e: UnplacedEntry): seq<Group>
  {
    match GroupIndex(gs, e.itemName)
    case None => gs + [Group(e.itemName, e.quantity, [e.reason])]
    case Some(i) =>
      var g := gs[i];
      gs[i := Group(g.itemName, g.quantity + e.quantity, if e.reason in g.reasons then g.reasons else g.reasons + [e.reason])]
  }

  function Groups(entries: seq<UnplacedEntry>): seq<Group>
  {
    if entries == [] then [] else AddEntry(Groups(entries[..|entries| - 1]), entries[|entries| - 1])
  }

  function ToEntry(g: Group): UnplacedEntry
  {
    UnplacedEntry(g.itemName, g.quantity, Join(g.reasons, "; "))
  }

  function Consolidate(entries: seq<UnplacedEntry>): seq<UnplacedEntry>
  {
    var gs := Groups(entries);
    seq(|gs|, i requires 0 <= i < |gs| => ToEntry(gs[i]))
  }

  // Independent description of the consolidated report.

  function NamesOf(entries: seq<UnplacedEntry>): seq<string>
  {
    seq(|entries|, i requires 0 <= i < |entries| => entries[i].itemName)
  }

  /** Total quantity reported under a name. */
  function QuantityOf(entries: seq<UnplacedEntry>, name: string): int
  {
    if entries == [] then 0
    else
      var e := entries[|entries| - 1];
      QuantityOf(entries[..|entries| - 1], name) + (if e.itemName == name then e.quantity else 0)
  }

  /** Reasons reported under a name, in report order, repeats included. */
  function ReasonsOf(entries: seq<UnplacedEntry>, name: string): seq<string>
  {
    if entries == [] then []
    else
      var e := entries[|entries| - 1];
      ReasonsOf(entries[..|entries| - 1], name) + (if e.itemName == name then [e.reason] else [])
  }

  function TotalQuantity(entries: seq<UnplacedEntry>): int
  {
    if entries == [] then 0 else TotalQuantity(entries[..|entries| - 1]) + entries[|entries| - 1].quantity
  }

  lemma {:induction false} AbsentName(entries: seq<UnplacedEntry>, name: string)
    requires name !in NamesOf(entries)
    ensures QuantityOf(entries, name) == 0 && ReasonsOf(entries, name) == []
  {
    if entries != [] {
      var init := entries[..|entries| - 1];
      assert NamesOf(entries) == NamesOf(init) + [entries[|entries| - 1].itemName];
      AbsentName(init, name);
    }
  }

  /** The record built so far: its names in first-seen order, and under each name
      the summed quantity and the distinct reasons in first-seen order. */
  predicate GroupsDescribe(gs: seq<Group>, entries: seq<UnplacedEntry>)
  {
    GroupNames(gs) == Dedup(NamesOf(entries)) &&
    forall i :: 0 <= i < |gs| ==>
      gs[i].quantity == QuantityOf(entries, gs[i].itemName) &&
      gs[i].reasons == Dedup(ReasonsOf(entries, gs[i].itemName))
  }

  /** A loop step keeps the record's names as the distinct names seen so far. */
  lemma AddEntryNames(gs: seq<Group>, e: UnplacedEntry)
    ensures GroupNames(AddEntry(gs, e)) ==
      if e.itemName in GroupNames(gs) then GroupNames(gs) else GroupNames(gs) + [e.itemName]
  {
    match GroupIndex(gs, e.itemName)
    case None =>
      assert GroupNames(AddEntry(gs, e)) == GroupNames(gs) + [e.itemName];
    case Some(k) =>
      assert GroupNames(gs)[k] == e.itemName;
      assert GroupNames(AddEntry(gs, e)) == GroupNames(gs);
  }

  /** A loop step touches only the group of the entry's name. */
  lemma AddEntryOthers(gs: seq<Group>, e: UnplacedEntry, i: nat)
    requires i < |gs| && gs[i].itemName != e.itemName
    ensures i < |AddEntry(gs, e)| && AddEntry(gs, e)[i] == gs[i]
  {
  }

  /** A loop step adds the entry to its name's group: a new group at the end when the
      name is new, the existing group otherwise. */
  lemma AddEntryHit(gs: seq<Group>, e: UnplacedEntry, i: nat)
    requires Distinct(GroupNames(gs))
    requires i < |AddEntry(gs, e)| && (i >= |gs| || gs[i].itemName == e.itemName)
    ensures AddEntry(gs, e)[i].itemName == e.itemName
    ensures e.itemName !in GroupNames(gs) ==> AddEntry(gs, e)[i] == Group(e.itemName, e.quantity, [e.reason])
    ensures e.itemName in GroupNames(gs) ==>
      (i < |gs| &&
       AddEntry(gs, e)[i] == Group(e.itemName, gs[i].quantity + e.quantity,
         if e.reason in gs[i].reasons then gs[i].reasons else gs[i].reasons + [e.reason]))
  {
    assert i < |gs| ==> GroupNames(gs)[i] == gs[i].itemName;
    match GroupIndex(gs, e.itemName)
    case None =>
    case Some(k) =>
      assert GroupNames(gs)[k] == e.itemName;
  }

  lemma {:induction false} GroupsNames(entries: seq<UnplacedEntry>)
    ensures GroupNames(Groups(entries)) == Dedup(NamesOf(entries))
  {
    if entries != [] {
      var init := entries[..|entries| - 1];
      var e := entries[|entries| - 1];
      GroupsNames(init);
      assert NamesOf(entries) == NamesOf(init) + [e.itemName];
      DedupSnoc(NamesOf(init), e.itemName);
      DedupSameElements(NamesOf(init));
      AddEntryNames(Groups(init), e);
    }
  }

  /** A name seen for the first time gets a group holding just this entry. */
  lemma AddEntryNewName(gs: seq<Group>, init: seq<UnplacedEntry>, e: UnplacedEntry, g: Group)
    requires e.itemName !in NamesOf(init)
    requires g == Group(e.itemName, e.quantity, [e.reason])
    ensures g.quantity == QuantityOf(init + [e], e.itemName)
    ensures g.reasons == Dedup(ReasonsOf(init + [e], e.itemName))
  {
    var entries := init + [e];
    assert entries[..|entries| - 1] == init;
    AbsentName(init, e.itemName);
    DedupSnoc([], e.reason);
  }

  /** A name seen before has this entry's quantity added and its reason appended
      unless already listed. */
  lemma AddEntryKnownName(g: Group, init: seq<UnplacedEntry>, e: UnplacedEntry)
    requires g.itemName == e.itemName
    requires g.quantity == QuantityOf(init, e.itemName)
    requires g.reasons == Dedup(ReasonsOf(init, e.itemName))
    ensures g.quantity + e.quantity == QuantityOf(init + [e], e.itemName)
    ensures (if e.reason in g.reasons then g.reasons else g.reasons + [e.reason]) ==
      Dedup(ReasonsOf(init + [e], e.itemName))
  {
    var entries := init + [e];
    assert entries[..|entries| - 1] == init;
    DedupSnoc(ReasonsOf(init, e.itemName), e.reason);
    DedupSameElements(ReasonsOf(init, e.itemName));
  }

  /** An entry leaves the totals of every other name unchanged. */
  lemma OtherNameUnchanged(init: seq<UnplacedEntry>, e: UnplacedEntry, name: string)
    requires name != e.itemName
    ensures QuantityOf(init + [e], name) == QuantityOf(init, name)
    ensures ReasonsOf(init + [e], name) == ReasonsOf(init, name)
  {
    var entries := init + [e];
    assert entries[..|entries| - 1] == init;
  }

  /** The quantity and reasons under the entry's own name after one loop step. */
  lemma AddEntryHitDescribes(gs: seq<Group>, init: seq<UnplacedEntry>, e: UnplacedEntry, i: nat)
    requires GroupsDescribe(gs, init)
    requires i < |AddEntry(gs, e)| && (i >= |gs| || gs[i].itemName == e.itemName)
    ensures AddEntry(gs, e)[i].quantity == QuantityOf(init + [e], e.itemName)
    ensures AddEntry(gs, e)[i].reasons == Dedup(ReasonsOf(init + [e], e.itemName))
  {
    DedupDistinct(NamesOf(init));
    DedupSameElements(NamesOf(init));
    AddEntryHit(gs, e, i);
    if e.itemName in GroupNames(gs) {
      AddEntryKnownName(gs[i], init, e);
    } else {
      AddEntryNewName(gs, init, e, AddEntry(gs, e)[i]);
    }
  }

  /** One loop step keeps the record describing the entries seen so far. */
  lemma AddEntryDescribes(gs: seq<Group>, init: seq<UnplacedEntry>, e: UnplacedEntry)
    requires GroupsDescribe(gs, init)
    ensures GroupsDescribe(AddEntry(gs, e), init + [e])
  {
    var entries := init + [e];
    assert entries[..|entries| - 1] == init;
    assert NamesOf(entries) == NamesOf(init) + [e.itemName];
    DedupSnoc(NamesOf(init), e.itemName);
    DedupSameElements(NamesOf(init));
    AddEntryNames(gs, e);
    var r := AddEntry(gs, e);
    forall i | 0 <= i < |r|
      ensures r[i].quantity == QuantityOf(entries, r[i].itemName)
      ensures r[i].reasons == Dedup(ReasonsOf(entries, r[i].itemName))
    {
      if i < |gs| && gs[i].itemName != e.itemName {
        AddEntryOthers(gs, e, i);
        OtherNameUnchanged(init, e, gs[i].itemName);
      } else {
        DedupDistinct(NamesOf(init));
        AddEntryHit(gs, e, i);
        AddEntryHitDescribes(gs, init, e, i);
      }
    }
  }

  lemma {:induction false} GroupsSpec(entries: seq<UnplacedEntry>)
    ensures GroupsDescribe(Groups(entries), entries)
  {
    if entries != [] {
      var init := entries[..|entries| - 1];
      GroupsSpec(init);
      assert init + [entries[|entries| - 1]] == entries;
      AddEntryDescribes(Groups(init), init, entries[|entries| - 1]);
    }
  }

  /** The consolidated report has one entry per reported item name, in first-seen
      order; each carries the sum of that name's quantities and that name's distinct
      reasons joined by "; " in first-seen order. */
  lemma ConsolidateSpec(entries: seq<UnplacedEntry>)
    ensures NamesOf(Consolidate(entries)) == Dedup(NamesOf(entries))
    ensures Distinct(NamesOf(Consolidate(entries)))
    ensures forall i :: 0 <= i < |Consolidate(entries)| ==>
      var o := Consolidate(entries)[i];
      o.quantity == QuantityOf(entries, o.itemName) &&
      o.reason == Join(Dedup(ReasonsOf(entries, o.itemName)), "; ")
  {
    GroupsSpec(entries);
    DedupDistinct(NamesOf(entries));
    var gs := Groups(entries);
    assert NamesOf(Consolidate(entries)) == GroupNames(gs);
  }

  function TotalOfGroups(gs: seq<Group>): int
  {
    if gs == [] then 0 else TotalOfGroups(gs[..|gs| - 1]) + gs[|gs| - 1].quantity
  }

  lemma {:induction false} TotalOfGroupsUpdate(gs: seq<Group>, i: nat, g: Group)
    requires i < |gs|
    ensures TotalOfGroups(gs[i := g]) == TotalOfGroups(gs) - gs[i].quantity + g.quantity
  {
    if i < |gs| - 1 {
      assert gs[i := g][..|gs| - 1] == gs[..|gs| - 1][i := g];
      TotalOfGroupsUpdate(gs[..|gs| - 1], i, g);
    } else {
      assert gs[i := g][..|gs| - 1] == gs[..|gs| - 1];
    }
  }

  lemma {:induction false} TotalOfConsolidated(gs: seq<Group>)
    ensures TotalQuantity(seq(|gs|, i requires 0 <= i < |gs| => ToEntry(gs[i]))) == TotalOfGroups(gs)
  {
    if gs != [] {
      var init := gs[..|gs| - 1];
      var s := seq(|gs|, i requires 0 <= i < |gs| => ToEntry(gs[i]));
      assert s[..|s| - 1] == seq(|init|, i requires 0 <= i < |init| => ToEntry(init[i]));
      TotalOfConsolidated(init);
    }
  }

  /** A loop step adds the entry's quantity to the record's total. */
  lemma AddEntryTotal(gs: seq<Group>, e: UnplacedEntry)
    ensures TotalOfGroups(AddEntry(gs, e)) == TotalOfGroups(gs) + e.quantity
  {
    match GroupIndex(gs, e.itemName)
    case None =>
      assert (gs + [Group(e.itemName, e.quantity, [e.reason])])[..|gs|] == gs;
    case Some(k) =>
      var g := gs[k];
      TotalOfGroupsUpdate(gs, k, Group(g.itemName, g.quantity + e.quantity,
        if e.reason in g.reasons then g.reasons else g.reasons + [e.reason]));
  }

  lemma {:induction false} GroupsKeepTotal(entries: seq<UnplacedEntry>)
    ensures TotalOfGroups(Groups(entries)) == TotalQuantity(entries)
  {
    if entries != [] {
      GroupsKeepTotal(entries[..|entries| - 1]);
      AddEntryTotal(Groups(entries[..|entries| - 1]), entries[|entries| - 1]);
    }
  }

  /** Consolidation neither loses nor adds quantity. */
  lemma ConsolidateKeepsTotal(entries: seq<UnplacedEntry>)
    ensures TotalQuantity(Consolidate(entries)) == TotalQuantity(entries)
  {
    GroupsKeepTotal(entries);
    TotalOfConsolidated(Groups(entries));
  }

  /** The body of the `forEach`: creates the name's record when missing, then adds
      the quantity and the reason to it. */
  method AddToRecord(groups: seq<Group>, e: UnplacedEntry) returns (r: seq<Group>)
    ensures r == AddEntry(groups, e)
  {
    r := groups;
    var idx := GroupIndex(r, e.itemName);
    if idx.None? {
      r := r + [Group(e.itemName, 0, [])];
      idx := Some(|r| - 1);
    }
    var k := idx.value;
    var g := r[k];
    var reasons := if e.reason in g.reasons then g.reasons else g.reasons + [e.reason];
    r := r[k := Group(g.itemName, g.quantity + e.quantity, reasons)];
    if GroupIndex(groups, e.itemName).None? {
      assert [] + [e.reason] == [e.reason];
    }
  }

  /** The names every JavaScript object answers to through `Object.prototype`. All
      of them are truthy, so `!consolidated[key]` is false for them and no record
      is created: the loop then adds to the inherited value, reads its missing
      `reasons` and the call to `add` throws a TypeError. */
  predicate InheritedName(name: string)
  {
    name in {"constructor", "__proto__", "__defineGetter__", "__defineSetter__", "__lookupGetter__",
             "__lookupSetter__", "hasOwnProperty", "isPrototypeOf", "propertyIsEnumerable",
             "toString", "toLocaleString", "valueOf"}
  }

  /** Consolidation throws exactly when some entry names an inherited property. */
  predicate ConsolidationThrows(entries: seq<UnplacedEntry>)
  {
    exists i :: 0 <= i < |entries| && InheritedName(entries[i].itemName)
  }

  /** Whether consolidation throws depends only on the names reported. */
  lemma ThrowsOnName(entries: seq<UnplacedEntry>)
    ensures ConsolidationThrows(entries) <==> exists name :: name in NamesOf(entries) && InheritedName(name)
  {
    if ConsolidationThrows(entries) {
      var i :| 0 <= i < |entries| && InheritedName(entries[i].itemName);
      assert NamesOf(entries)[i] == entries[i].itemName;
    }
  }

  /** The `forEach` over the entries: each is added to the record under its name.
      An entry whose name is inherited from `Object.prototype` makes it throw,
      which is `None` here. */
  method CollectGroups(entries: seq<UnplacedEntry>) returns (groups: Option<seq<Group>>)
    ensures groups.None? <==> ConsolidationThrows(entries)
    ensures groups.Some? ==> groups.value == Groups(entries)
  {
    var gs: seq<Group> := [];
    for i := 0 to |entries|
      invariant gs == Groups(entries[..i])
      invariant forall j :: 0 <= j < i ==> !InheritedName(entries[j].itemName)
    {
      if InheritedName(entries[i].itemName) {
        return None;
      }
      assert entries[..i + 1][..i] == entries[..i];
      gs := AddToRecord(gs, entries[i]);
    }
    assert entries[..|entries|] == entries;
    return Some(gs);
  }

  /** `Object.values(consolidated).map(...)`: each record with its reasons joined. */
  method ListGroups(groups: seq<Group>) returns (values: seq<UnplacedEntry>)
    ensures |values| == |groups|
    ensures forall i :: 0 <= i < |groups| ==> values[i] == ToEntry(groups[i])
  {
    values := [];
    for i := 0 to |groups|
      invariant |values| == i
      invariant forall j :: 0 <= j < i ==> values[j] == ToEntry(groups[j])
    {
      values := values + [ToEntry(groups[i])];
    }
  }

  /** The whole consolidation: it throws (`None`) exactly when some entry's name is
      inherited, and otherwise lists one entry per name as `Consolidate` does. */
  method ConsolidateReport(entries: seq<UnplacedEntry>) returns (report: Option<seq<UnplacedEntry>>)
    ensures report.None? <==> ConsolidationThrows(entries)
    ensures report.Some? ==> report.value == Consolidate(entries)
  {
    var groups := CollectGroups(entries);
    if groups.None? {
      return None;
    }
    var values := ListGroups(groups.value);
    return Some(values);
  }
}
