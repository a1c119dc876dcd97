/** Reading loosely typed values back into item definitions: the spreadsheet's
    boolean cells (`parseBooleanFlexible`) and the item cache kept in the browser's
    local storage (`loadItemsFromLocalStorage`, `saveItemsToLocalStorage`). */
module Storage {
  import opened Util
  import opened Geometry

  /** A JavaScript value as `JSON.parse` or a spreadsheet cell produces it. */
  datatype JsValue =
    | JBool(b: bool)
    | JString(s: string)
    | JNumber(n: real)
    | JNull
    | JUndefined
    | JObject(fields: map<string, JsValue>)
    | JArray(elems: seq<JsValue>)

  /** `typeof v === 'object' && v !== null`: arrays are objects too. */
  predicate IsObject(v: JsValue)
  {
    v.JObject? || v.JArray?
  }

  /** Property access: a missing property, or any property of a non-object, reads
      as `undefined`. */
  function Get(v: JsValue, key: string): JsValue
  {
    if v.JObject? && key in v.fields then v.fields[key] else JUndefined
  }

  // ---------------------------------------------------------------------------
  // parseBooleanFlexible

  /** The characters `String.prototype.trim` removes: ECMAScript white space and
      line terminators. */
  predicate IsJsSpace(c: char)
  {
    var k := c as int;
    (0x09 <= k <= 0x0D) || k == 0x20 || k == 0xA0 || k == 0x1680 || (0x2000 <= k <= 0x200A)
    || k == 0x2028 || k == 0x2029 || k == 0x202F || k == 0x205F || k == 0x3000 || k == 0xFEFF
  }

  predicate AllSpace(s: string)
  {
    forall i :: 0 <= i < |s| ==> IsJsSpace(s[i])
  }

  function TrimStart(s: string): string
  {
    if s != [] && IsJsSpace(s[0]) then TrimStart(s[1..]) else s
  }

  function TrimEnd(s: string): string
  {
    if s != [] && IsJsSpace(s[|s| - 1]) then TrimEnd(s[..|s| - 1]) else s
  }

  function Trim(s: string): string
  {
    TrimEnd(TrimStart(s))
  }

  function LowerChar(c: char): char
  {
    if 'A' <= c <= 'Z' then (c as int + 32) as char else c
  }

  /** `toLowerCase` on ASCII letters. */
  function Lower(s: string): string
  {
    seq(|s|, i requires 0 <= i < |s| => LowerChar(s[i]))
  }

  /** A boolean cell of an imported spreadsheet row. A string counts as true when,
      lower-cased and trimmed, it is "true", "yes" or "1"; the spellings "false",
      "no" and "0", like every other string, give false. A number is true exactly
      when it is 1; any other value is false. */
  function ParseBooleanFlexible(v: JsValue): bool
  {
    match v
    case JBool(b) => b
    case JString(s) =>
      var t := Trim(Lower(s));
      t == "true" || t == "yes" || t == "1"
    case JNumber(n) => n == 1.0
    case _ => false
  }

  /** The template's "TRUE"/"FALSE" and the other accepted spellings ("Yes"/"No",
      native booleans, the numbers 1/0) read back to the boolean they stand for. */
  lemma ParseBooleanTemplate(b: bool)
    ensures ParseBooleanFlexible(JString(if b then "TRUE" else "FALSE")) == b
    ensures ParseBooleanFlexible(JString(if b then "Yes" else "No")) == b
    ensures ParseBooleanFlexible(JBool(b)) == b
    ensures ParseBooleanFlexible(JNumber(if b then 1.0 else 0.0)) == b
  {
    var up := if b then "TRUE" else "FALSE";
    var low := if b then "true" else "false";
    assert Lower(up) == low;
    assert TrimStart(low) == low;
    assert TrimEnd(low) == low;
    var yn := if b then "Yes" else "No";
    var ynLow := if b then "yes" else "no";
    assert Lower(yn) == ynLow;
    assert TrimStart(ynLow) == ynLow;
    assert TrimEnd(ynLow) == ynLow;
  }

  lemma {:induction false} TrimStartSpace(w: string, s: string)
    requires AllSpace(w)
    ensures TrimStart(w + s) == TrimStart(s)
  {
    if w != [] {
      assert (w + s)[0] == w[0] && IsJsSpace(w[0]);
      assert (w + s)[1..] == w[1..] + s;
      assert AllSpace(w[1..]) by {
        forall i | 0 <= i < |w[1..]| ensures IsJsSpace(w[1..][i]) {
          assert w[1..][i] == w[i + 1];
        }
      }
      TrimStartSpace(w[1..], s);
    } else {
      assert w + s == s;
    }
  }

  lemma {:induction false} TrimEndSpace(s: string, w: string)
    requires AllSpace(w)
    ensures TrimEnd(s + w) == TrimEnd(s)
  {
    if w != [] {
      assert (s + w)[..|s + w| - 1] == s + w[..|w| - 1];
      TrimEndSpace(s, w[..|w| - 1]);
    } else {
      assert s + w == s;
    }
  }

  /** Trailing white space survives TrimStart unless nothing else is left. */
  lemma {:induction false} TrimStartKeepsTail(s: string, w: string)
    requires AllSpace(w)
    ensures TrimStart(s + w) == if TrimStart(s) == [] then [] else TrimStart(s) + w
  {
    if s == [] {
      assert s + w == w;
      TrimStartSpace(w, []);
      assert w + [] == w;
    } else if IsJsSpace(s[0]) {
      assert (s + w)[1..] == s[1..] + w;
      TrimStartKeepsTail(s[1..], w);
    }
  }

  /** White space around a value changes neither its trimmed form nor, since
      lower-casing keeps white space, the parsed boolean. */
  lemma TrimPadded(w1: string, s: string, w2: string)
    requires AllSpace(w1) && AllSpace(w2)
    ensures Trim(w1 + s + w2) == Trim(s)
  {
    TrimStartSpace(w1, s + w2);
    assert w1 + s + w2 == w1 + (s + w2);
    TrimStartKeepsTail(s, w2);
    if TrimStart(s) != [] {
      TrimEndSpace(TrimStart(s), w2);
    }
  }

  lemma {:induction false} LowerSpace(w: string)
    requires AllSpace(w)
    ensures Lower(w) == w
  {
  }

  lemma ParseBooleanPadded(w1: string, s: string, w2: string)
    requires AllSpace(w1) && AllSpace(w2)
    ensures ParseBooleanFlexible(JString(w1 + s + w2)) == ParseBooleanFlexible(JString(s))
  {
    LowerSpace(w1);
    LowerSpace(w2);
    assert Lower(w1 + s + w2) == Lower(w1) + Lower(s) + Lower(w2);
    TrimPadded(w1, Lower(s), w2);
  }

  /** Letter case never matters: a string and its lower-cased form parse alike. */
  lemma ParseBooleanIgnoresCase(s: string)
    ensures ParseBooleanFlexible(JString(s)) == ParseBooleanFlexible(JString(Lower(s)))
  {
    assert Lower(Lower(s)) == Lower(s);
  }

  // ---------------------------------------------------------------------------
  // The item cache

  predicate Positive(v: JsValue)
  {
    v.JNumber? && v.n > 0.0
  }

  /** The shape test applied to every cached entry before it becomes an item. */
  predicate IsValidStoredItem(raw: JsValue)
  {
    var prefs := Get(raw, "rotationPreferences");
    var color := Get(raw, "color");
    IsObject(raw)
    && Get(raw, "id").JString?
    && Get(raw, "name").JString?
    && (Get(raw, "shape") == JString("box") || Get(raw, "shape") == JString("cylinder"))
    && Positive(Get(raw, "length"))
    && Positive(Get(raw, "width"))
    && Positive(Get(raw, "height"))
    && Get(raw, "weight").JNumber? && Get(raw, "weight").n >= 0.0
    && Positive(Get(raw, "quantity"))
    && Get(raw, "nonStackable").JBool?
    && (color.JString? || color.JUndefined?)
    && IsObject(prefs)
    && Get(prefs, "allowX").JBool?
    && Get(prefs, "allowY").JBool?
    && Get(prefs, "allowZ").JBool?
  }

  /** How many times `for (let i = 0; i < q; i++)` runs for a positive q. */
  function LoopCount(q: real): (k: int)
    requires q > 0.0
    ensures k >= 1 && (k - 1) as real < q <= k as real
  {
    if q.Floor as real == q then q.Floor else q.Floor + 1
  }

  /** The item a valid cached entry stands for. */
  function ToItem(raw: JsValue): (it: Item)
    requires IsValidStoredItem(raw)
    ensures it.length > 0.0 && it.width > 0.0 && it.height > 0.0
    ensures it.weight >= 0.0 && it.quantity >= 1
    ensures it.id == Get(raw, "id").s && it.name == Get(raw, "name").s
  {
    var prefs := Get(raw, "rotationPreferences");
    var color := Get(raw, "color");
    Item(
      Get(raw, "id").s,
      Get(raw, "name").s,
      if Get(raw, "shape") == JString("box") then Box else Cylinder,
      Get(raw, "length").n,
      Get(raw, "width").n,
      Get(raw, "height").n,
      Get(raw, "weight").n,
      LoopCount(Get(raw, "quantity").n),
      Get(raw, "nonStackable").b,
      if color.JString? then Some(color.s) else None,
      RotationPreferences(Get(prefs, "allowX").b, Get(prefs, "allowY").b, Get(prefs, "allowZ").b))
  }

  /** The valid entries of a cached array, as items, in order. */
  function StoredItems(parsed: seq<JsValue>): seq<Item>
  {
    if parsed == [] then []
    else
      var last := parsed[|parsed| - 1];
      StoredItems(parsed[..|parsed| - 1]) + (if IsValidStoredItem(last) then [ToItem(last)] else [])
  }

  /** The filtering loop: keeps the valid entries and asks for the cache to be
      rewritten when any entry was dropped. */
  method FilterStoredItems(parsed: seq<JsValue>) returns (valid: seq<Item>, rewrite: bool)
    ensures valid == StoredItems(parsed)
    ensures rewrite <==> exists i :: 0 <= i < |parsed| && !IsValidStoredItem(parsed[i])
  {
    valid := [];
    for i := 0 to |parsed|
      invariant valid == StoredItems(parsed[..i])
    {
      assert parsed[..i + 1][..i] == parsed[..i];
      if IsValidStoredItem(parsed[i]) {
        valid := valid + [ToItem(parsed[i])];
      }
    }
    assert parsed[..|parsed|] == parsed;
    StoredItemsDropped(parsed);
    rewrite := |valid| != |parsed|;
  }

  /** The filter keeps every entry exactly when every entry is valid. */
  lemma {:induction false} StoredItemsDropped(parsed: seq<JsValue>)
    ensures |StoredItems(parsed)| <= |parsed|
    ensures |StoredItems(parsed)| == |parsed| <==> forall i :: 0 <= i < |parsed| ==> IsValidStoredItem(parsed[i])
  {
    if parsed != [] {
      var init := parsed[..|parsed| - 1];
      StoredItemsDropped(init);
      if forall i :: 0 <= i < |parsed| ==> IsValidStoredItem(parsed[i]) {
        assert forall i :: 0 <= i < |init| ==> IsValidStoredItem(init[i]) by {
          forall i | 0 <= i < |init| ensures IsValidStoredItem(init[i]) {
            assert init[i] == parsed[i];
          }
        }
      } else {
        var i :| 0 <= i < |parsed| && !IsValidStoredItem(parsed[i]);
        if i < |init| {
          assert init[i] == parsed[i];
        }
      }
    }
  }

  /** What `localStorage.getItem` gave: nothing (null or the empty string), text
      that `JSON.parse` rejects, or a parsed value. */
  datatype Cache = NoEntry | Unparsable | Parsed(value: JsValue)

  /** What loading does to the stored cache afterwards. */
  datatype CacheAction = Untouched | Cleared | Rewritten

  /** `loadItemsFromLocalStorage`: returns the item list and the cache action. A
      parse failure or a non-array clears the cache and leaves the list as it was;
      an array replaces the list by its valid entries and rewrites the cache when
      any entry was dropped. */
  method LoadItems(cache: Cache, items: seq<Item>) returns (loaded: seq<Item>, action: CacheAction)
    ensures !(cache.Parsed? && cache.value.JArray?) ==> loaded == items
    ensures cache.NoEntry? ==> action == Untouched
    ensures cache.Unparsable? ==> action == Cleared
    ensures cache.Parsed? && !cache.value.JArray? ==> action == Cleared
    ensures cache.Parsed? && cache.value.JArray? ==>
      loaded == StoredItems(cache.value.elems) && action != Cleared
      && (action == Rewritten <==> |loaded| != |cache.value.elems|)
  {
    loaded, action := items, Untouched;
    match cache {
      case NoEntry =>
      case Unparsable =>
        action := Cleared;
      case Parsed(v) =>
        if v.JArray? {
          var rewrite;
          loaded, rewrite := FilterStoredItems(v.elems);
          StoredItemsDropped(v.elems);
          if rewrite {
            action := Rewritten;
          }
        } else {
          action := Cleared;
        }
    }
  }

  // ---------------------------------------------------------------------------
  // Saving

  /** `JSON.stringify` of rotation preferences, as `JSON.parse` reads it back. */
  function PreferencesToJson(p: RotationPreferences): JsValue
  {
    JObject(map["allowX" := JBool(p.allowX), "allowY" := JBool(p.allowY), "allowZ" := JBool(p.allowZ)])
  }

  /** `JSON.stringify` of an item, as `JSON.parse` reads it back: an absent colour
      is `undefined` and therefore omitted. */
  function ItemToJson(it: Item): JsValue
  {
    var fields := map[
      "id" := JString(it.id),
      "name" := JString(it.name),
      "shape" := JString(if it.shape == Box then "box" else "cylinder"),
      "length" := JNumber(it.length),
      "width" := JNumber(it.width),
      "height" := JNumber(it.height),
      "weight" := JNumber(it.weight),
      "quantity" := JNumber(it.quantity as real),
      "nonStackable" := JBool(it.nonStackable),
      "rotationPreferences" := PreferencesToJson(it.rotationPreferences)];
    JObject(if it.color.Some? then fields["color" := JString(it.color.value)] else fields)
  }

  /** `saveItemsToLocalStorage`: the cached value of an item list. */
  function SaveItems(items: seq<Item>): JsValue
  {
    JArray(seq(|items|, i requires 0 <= i < |items| => ItemToJson(items[i])))
  }

  /** An item the entry form accepts: positive dimensions and quantity, a
      non-negative weight. */
  predicate Storable(it: Item)
  {
    it.length > 0.0 && it.width > 0.0 && it.height > 0.0 && it.weight >= 0.0 && it.quantity >= 1
  }

  lemma SavedPreferences(p: RotationPreferences)
    ensures Get(PreferencesToJson(p), "allowX") == JBool(p.allowX)
    ensures Get(PreferencesToJson(p), "allowY") == JBool(p.allowY)
    ensures Get(PreferencesToJson(p), "allowZ") == JBool(p.allowZ)
  {
  }

  /** The properties of a saved item, a few at a time. */
  lemma SavedLabels(it: Item)
    ensures Get(ItemToJson(it), "id") == JString(it.id)
    ensures Get(ItemToJson(it), "name") == JString(it.name)
    ensures Get(ItemToJson(it), "shape") == JString(if it.shape == Box then "box" else "cylinder")
  {
  }

  lemma SavedMeasures(it: Item)
    ensures Get(ItemToJson(it), "length") == JNumber(it.length)
    ensures Get(ItemToJson(it), "width") == JNumber(it.width)
    ensures Get(ItemToJson(it), "height") == JNumber(it.height)
    ensures Get(ItemToJson(it), "weight") == JNumber(it.weight)
  {
  }

  lemma SavedOptions(it: Item)
    ensures Get(ItemToJson(it), "quantity") == JNumber(it.quantity as real)
    ensures Get(ItemToJson(it), "nonStackable") == JBool(it.nonStackable)
    ensures Get(ItemToJson(it), "color") == if it.color.Some? then JString(it.color.value) else JUndefined
    ensures Get(ItemToJson(it), "rotationPreferences") == PreferencesToJson(it.rotationPreferences)
  {
  }

  /** A saved item passes the load-time shape test and is restored unchanged. */
  lemma SavedItemRestores(it: Item)
    requires Storable(it)
    ensures IsValidStoredItem(ItemToJson(it)) && ToItem(ItemToJson(it)) == it
  {
    SavedLabels(it);
    SavedMeasures(it);
    SavedOptions(it);
    SavedPreferences(it.rotationPreferences);
    assert LoopCount(it.quantity as real) == it.quantity;
  }

  /** Loading one more valid entry appends its item. */
  lemma StoredItemsSnoc(parsed: seq<JsValue>, x: JsValue, init: seq<Item>, last: Item)
    requires StoredItems(parsed) == init
    requires IsValidStoredItem(x) && ToItem(x) == last
    ensures StoredItems(parsed + [x]) == init + [last]
  {
    assert (parsed + [x])[..|parsed|] == parsed;
  }

  lemma LastSplit<T>(s: seq<T>)
    requires s != []
    ensures s == s[..|s| - 1] + [s[|s| - 1]]
  {
  }

  lemma SaveItemsSnoc(items: seq<Item>)
    requires items != []
    ensures SaveItems(items).elems == SaveItems(items[..|items| - 1]).elems + [ItemToJson(items[|items| - 1])]
  {
  }

  /** One more saved item is restored after the ones before it. */
  lemma SaveLoadStep(items: seq<Item>)
    requires items != []
    requires StoredItems(SaveItems(items[..|items| - 1]).elems) == items[..|items| - 1]
    requires Storable(items[|items| - 1])
    ensures StoredItems(SaveItems(items).elems) == items
  {
    var init, last := items[..|items| - 1], items[|items| - 1];
    SavedItemRestores(last);
    StoredItemsSnoc(SaveItems(init).elems, ItemToJson(last), init, last);
    SaveItemsSnoc(items);
    LastSplit(items);
  }

  /** Saving a list of form-accepted items and loading it again gives the same list,
      and the cache is left as it is. */
  lemma {:induction false} SaveLoadRoundTrip(items: seq<Item>)
    requires forall i :: 0 <= i < |items| ==> Storable(items[i])
    ensures StoredItems(SaveItems(items).elems) == items
  {
    if items != [] {
      SaveLoadRoundTrip(items[..|items| - 1]);
      SaveLoadStep(items);
    }
  }
}
