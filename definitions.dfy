/** The wrapper's dictionaries of children: `all_definitions` (the root's
    definitions in ascending name order), `wrapped_definitions` (the same,
    keyed by the lower-cased name) and `wrapped_properties` (the properties,
    keyed through the reversed trait-name map). */
module Definitions {
  import opened Wrappers
  import opened Order
  import opened Text
  import opened OrderedDicts
  import opened Schema

  /** `sorted(m.items())` for a mapping: its keys are distinct, so the pairs
      are ordered by key alone. */
  function SortedItems(m: map<string, Json>): (r: seq<(string, Json)>)
    ensures KeysOf(r) == SortedKeys(m.Keys)
    ensures forall i :: 0 <= i < |r| ==> r[i].0 in m && r[i].1 == m[r[i].0]
  {
    var ks := SortedKeys(m.Keys);
    seq(|ks|, i requires 0 <= i < |ks| => (ks[i], m[ks[i]]))
  }

  /** The root schema object's `definitions`, as a mapping. */
  function DefinitionsMap(ctx: Context): Result<map<string, Json>, Error> {
    var defs :- Attr(RootNode(ctx), "definitions");
    if defs.JObject? then Ok(defs.fields) else Err(WrongJsonKind)
  }

  /** `all_definitions`: `OrderedDict(sorted(definitions.items()))`. */
  function AllDefinitions(ctx: Context): Result<seq<(string, Json)>, Error> {
    var defs :- DefinitionsMap(ctx);
    Ok(OrderedDictOf(SortedItems(defs)))
  }

  /** Every definition appears once, in ascending order of name, with its
      own schema. */
  lemma AllDefinitionsSpec(ctx: Context)
    ensures DefinitionsMap(ctx).Ok? <==> AllDefinitions(ctx).Ok?
    ensures AllDefinitions(ctx).Ok? ==>
      var defs := DefinitionsMap(ctx).value;
      var all := AllDefinitions(ctx).value;
      KeysOf(all) == SortedKeys(defs.Keys) &&
      StrictlyIncreasing(KeysOf(all)) &&
      forall i :: 0 <= i < |all| ==> all[i].0 in defs && all[i].1 == defs[all[i].0]
  {
    if DefinitionsMap(ctx).Ok? {
      var defs := DefinitionsMap(ctx).value;
      var items := SortedItems(defs);
      var ks := KeysOf(items);
      forall i, j | 0 <= i < j < |ks| ensures ks[i] != ks[j] {
        StrLtIrreflexive(ks[i]);
      }
      KeysOfDistinct(items);
      OrderedDictOfDistinct(items);
    }
  }

  /** The entries `(name.lower(), child named name)` in ascending order of
      name. */
  function LoweredEntries(all: seq<(string, Json)>): (r: seq<(string, Node)>)
    ensures |r| == |all|
    ensures forall i :: 0 <= i < |all| ==> r[i] == (Lower(all[i].0), Child(all[i].1, Some(all[i].0)))
  {
    seq(|all|, i requires 0 <= i < |all| => (Lower(all[i].0), Child(all[i].1, Some(all[i].0))))
  }

  /** `wrapped_definitions`. */
  function WrappedDefinitions(ctx: Context): Result<seq<(string, Node)>, Error> {
    var all :- AllDefinitions(ctx);
    Ok(OrderedDictOf(LoweredEntries(all)))
  }

  /** Each wrapped definition is keyed by the lower case of its own name and
      wraps that definition's schema under that name; the keys are the
      lower-cased names in order of first occurrence, and a key shared by
      several names holds the last of them in ascending order. */
  lemma WrappedDefinitionsSpec(ctx: Context)
    ensures WrappedDefinitions(ctx).Ok? <==> DefinitionsMap(ctx).Ok?
    ensures WrappedDefinitions(ctx).Ok? ==>
      var defs := DefinitionsMap(ctx).value;
      var all := AllDefinitions(ctx).value;
      var w := WrappedDefinitions(ctx).value;
      (forall i :: 0 <= i < |w| ==>
        var d := w[i].1.name;
        d.Some? && d.value in defs && w[i].0 == Lower(d.value) &&
        w[i].1 == Child(defs[d.value], d)) &&
      KeysOf(w) == FirstOccurrences(KeysOf(LoweredEntries(all))) &&
      forall k :: Lookup(w, k) == LastValue(LoweredEntries(all), k)
  {
    AllDefinitionsSpec(ctx);
    if DefinitionsMap(ctx).Ok? {
      var all := AllDefinitions(ctx).value;
      OrderedDictOfSpec(LoweredEntries(all));
    }
  }

  /** The sorted items of a mapping have distinct keys. */
  lemma SortedItemsDistinct(m: map<string, Json>)
    ensures DistinctKeys(SortedItems(m))
  {
    var items := SortedItems(m);
    var ks := KeysOf(items);
    forall i, j | 0 <= i < j < |ks| ensures ks[i] != ks[j] {
      StrLtIrreflexive(ks[i]);
    }
    KeysOfDistinct(items);
  }

  lemma AllDefinitionsAreSortedItems(ctx: Context)
    requires DefinitionsMap(ctx).Ok?
    ensures AllDefinitions(ctx) == Ok(SortedItems(DefinitionsMap(ctx).value))
  {
    SortedItemsDistinct(DefinitionsMap(ctx).value);
    OrderedDictOfDistinct(SortedItems(DefinitionsMap(ctx).value));
  }

  lemma LoweredKeysDistinct(items: seq<(string, Json)>)
    requires forall i, j :: 0 <= i < j < |items| ==> Lower(items[i].0) != Lower(items[j].0)
    ensures DistinctKeys(LoweredEntries(items))
  {
  }

  lemma LoweredSortedItems(defs: map<string, Json>)
    ensures var ks := SortedKeys(defs.Keys);
      LoweredEntries(SortedItems(defs)) ==
        seq(|ks|, i requires 0 <= i < |ks| => (Lower(ks[i]), Child(defs[ks[i]], Some(ks[i]))))
  {
    var items := SortedItems(defs);
    var ks := SortedKeys(defs.Keys);
    assert forall i :: 0 <= i < |items| ==> items[i].0 == KeysOf(items)[i] == ks[i];
  }

  /** The lowered entries of a mapping whose names lower-case apart: one per
      name, in ascending order of name. */
  lemma LoweredEntriesKept(defs: map<string, Json>)
    requires forall a, b :: a in defs && b in defs && a != b ==> Lower(a) != Lower(b)
    ensures var ks := SortedKeys(defs.Keys);
      OrderedDictOf(LoweredEntries(SortedItems(defs))) ==
        seq(|ks|, i requires 0 <= i < |ks| => (Lower(ks[i]), Child(defs[ks[i]], Some(ks[i]))))
  {
    var items := SortedItems(defs);
    var ks := SortedKeys(defs.Keys);
    forall i, j | 0 <= i < j < |items| ensures Lower(items[i].0) != Lower(items[j].0) {
      assert items[i].0 == KeysOf(items)[i] == ks[i];
      assert items[j].0 == KeysOf(items)[j] == ks[j];
      StrLtIrreflexive(ks[i]);
    }
    LoweredKeysDistinct(items);
    OrderedDictOfDistinct(LoweredEntries(items));
    LoweredSortedItems(defs);
  }

  /** When no two definition names lower-case alike, every definition is
      wrapped exactly once, in ascending order of its name. */
  lemma WrappedDefinitionsWithoutCollision(ctx: Context)
    requires DefinitionsMap(ctx).Ok?
    requires forall a, b :: a in DefinitionsMap(ctx).value && b in DefinitionsMap(ctx).value && a != b ==>
      Lower(a) != Lower(b)
    ensures var ks := SortedKeys(DefinitionsMap(ctx).value.Keys);
      var defs := DefinitionsMap(ctx).value;
      WrappedDefinitions(ctx) ==
        Ok(seq(|ks|, i requires 0 <= i < |ks| => (Lower(ks[i]), Child(defs[ks[i]], Some(ks[i])))))
  {
    AllDefinitionsAreSortedItems(ctx);
    LoweredEntriesKept(DefinitionsMap(ctx).value);
  }

  lemma SortedPair(a: string, b: string)
    requires StrLt(a, b)
    ensures SortedKeys({a, b}) == [a, b]
  {
    var ks := SortedKeys({a, b});
    StrLtIrreflexive(a);
    assert |ks| == 2 && a in ks && b in ks;
    if ks[0] != a {
      StrLtAsymmetric(a, b);
    }
  }

  lemma CaseCollisionEntries(x: Json, y: Json)
    ensures OrderedDictOf(LoweredEntries(SortedItems(map["A" := x, "a" := y]))) == [("a", Child(y, Some("a")))]
  {
    var defs := map["A" := x, "a" := y];
    assert StrLt("A", "a");
    assert defs.Keys == {"A", "a"};
    SortedPair("A", "a");
    var items := SortedItems(defs);
    assert items == [("A", x), ("a", y)];
    assert Lower("A") == "a" && Lower("a") == "a";
    var e := LoweredEntries(items);
    assert e == [("a", Child(x, Some("A")))] + [("a", Child(y, Some("a")))];
    assert e[..1] == [("a", Child(x, Some("A")))];
    assert e[..1][..0] == [];
    assert OrderedDictOf(e[..1]) == [("a", Child(x, Some("A")))];
  }

  /** Two definitions whose names differ only in case share one key, and the
      one whose name sorts first is dropped: `{"A": x, "a": y}` is wrapped as
      the single entry `"a"` for `y`. */
  lemma CaseCollisionDropsDefinition(ctx: Context, x: Json, y: Json)
    requires ctx.document == JObject(map["definitions" := JObject(map["A" := x, "a" := y])])
    ensures WrappedDefinitions(ctx) == Ok([("a", Child(y, Some("a")))])
  {
    assert DefinitionsMap(ctx) == Ok(map["A" := x, "a" := y]);
    AllDefinitionsAreSortedItems(ctx);
    CaseCollisionEntries(x, y);
  }

  // ---------------------------------------------------------------------
  // wrapped_properties

  /** `{v: k for k, v in items}`: later items win a shared value. */
  function ReverseMap(items: seq<(string, string)>): seq<(string, string)> {
    OrderedDictOf(Flip(items))
  }

  /** Each `(k, v)` as `(v, k)`. */
  function Flip(items: seq<(string, string)>): (r: seq<(string, string)>)
    ensures |r| == |items|
    ensures forall i :: 0 <= i < |items| ==> r[i] == (items[i].1, items[i].0)
  {
    if items == [] then [] else [(items[0].1, items[0].0)] + Flip(items[1..])
  }

  /** `reverse_map.get(name, name)`. */
  function PropertyKey(reverse: seq<(string, string)>, name: string): string {
    match Lookup(reverse, name)
    case Some(k) => k
    case None => name
  }

  /** The root-level `properties` mapping of a node. */
  function PropertiesMap(n: Node): Result<map<string, Json>, Error> {
    var props :- Attr(n, "properties");
    if props.JObject? then Ok(props.fields) else Err(WrongJsonKind)
  }

  /** The entries `(reverse_map.get(name, name), anonymous child)` in
      ascending order of property name. */
  function PropertyEntries(reverse: seq<(string, string)>, items: seq<(string, Json)>): (r: seq<(string, Node)>)
    ensures |r| == |items|
    ensures forall i :: 0 <= i < |items| ==> r[i] == (PropertyKey(reverse, items[i].0), Child(items[i].1, None))
  {
    seq(|items|, i requires 0 <= i < |items| => (PropertyKey(reverse, items[i].0), Child(items[i].1, None)))
  }

  /** `wrapped_properties`. */
  function WrappedProperties(ctx: Context, n: Node): Result<seq<(string, Node)>, Error> {
    var props :- PropertiesMap(n);
    var reverse := ReverseMap(ctx.traitNameMap(SortedKeys(props.Keys)));
    Ok(OrderedDictOf(PropertyEntries(reverse, SortedItems(props))))
  }

  /** Every wrapped property is an anonymous child around one property's
      schema, keyed through the reversed trait-name map (or by the property
      name itself when the map does not mention it). */
  lemma WrappedPropertiesSpec(ctx: Context, n: Node)
    ensures WrappedProperties(ctx, n).Ok? <==> PropertiesMap(n).Ok?
    ensures WrappedProperties(ctx, n).Ok? ==>
      var props := PropertiesMap(n).value;
      var reverse := ReverseMap(ctx.traitNameMap(SortedKeys(props.Keys)));
      var w := WrappedProperties(ctx, n).value;
      forall i :: 0 <= i < |w| ==>
        exists p :: p in props && w[i] == (PropertyKey(reverse, p), Child(props[p], None))
  {
    if PropertiesMap(n).Ok? {
      var props := PropertiesMap(n).value;
      PropertyDictEntries(ReverseMap(ctx.traitNameMap(SortedKeys(props.Keys))), props);
    }
  }

  /** Every entry of the dictionary built from the property entries comes
      from one property. */
  lemma PropertyDictEntries(reverse: seq<(string, string)>, props: map<string, Json>)
    ensures var w := OrderedDictOf(PropertyEntries(reverse, SortedItems(props)));
      forall i :: 0 <= i < |w| ==>
        exists p :: p in props && w[i] == (PropertyKey(reverse, p), Child(props[p], None))
  {
    var items := SortedItems(props);
    var e := PropertyEntries(reverse, items);
    var w := OrderedDictOf(e);
    forall i | 0 <= i < |w|
      ensures exists p :: p in props && w[i] == (PropertyKey(reverse, p), Child(props[p], None))
    {
      assert w[i] in e;
      var j :| 0 <= j < |e| && e[j] == w[i];
      var p := items[j].0;
      assert p in props && w[i] == (PropertyKey(reverse, p), Child(props[p], None));
    }
  }

  lemma ReverseMapEmpty()
    ensures ReverseMap([]) == []
  {
  }

  lemma UnrenamedEntriesAre(props: map<string, Json>)
    ensures var ks := SortedKeys(props.Keys);
      PropertyEntries([], SortedItems(props)) ==
        seq(|ks|, i requires 0 <= i < |ks| => (ks[i], Child(props[ks[i]], None)))
  {
    var ks := SortedKeys(props.Keys);
    var items := SortedItems(props);
    var e := PropertyEntries([], items);
    forall i | 0 <= i < |e| ensures e[i] == (ks[i], Child(props[ks[i]], None)) {
      assert items[i].0 == KeysOf(items)[i] == ks[i];
    }
  }

  /** With an empty reverse map every property keeps its own name. */
  lemma UnrenamedEntries(props: map<string, Json>)
    ensures var ks := SortedKeys(props.Keys);
      OrderedDictOf(PropertyEntries([], SortedItems(props))) ==
        seq(|ks|, i requires 0 <= i < |ks| => (ks[i], Child(props[ks[i]], None)))
  {
    var ks := SortedKeys(props.Keys);
    UnrenamedEntriesAre(props);
    var e := PropertyEntries([], SortedItems(props));
    forall i, j | 0 <= i < j < |e| ensures e[i].0 != e[j].0 {
      StrLtIrreflexive(ks[i]);
    }
    OrderedDictOfDistinct(e);
  }

  /** When the trait-name map renames nothing, the properties are wrapped
      one each, keyed by their own names, in ascending order. */
  lemma WrappedPropertiesUnrenamed(ctx: Context, n: Node)
    requires PropertiesMap(n).Ok?
    requires ctx.traitNameMap(SortedKeys(PropertiesMap(n).value.Keys)) == []
    ensures var props := PropertiesMap(n).value;
      var ks := SortedKeys(props.Keys);
      WrappedProperties(ctx, n) == Ok(seq(|ks|, i requires 0 <= i < |ks| => (ks[i], Child(props[ks[i]], None))))
  {
    ReverseMapEmpty();
    UnrenamedEntries(PropertiesMap(n).value);
  }
}
