/** Assembly of the generated module: the imports an object's class needs
    (`object_imports`), the imports of the package's `__init__`
    (`module_imports`), and the order in which `source_tree` emits the
    root's and the definitions' classes. */
module Assembly {
  import opened Wrappers
  import opened Order
  import opened OrderedDicts
  import opened Schema
  import opened Classify
  import opened Definitions
  import opened Dispatch

  /** The class attribute `basic_imports`. */
  const BasicImports: seq<string> := ["import traitlets as T", "from . import jstraitlets as jst"]

  // ---------------------------------------------------------------------
  // object_imports

  /** The trait imports of an `additionalProperties` schema, when it is a
      mapping. */
  function AdditionalImports(rules: Rules, ctx: Context, n: Node): Result<seq<string>, Error> {
    var ap :- Attr(n, "additionalProperties");
    if ap.JObject? then TraitImportsOf(rules, ctx, Child(ap, None)) else Ok([])
  }

  /** The reference target's import statement, for a reference. */
  function ReferenceImports(rules: Rules, ctx: Context, n: Node): Result<seq<string>, Error> {
    var isRef :- IsReference(n);
    if isRef then
      var target :- WrappedRef(ctx, n);
      var s :- ImportStatementOf(rules, ctx, target);
      Ok([s])
    else Ok([])
  }

  /** `imports.extend(trait.trait_imports)` for each child in turn. */
  function PropertyImports(rules: Rules, ctx: Context, children: seq<Node>, acc: seq<string>): Result<seq<string>, Error>
    decreases |children|
  {
    if children == [] then Ok(acc)
    else
      var ti :- TraitImportsOf(rules, ctx, children[0]);
      PropertyImports(rules, ctx, children[1..], acc + ti)
  }

  /** The list `object_imports` gathers before deduplicating it. */
  function CollectedObjectImports(rules: Rules, ctx: Context, n: Node): Result<seq<string>, Error> {
    var extra :- AdditionalImports(rules, ctx, n);
    var refImports :- ReferenceImports(rules, ctx, n);
    var props :- WrappedProperties(ctx, n);
    PropertyImports(rules, ctx, ValuesOf(props), BasicImports + extra + refImports)
  }

  /** `object_imports`: `sorted(set(imports), reverse=True)`. */
  function ObjectImportsOf(rules: Rules, ctx: Context, n: Node): Result<seq<string>, Error> {
    var collected :- CollectedObjectImports(rules, ctx, n);
    Ok(Reverse(SortedKeys(set x | x in collected)))
  }

  /** Gathering the children's imports succeeds exactly when every child's
      `trait_imports` does; it keeps what was gathered before as a prefix
      and adds exactly the children's imports. */
  lemma {:induction false} PropertyImportsSpec(rules: Rules, ctx: Context, children: seq<Node>, acc: seq<string>)
    ensures PropertyImports(rules, ctx, children, acc).Ok? <==>
      forall i :: 0 <= i < |children| ==> TraitImportsOf(rules, ctx, children[i]).Ok?
    ensures PropertyImports(rules, ctx, children, acc).Ok? ==>
      var r := PropertyImports(rules, ctx, children, acc).value;
      acc <= r &&
      forall x :: x in r <==>
        (x in acc || exists i :: 0 <= i < |children| && x in TraitImportsOf(rules, ctx, children[i]).value)
    decreases |children|
  {
    if children != [] {
      var rest := children[1..];
      assert forall i :: 0 <= i < |rest| ==> rest[i] == children[i + 1];
      var h := TraitImportsOf(rules, ctx, children[0]);
      if h.Ok? {
        var acc' := acc + h.value;
        PropertyImportsSpec(rules, ctx, rest, acc');
        if PropertyImports(rules, ctx, children, acc).Ok? {
          var r := PropertyImports(rules, ctx, children, acc).value;
          forall x | x in r
            ensures x in acc || exists i :: 0 <= i < |children| && x in TraitImportsOf(rules, ctx, children[i]).value
          {
            if x !in acc' {
              var i :| 0 <= i < |rest| && x in TraitImportsOf(rules, ctx, rest[i]).value;
              assert x in TraitImportsOf(rules, ctx, children[i + 1]).value;
            }
          }
          forall x | x in acc || exists i :: 0 <= i < |children| && x in TraitImportsOf(rules, ctx, children[i]).value
            ensures x in r
          {
            if x !in acc {
              var i :| 0 <= i < |children| && x in TraitImportsOf(rules, ctx, children[i]).value;
              if i > 0 {
                assert children[i] == rest[i - 1];
              }
            }
          }
        }
      }
    }
  }

  /** `object_imports` holds every gathered import exactly once, both basic
      imports among them, in strictly descending order. */
  lemma ObjectImportsSpec(rules: Rules, ctx: Context, n: Node)
    ensures ObjectImportsOf(rules, ctx, n).Ok? <==> CollectedObjectImports(rules, ctx, n).Ok?
    ensures ObjectImportsOf(rules, ctx, n).Ok? ==>
      var r := ObjectImportsOf(rules, ctx, n).value;
      var collected := CollectedObjectImports(rules, ctx, n).value;
      StrictlyDecreasing(r) &&
      (forall i, j :: 0 <= i < j < |r| ==> r[i] != r[j]) &&
      (forall x :: x in r <==> x in collected) &&
      BasicImports[0] in r && BasicImports[1] in r
  {
    if CollectedObjectImports(rules, ctx, n).Ok? {
      var extra := AdditionalImports(rules, ctx, n).value;
      var refImports := ReferenceImports(rules, ctx, n).value;
      var props := WrappedProperties(ctx, n).value;
      var acc := BasicImports + extra + refImports;
      PropertyImportsSpec(rules, ctx, ValuesOf(props), acc);
      var collected := CollectedObjectImports(rules, ctx, n).value;
      assert acc[0] == BasicImports[0] && acc[1] == BasicImports[1];
      assert collected[0] == acc[0] && collected[1] == acc[1];
      var ks := SortedKeys(set x | x in collected);
      ReverseOfIncreasing(ks);
      var r := Reverse(ks);
      forall i, j | 0 <= i < j < |r| ensures r[i] != r[j] {
        StrLtIrreflexive(r[i]);
      }
    }
  }

  // ---------------------------------------------------------------------
  // module_imports

  /** A plugin contributes the imports its hook returns for the root. */
  datatype Plugin = Plugin(moduleImports: Node -> seq<string>)

  /** `defn_imports.append(obj.import_statement)` for each wrapped
      definition in turn. */
  function DefinitionImports(rules: Rules, ctx: Context, defs: seq<Node>, acc: seq<string>): Result<seq<string>, Error>
    decreases |defs|
  {
    if defs == [] then Ok(acc)
    else
      var s :- ImportStatementOf(rules, ctx, defs[0]);
      DefinitionImports(rules, ctx, defs[1..], acc + [s])
  }

  /** `sorted(plugin.module_imports(self))`. */
  function PluginSection(p: Plugin, n: Node): (r: seq<string>)
    ensures multiset(r) == multiset(p.moduleImports(n))
    ensures SortedBy(r, (a: string, b: string) => StrLe(a, b))
  {
    SortStrings(p.moduleImports(n))
  }

  /** Each plugin's imports, sorted, in plugin order. */
  function PluginImports(plugins: seq<Plugin>, n: Node): seq<string> {
    if plugins == [] then [] else PluginSection(plugins[0], n) + PluginImports(plugins[1..], n)
  }

  /** `module_imports`: the node's own import statement, then the sorted
      import statements of the definitions, then each plugin's sorted
      imports. */
  function ModuleImportsOf(rules: Rules, ctx: Context, n: Node, plugins: seq<Plugin>): Result<seq<string>, Error> {
    var own :- ImportStatementOf(rules, ctx, n);
    var defs :- WrappedDefinitions(ctx);
    var defImports :- DefinitionImports(rules, ctx, ValuesOf(defs), []);
    Ok([own] + SortStrings(defImports) + PluginImports(plugins, n))
  }

  /** One import statement per definition, in order, after what was
      gathered before; the whole list fails exactly when one of them does. */
  lemma {:induction false} DefinitionImportsSpec(rules: Rules, ctx: Context, defs: seq<Node>, acc: seq<string>)
    ensures DefinitionImports(rules, ctx, defs, acc).Ok? <==>
      forall i :: 0 <= i < |defs| ==> ImportStatementOf(rules, ctx, defs[i]).Ok?
    ensures DefinitionImports(rules, ctx, defs, acc).Ok? ==>
      var d := DefinitionImports(rules, ctx, defs, acc).value;
      |d| == |acc| + |defs| && d[..|acc|] == acc &&
      forall i :: 0 <= i < |defs| ==> Ok(d[|acc| + i]) == ImportStatementOf(rules, ctx, defs[i])
    decreases |defs|
  {
    if defs != [] {
      var rest := defs[1..];
      assert forall i :: 0 <= i < |rest| ==> rest[i] == defs[i + 1];
      var h := ImportStatementOf(rules, ctx, defs[0]);
      if h.Ok? {
        var acc' := acc + [h.value];
        DefinitionImportsSpec(rules, ctx, rest, acc');
        if DefinitionImports(rules, ctx, defs, acc).Ok? {
          var d := DefinitionImports(rules, ctx, defs, acc).value;
          assert d[..|acc'|] == acc';
          assert d[..|acc|] == acc'[..|acc|] == acc;
          forall i | 0 <= i < |defs| ensures Ok(d[|acc| + i]) == ImportStatementOf(rules, ctx, defs[i]) {
            if i == 0 {
              assert d[|acc|] == acc'[|acc|];
            } else {
              assert d[|acc'| + (i - 1)] == d[|acc| + i];
            }
          }
        }
      }
    }
  }

  /** Plugins added later contribute later: the imports of a list of plugins
      are the imports of its parts, in order. */
  lemma {:induction false} PluginImportsAppend(ps: seq<Plugin>, qs: seq<Plugin>, n: Node)
    ensures PluginImports(ps + qs, n) == PluginImports(ps, n) + PluginImports(qs, n)
  {
    if ps == [] {
      assert ps + qs == qs;
    } else {
      var pq := ps + qs;
      assert pq[0] == ps[0];
      assert pq[1..] == ps[1..] + qs;
      PluginImportsAppend(ps[1..], qs, n);
      var head := PluginSection(ps[0], n);
      var a := PluginImports(ps[1..], n);
      var b := PluginImports(qs, n);
      calc {
        PluginImports(pq, n);
        PluginSection(pq[0], n) + PluginImports(pq[1..], n);
        head + (a + b);
        (head + a) + b;
        PluginImports(ps, n) + b;
      }
    }
  }

  /** The layout of `module_imports`: the node's own import statement first,
      then one import statement per wrapped definition, sorted, then the
      plugins' imports. */
  lemma ModuleImportsLayout(rules: Rules, ctx: Context, n: Node, plugins: seq<Plugin>)
    ensures ModuleImportsOf(rules, ctx, n, plugins).Ok? ==>
      var r := ModuleImportsOf(rules, ctx, n, plugins).value;
      var w := ValuesOf(WrappedDefinitions(ctx).value);
      var d := DefinitionImports(rules, ctx, w, []).value;
      |r| == 1 + |w| + |PluginImports(plugins, n)| &&
      Ok(r[0]) == ImportStatementOf(rules, ctx, n) &&
      SortedBy(r[1..1 + |w|], (a: string, b: string) => StrLe(a, b)) &&
      multiset(r[1..1 + |w|]) == multiset(d) &&
      (forall i :: 0 <= i < |w| ==> Ok(d[i]) == ImportStatementOf(rules, ctx, w[i])) &&
      r[1 + |w|..] == PluginImports(plugins, n)
  {
    if ModuleImportsOf(rules, ctx, n, plugins).Ok? {
      var r := ModuleImportsOf(rules, ctx, n, plugins).value;
      var w := ValuesOf(WrappedDefinitions(ctx).value);
      DefinitionImportsSpec(rules, ctx, w, []);
      var d := DefinitionImports(rules, ctx, w, []).value;
      var sd := SortStrings(d);
      assert |sd| == |d| by {
        assert |multiset(sd)| == |multiset(d)|;
      }
      assert r == [ImportStatementOf(rules, ctx, n).value] + sd + PluginImports(plugins, n);
      assert r[1..1 + |w|] == sd;
      assert r[1 + |w|..] == PluginImports(plugins, n);
    }
  }

  // ---------------------------------------------------------------------
  // The order of the generated classes

  /** `(obj.trait_extractor.priority, obj.classname)`. */
  datatype SortKey = SortKey(priority: int, classname: string)

  /** Python's `<=` on such pairs. */
  predicate KeyLe(a: SortKey, b: SortKey) {
    a.priority < b.priority || (a.priority == b.priority && StrLe(a.classname, b.classname))
  }

  lemma KeyLeTotalPreorder()
    ensures forall a, b :: KeyLe(a, b) || KeyLe(b, a)
    ensures forall a, b, c :: KeyLe(a, b) && KeyLe(b, c) ==> KeyLe(a, c)
  {
    forall a, b ensures KeyLe(a, b) || KeyLe(b, a) {
      StrLtTotal(a.classname, b.classname);
    }
    forall a, b, c | KeyLe(a, b) && KeyLe(b, c) ensures KeyLe(a, c) {
      if a.priority == b.priority == c.priority && a.classname != b.classname && b.classname != c.classname {
        StrLtTransitive(a.classname, b.classname, c.classname);
      }
    }
  }

  /** The sort key of one class. */
  function ClassKey(rules: Rules, ctx: Context, n: Node): Result<SortKey, Error> {
    var k :- Extractor(rules, ctx, n);
    var c :- Classname(ctx, n, ctx.recursionLimit);
    Ok(SortKey(rules.priority(k), c))
  }

  /** The keys of all classes, computed before sorting as `sorted` does;
      the first class whose key raises ends the computation. */
  function ClassKeys(rules: Rules, ctx: Context, ns: seq<Node>): Result<seq<SortKey>, Error> {
    if ns == [] then Ok([])
    else
      var k :- ClassKey(rules, ctx, ns[0]);
      var rest :- ClassKeys(rules, ctx, ns[1..]);
      Ok([k] + rest)
  }

  /** A class's key once every key is known to exist. */
  function KeyOf(rules: Rules, ctx: Context, n: Node): SortKey {
    match ClassKey(rules, ctx, n)
    case Ok(k) => k
    case Err(_) => SortKey(0, "")
  }

  /** The classes `source_tree` emits, root first before sorting. */
  function Classes(ctx: Context): Result<seq<Node>, Error> {
    var defs :- WrappedDefinitions(ctx);
    Ok([RootNode(ctx)] + ValuesOf(defs))
  }

  /** The comparison the sort uses: by key. */
  function NodeLe(rules: Rules, ctx: Context): (Node, Node) -> bool {
    (a: Node, b: Node) => KeyLe(KeyOf(rules, ctx, a), KeyOf(rules, ctx, b))
  }

  /** `sorted(classes, key=lambda obj: (priority, classname))`. */
  function EmissionOrder(rules: Rules, ctx: Context): Result<seq<Node>, Error> {
    var classes :- Classes(ctx);
    var _ :- ClassKeys(rules, ctx, classes);
    Ok(SortBy(classes, NodeLe(rules, ctx)))
  }

  lemma NodeLeTotalPreorder(rules: Rules, ctx: Context)
    ensures TotalPreorder(NodeLe(rules, ctx))
  {
    KeyLeTotalPreorder();
    var le := NodeLe(rules, ctx);
    forall a, b ensures le(a, b) || le(b, a) {
      assert KeyLe(KeyOf(rules, ctx, a), KeyOf(rules, ctx, b)) || KeyLe(KeyOf(rules, ctx, b), KeyOf(rules, ctx, a));
    }
    forall a, b, c | le(a, b) && le(b, c) ensures le(a, c) {
      assert KeyLe(KeyOf(rules, ctx, a), KeyOf(rules, ctx, c));
    }
  }

  /** A permutation of classes that all have keys, sorted by the
      comparison, is in ascending order of key. */
  lemma SortedByClassKey(rules: Rules, ctx: Context, classes: seq<Node>, r: seq<Node>)
    requires forall c :: c in classes ==> ClassKey(rules, ctx, c).Ok?
    requires multiset(r) == multiset(classes)
    requires SortedBy(r, NodeLe(rules, ctx))
    ensures forall i :: 0 <= i < |r| ==> ClassKey(rules, ctx, r[i]).Ok?
    ensures forall i, j :: 0 <= i < j < |r| ==> KeyLe(ClassKey(rules, ctx, r[i]).value, ClassKey(rules, ctx, r[j]).value)
  {
    forall i | 0 <= i < |r| ensures ClassKey(rules, ctx, r[i]).Ok? {
      assert r[i] in multiset(r);
      assert r[i] in classes;
    }
    forall i, j | 0 <= i < j < |r|
      ensures KeyLe(ClassKey(rules, ctx, r[i]).value, ClassKey(rules, ctx, r[j]).value)
    {
      assert NodeLe(rules, ctx)(r[i], r[j]);
      assert ClassKey(rules, ctx, r[i]).Ok? && ClassKey(rules, ctx, r[j]).Ok?;
    }
  }

  lemma {:induction false} ClassKeysSpec(rules: Rules, ctx: Context, ns: seq<Node>)
    ensures ClassKeys(rules, ctx, ns).Ok? <==> forall i :: 0 <= i < |ns| ==> ClassKey(rules, ctx, ns[i]).Ok?
  {
    if ns != [] {
      ClassKeysSpec(rules, ctx, ns[1..]);
      assert forall i :: 0 <= i < |ns[1..]| ==> ns[1..][i] == ns[i + 1];
      if forall i :: 0 <= i < |ns| ==> ClassKey(rules, ctx, ns[i]).Ok? {
        assert forall i :: 0 <= i < |ns[1..]| ==> ClassKey(rules, ctx, ns[1..][i]).Ok?;
      }
    }
  }

  /** The emitted classes are exactly the root and the wrapped definitions,
      each as often as it occurs there, in ascending order of (priority,
      classname); emission fails exactly when some class has no key. */
  lemma EmissionOrderSpec(rules: Rules, ctx: Context)
    ensures EmissionOrder(rules, ctx).Ok? <==>
      Classes(ctx).Ok? && forall c :: c in Classes(ctx).value ==> ClassKey(rules, ctx, c).Ok?
    ensures EmissionOrder(rules, ctx).Ok? ==>
      var r := EmissionOrder(rules, ctx).value;
      multiset(r) == multiset(Classes(ctx).value) &&
      RootNode(ctx) in r &&
      (forall i :: 0 <= i < |r| ==> ClassKey(rules, ctx, r[i]).Ok?) &&
      forall i, j :: 0 <= i < j < |r| ==> KeyLe(ClassKey(rules, ctx, r[i]).value, ClassKey(rules, ctx, r[j]).value)
  {
    if Classes(ctx).Ok? {
      var classes := Classes(ctx).value;
      ClassKeysSpec(rules, ctx, classes);
      assert (forall c :: c in classes ==> ClassKey(rules, ctx, c).Ok?) <==>
        (forall i :: 0 <= i < |classes| ==> ClassKey(rules, ctx, classes[i]).Ok?);
      if ClassKeys(rules, ctx, classes).Ok? {
        NodeLeTotalPreorder(rules, ctx);
        SortBySorted(classes, NodeLe(rules, ctx));
        var r := SortBy(classes, NodeLe(rules, ctx));
        SortedByClassKey(rules, ctx, classes, r);
        assert RootNode(ctx) in multiset(classes);
      }
    }
  }
}
