/** The wrapper object itself: a wrapped node together with its plugins and
    the memoised trait extractor, and the operations of the wrapper that
    work step by step (the extractor scans, reference resolution, and the
    assembly of import lists). Each is proved to compute the function of
    the same name in the other modules, where its properties are proved. */
module Traitlets {
  import opened Wrappers
  import opened Text
  import opened Order
  import opened OrderedDicts
  import opened Schema
  import opened Classify
  import opened Definitions
  import opened Dispatch
  import opened Assembly

  class SchemaTraitlets {
    const ctx: Context
    const rules: Rules
    const node: Node
    var plugins: seq<Plugin>
    /** `_trait_extractor`. */
    var cachedExtractor: Option<ExtractorKind>
    /** How many extractor scans this wrapper has run. */
    ghost var scans: nat

    /** A memoised extractor is the one the scan chooses. */
    ghost predicate Valid()
      reads this
    {
      cachedExtractor.Some? ==> Extractor(rules, ctx, node) == Ok(cachedExtractor.value)
    }

    constructor(ctx: Context, rules: Rules, node: Node)
      ensures this.ctx == ctx && this.rules == rules && this.node == node
      ensures plugins == [] && cachedExtractor == None && scans == 0
      ensures Valid()
    {
      this.ctx := ctx;
      this.rules := rules;
      this.node := node;
      plugins := [];
      cachedExtractor := None;
      scans := 0;
    }

    /** `add_plugins(*ps)`. */
    method AddPlugins(ps: seq<Plugin>)
      modifies this`plugins
      ensures plugins == old(plugins) + ps
    {
      plugins := plugins + ps;
    }

    /** The `for TraitExtractor in self.trait_extractors` scan. */
    method Scan() returns (r: Result<ExtractorKind, Error>)
      ensures r == Extractor(rules, ctx, node)
    {
      var i := 0;
      while i < |ExtractorOrder|
        invariant 0 <= i <= |ExtractorOrder|
        invariant Extractor(rules, ctx, node) == FirstMatch(rules, ctx, node, ExtractorOrder[i..])
      {
        assert ExtractorOrder[i..][1..] == ExtractorOrder[i + 1..];
        var passes := rules.check(ExtractorOrder[i], ctx, node);
        if passes.Err? {
          return Err(passes.error);
        }
        if passes.value {
          return Ok(ExtractorOrder[i]);
        }
        i := i + 1;
      }
      var keys := SchemaKeys(node.schema);
      if keys.Err? {
        return Err(keys.error);
      }
      return Err(NoExtractor(keys.value));
    }

    /** `trait_extractor`: scans once, then answers from the memo. */
    method TraitExtractor() returns (r: Result<ExtractorKind, Error>)
      requires Valid()
      modifies this`cachedExtractor, this`scans
      ensures Valid()
      ensures r == Extractor(rules, ctx, node)
      ensures old(cachedExtractor).Some? ==>
        cachedExtractor == old(cachedExtractor) && scans == old(scans)
      ensures old(cachedExtractor).None? ==>
        scans == old(scans) + 1 && cachedExtractor == (if r.Ok? then Some(r.value) else None)
    {
      if cachedExtractor.None? {
        r := Scan();
        scans := scans + 1;
        if r.Err? {
          return;
        }
        cachedExtractor := Some(r.value);
      }
      r := Ok(cachedExtractor.value);
    }

    /** `trait_code`: the description becomes the `help` argument, then a
      fresh scan. */
    method TraitCode() returns (r: Result<string, Error>)
      ensures r == TraitCodeOf(rules, ctx, node)
    {
      var help := HelpText(rules, node);
      if help.Err? {
        return Err(help.error);
      }
      var k := Scan();
      if k.Err? {
        return Err(k.error);
      }
      r := rules.traitCode(k.value, ctx, node, help.value);
    }

    /** `object_code`, with a fresh scan. */
    method ObjectCode() returns (r: Result<string, Error>)
      ensures r == ObjectCodeOf(rules, ctx, node)
    {
      var k := Scan();
      if k.Err? {
        return Err(k.error);
      }
      r := rules.objectCode(k.value, ctx, node);
    }

    /** `trait_imports`, with a fresh scan. */
    method TraitImports() returns (r: Result<seq<string>, Error>)
      ensures r == TraitImportsOf(rules, ctx, node)
    {
      var k := Scan();
      if k.Err? {
        return Err(k.error);
      }
      r := rules.traitImports(k.value, ctx, node);
    }

    /** `import_statement`, through the memoised extractor. */
    method ImportStatement() returns (r: Result<string, Error>)
      requires Valid()
      modifies this`cachedExtractor, this`scans
      ensures Valid()
      ensures r == ImportStatementOf(rules, ctx, node)
      ensures old(cachedExtractor).Some? ==>
        cachedExtractor == old(cachedExtractor) && scans == old(scans)
      ensures old(cachedExtractor).None? ==>
        scans == old(scans) + 1 &&
        cachedExtractor == (if Extractor(rules, ctx, node).Ok? then Some(Extractor(rules, ctx, node).value) else None)
    {
      var k := TraitExtractor();
      if k.Err? {
        return Err(k.error);
      }
      r := rules.importStatement(k.value, ctx, node);
    }

    /** `type_description`, through the memoised extractor. */
    method TypeDescription() returns (r: Result<string, Error>)
      requires Valid()
      modifies this`cachedExtractor, this`scans
      ensures Valid()
      ensures r == TypeDescriptionOf(rules, ctx, node)
      ensures old(cachedExtractor).Some? ==>
        cachedExtractor == old(cachedExtractor) && scans == old(scans)
      ensures old(cachedExtractor).None? ==>
        scans == old(scans) + 1 &&
        cachedExtractor == (if Extractor(rules, ctx, node).Ok? then Some(Extractor(rules, ctx, node).value) else None)
    {
      var k := TraitExtractor();
      if k.Err? {
        return Err(k.error);
      }
      r := rules.typeDescription(k.value, ctx, node);
    }

    /** `get_reference(ref)`: walks the path from the root document one key
        at a time. */
    method GetReference(ref: string) returns (r: Result<Node, Error>)
      ensures r == Schema.GetReference(ctx, ref)
    {
      if ref == "" {
        return Err(EmptyReference);
      }
      var path := Split(ref, '/');
      var name := path[|path| - 1];
      if path[0] != "#" {
        return Err(UnrecognizedRefFormat(ref));
      }
      if |path| == 1 || path[1] == "" {
        return Ok(RootNode(ctx));
      }
      var schema := ctx.document;
      var i := 1;
      while i < |path|
        invariant 1 <= i <= |path|
        invariant Walk(ctx.document, path[1..]) == Walk(schema, path[i..])
      {
        assert path[i..][1..] == path[i + 1..];
        var next := Item(schema, path[i]);
        match next {
          case Ok(j) =>
            schema := j;
          case Err(KeyMissing(_)) =>
            return Err(RefNotPresent(ref));
          case Err(e) =>
            return Err(e);
        }
        i := i + 1;
      }
      return Ok(Child(schema, Some(name)));
    }

    /** `wrapped_ref()`. */
    method WrappedRef() returns (r: Result<Node, Error>)
      ensures r == Schema.WrappedRef(ctx, node)
    {
      var ref := Item(node.schema, "$ref");
      if ref.Err? {
        return Err(ref.error);
      }
      if ref.value.JString? {
        r := GetReference(ref.value.s);
      } else if Truthy(ref.value) {
        r := Err(WrongJsonKind);
      } else {
        r := Err(EmptyReference);
      }
    }

    /** The imports `object_imports` takes from a mapping
        `additionalProperties`, through a fresh wrapper around it. */
    method AdditionalTraitImports() returns (r: Result<seq<string>, Error>)
      ensures r == AdditionalImports(rules, ctx, node)
    {
      var ap := Attr(node, "additionalProperties");
      if ap.Err? {
        return Err(ap.error);
      }
      if ap.value.JObject? {
        var default := new SchemaTraitlets(ctx, rules, Child(ap.value, None));
        r := default.TraitImports();
      } else {
        r := Ok([]);
      }
    }

    /** The import statement `object_imports` takes from the reference
        target, through a fresh wrapper around it. */
    method ReferenceImportStatement() returns (r: Result<seq<string>, Error>)
      ensures r == ReferenceImports(rules, ctx, node)
    {
      var isRef := IsReference(node);
      if isRef.Err? {
        return Err(isRef.error);
      }
      if isRef.value {
        var target := WrappedRef();
        if target.Err? {
          return Err(target.error);
        }
        var wrapper := new SchemaTraitlets(ctx, rules, target.value);
        var s := wrapper.ImportStatement();
        if s.Err? {
          return Err(s.error);
        }
        r := Ok([s.value]);
      } else {
        r := Ok([]);
      }
    }

    /** The loop of `object_imports` over the wrapped properties. */
    method PropertyTraitImports(children: seq<Node>, acc: seq<string>) returns (r: Result<seq<string>, Error>)
      ensures r == PropertyImports(rules, ctx, children, acc)
    {
      var imports := acc;
      var i := 0;
      while i < |children|
        invariant 0 <= i <= |children|
        invariant PropertyImports(rules, ctx, children, acc) == PropertyImports(rules, ctx, children[i..], imports)
      {
        assert children[i..][1..] == children[i + 1..];
        var child := new SchemaTraitlets(ctx, rules, children[i]);
        var ti := child.TraitImports();
        if ti.Err? {
          return Err(ti.error);
        }
        imports := imports + ti.value;
        i := i + 1;
      }
      r := Ok(imports);
    }

    /** `object_imports`: the basic imports, the imports of a mapping
        `additionalProperties`, the reference target's import statement and
        every property's trait imports, deduplicated and sorted in
        descending order. */
    method ObjectImports() returns (r: Result<seq<string>, Error>)
      ensures r == ObjectImportsOf(rules, ctx, node)
    {
      var extra := AdditionalTraitImports();
      if extra.Err? {
        return Err(extra.error);
      }
      var refImports := ReferenceImportStatement();
      if refImports.Err? {
        return Err(refImports.error);
      }
      var props := WrappedProperties(ctx, node);
      if props.Err? {
        return Err(props.error);
      }
      var imports := PropertyTraitImports(ValuesOf(props.value), BasicImports + extra.value + refImports.value);
      if imports.Err? {
        return Err(imports.error);
      }
      r := Ok(Reverse(SortedKeys(set x | x in imports.value)));
    }

    /** The first loop of `module_imports`: each wrapped definition's import
        statement, each through its own wrapper. */
    method DefinitionImportStatements(objs: seq<Node>) returns (r: Result<seq<string>, Error>)
      ensures r == DefinitionImports(rules, ctx, objs, [])
    {
      var defnImports: seq<string> := [];
      var i := 0;
      while i < |objs|
        invariant 0 <= i <= |objs|
        invariant DefinitionImports(rules, ctx, objs, []) == DefinitionImports(rules, ctx, objs[i..], defnImports)
      {
        assert objs[i..][1..] == objs[i + 1..];
        var obj := new SchemaTraitlets(ctx, rules, objs[i]);
        var s := obj.ImportStatement();
        if s.Err? {
          return Err(s.error);
        }
        defnImports := defnImports + [s.value];
        i := i + 1;
      }
      r := Ok(defnImports);
    }

    /** The second loop of `module_imports`: each plugin's sorted imports,
        in the order the plugins were added. */
    method PluginImportList() returns (r: seq<string>)
      ensures r == PluginImports(plugins, node)
    {
      r := [];
      var j := 0;
      while j < |plugins|
        invariant 0 <= j <= |plugins|
        invariant r == PluginImports(plugins[..j], node)
      {
        PluginImportsAppend(plugins[..j], [plugins[j]], node);
        assert plugins[..j + 1] == plugins[..j] + [plugins[j]];
        assert PluginImports([plugins[j]], node) == PluginSection(plugins[j], node);
        r := r + PluginSection(plugins[j], node);
        j := j + 1;
      }
      assert plugins[..|plugins|] == plugins;
    }

    /** `module_imports`: the wrapper's own import statement, the sorted
        import statements of the wrapped definitions, then each plugin's
        sorted imports in the order the plugins were added. */
    method ModuleImports() returns (r: Result<seq<string>, Error>)
      requires Valid()
      modifies this`cachedExtractor, this`scans
      ensures Valid()
      ensures r == ModuleImportsOf(rules, ctx, node, plugins)
      ensures old(cachedExtractor).Some? ==>
        cachedExtractor == old(cachedExtractor) && scans == old(scans)
      ensures old(cachedExtractor).None? ==>
        scans == old(scans) + 1 &&
        cachedExtractor == (if Extractor(rules, ctx, node).Ok? then Some(Extractor(rules, ctx, node).value) else None)
    {
      var own := ImportStatement();
      if own.Err? {
        return Err(own.error);
      }
      var defs := WrappedDefinitions(ctx);
      if defs.Err? {
        return Err(defs.error);
      }
      var defnImports := DefinitionImportStatements(ValuesOf(defs.value));
      if defnImports.Err? {
        return Err(defnImports.error);
      }
      var pluginImports := PluginImportList();
      r := Ok([own.value] + SortStrings(defnImports.value) + pluginImports);
    }
  }

  /** A wrapper answers `trait_extractor` from its memo on the second read:
      both reads agree, and only the first one scans. */
  method MemoisedTwice(ctx: Context, rules: Rules, n: Node) returns (first: Result<ExtractorKind, Error>, second: Result<ExtractorKind, Error>)
    ensures first == second == Extractor(rules, ctx, n)
  {
    var w := new SchemaTraitlets(ctx, rules, n);
    first := w.TraitExtractor();
    second := w.TraitExtractor();
    assert first.Ok? ==> w.scans == 1;
  }
}
