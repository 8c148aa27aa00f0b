# schemapi's JSON Schema wrapper, modelled in Dafny

schemapi turns a JSON Schema (draft 4) document into a Python package of
traitlets classes. The engine is the wrapper class `JSONSchemaTraitlets` in
`schemapi/traitlets.py`. A wrapper holds one subschema of the document. It
answers keyword queries against a fixed table of defaults. It classifies
its subschema as a trait, an object or neither, following `$ref` targets
and union branches. It resolves `$ref` strings against the root document. It
picks the first matching trait extractor from a fixed list and memoises that
choice. It also assembles the import lists and the class emission order of
the generated module.

This project models that wrapper and proves properties of the model.

The modules, in dependency order:

- `Wrappers` (`wrappers.dfy`): `Option` and `Result`.
- `Order` (`order.dfy`): the following orderings.
  - Python's string order.
  - `sorted` of a set of keys.
  - A stable insertion sort, which stands for `sorted(xs, key=...)`.
  - `sorted` of a list of strings.
- `Text` (`text.dfy`): the string operations the wrapper uses.
  - `str.split` and its inverse `join`.
  - ASCII `lower()`.
  - `in` on strings.
- `OrderedDicts` (`ordered_dicts.dfy`): `OrderedDict(pairs)`, and `d[k] = v` (`Put`).
- `Schema` (`schema.dfy`): the data model and basic access.
  - JSON values.
  - The wrapped `Node`: the subschema, its `name`, and `is_root`.
  - The compilation `Context`: the root document, the root name, `regularize_name`, `trait_name_map`, and the recursion limit.
  - The errors the wrapper raises.
  - `__contains__`, `__getitem__`, `get`, and `__getattr__` with `attr_defaults`.
  - `is_reference`, `get_reference` and `wrapped_ref`.
- `Classify` (`classify.dfy`): `is_trait`, `is_object`, `classname` and `is_named_object`.
- `Definitions` (`definitions.dfy`): `all_definitions`, `wrapped_definitions` and `wrapped_properties`, together with its `trait_map`.
- `Dispatch` (`dispatch.dfy`): the extractor list `trait_extractors`, the first-match scan, and the results of `trait_code`, `object_code`, `trait_imports`, `import_statement` and `type_description`.
- `Assembly` (`assembly.dfy`): the results of `object_imports` and `module_imports`, and the class-ordering sort of `source_tree`.
- `Traitlets` (`traitlets.dfy`): the class `SchemaTraitlets`, which is the wrapper object itself.
  - It has a `plugins` field, which `AddPlugins` extends in place.
  - It has the memo field `_trait_extractor`.
  - Its methods are the step-by-step parts of the wrapper: the extractor scans, the walk of `get_reference`, and the import-gathering loops. Each method is proved to compute the function that specifies it.

The trait extractors themselves are not part of this model. A `Rules`
record supplies each extractor's `check`, `priority`, `trait_code`,
`object_code`, `trait_imports`, `import_statement` and `type_description`
as functions.
`textwrap.shorten` is supplied the same way. The model fixes only the order
in which the extractors are consulted and what the scans do with their
answers.

Recursion through `$ref` can cycle: `{"$ref": "#"}` at the root refers to
itself. The classifiers therefore take a depth `fuel` that stands for
Python's recursion limit. One unit is spent at each `$ref` or union step.
Running out is `RecursionLimit`, Python's `RecursionError`. Lemmas show that
an answer, once reached, does not change with more fuel.

Three consequences of the code are worth stating on their own:

- **Trait and object overlap.** `is_trait` and `is_object` are not
  exclusive. `{"enum": [1], "anyOf": [{"properties": {}}]}` is a trait
  because of `enum`, and an object because its only branch has
  `properties` (`Classify.TraitAndObjectOverlap`).
- **Self-references raise.** Classification can raise on a well-formed
  document. For the document `{"$ref": "#"}`, both classifiers follow the
  reference back to the root until they hit the recursion limit, whatever
  that limit is (`Classify.SelfReferenceNeverResolves`).
- **Property children are anonymous.** `wrapped_properties` passes only the
  dictionary key through the reversed `trait_name_map`. The child itself is
  created without a name, as `initialize_child(val)`
  (`Definitions.WrappedPropertiesSpec`).

## Model

| member | source | states |
|---|---|---|
| Schema.Contains | schemapi/traitlets.py:109-110 | `key in node` succeeds exactly for a mapping, a string or a list; for a mapping it is key membership |
| Schema.GetAgreesWithContainsAndItem | schemapi/traitlets.py:106-119 | on a mapping `get(key, default)` is `node[key]` when `key in node` and the default otherwise; `node[key]` on a mapping without the key is a KeyError; `get` and `[]` fail on non-mappings |
| Schema.Attr | schemapi/traitlets.py:112-116 | a keyword in the table reads the schema's value, or else the table's default; any other attribute is an AttributeError; a non-mapping schema is an error |
| Schema.AttrDefaultValues | schemapi/traitlets.py:47-55 | a mapping with none of the keywords reads `type` as `"object"`, `required` as `[]`, `additionalProperties` as `True`, `properties`, `definitions` and `examples` as `{}`, `title` and `description` as `""`, `default` as `None`; `enum` is refused |
| Schema.IsReference | schemapi/traitlets.py:165-167 | a mapping is a reference exactly when it has `$ref` |
| Schema.GetReference | schemapi/traitlets.py:255-277 | an empty reference is an error; a first segment other than `#` is a format error; a success is the root wrapper or a non-root child named after the last path segment |
| Schema.RootReferences | schemapi/traitlets.py:264-269 | `#`, `#/`, and `#/` followed by another `/` all give the root wrapper |
| Schema.ReferenceWithoutHash | schemapi/traitlets.py:264-267 | a reference that does not start with `#` is "Unrecognized $ref format" |
| Schema.ResolvePath | schemapi/traitlets.py:270-277 | `#/k1/.../kn` walks exactly those keys from the root document, not from the asking node, and wraps what it finds under the name `kn`; a missing key is "not present"; other errors pass through |
| Schema.DefinitionReference | schemapi/traitlets.py:255-277 | `#/definitions/D` resolves to definition `D` itself, named `D` |
| Text.JoinSplit | schemapi/traitlets.py:264 | joining the pieces of `ref.split('/')` with `/` gives back `ref` |
| Text.SplitJoin | schemapi/traitlets.py:264 | splitting pieces that were joined with `/`, none holding a `/`, gives back those pieces |
| Order.SortedKeys | schemapi/traitlets.py:80 | `sorted` of distinct keys holds every key once, in strictly ascending order |
| Order.SortStrings | schemapi/traitlets.py:340 | `sorted` of a list of strings is a permutation of it, in ascending order |
| Order.SortBySorted | schemapi/traitlets.py:364 | sorting by a total preorder yields a sequence sorted by it |
| Order.ReverseOfIncreasing | schemapi/traitlets.py:329 | `reverse=True` on an ascending duplicate-free list is strictly descending, with the same elements |
| OrderedDicts.OrderedDictOfSpec | schemapi/traitlets.py:242-244 | `OrderedDict(pairs)` has the pairs' keys in order of first occurrence, and each key holds its last pair's value |
| OrderedDicts.OrderedDictOfDistinct | schemapi/traitlets.py:80 | pairs with distinct keys are kept exactly, in order |
| Classify.ClassifyMapping | schemapi/traitlets.py:125-163 | the rows of both decision tables that need no recursion: `properties` means object and not trait; a non-object `type` or an `enum` means trait; no `properties`, `$ref` or union keyword means not an object; and a plain `{"type": "object"}` is neither |
| Classify.ReferenceDelegates | schemapi/traitlets.py:133-134 | a `$ref` schema without `properties` classifies as its target does, one depth unit deeper; for `is_trait` this needs an object type and no `enum` (lines 151-152 give the same for `is_object`) |
| Classify.UnionDelegates | schemapi/traitlets.py:135-161 | a union schema without `$ref` or `properties` is a trait iff some branch is (`any`), and an object iff every branch is (`all`) |
| Classify.UnionKeywordOrder | schemapi/traitlets.py:135-143 | the union keywords are tried in the order `anyOf`, `allOf`, `oneOf` |
| Classify.AnyTraitSpec | schemapi/traitlets.py:136-143 | `any(...)` over the branches is true exactly when some branch is a trait and every earlier one is not; false exactly when no branch is |
| Classify.AllObjectsSpec | schemapi/traitlets.py:154-161 | `all(...)` over the branches is true exactly when every branch is an object; false exactly when some branch is not and every earlier one is |
| Classify.IsTraitFuel | schemapi/traitlets.py:125-145 | an `is_trait` answer reached within some depth stays the same at every greater depth |
| Classify.IsObjectFuel | schemapi/traitlets.py:147-163 | an `is_object` answer reached within some depth stays the same at every greater depth |
| Classify.ClassnameFuel | schemapi/traitlets.py:180-190 | a `classname` reached within some depth stays the same at every greater depth |
| Classify.SelfReferenceNeverResolves | schemapi/traitlets.py:133-134 | for the document `{"$ref": "#"}`, `is_trait` and `is_object` of the root never answer, at any depth (lines 151-152 give the same for `is_object`) |
| Classify.TraitAndObjectOverlap | schemapi/traitlets.py:125-163 | a schema with `enum` whose only `anyOf` branch has `properties` is both a trait and an object |
| Classify.IsNamedObject | schemapi/traitlets.py:169-174 | `is_named_object` is true exactly for a non-empty classname; it is false for an empty one or for the missing-classname error; every other error propagates |
| Classify.ClassnameTable | schemapi/traitlets.py:180-190 | a non-empty name gives `regularize_name(name)`; otherwise the root gives `root_name`; otherwise a reference takes its target's classname one depth unit deeper, and a reference that does not resolve passes its error on; an anonymous non-root mapping without `$ref` has no classname, and so is not a named object |
| Classify.RootReferenceClassname | schemapi/traitlets.py:186-187 | an anonymous `{"$ref": "#"}` takes the root wrapper's classname, which is `root_name` when the root has no name of its own; with no depth left it is a RecursionError |
| Classify.DefinitionReferenceClassname | schemapi/traitlets.py:186-187 | an anonymous `{"$ref": "#/definitions/D"}` takes the classname `regularize_name(D)` |
| Definitions.SortedItems | schemapi/traitlets.py:80 | `sorted(m.items())` lists every key in ascending order, each with its value |
| Definitions.AllDefinitionsSpec | schemapi/traitlets.py:78-80 | every definition appears once, in strictly ascending order of name, with its own schema |
| Definitions.WrappedDefinitionsSpec | schemapi/traitlets.py:240-244 | each entry is keyed by the lower case of a definition's name and wraps that definition under that name; the keys are the lowered names in order of first occurrence; a shared key holds the alphabetically last of its names |
| Definitions.WrappedDefinitionsWithoutCollision | schemapi/traitlets.py:240-244 | when no two names lower-case alike, every definition is wrapped exactly once, in ascending order of name |
| Definitions.CaseCollisionDropsDefinition | schemapi/traitlets.py:240-244 | definitions `A` and `a` share the key `"a"`, and only `a` is kept |
| Definitions.WrappedPropertiesSpec | schemapi/traitlets.py:246-250 | the call fails exactly when `properties` is unreadable; each entry wraps one property's schema as an anonymous child, keyed by `reverse_map.get(name, name)` |
| Definitions.WrappedPropertiesUnrenamed | schemapi/traitlets.py:246-250 | when `trait_map` renames nothing, each property is wrapped once, under its own name, in ascending order |
| Dispatch.FirstMatchSpec | schemapi/traitlets.py:86-93 | the scan succeeds exactly when some check passes after every earlier check failed, and then it answers that extractor; a check that raises before any pass gives that error; when every check fails, the error names the schema's keys |
| Dispatch.HelpText | schemapi/traitlets.py:282-284 | with no description there is no `help`; a non-empty description becomes `help=shorten(description)` |
| Assembly.PropertyImportsSpec | schemapi/traitlets.py:327-328 | extending with each property's `trait_imports` succeeds exactly when every one does; it keeps what came before as a prefix and adds exactly those imports |
| Assembly.ObjectImportsSpec | schemapi/traitlets.py:318-329 | `object_imports` holds every gathered import exactly once, including both basic imports, in strictly descending order |
| Assembly.DefinitionImportsSpec | schemapi/traitlets.py:337-339 | one import statement per wrapped definition, in order; the loop fails exactly when one of them does |
| Assembly.PluginSection | schemapi/traitlets.py:344 | a plugin's section is its `module_imports(self)` sorted: a permutation, in ascending order |
| Assembly.PluginImportsAppend | schemapi/traitlets.py:343-344 | the plugin imports of `ps + qs` are those of `ps` followed by those of `qs` |
| Assembly.ModuleImportsLayout | schemapi/traitlets.py:331-345 | `module_imports` is the node's own import statement, then the definitions' import statements sorted, then every plugin's imports in plugin order |
| Assembly.KeyLeTotalPreorder | schemapi/traitlets.py:364 | comparing `(priority, classname)` pairs is total and transitive |
| Assembly.ClassKeysSpec | schemapi/traitlets.py:364 | computing the sort keys succeeds exactly when every class has a priority and a classname |
| Assembly.EmissionOrderSpec | schemapi/traitlets.py:360-364 | the emitted classes are the root and the wrapped definitions, each as often as it occurs, in ascending `(priority, classname)` order; emission fails exactly when some class has no key |
| Schema.Item | schemapi/traitlets.py:106-107 | `node[key]`: the value on a mapping that has the key, a KeyError on one without it, a TypeError otherwise; specified by `Schema.GetAgreesWithContainsAndItem` |
| Schema.Get | schemapi/traitlets.py:118-119 | `node.get(key, default)` on the raw schema; specified by `Schema.GetAgreesWithContainsAndItem` |
| Schema.Child | schemapi/traitlets.py:100-104 | `initialize_child(schema, name)`: a non-root wrapper around the subschema, carrying the given name |
| Schema.RootNode | schemapi/traitlets.py:121-123 | the root wrapper, the one node whose `is_root` holds; `Schema.RootReferences` shows `#` resolves to it |
| Schema.Walk | schemapi/traitlets.py:270-275 | the `schema = schema[key]` loop over the path keys; specified by `Schema.ResolvePath` and computed by `Traitlets.SchemaTraitlets.GetReference` |
| Schema.WrappedRef | schemapi/traitlets.py:252-253 | `get_reference(self.schema['$ref'])`; `Classify.ReferenceDelegates` and `Classify.ClassnameTable` use it |
| Classify.IsTrait | schemapi/traitlets.py:125-145 | `is_trait`, under a depth bound; specified by `Classify.ClassifyMapping`, `Classify.ReferenceDelegates`, `Classify.UnionDelegates`, `Classify.AnyTraitSpec` and `Classify.IsTraitFuel` |
| Classify.IsObject | schemapi/traitlets.py:147-163 | `is_object`, under a depth bound; specified by `Classify.ClassifyMapping`, `Classify.ReferenceDelegates`, `Classify.UnionDelegates`, `Classify.AllObjectsSpec` and `Classify.IsObjectFuel` |
| Classify.Classname | schemapi/traitlets.py:180-190 | `classname`, under a depth bound; specified by `Classify.ClassnameTable`, `Classify.RootReferenceClassname`, `Classify.DefinitionReferenceClassname` and `Classify.ClassnameFuel` |
| Definitions.AllDefinitions | schemapi/traitlets.py:78-80 | `all_definitions`; specified by `Definitions.AllDefinitionsSpec` |
| Definitions.WrappedDefinitions | schemapi/traitlets.py:240-244 | `wrapped_definitions`; specified by `Definitions.WrappedDefinitionsSpec`, `Definitions.WrappedDefinitionsWithoutCollision` and `Definitions.CaseCollisionDropsDefinition` |
| Definitions.ReverseMap | schemapi/traitlets.py:248 | `{v: k for k, v in trait_map.items()}`, where a later item wins a shared value |
| Definitions.WrappedProperties | schemapi/traitlets.py:246-250 | `wrapped_properties`; specified by `Definitions.WrappedPropertiesSpec` and `Definitions.WrappedPropertiesUnrenamed` |
| Dispatch.Extractor | schemapi/traitlets.py:62-67 | the scan over `ExtractorOrder`, which lists the sixteen extractor classes in the order of `trait_extractors`; specified by `Dispatch.FirstMatchSpec` and computed by `Traitlets.SchemaTraitlets.Scan` |
| Dispatch.FirstMatch | schemapi/traitlets.py:86-93 | the `for ... else` scan; specified by `Dispatch.FirstMatchSpec` |
| Dispatch.TraitCodeOf | schemapi/traitlets.py:279-293 | `trait_code`: the help text, then the scan, then the chosen extractor's code; computed by `Traitlets.SchemaTraitlets.TraitCode` |
| Dispatch.ObjectCodeOf | schemapi/traitlets.py:295-304 | `object_code`: the scan, then the chosen extractor's code; computed by `Traitlets.SchemaTraitlets.ObjectCode` |
| Dispatch.TraitImportsOf | schemapi/traitlets.py:306-316 | `trait_imports`: the scan, then the chosen extractor's imports; computed by `Traitlets.SchemaTraitlets.TraitImports` |
| Dispatch.ImportStatementOf | schemapi/traitlets.py:236-238 | `import_statement`: the chosen extractor's import statement; computed through the memo by `Traitlets.SchemaTraitlets.ImportStatement` |
| Dispatch.TypeDescriptionOf | schemapi/traitlets.py:176-178 | `type_description`: the chosen extractor's description; computed through the memo by `Traitlets.SchemaTraitlets.TypeDescription` |
| Assembly.ObjectImportsOf | schemapi/traitlets.py:318-329 | `object_imports`; specified by `Assembly.ObjectImportsSpec` and computed by `Traitlets.SchemaTraitlets.ObjectImports` |
| Assembly.ModuleImportsOf | schemapi/traitlets.py:331-345 | `module_imports`; specified by `Assembly.ModuleImportsLayout` and computed by `Traitlets.SchemaTraitlets.ModuleImports` |
| Assembly.EmissionOrder | schemapi/traitlets.py:360-364 | the class list of `source_tree`, sorted by `(priority, classname)`; specified by `Assembly.EmissionOrderSpec` |
| Text.Split | schemapi/traitlets.py:264 | `ref.split('/')`: at least one piece, and no piece holds the separator; `Text.JoinSplit` and `Text.SplitJoin` show it is undone by joining |
| Text.Lower | schemapi/traitlets.py:242 | `name.lower()`: same length, each ASCII letter lower-cased |
| Traitlets.SchemaTraitlets.constructor | schemapi/traitlets.py:69-73 | a new wrapper has no plugins and no memoised extractor |
| Traitlets.SchemaTraitlets.AddPlugins | schemapi/traitlets.py:75-76 | `add_plugins` appends the given plugins to the existing ones, in order |
| Traitlets.SchemaTraitlets.Scan | schemapi/traitlets.py:86-93 | the loop over `trait_extractors` computes the first-match scan |
| Traitlets.SchemaTraitlets.TraitExtractor | schemapi/traitlets.py:82-94 | `trait_extractor` answers the first-match scan; a memoised answer is returned without a scan and is left unchanged; otherwise exactly one scan runs, and its success is memoised |
| Traitlets.SchemaTraitlets.TraitCode | schemapi/traitlets.py:279-293 | `trait_code` computes the help text, then scans afresh, and hands both to the chosen extractor |
| Traitlets.SchemaTraitlets.ObjectCode | schemapi/traitlets.py:295-304 | `object_code` scans afresh and asks the chosen extractor |
| Traitlets.SchemaTraitlets.TraitImports | schemapi/traitlets.py:306-316 | `trait_imports` scans afresh and asks the chosen extractor |
| Traitlets.SchemaTraitlets.ImportStatement | schemapi/traitlets.py:236-238 | `import_statement` asks the extractor that `trait_extractor` returns: a memoised extractor is used without a scan and is left unchanged; otherwise exactly one scan runs, and its success is memoised |
| Traitlets.SchemaTraitlets.TypeDescription | schemapi/traitlets.py:176-178 | `type_description` asks the extractor that `trait_extractor` returns, with the same memo behaviour as `import_statement` |
| Traitlets.SchemaTraitlets.GetReference | schemapi/traitlets.py:255-277 | walking the path one key at a time from the root document computes `get_reference` |
| Traitlets.SchemaTraitlets.WrappedRef | schemapi/traitlets.py:252-253 | `wrapped_ref` resolves the node's own `$ref` |
| Traitlets.SchemaTraitlets.AdditionalTraitImports | schemapi/traitlets.py:322-324 | a mapping `additionalProperties` contributes the trait imports of a fresh wrapper around it |
| Traitlets.SchemaTraitlets.ReferenceImportStatement | schemapi/traitlets.py:325-326 | a reference contributes the import statement of a fresh wrapper around its target |
| Traitlets.SchemaTraitlets.PropertyTraitImports | schemapi/traitlets.py:327-328 | the loop over the wrapped properties extends the list with each child's trait imports |
| Traitlets.SchemaTraitlets.ObjectImports | schemapi/traitlets.py:318-329 | the method computes `object_imports` |
| Traitlets.SchemaTraitlets.DefinitionImportStatements | schemapi/traitlets.py:337-339 | the loop over the wrapped definitions appends each one's import statement |
| Traitlets.SchemaTraitlets.PluginImportList | schemapi/traitlets.py:343-344 | the loop over the plugins appends each plugin's sorted imports, in the order the plugins were added |
| Traitlets.SchemaTraitlets.ModuleImports | schemapi/traitlets.py:331-345 | the method computes `module_imports`; the node's own import statement goes through `trait_extractor`, so a memoised extractor is kept without a scan, and otherwise exactly one scan runs and its success is memoised |
| Traitlets.MemoisedTwice | schemapi/traitlets.py:82-94 | two reads of `trait_extractor` on one wrapper agree with each other and with the scan |

## Left out

- Jinja templating, `FILE_HEADER` and `OBJECT_TEMPLATE`: text emission through an external library.
- The rest of `source_tree`, beyond the class-ordering sort and the imports: the clock, file reads and the package tree are I/O.
- `write_module` and `load_module`: disk writes and dynamic module loading.
- The trait extractors in `trait_extractors.py`, which is not part of this model. Their behaviour is supplied as the `Rules` record.
- `utils.regularize_name` and `utils.trait_name_map`: not part of this model. They are supplied as function fields of `Context`. `utils.hash_schema` and `utils.format_description` are not modelled.
- `textwrap.shorten`: standard-library text formatting. It is supplied as `Rules.shorten`.
- `indented_description`, `full_classname`, `additional_traits`, `schema_hash`, `modulename`, `filename` and `baseclass`: fixed strings or string formatting, with no logic to prove.
- The text of `type_description`: each extractor's own description is supplied by `Rules.typeDescription`. The model covers only how `type_description` takes the memoised extractor.
- `JSONSchemaPlugin.code_files`: it only feeds the package tree. A plugin is modelled by its `module_imports` hook alone.
- The hidden `schemaobj` wrapper. Its parts are modelled as follows:
  - `initialize_child` is `Schema.Child`.
  - `is_root` is the `Node.isRoot` field.
  - The root's name and label come from `Context`.
  - `schemaobj.definitions` is taken to be the root document's `definitions` keyword.
- `str.lower()` beyond ASCII letters: there is no Unicode case table.
- The iteration order of a Python dict used as a union value: a JSON object here has no order, so its keys are taken in sorted order.
- JSON floating-point numbers: only integers are modelled.
- The wording of error messages. `object_code`'s "No recognized object code" shares the `NoExtractor` error with the other scans.
- The recursion limit is not a fixed number: it is the `fuel` parameter, set from `Context.recursionLimit`.
- Object identity: a memoised extractor is modelled by its kind, not by the extractor instance.
- Assembly.EmissionOrderSpec: this does not state that the sort is stable, i.e. that classes with equal keys keep their order. The insertion sort is written to be stable, but this is not proved.
- Definitions.WrappedPropertiesSpec: this does not say which property a reverse-map key comes from: `trait_name_map` is not part of this model, so its choice of names is left open.
