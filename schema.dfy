/** The schema wrapper's view of a JSON Schema (draft 4) document: JSON
    values, the wrapped node (schema, name, root flag), the errors the wrapper
    raises, keyword access through the fixed default table, and `$ref`
    resolution against the root document. */
module Schema {
  import opened Wrappers
  import opened Order
  import opened Text

  /** A JSON value. Object keys are unique and unordered; floating-point
      numbers are not modelled. */
  datatype Json =
    | JNull
    | JBool(b: bool)
    | JInt(i: int)
    | JString(s: string)
    | JArray(items: seq<Json>)
    | JObject(fields: map<string, Json>)

  /** Python truthiness of a JSON value. */
  predicate Truthy(j: Json) {
    match j
    case JNull => false
    case JBool(b) => b
    case JInt(i) => i != 0
    case JString(s) => s != ""
    case JArray(a) => a != []
    case JObject(m) => m != map[]
  }

  /** What the wrapper raises. */
  datatype Error =
    | UnknownAttribute(attr: string)       // AttributeError from the keyword table
    | KeyMissing(key: string)              // KeyError from `schema[key]`
    | WrongJsonKind                        // TypeError or AttributeError: the operation does not apply to this kind of JSON value
    | EmptyReference                       // ValueError("empty reference")
    | UnrecognizedRefFormat(ref: string)   // ValueError("Unrecognized $ref format")
    | RefNotPresent(ref: string)           // ValueError("$ref=... not present in the schema")
    | NoClassname(keys: set<string>)       // NotImplementedError("class name for schema with keys ...")
    | NoExtractor(keys: set<string>)       // ValueError("No recognized trait code for schema with keys ...")
    | RecursionLimit                       // RecursionError: Python's recursion limit was reached

  /** One compilation: the root document and the collaborators the wrapper
      calls but that are not part of this model. */
  datatype Context = Context(
    document: Json,                                   // the root schema object's `schema`
    rootLabel: Option<string>,                        // the `name` the root schema object reports
    rootName: string,                                 // the root schema object's `root_name`
    regularize: string -> string,                     // `utils.regularize_name`
    traitNameMap: seq<string> -> seq<(string, string)>, // `utils.trait_name_map`, as its items in order
    recursionLimit: nat)                              // how deep classification may recurse

  /** A wrapped schema: the subtree, the name it was reached under, and
      whether it is the root wrapper itself. */
  datatype Node = Node(schema: Json, name: Option<string>, isRoot: bool)

  /** The wrapper around the root schema object. */
  function RootNode(ctx: Context): Node {
    Node(ctx.document, ctx.rootLabel, true)
  }

  /** `initialize_child(schema, name)`: a child's root is the document root,
      so the child is never the root itself. */
  function Child(schema: Json, name: Option<string>): Node {
    Node(schema, name, false)
  }

  /** `key in schema` (`__contains__`): key membership for a mapping,
      substring for a string, element equality for a list; a TypeError
      for anything else. */
  function Contains(j: Json, key: string): (r: Result<bool, Error>)
    ensures r.Ok? <==> j.JObject? || j.JString? || j.JArray?
    ensures j.JObject? ==> (r == Ok(true) <==> key in j.fields)
  {
    match j
    case JObject(m) => Ok(key in m)
    case JString(s) => Ok(IsSubstring(key, s))
    case JArray(a) => Ok(JString(key) in a)
    case _ => Err(WrongJsonKind)
  }

  /** `schema[key]` (`__getitem__`) with a string key. */
  function Item(j: Json, key: string): Result<Json, Error> {
    match j
    case JObject(m) => if key in m then Ok(m[key]) else Err(KeyMissing(key))
    case _ => Err(WrongJsonKind)
  }

  /** `schema.get(key, default)`: only mappings have `get`. */
  function Get(j: Json, key: string, default: Json): Result<Json, Error> {
    match j
    case JObject(m) => Ok(if key in m then m[key] else default)
    case _ => Err(WrongJsonKind)
  }

  /** `get` reads the raw mapping: it answers `schema[key]` exactly when
      `key in schema`, and the caller's default otherwise. */
  lemma GetAgreesWithContainsAndItem(j: Json, key: string, default: Json)
    ensures j.JObject? ==>
      Get(j, key, default) == if Contains(j, key) == Ok(true) then Item(j, key) else Ok(default)
    ensures j.JObject? && Contains(j, key) == Ok(false) ==> Item(j, key) == Err(KeyMissing(key))
    ensures !j.JObject? ==> Get(j, key, default).Err? && Item(j, key).Err?
  {
  }

  /** `tuple(self.schema.keys())`, as used in diagnostics. */
  function SchemaKeys(j: Json): Result<set<string>, Error> {
    if j.JObject? then Ok(j.fields.Keys) else Err(WrongJsonKind)
  }

  /** The keywords attribute access accepts, with their defaults. */
  const AttrDefaults: map<string, Json> := map[
    "title" := JString(""),
    "description" := JString(""),
    "properties" := JObject(map[]),
    "definitions" := JObject(map[]),
    "default" := JNull,
    "examples" := JObject(map[]),
    "type" := JString("object"),
    "required" := JArray([]),
    "additionalProperties" := JBool(true)]

  /** Attribute access `node.<attr>` (`__getattr__`): a listed keyword reads
      the schema, falling back to the table; anything else is refused. */
  function Attr(n: Node, attr: string): (r: Result<Json, Error>)
    ensures attr !in AttrDefaults ==> r == Err(UnknownAttribute(attr))
    ensures attr in AttrDefaults && n.schema.JObject? ==>
      r == Ok(if attr in n.schema.fields then n.schema.fields[attr] else AttrDefaults[attr])
    ensures attr in AttrDefaults && !n.schema.JObject? ==> r == Err(WrongJsonKind)
  {
    if attr in AttrDefaults then Get(n.schema, attr, AttrDefaults[attr])
    else Err(UnknownAttribute(attr))
  }

  /** The defaults of the keyword table, for a mapping that lacks them. */
  lemma AttrDefaultValues(n: Node)
    requires n.schema.JObject?
    requires forall k :: k in AttrDefaults ==> k !in n.schema.fields
    ensures Attr(n, "type") == Ok(JString("object"))
    ensures Attr(n, "required") == Ok(JArray([]))
    ensures Attr(n, "additionalProperties") == Ok(JBool(true))
    ensures Attr(n, "properties") == Ok(JObject(map[]))
    ensures Attr(n, "definitions") == Ok(JObject(map[]))
    ensures Attr(n, "title") == Ok(JString("")) && Attr(n, "description") == Ok(JString(""))
    ensures Attr(n, "default") == Ok(JNull) && Attr(n, "examples") == Ok(JObject(map[]))
    ensures Attr(n, "enum") == Err(UnknownAttribute("enum"))
  {
  }

  /** `is_reference`. */
  function IsReference(n: Node): (r: Result<bool, Error>)
    ensures n.schema.JObject? ==> r == Ok("$ref" in n.schema.fields)
  {
    Contains(n.schema, "$ref")
  }

  /** Follows `keys` from `j`, as `schema = schema[key]` does for each key. */
  function Walk(j: Json, keys: seq<string>): Result<Json, Error>
    decreases |keys|
  {
    if keys == [] then Ok(j)
    else
      var next :- Item(j, keys[0]);
      Walk(next, keys[1..])
  }

  /** `get_reference(ref)`: `#` and `#/` give the root wrapper; any other
      path is walked from the root document (never from the node asking)
      and the value found is wrapped under the last path segment. */
  function GetReference(ctx: Context, ref: string): (r: Result<Node, Error>)
    ensures ref == "" ==> r == Err(EmptyReference)
    ensures ref != "" && Split(ref, '/')[0] != "#" ==> r == Err(UnrecognizedRefFormat(ref))
    ensures r.Ok? ==>
      r.value == RootNode(ctx) ||
      (!r.value.isRoot && r.value.name == Some(Split(ref, '/')[|Split(ref, '/')| - 1]))
  {
    if ref == "" then Err(EmptyReference)
    else
      var path := Split(ref, '/');
      var name := path[|path| - 1];
      if path[0] != "#" then Err(UnrecognizedRefFormat(ref))
      else if |path| == 1 || path[1] == "" then Ok(RootNode(ctx))
      else
        match Walk(ctx.document, path[1..])
        case Ok(j) => Ok(Child(j, Some(name)))
        case Err(KeyMissing(_)) => Err(RefNotPresent(ref))
        case Err(e) => Err(e)
  }

  /** `wrapped_ref()`: resolves the node's own `$ref` value. */
  function WrappedRef(ctx: Context, n: Node): Result<Node, Error> {
    var ref :- Item(n.schema, "$ref");
    if ref.JString? then GetReference(ctx, ref.s)
    else if Truthy(ref) then Err(WrongJsonKind)
    else Err(EmptyReference)
  }

  /** The reference string `#/k1/k2/...` for a path of keys. */
  function RefString(keys: seq<string>): string {
    Join(["#"] + keys, '/')
  }

  /** `#`, `#/`, and every `#/` followed by another `/`, name the root. */
  lemma {:induction false} RootReferences(ctx: Context, rest: string)
    requires rest == "" || rest[0] == '/'
    ensures GetReference(ctx, "#") == Ok(RootNode(ctx))
    ensures GetReference(ctx, "#/" + rest) == Ok(RootNode(ctx))
    ensures GetReference(ctx, "#").value.isRoot
  {
    SplitWithout("#", '/');
    SplitAfterPiece("#", '/', rest);
    assert "#/" + rest == "#" + ['/'] + rest;
  }

  /** A malformed reference such as `notaref` is a format error. */
  lemma ReferenceWithoutHash(ctx: Context, ref: string)
    requires ref != "" && ref[0] != '#'
    ensures GetReference(ctx, ref) == Err(UnrecognizedRefFormat(ref))
  {
    var path := Split(ref, '/');
    if ref[0] != '/' {
      assert path[0] == [ref[0]] + Split(ref[1..], '/')[0];
      assert path[0][0] != '#';
    }
    assert path[0] != "#";
  }

  /** Resolving `#/k1/.../kn` walks exactly those keys from the root
      document and names the result after `kn`; a key missing on the way
      is reported as "not present". */
  lemma {:induction false} ResolvePath(ctx: Context, keys: seq<string>)
    requires |keys| >= 1 && keys[0] != ""
    requires forall i :: 0 <= i < |keys| ==> '/' !in keys[i]
    ensures Walk(ctx.document, keys).Ok? ==>
      GetReference(ctx, RefString(keys)) == Ok(Child(Walk(ctx.document, keys).value, Some(keys[|keys| - 1])))
    ensures Walk(ctx.document, keys).Err? && Walk(ctx.document, keys).error.KeyMissing? ==>
      GetReference(ctx, RefString(keys)) == Err(RefNotPresent(RefString(keys)))
    ensures Walk(ctx.document, keys).Err? && !Walk(ctx.document, keys).error.KeyMissing? ==>
      GetReference(ctx, RefString(keys)) == Err(Walk(ctx.document, keys).error)
  {
    var parts := ["#"] + keys;
    forall i | 0 <= i < |parts| ensures '/' !in parts[i] {
      if i > 0 {
        assert parts[i] == keys[i - 1];
      }
    }
    SplitJoin(parts, '/');
    assert parts[1..] == keys;
    assert RefString(keys) != "" by {
      assert Join(parts, '/') == "#" + ['/'] + Join(keys, '/');
    }
  }

  /** `#/definitions/D` resolves to the definition itself, named `D`. */
  lemma DefinitionReference(ctx: Context, d: string)
    requires d != "" && '/' !in d
    requires ctx.document.JObject? && "definitions" in ctx.document.fields
    requires ctx.document.fields["definitions"].JObject?
    requires d in ctx.document.fields["definitions"].fields
    ensures GetReference(ctx, "#/definitions/" + d) ==
      Ok(Child(ctx.document.fields["definitions"].fields[d], Some(d)))
  {
    SplitDefinitionPath(d);
    WalkDefinition(ctx.document, d);
  }

  /** `"#/definitions/<d>"` splits into its three pieces. */
  lemma SplitDefinitionPath(d: string)
    requires '/' !in d
    ensures Split("#/definitions/" + d, '/') == ["#", "definitions", d]
  {
    assert "#/definitions/" + d == "#" + ['/'] + "definitions" + ['/'] + d;
    SplitThree("#", "definitions", d, '/');
  }

  /** Walking `["definitions", d]` reaches the definition. */
  lemma WalkDefinition(doc: Json, d: string)
    requires doc.JObject? && "definitions" in doc.fields
    requires doc.fields["definitions"].JObject?
    requires d in doc.fields["definitions"].fields
    ensures Walk(doc, ["definitions", d]) == Ok(doc.fields["definitions"].fields[d])
  {
    var defs := doc.fields["definitions"];
    assert Walk(defs, [d]) == Ok(defs.fields[d]) by {
      assert Walk(defs.fields[d], []) == Ok(defs.fields[d]);
      assert [d][1..] == [];
    }
    assert Walk(doc, ["definitions", d]) == Walk(defs, [d]) by {
      assert ["definitions", d][1..] == [d];
    }
  }
}
