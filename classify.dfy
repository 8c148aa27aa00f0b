/** The structural classifiers `is_trait`, `is_object`, `classname` and
    `is_named_object`. Each follows `$ref` targets and union branches; since
    a reference can lead back to itself (`{"$ref": "#"}` at the root), each
    takes a depth `fuel` standing for Python's recursion limit: one unit is
    spent per recursive step, and running out is Python's RecursionError. */
module Classify {
  import opened Wrappers
  import opened Order
  import opened Schema

  /** The first union keyword the classifiers test for, in their order
      (`anyOf`, then `allOf`, then `oneOf`). */
  function UnionKeyword(j: Json): Result<Option<string>, Error> {
    var any :- Contains(j, "anyOf");
    if any then Ok(Some("anyOf"))
    else
      var all :- Contains(j, "allOf");
      if all then Ok(Some("allOf"))
      else
        var one :- Contains(j, "oneOf");
        if one then Ok(Some("oneOf")) else Ok(None)
  }

  /** `for spec in value`: the items of a list, the characters of a string,
      the keys of a mapping; anything else is not iterable. */
  function Iterate(v: Json): Result<seq<Json>, Error> {
    match v
    case JArray(a) => Ok(a)
    case JString(s) => Ok(seq(|s|, i requires 0 <= i < |s| => JString([s[i]])))
    case JObject(m) =>
      var ks := SortedKeys(m.Keys);
      Ok(seq(|ks|, i requires 0 <= i < |ks| => JString(ks[i])))
    case _ => Err(WrongJsonKind)
  }

  /** `self[kw]`, iterated. */
  function Branches(j: Json, kw: string): Result<seq<Json>, Error> {
    var v :- Item(j, kw);
    Iterate(v)
  }

  /** What one classification step decides before any recursion: an
      answer, a reference to follow, or union branches to quantify over. */
  datatype Step = Answer(b: bool) | Follow(target: Node) | Union(branches: seq<Json>)

  /** The union or plain-schema tail that both classifiers share. */
  function RefOrUnionStep(ctx: Context, n: Node): Result<Step, Error> {
    var isRef :- Contains(n.schema, "$ref");
    if isRef then
      var target :- WrappedRef(ctx, n);
      Ok(Follow(target))
    else
      var kw :- UnionKeyword(n.schema);
      if kw.None? then Ok(Answer(false))
      else
        var bs :- Branches(n.schema, kw.value);
        Ok(Union(bs))
  }

  /** The decision table of `is_trait`. */
  function TraitStep(ctx: Context, n: Node): Result<Step, Error> {
    var hasProps :- Contains(n.schema, "properties");
    if hasProps then Ok(Answer(false))
    else
      var ty :- Attr(n, "type");
      if ty != JString("object") then Ok(Answer(true))
      else
        var hasEnum :- Contains(n.schema, "enum");
        if hasEnum then Ok(Answer(true))
        else RefOrUnionStep(ctx, n)
  }

  /** The decision table of `is_object`. */
  function ObjectStep(ctx: Context, n: Node): Result<Step, Error> {
    var hasProps :- Contains(n.schema, "properties");
    if hasProps then Ok(Answer(true)) else RefOrUnionStep(ctx, n)
  }

  /** `is_trait`: a union is a trait when any of its branches is. */
  function IsTrait(ctx: Context, n: Node, fuel: nat): Result<bool, Error>
    decreases fuel, 0
  {
    var step :- TraitStep(ctx, n);
    match step
    case Answer(b) => Ok(b)
    case Follow(t) => if fuel == 0 then Err(RecursionLimit) else IsTrait(ctx, t, fuel - 1)
    case Union(bs) => if fuel == 0 then Err(RecursionLimit) else AnyTrait(ctx, bs, fuel - 1)
  }

  /** `any(self.initialize_child(spec).is_trait for spec in bs)`: stops at
      the first branch that is a trait, or at the first that raises. */
  function AnyTrait(ctx: Context, bs: seq<Json>, fuel: nat): Result<bool, Error>
    decreases fuel, |bs|
  {
    if bs == [] then Ok(false)
    else
      var t :- IsTrait(ctx, Child(bs[0], None), fuel);
      if t then Ok(true) else AnyTrait(ctx, bs[1..], fuel)
  }

  /** `is_object`: a union is an object when all of its branches are. */
  function IsObject(ctx: Context, n: Node, fuel: nat): Result<bool, Error>
    decreases fuel, 0
  {
    var step :- ObjectStep(ctx, n);
    match step
    case Answer(b) => Ok(b)
    case Follow(t) => if fuel == 0 then Err(RecursionLimit) else IsObject(ctx, t, fuel - 1)
    case Union(bs) => if fuel == 0 then Err(RecursionLimit) else AllObjects(ctx, bs, fuel - 1)
  }

  /** `all(self.initialize_child(spec).is_object for spec in bs)`: stops at
      the first branch that is not an object, or at the first that raises. */
  function AllObjects(ctx: Context, bs: seq<Json>, fuel: nat): Result<bool, Error>
    decreases fuel, |bs|
  {
    if bs == [] then Ok(true)
    else
      var o :- IsObject(ctx, Child(bs[0], None), fuel);
      if !o then Ok(false) else AllObjects(ctx, bs[1..], fuel)
  }

  /** `classname`: an explicit (non-empty) name, else the root name for the
      root, else the reference target's classname. */
  function Classname(ctx: Context, n: Node, fuel: nat): Result<string, Error>
    decreases fuel
  {
    if n.name.Some? && n.name.value != "" then Ok(ctx.regularize(n.name.value))
    else if n.isRoot then Ok(ctx.rootName)
    else
      var isRef :- IsReference(n);
      if isRef then
        var target :- WrappedRef(ctx, n);
        if fuel == 0 then Err(RecursionLimit) else Classname(ctx, target, fuel - 1)
      else
        var keys :- SchemaKeys(n.schema);
        Err(NoClassname(keys))
  }

  /** `is_named_object`: `bool(classname)`, where only the missing-classname
      condition reads as `False`; every other error still propagates. */
  function IsNamedObject(ctx: Context, n: Node, fuel: nat): (r: Result<bool, Error>)
    ensures r == Ok(true) <==> Classname(ctx, n, fuel).Ok? && Classname(ctx, n, fuel).value != ""
    ensures r == Ok(false) <==>
      Classname(ctx, n, fuel) == Ok("") ||
      (Classname(ctx, n, fuel).Err? && Classname(ctx, n, fuel).error.NoClassname?)
    ensures r.Err? ==> Classname(ctx, n, fuel) == Err(r.error) && !r.error.NoClassname?
  {
    match Classname(ctx, n, fuel)
    case Ok(c) => Ok(c != "")
    case Err(NoClassname(_)) => Ok(false)
    case Err(e) => Err(e)
  }

  // ---------------------------------------------------------------------
  // The decision tables, on mapping schemas

  /** The rows of both tables that need no recursion. */
  lemma ClassifyMapping(ctx: Context, m: map<string, Json>, name: Option<string>, isRoot: bool, fuel: nat)
    ensures var n := Node(JObject(m), name, isRoot);
      ("properties" in m ==> IsTrait(ctx, n, fuel) == Ok(false) && IsObject(ctx, n, fuel) == Ok(true))
    ensures var n := Node(JObject(m), name, isRoot);
      ("properties" !in m && "type" in m && m["type"] != JString("object") ==> IsTrait(ctx, n, fuel) == Ok(true))
    ensures var n := Node(JObject(m), name, isRoot);
      ("properties" !in m && ("type" !in m || m["type"] == JString("object")) && "enum" in m ==>
        IsTrait(ctx, n, fuel) == Ok(true))
    ensures var n := Node(JObject(m), name, isRoot);
      ("properties" !in m && "$ref" !in m && "anyOf" !in m && "allOf" !in m && "oneOf" !in m ==>
        IsObject(ctx, n, fuel) == Ok(false))
    ensures var n := Node(JObject(m), name, isRoot);
      ("properties" !in m && ("type" !in m || m["type"] == JString("object")) && "enum" !in m &&
       "$ref" !in m && "anyOf" !in m && "allOf" !in m && "oneOf" !in m ==>
        IsTrait(ctx, n, fuel) == Ok(false) && IsObject(ctx, n, fuel) == Ok(false))
  {
  }

  /** A schema with a `$ref` (and no `properties`, and for `is_trait` no
      `enum` and an object type) is classified as its target is. */
  lemma ReferenceDelegates(ctx: Context, n: Node, t: Node, fuel: nat)
    requires n.schema.JObject? && "$ref" in n.schema.fields && "properties" !in n.schema.fields
    requires WrappedRef(ctx, n) == Ok(t)
    ensures IsObject(ctx, n, fuel + 1) == IsObject(ctx, t, fuel)
    ensures (("type" !in n.schema.fields || n.schema.fields["type"] == JString("object")) &&
             "enum" !in n.schema.fields) ==> IsTrait(ctx, n, fuel + 1) == IsTrait(ctx, t, fuel)
  {
  }

  /** A union schema quantifies over its branches: `any` for `is_trait`,
      `all` for `is_object`. */
  lemma UnionDelegates(ctx: Context, n: Node, kw: string, bs: seq<Json>, fuel: nat)
    requires n.schema.JObject? && "$ref" !in n.schema.fields && "properties" !in n.schema.fields
    requires UnionKeyword(n.schema) == Ok(Some(kw)) && Branches(n.schema, kw) == Ok(bs)
    ensures IsObject(ctx, n, fuel + 1) == AllObjects(ctx, bs, fuel)
    ensures (("type" !in n.schema.fields || n.schema.fields["type"] == JString("object")) &&
             "enum" !in n.schema.fields) ==> IsTrait(ctx, n, fuel + 1) == AnyTrait(ctx, bs, fuel)
  {
  }

  /** The union keywords are tried in the order `anyOf`, `allOf`, `oneOf`. */
  lemma UnionKeywordOrder(m: map<string, Json>)
    ensures "anyOf" in m ==> UnionKeyword(JObject(m)) == Ok(Some("anyOf"))
    ensures "anyOf" !in m && "allOf" in m ==> UnionKeyword(JObject(m)) == Ok(Some("allOf"))
    ensures "anyOf" !in m && "allOf" !in m && "oneOf" in m ==> UnionKeyword(JObject(m)) == Ok(Some("oneOf"))
    ensures "anyOf" !in m && "allOf" !in m && "oneOf" !in m ==> UnionKeyword(JObject(m)) == Ok(None)
  {
  }

  // ---------------------------------------------------------------------
  // Python's `any` and `all` over the branches

  /** Branch `i` is the first that is a trait: every earlier branch
      classified as not a trait. */
  predicate FirstTrait(ctx: Context, bs: seq<Json>, fuel: nat, i: int) {
    0 <= i < |bs| && IsTrait(ctx, Child(bs[i], None), fuel) == Ok(true) &&
    forall j :: 0 <= j < i ==> IsTrait(ctx, Child(bs[j], None), fuel) == Ok(false)
  }

  /** Every branch classified as not a trait. */
  predicate NoTrait(ctx: Context, bs: seq<Json>, fuel: nat) {
    forall j :: 0 <= j < |bs| ==> IsTrait(ctx, Child(bs[j], None), fuel) == Ok(false)
  }

  lemma FirstTraitShift(ctx: Context, bs: seq<Json>, fuel: nat)
    requires bs != [] && IsTrait(ctx, Child(bs[0], None), fuel) == Ok(false)
    ensures forall i :: FirstTrait(ctx, bs[1..], fuel, i) ==> FirstTrait(ctx, bs, fuel, i + 1)
    ensures forall i :: FirstTrait(ctx, bs, fuel, i) ==> i > 0 && FirstTrait(ctx, bs[1..], fuel, i - 1)
    ensures NoTrait(ctx, bs, fuel) <==> NoTrait(ctx, bs[1..], fuel)
  {
    var rest := bs[1..];
    assert forall j :: 0 <= j < |rest| ==> rest[j] == bs[j + 1];
    forall i | FirstTrait(ctx, rest, fuel, i) ensures FirstTrait(ctx, bs, fuel, i + 1) {
      forall j | 0 <= j < i + 1 ensures IsTrait(ctx, Child(bs[j], None), fuel) == Ok(false) {
        if j > 0 {
          assert bs[j] == rest[j - 1];
        }
      }
    }
    if NoTrait(ctx, rest, fuel) {
      forall j | 0 <= j < |bs| ensures IsTrait(ctx, Child(bs[j], None), fuel) == Ok(false) {
        if j > 0 {
          assert bs[j] == rest[j - 1];
        }
      }
    }
  }

  /** `AnyTrait` is true exactly when some branch is the first trait among
      the branches; false exactly when no branch is a trait. */
  lemma {:induction false} AnyTraitSpec(ctx: Context, bs: seq<Json>, fuel: nat)
    ensures AnyTrait(ctx, bs, fuel) == Ok(true) <==> exists i :: FirstTrait(ctx, bs, fuel, i)
    ensures AnyTrait(ctx, bs, fuel) == Ok(false) <==> NoTrait(ctx, bs, fuel)
    decreases |bs|
  {
    if bs != [] {
      AnyTraitSpec(ctx, bs[1..], fuel);
      var h := IsTrait(ctx, Child(bs[0], None), fuel);
      if h == Ok(true) {
        assert FirstTrait(ctx, bs, fuel, 0);
      } else if h == Ok(false) {
        FirstTraitShift(ctx, bs, fuel);
        if exists i :: FirstTrait(ctx, bs[1..], fuel, i) {
          var i :| FirstTrait(ctx, bs[1..], fuel, i);
          assert FirstTrait(ctx, bs, fuel, i + 1);
        }
        if exists i :: FirstTrait(ctx, bs, fuel, i) {
          var i :| FirstTrait(ctx, bs, fuel, i);
          assert FirstTrait(ctx, bs[1..], fuel, i - 1);
        }
      } else {
        assert !FirstTrait(ctx, bs, fuel, 0);
        assert forall i :: !FirstTrait(ctx, bs, fuel, i);
      }
    }
  }

  /** Branch `i` is the first that is not an object: every earlier branch
      classified as an object. */
  predicate FirstNonObject(ctx: Context, bs: seq<Json>, fuel: nat, i: int) {
    0 <= i < |bs| && IsObject(ctx, Child(bs[i], None), fuel) == Ok(false) &&
    forall j :: 0 <= j < i ==> IsObject(ctx, Child(bs[j], None), fuel) == Ok(true)
  }

  /** Every branch classified as an object. */
  predicate AllObjectBranches(ctx: Context, bs: seq<Json>, fuel: nat) {
    forall j :: 0 <= j < |bs| ==> IsObject(ctx, Child(bs[j], None), fuel) == Ok(true)
  }

  lemma FirstNonObjectShift(ctx: Context, bs: seq<Json>, fuel: nat)
    requires bs != [] && IsObject(ctx, Child(bs[0], None), fuel) == Ok(true)
    ensures forall i :: FirstNonObject(ctx, bs[1..], fuel, i) ==> FirstNonObject(ctx, bs, fuel, i + 1)
    ensures forall i :: FirstNonObject(ctx, bs, fuel, i) ==> i > 0 && FirstNonObject(ctx, bs[1..], fuel, i - 1)
    ensures AllObjectBranches(ctx, bs, fuel) <==> AllObjectBranches(ctx, bs[1..], fuel)
  {
    var rest := bs[1..];
    assert forall j :: 0 <= j < |rest| ==> rest[j] == bs[j + 1];
    forall i | FirstNonObject(ctx, rest, fuel, i) ensures FirstNonObject(ctx, bs, fuel, i + 1) {
      forall j | 0 <= j < i + 1 ensures IsObject(ctx, Child(bs[j], None), fuel) == Ok(true) {
        if j > 0 {
          assert bs[j] == rest[j - 1];
        }
      }
    }
    if AllObjectBranches(ctx, rest, fuel) {
      forall j | 0 <= j < |bs| ensures IsObject(ctx, Child(bs[j], None), fuel) == Ok(true) {
        if j > 0 {
          assert bs[j] == rest[j - 1];
        }
      }
    }
  }

  /** `AllObjects` is true exactly when every branch is an object; false
      exactly when some branch is the first that is not an object. */
  lemma {:induction false} AllObjectsSpec(ctx: Context, bs: seq<Json>, fuel: nat)
    ensures AllObjects(ctx, bs, fuel) == Ok(true) <==> AllObjectBranches(ctx, bs, fuel)
    ensures AllObjects(ctx, bs, fuel) == Ok(false) <==> exists i :: FirstNonObject(ctx, bs, fuel, i)
    decreases |bs|
  {
    if bs != [] {
      AllObjectsSpec(ctx, bs[1..], fuel);
      var h := IsObject(ctx, Child(bs[0], None), fuel);
      if h == Ok(false) {
        assert FirstNonObject(ctx, bs, fuel, 0);
      } else if h == Ok(true) {
        FirstNonObjectShift(ctx, bs, fuel);
        if exists i :: FirstNonObject(ctx, bs[1..], fuel, i) {
          var i :| FirstNonObject(ctx, bs[1..], fuel, i);
          assert FirstNonObject(ctx, bs, fuel, i + 1);
        }
        if exists i :: FirstNonObject(ctx, bs, fuel, i) {
          var i :| FirstNonObject(ctx, bs, fuel, i);
          assert FirstNonObject(ctx, bs[1..], fuel, i - 1);
        }
      } else {
        assert !FirstNonObject(ctx, bs, fuel, 0);
        assert forall i :: !FirstNonObject(ctx, bs, fuel, i);
      }
    }
  }

  // ---------------------------------------------------------------------
  // Depth: an answer found within some depth is the answer at every greater depth

  lemma {:induction false} IsTraitFuel(ctx: Context, n: Node, f: nat, g: nat)
    requires f <= g && IsTrait(ctx, n, f) != Err(RecursionLimit)
    ensures IsTrait(ctx, n, g) == IsTrait(ctx, n, f)
    decreases f, 0
  {
    var step := TraitStep(ctx, n);
    if step.Ok? && f > 0 {
      match step.value
      case Answer(_) =>
      case Follow(t) => IsTraitFuel(ctx, t, f - 1, g - 1);
      case Union(bs) => AnyTraitFuel(ctx, bs, f - 1, g - 1);
    }
  }

  lemma {:induction false} AnyTraitFuel(ctx: Context, bs: seq<Json>, f: nat, g: nat)
    requires f <= g && AnyTrait(ctx, bs, f) != Err(RecursionLimit)
    ensures AnyTrait(ctx, bs, g) == AnyTrait(ctx, bs, f)
    decreases f, |bs|
  {
    if bs != [] {
      IsTraitFuel(ctx, Child(bs[0], None), f, g);
      if IsTrait(ctx, Child(bs[0], None), f) == Ok(false) {
        AnyTraitFuel(ctx, bs[1..], f, g);
      }
    }
  }

  lemma {:induction false} IsObjectFuel(ctx: Context, n: Node, f: nat, g: nat)
    requires f <= g && IsObject(ctx, n, f) != Err(RecursionLimit)
    ensures IsObject(ctx, n, g) == IsObject(ctx, n, f)
    decreases f, 0
  {
    var step := ObjectStep(ctx, n);
    if step.Ok? && f > 0 {
      match step.value
      case Answer(_) =>
      case Follow(t) => IsObjectFuel(ctx, t, f - 1, g - 1);
      case Union(bs) => AllObjectsFuel(ctx, bs, f - 1, g - 1);
    }
  }

  lemma {:induction false} AllObjectsFuel(ctx: Context, bs: seq<Json>, f: nat, g: nat)
    requires f <= g && AllObjects(ctx, bs, f) != Err(RecursionLimit)
    ensures AllObjects(ctx, bs, g) == AllObjects(ctx, bs, f)
    decreases f, |bs|
  {
    if bs != [] {
      IsObjectFuel(ctx, Child(bs[0], None), f, g);
      if IsObject(ctx, Child(bs[0], None), f) == Ok(true) {
        AllObjectsFuel(ctx, bs[1..], f, g);
      }
    }
  }

  lemma {:induction false} ClassnameFuel(ctx: Context, n: Node, f: nat, g: nat)
    requires f <= g && Classname(ctx, n, f) != Err(RecursionLimit)
    ensures Classname(ctx, n, g) == Classname(ctx, n, f)
    decreases f
  {
    if !(n.name.Some? && n.name.value != "") && !n.isRoot && IsReference(n) == Ok(true) {
      var t := WrappedRef(ctx, n);
      if t.Ok? && f > 0 {
        ClassnameFuel(ctx, t.value, f - 1, g - 1);
      }
    }
  }

  // ---------------------------------------------------------------------
  // Consequences

  /** A root document `{"$ref": "#"}` refers to itself: classifying it
      never reaches an answer, at any depth. */
  lemma {:induction false} SelfReferenceNeverResolves(ctx: Context, fuel: nat)
    requires ctx.document == JObject(map["$ref" := JString("#")])
    ensures IsTrait(ctx, RootNode(ctx), fuel) == Err(RecursionLimit)
    ensures IsObject(ctx, RootNode(ctx), fuel) == Err(RecursionLimit)
  {
    RootReferences(ctx, "");
    var root := RootNode(ctx);
    assert WrappedRef(ctx, root) == Ok(root);
    assert TraitStep(ctx, root) == Ok(Follow(root));
    assert ObjectStep(ctx, root) == Ok(Follow(root));
    if fuel > 0 {
      SelfReferenceNeverResolves(ctx, fuel - 1);
    }
  }

  /** The two classifiers are not exclusive: a schema with an `enum` whose
      only union branch has `properties` is both a trait and an object. */
  lemma TraitAndObjectOverlap(ctx: Context, fuel: nat)
    ensures var branch := JObject(map["properties" := JObject(map[])]);
      var n := Child(JObject(map["enum" := JArray([JInt(1)]), "anyOf" := JArray([branch])]), None);
      IsTrait(ctx, n, fuel) == Ok(true) && IsObject(ctx, n, fuel + 1) == Ok(true)
  {
    var branch := JObject(map["properties" := JObject(map[])]);
    var m := map["enum" := JArray([JInt(1)]), "anyOf" := JArray([branch])];
    var n := Child(JObject(m), None);
    assert TraitStep(ctx, n) == Ok(Answer(true));
    UnionKeywordOrder(m);
    assert Branches(JObject(m), "anyOf") == Ok([branch]);
    assert ObjectStep(ctx, n) == Ok(Union([branch]));
    assert IsObject(ctx, Child(branch, None), fuel) == Ok(true);
    assert AllObjects(ctx, [branch], fuel) == Ok(true) by {
      assert [branch][1..] == [];
    }
  }

  /** The classname table: an explicit non-empty name wins, then the root
      name; an anonymous non-root reference takes its target's classname
      one depth unit deeper, and a reference that does not resolve passes
      its error on; an anonymous non-root mapping without `$ref` has no
      classname, which `is_named_object` reads as `False`. */
  lemma ClassnameTable(ctx: Context, n: Node, fuel: nat)
    ensures n.name.Some? && n.name.value != "" ==> Classname(ctx, n, fuel) == Ok(ctx.regularize(n.name.value))
    ensures (n.name.None? || n.name == Some("")) && n.isRoot ==> Classname(ctx, n, fuel) == Ok(ctx.rootName)
    ensures ((n.name.None? || n.name == Some("")) && !n.isRoot && n.schema.JObject? && "$ref" in n.schema.fields &&
             WrappedRef(ctx, n).Ok?) ==>
      Classname(ctx, n, fuel + 1) == Classname(ctx, WrappedRef(ctx, n).value, fuel)
    ensures ((n.name.None? || n.name == Some("")) && !n.isRoot && n.schema.JObject? && "$ref" in n.schema.fields &&
             WrappedRef(ctx, n).Err?) ==>
      Classname(ctx, n, fuel) == Err(WrappedRef(ctx, n).error)
    ensures (n.name.None? || n.name == Some("")) && !n.isRoot && n.schema.JObject? && "$ref" !in n.schema.fields ==>
      Classname(ctx, n, fuel) == Err(NoClassname(n.schema.fields.Keys)) && IsNamedObject(ctx, n, fuel) == Ok(false)
  {
  }

  /** An anonymous `{"$ref": "#", ...}` takes the root wrapper's classname:
      its own name when it has one, else the root name; with no depth left
      it is Python's RecursionError. */
  lemma RootReferenceClassname(ctx: Context, m: map<string, Json>, fuel: nat)
    requires "$ref" in m && m["$ref"] == JString("#")
    ensures Classname(ctx, Child(JObject(m), None), fuel + 1) == Classname(ctx, RootNode(ctx), fuel)
    ensures (ctx.rootLabel.None? || ctx.rootLabel == Some("")) ==>
      Classname(ctx, Child(JObject(m), None), fuel + 1) == Ok(ctx.rootName)
    ensures Classname(ctx, Child(JObject(m), None), 0) == Err(RecursionLimit)
  {
    RootReferences(ctx, "");
  }

  /** An anonymous `{"$ref": "#/definitions/D", ...}` takes the classname of
      definition `D`. */
  lemma DefinitionReferenceClassname(ctx: Context, m: map<string, Json>, d: string, fuel: nat)
    requires d != "" && '/' !in d
    requires ctx.document.JObject? && "definitions" in ctx.document.fields
    requires ctx.document.fields["definitions"].JObject?
    requires d in ctx.document.fields["definitions"].fields
    requires "$ref" in m && m["$ref"] == JString("#/definitions/" + d)
    ensures Classname(ctx, Child(JObject(m), None), fuel + 1) == Ok(ctx.regularize(d))
    ensures IsNamedObject(ctx, Child(JObject(m), None), fuel + 1) == Ok(ctx.regularize(d) != "")
  {
    DefinitionReference(ctx, d);
  }
}
