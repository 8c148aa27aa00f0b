/** First-match dispatch over the trait extractors. The extractors
    themselves are not part of this model: each one's `check`, `priority`,
    `trait_code`, `object_code`, `trait_imports` and `import_statement` are
    supplied as functions in a `Rules` record, and this module fixes only
    the order in which they are consulted and what the scan does with their
    answers. */
module Dispatch {
  import opened Wrappers
  import opened Schema

  /** The trait extractor classes. */
  datatype ExtractorKind =
    | AnyOfObject | OneOfObject | AllOfObject
    | RefObject | RefTrait
    | Not | AnyOf | AllOf | OneOf
    | NamedEnum | Enum
    | SimpleType | CompoundType
    | Array | EmptySchema | Object

  /** The class attribute `trait_extractors`: the order of the scan. */
  const ExtractorOrder: seq<ExtractorKind> := [
    AnyOfObject, OneOfObject, AllOfObject,
    RefObject, RefTrait,
    Not, AnyOf, AllOf, OneOf,
    NamedEnum, Enum,
    SimpleType, CompoundType,
    Array, EmptySchema, Object]

  /** The behaviour of the extractors on a wrapped node. `shorten` stands
      for `textwrap.shorten(_, 70)`. */
  datatype Rules = Rules(
    check: (ExtractorKind, Context, Node) -> Result<bool, Error>,
    priority: ExtractorKind -> int,
    traitCode: (ExtractorKind, Context, Node, Option<string>) -> Result<string, Error>,
    objectCode: (ExtractorKind, Context, Node) -> Result<string, Error>,
    traitImports: (ExtractorKind, Context, Node) -> Result<seq<string>, Error>,
    importStatement: (ExtractorKind, Context, Node) -> Result<string, Error>,
    typeDescription: (ExtractorKind, Context, Node) -> Result<string, Error>,
    shorten: string -> string)

  /** The scan: the first extractor of `kinds` whose `check()` passes. A
      `check()` that raises ends the scan; when none passes, the error names
      the schema's keys. */
  function FirstMatch(rules: Rules, ctx: Context, n: Node, kinds: seq<ExtractorKind>): Result<ExtractorKind, Error> {
    if kinds == [] then
      var keys :- SchemaKeys(n.schema);
      Err(NoExtractor(keys))
    else
      var passes :- rules.check(kinds[0], ctx, n);
      if passes then Ok(kinds[0]) else FirstMatch(rules, ctx, n, kinds[1..])
  }

  /** Every check before position `i` failed. */
  predicate FailedBefore(rules: Rules, ctx: Context, n: Node, kinds: seq<ExtractorKind>, i: int)
    requires 0 <= i <= |kinds|
  {
    forall j :: 0 <= j < i ==> rules.check(kinds[j], ctx, n) == Ok(false)
  }

  /** Position `i` holds the first check that passes. */
  predicate FirstPass(rules: Rules, ctx: Context, n: Node, kinds: seq<ExtractorKind>, i: int) {
    0 <= i < |kinds| && rules.check(kinds[i], ctx, n) == Ok(true) && FailedBefore(rules, ctx, n, kinds, i)
  }

  /** Position `i` holds a check that raises before any check passed. */
  predicate FirstRaise(rules: Rules, ctx: Context, n: Node, kinds: seq<ExtractorKind>, i: int) {
    0 <= i < |kinds| && rules.check(kinds[i], ctx, n).Err? && FailedBefore(rules, ctx, n, kinds, i)
  }

  /** After a failed first check, the positions of the rest are the
      positions of the whole shifted by one. */
  lemma FailedBeforeShift(rules: Rules, ctx: Context, n: Node, kinds: seq<ExtractorKind>)
    requires kinds != [] && rules.check(kinds[0], ctx, n) == Ok(false)
    ensures forall i :: 0 <= i < |kinds| ==>
      (FailedBefore(rules, ctx, n, kinds, i + 1) <==> FailedBefore(rules, ctx, n, kinds[1..], i))
  {
    var rest := kinds[1..];
    forall i | 0 <= i < |kinds|
      ensures FailedBefore(rules, ctx, n, kinds, i + 1) <==> FailedBefore(rules, ctx, n, rest, i)
    {
      if FailedBefore(rules, ctx, n, rest, i) {
        forall j | 0 <= j < i + 1 ensures rules.check(kinds[j], ctx, n) == Ok(false) {
          if j > 0 {
            assert kinds[j] == rest[j - 1];
          }
        }
      }
      if FailedBefore(rules, ctx, n, kinds, i + 1) {
        forall j | 0 <= j < i ensures rules.check(rest[j], ctx, n) == Ok(false) {
          assert rest[j] == kinds[j + 1];
        }
      }
    }
  }

  /** The scan answers the extractor at the first position whose check
      passes after every earlier check failed; it raises the first check's
      error that comes before any pass; and it reports the schema's keys
      only when every check failed. */
  lemma {:induction false} FirstMatchSpec(rules: Rules, ctx: Context, n: Node, kinds: seq<ExtractorKind>)
    ensures FirstMatch(rules, ctx, n, kinds).Ok? <==> exists i :: FirstPass(rules, ctx, n, kinds, i)
    ensures forall i :: FirstPass(rules, ctx, n, kinds, i) ==> FirstMatch(rules, ctx, n, kinds) == Ok(kinds[i])
    ensures forall i :: FirstRaise(rules, ctx, n, kinds, i) ==>
      FirstMatch(rules, ctx, n, kinds) == Err(rules.check(kinds[i], ctx, n).error)
    ensures FailedBefore(rules, ctx, n, kinds, |kinds|) ==>
      FirstMatch(rules, ctx, n, kinds) ==
        (if n.schema.JObject? then Err(NoExtractor(n.schema.fields.Keys)) else Err(WrongJsonKind))
    decreases |kinds|
  {
    if kinds != [] {
      var rest := kinds[1..];
      FirstMatchSpec(rules, ctx, n, rest);
      var h := rules.check(kinds[0], ctx, n);
      if h.Ok? && h.value {
        assert FirstPass(rules, ctx, n, kinds, 0);
        assert forall i :: FirstPass(rules, ctx, n, kinds, i) ==> i == 0;
        assert forall i :: !FirstRaise(rules, ctx, n, kinds, i);
      } else if h.Ok? {
        FailedBeforeShift(rules, ctx, n, kinds);
        assert forall i :: FirstPass(rules, ctx, n, kinds, i) ==>
          i > 0 && FirstPass(rules, ctx, n, rest, i - 1) && kinds[i] == rest[i - 1];
        assert forall i :: FirstRaise(rules, ctx, n, kinds, i) ==>
          i > 0 && FirstRaise(rules, ctx, n, rest, i - 1) && kinds[i] == rest[i - 1];
        if exists i :: FirstPass(rules, ctx, n, rest, i) {
          var i :| FirstPass(rules, ctx, n, rest, i);
          assert FirstPass(rules, ctx, n, kinds, i + 1);
        }
        assert FailedBefore(rules, ctx, n, kinds, |kinds|) ==> FailedBefore(rules, ctx, n, rest, |rest|);
      } else {
        assert FailedBefore(rules, ctx, n, kinds, 0);
        assert FirstRaise(rules, ctx, n, kinds, 0);
        assert forall i :: FirstRaise(rules, ctx, n, kinds, i) ==> i == 0;
        assert forall i :: !FirstPass(rules, ctx, n, kinds, i);
      }
    }
  }

  /** The extractor the scan chooses. */
  function Extractor(rules: Rules, ctx: Context, n: Node): Result<ExtractorKind, Error> {
    FirstMatch(rules, ctx, n, ExtractorOrder)
  }

  /** The `help` keyword argument of `trait_code`: the shortened description,
      when the description is truthy. */
  function HelpText(rules: Rules, n: Node): (r: Result<Option<string>, Error>)
    ensures n.schema.JObject? && "description" !in n.schema.fields ==> r == Ok(None)
    ensures (n.schema.JObject? && "description" in n.schema.fields && n.schema.fields["description"].JString? &&
      n.schema.fields["description"].s != "") ==> r == Ok(Some(rules.shorten(n.schema.fields["description"].s)))
  {
    var d :- Attr(n, "description");
    if !Truthy(d) then Ok(None)
    else if d.JString? then Ok(Some(rules.shorten(d.s)))
    else Err(WrongJsonKind)
  }

  /** `trait_code`. */
  function TraitCodeOf(rules: Rules, ctx: Context, n: Node): Result<string, Error> {
    var help :- HelpText(rules, n);
    var k :- Extractor(rules, ctx, n);
    rules.traitCode(k, ctx, n, help)
  }

  /** `object_code`. */
  function ObjectCodeOf(rules: Rules, ctx: Context, n: Node): Result<string, Error> {
    var k :- Extractor(rules, ctx, n);
    rules.objectCode(k, ctx, n)
  }

  /** `trait_imports`. */
  function TraitImportsOf(rules: Rules, ctx: Context, n: Node): Result<seq<string>, Error> {
    var k :- Extractor(rules, ctx, n);
    rules.traitImports(k, ctx, n)
  }

  /** `import_statement`. */
  function ImportStatementOf(rules: Rules, ctx: Context, n: Node): Result<string, Error> {
    var k :- Extractor(rules, ctx, n);
    rules.importStatement(k, ctx, n)
  }

  /** `type_description`. */
  function TypeDescriptionOf(rules: Rules, ctx: Context, n: Node): Result<string, Error> {
    var k :- Extractor(rules, ctx, n);
    rules.typeDescription(k, ctx, n)
  }
}
