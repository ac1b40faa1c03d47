/** Documents, schemas and error reports of the structural plan validator. */
module JsonSchemas {
  import opened Options

  datatype Json =
    | Null
    | Bool(b: bool)
    | Int(i: int)
    | Float(r: real)
    | Str(s: string)
    | Arr(items: seq<Json>)
    | Obj(fields: seq<Field>)

  // Fields in insertion order, keys distinct.
  datatype Field = Field(key: string, value: Json)

  datatype Additional = NotDeclared | Forbidden | Other

  // A schema object: None stands for an absent keyword.
  datatype Schema = Schema(
    ref: Option<string>,
    condition: Option<Schema>,
    thenBranch: Option<Schema>,
    elseBranch: Option<Schema>,
    oneOf: Choices,
    constant: Option<Json>,
    typeName: Option<string>,
    pattern: Option<string>,
    allowed: Option<seq<Json>>,
    minLength: Option<int>,
    minItems: Option<int>,
    minimum: Option<real>,
    items: Option<Schema>,
    properties: Properties,
    additional: Additional,
    required: Option<seq<string>>)

  datatype Property = Property(key: string, schema: Schema)
  datatype Properties = NoProperties | Properties(list: seq<Property>)
  datatype Choices = NoChoices | OneOf(candidates: seq<Schema>)

  const EMPTY_SCHEMA := Schema(None, None, None, None, NoChoices, None, None, None, None, None, None, None, None,
                               NoProperties, NotDeclared, None)

  datatype Path = Root | Probe | Member(parent: Path, key: string) | Element(parent: Path, index: nat)

  datatype SchemaError =
    | MissingField(path: Path, field: string)
    | WrongType(path: Path, expected: string)
    | NoPatternMatch(path: Path, pattern: string)
    | NotAllowed(path: Path)
    | TooShort(path: Path, length: nat, minimum: int)
    | TooFewItems(path: Path, length: nat, minimum: int)
    | BelowMinimum(path: Path, bound: real)
    | UnknownField(path: Path, field: string)
    | CircularRef(path: Path, name: string)
    | NoOneOfMatch(path: Path)
    | ManyOneOfMatches(path: Path, count: nat)
    | NotConstant(path: Path)

  // Shared definitions, and pattern matching as a given relation of pattern and text.
  datatype Env = Env(defs: map<string, Schema>, matches: (string, string) -> bool)

  // The segment of a $ref after its last slash.
  function RefName(ref: string): string {
    if ref == "" || ref[|ref| - 1] == '/' then "" else RefName(ref[..|ref| - 1]) + [ref[|ref| - 1]]
  }

  /** A reference names what stands after its last slash. */
  lemma {:induction false} RefNameIsLastSegment(prefix: string, name: string)
    requires '/' !in name
    ensures RefName(prefix + "/" + name) == name && RefName(name) == name
  {
    var ref := prefix + "/" + name;
    if name == "" {
      assert ref[|ref| - 1] == '/';
    } else {
      var n := |name| - 1;
      assert name[n] in name;
      assert ref[..|ref| - 1] == prefix + "/" + name[..n] && ref[|ref| - 1] == name[n];
      RefNameIsLastSegment(prefix, name[..n]);
    }
  }

  predicate HasKey(fields: seq<Field>, key: string) {
    exists f | f in fields :: f.key == key
  }

  function PropertyList(s: Schema): seq<Property> {
    if s.properties.Properties? then s.properties.list else []
  }

  // The index of the property schema for key, or |props| when it is not declared.
  function PropertyIndex(props: seq<Property>, key: string): (k: nat)
    ensures k <= |props|
    ensures k < |props| ==> props[k].key == key
    ensures k == |props| <==> forall p | p in props :: p.key != key
  {
    if props == [] then 0
    else if props[0].key == key then 0
    else 1 + PropertyIndex(props[1..], key)
  }

  // bool is a number to Python's equality.
  function AsNumber(v: Json): Option<real> {
    match v
    case Bool(b) => Some(if b then 1.0 else 0.0)
    case Int(i) => Some(i as real)
    case Float(r) => Some(r)
    case _ => None
  }

  predicate PyEqual(a: Json, b: Json) {
    match (a, b)
    case (Null, Null) => true
    case (Str(x), Str(y)) => x == y
    case (Arr(x), Arr(y)) => |x| == |y| && forall i | 0 <= i < |x| :: PyEqual(x[i], y[i])
    case (Obj(x), Obj(y)) =>
      |x| == |y| && forall f | f in x :: exists g | g in y :: f.key == g.key && PyEqual(f.value, g.value)
    case _ => AsNumber(a).Some? && AsNumber(a) == AsNumber(b)
  }

  // Type names outside the table are accepted for every value.
  predicate HasType(v: Json, name: string) {
    match name
    case "string" => v.Str?
    case "object" => v.Obj?
    case "array" => v.Arr?
    case "boolean" => v.Bool?
    case "integer" => v.Int?
    case "number" => v.Int? || v.Float?
    case _ => true
  }
}

/** The recursive interpreter for the schema subset: first as the list of errors it adds, then
    declaratively, then as the validator that shares and rolls back one error list. */
module StructuralValidation {
  import opened Options
  import opened Sequences
  import opened JsonSchemas

  // ---- Which values satisfy a schema ----

  // Keywords that look at the value alone.
  predicate KeywordsHold(env: Env, v: Json, s: Schema) {
    && (s.pattern.Some? && v.Str? ==> env.matches(s.pattern.value, v.s))
    && (s.allowed.Some? ==> exists a | a in s.allowed.value :: PyEqual(v, a))
    && (s.minLength.Some? && v.Str? ==> s.minLength.value <= |v.s|)
    && (s.minItems.Some? && v.Arr? ==> s.minItems.value <= |v.items|)
    && (s.minimum.Some? && (v.Int? || v.Float?) ==> s.minimum.value <= AsNumber(v).value)
  }

  /** v satisfies s. resolving holds the definitions already entered through $ref; entering one of
      them again, at any depth of the value, makes the value unacceptable. */
  ghost predicate Satisfies(env: Env, v: Json, s: Schema, resolving: set<string>)
    decreases env.defs.Keys - resolving, s, 2
  {
    if s.ref.Some? then
      var name := RefName(s.ref.value);
      name !in resolving && (name in env.defs ==> Satisfies(env, v, env.defs[name], resolving + {name}))
    else BranchHolds(env, v, s, resolving) && BaseHolds(env, v, s, resolving)
  }

  // if/then/else: the branch selected by the condition holds, when it is present.
  ghost predicate BranchHolds(env: Env, v: Json, s: Schema, resolving: set<string>)
    decreases env.defs.Keys - resolving, s, 1, 1
  {
    s.condition.Some? ==>
      && (s.thenBranch.Some? && Satisfies(env, v, s.condition.value, resolving)
          ==> Satisfies(env, v, s.thenBranch.value, resolving))
      && (s.elseBranch.Some? && !Satisfies(env, v, s.condition.value, resolving)
          ==> Satisfies(env, v, s.elseBranch.value, resolving))
  }

  // oneOf and const are decided alone; otherwise every remaining keyword holds.
  ghost predicate BaseHolds(env: Env, v: Json, s: Schema, resolving: set<string>)
    decreases env.defs.Keys - resolving, s, 1, 1
  {
    if s.oneOf.OneOf? then
      exists i | 0 <= i < |s.oneOf.candidates| :: OnlyOption(env, v, s.oneOf.candidates, i, resolving)
    else if s.constant.Some? then PyEqual(v, s.constant.value)
    else
      && (s.typeName.Some? ==> HasType(v, s.typeName.value))
      && KeywordsHold(env, v, s)
      && ContentHolds(env, v, s, resolving)
  }

  // The items of an array and the fields of an object.
  ghost predicate ContentHolds(env: Env, v: Json, s: Schema, resolving: set<string>)
    decreases env.defs.Keys - resolving, s, 1, 0
  {
    && (v.Arr? && s.typeName == Some("array") && s.items.Some? ==>
          forall i | 0 <= i < |v.items| :: Satisfies(env, v.items[i], s.items.value, resolving))
    && (v.Obj? && s.required.Some? ==> forall r | r in s.required.value :: HasKey(v.fields, r))
    && (v.Obj? ==> forall i | 0 <= i < |v.fields| :: FieldHolds(env, v.fields[i], s, resolving))
  }

  ghost predicate OnlyOption(env: Env, v: Json, options: seq<Schema>, i: nat, resolving: set<string>)
    requires i < |options|
    decreases env.defs.Keys - resolving, options, 3
  {
    && Satisfies(env, v, options[i], resolving)
    && forall j | 0 <= j < |options| && j != i :: !Satisfies(env, v, options[j], resolving)
  }

  // A declared field satisfies its property schema; an undeclared one must not be forbidden.
  ghost predicate FieldHolds(env: Env, f: Field, s: Schema, resolving: set<string>)
    decreases env.defs.Keys - resolving, s, 0, 0
  {
    var props := PropertyList(s);
    var k := PropertyIndex(props, f.key);
    if k == |props| then s.additional != Forbidden else Satisfies(env, f.value, props[k].schema, resolving)
  }

  // ---- The errors reported, in order ----

  function When(failed: bool, e: SchemaError): seq<SchemaError> {
    if failed then [e] else []
  }

  function ValueErrors(env: Env, v: Json, s: Schema, path: Path, resolving: set<string>): seq<SchemaError>
    decreases env.defs.Keys - resolving, s, 2
  {
    if s.ref.Some? then
      var name := RefName(s.ref.value);
      if name in resolving then [CircularRef(path, name)]
      else if name in env.defs then ValueErrors(env, v, env.defs[name], path, resolving + {name})
      else []
    else BranchErrors(env, v, s, path, resolving) + BaseErrors(env, v, s, path, resolving)
  }

  function BranchErrors(env: Env, v: Json, s: Schema, path: Path, resolving: set<string>): seq<SchemaError>
    decreases env.defs.Keys - resolving, s, 1, 1
  {
    if s.condition.None? then []
    else if ValueErrors(env, v, s.condition.value, Probe, resolving) == [] then
      if s.thenBranch.Some? then ValueErrors(env, v, s.thenBranch.value, path, resolving) else []
    else
    if s.elseBranch.Some? then ValueErrors(env, v, s.elseBranch.value, path, resolving) else []
  }

  // The candidates among the first n that match.
  function Matching(env: Env, v: Json, s: Schema, resolving: set<string>, n: nat): (found: seq<nat>)
    requires s.oneOf.OneOf? && n <= |s.oneOf.candidates|
    ensures forall k | 0 <= k < |found| :: found[k] < n
    decreases env.defs.Keys - resolving, s, 0, n
  {
    if n == 0 then [] else
    var rest := Matching(env, v, s, resolving, n - 1);
    if ValueErrors(env, v, s.oneOf.candidates[n - 1], Probe, resolving) == [] then rest + [n - 1] else rest
  }

  function BaseErrors(env: Env, v: Json, s: Schema, path: Path, resolving: set<string>): seq<SchemaError>
    decreases env.defs.Keys - resolving, s, 1, 1
  {
    if s.oneOf.OneOf? then
      var matching := Matching(env, v, s, resolving, |s.oneOf.candidates|);
      if |matching| == 0 then [NoOneOfMatch(path)]
      else if |matching| > 1 then [ManyOneOfMatches(path, |matching|)]
      else ValueErrors(env, v, s.oneOf.candidates[matching[0]], path, resolving)
    else if s.constant.Some? then When(!PyEqual(v, s.constant.value), NotConstant(path))
    else if s.typeName.Some? && !HasType(v, s.typeName.value) then [WrongType(path, s.typeName.value)]
    else KeywordErrors(env, v, s, path) + ContentErrors(env, v, s, path, resolving)
  }

  // The items of an array and the fields of an object.
  function ContentErrors(env: Env, v: Json, s: Schema, path: Path, resolving: set<string>): seq<SchemaError>
    decreases env.defs.Keys - resolving, s, 1, 0
  {
    if v.Arr? then
      if s.typeName == Some("array") && s.items.Some? then ItemErrors(env, v.items, s, path, resolving) else []
    else if v.Obj? && (s.properties.Properties? || s.additional != NotDeclared || s.required.Some?) then
      RequiredErrors(v.fields, GetOr(s.required, []), path) + FieldErrors(env, v.fields, s, path, resolving)
    else []
  }

  function PatternErrors(env: Env, v: Json, s: Schema, path: Path): seq<SchemaError> {
    if s.pattern.Some? && v.Str?
    then When(!env.matches(s.pattern.value, v.s), NoPatternMatch(path, s.pattern.value)) else []
  }

  function AllowedErrors(v: Json, s: Schema, path: Path): seq<SchemaError> {
    if s.allowed.Some? then When(!exists a | a in s.allowed.value :: PyEqual(v, a), NotAllowed(path)) else []
  }

  function LengthErrors(v: Json, s: Schema, path: Path): seq<SchemaError> {
    if s.minLength.Some? && v.Str?
    then When(|v.s| < s.minLength.value, TooShort(path, |v.s|, s.minLength.value)) else []
  }

  function ItemCountErrors(v: Json, s: Schema, path: Path): seq<SchemaError> {
    if s.minItems.Some? && v.Arr?
    then When(|v.items| < s.minItems.value, TooFewItems(path, |v.items|, s.minItems.value)) else []
  }

  function MinimumErrors(v: Json, s: Schema, path: Path): seq<SchemaError> {
    if s.minimum.Some? && (v.Int? || v.Float?)
    then When(AsNumber(v).value < s.minimum.value, BelowMinimum(path, s.minimum.value)) else []
  }

  function KeywordErrors(env: Env, v: Json, s: Schema, path: Path): (found: seq<SchemaError>)
    ensures found == [] <==> KeywordsHold(env, v, s)
  {
    PatternErrors(env, v, s, path) + AllowedErrors(v, s, path) + LengthErrors(v, s, path)
    + ItemCountErrors(v, s, path) + MinimumErrors(v, s, path)
  }

  function RequiredErrors(fields: seq<Field>, required: seq<string>, path: Path): (found: seq<SchemaError>)
    ensures found == [] <==> forall r | r in required :: HasKey(fields, r)
  {
    if required == [] then [] else
    assert required == required[..|required| - 1] + [required[|required| - 1]];
    RequiredErrors(fields, required[..|required| - 1], path)
    + When(!HasKey(fields, required[|required| - 1]), MissingField(path, required[|required| - 1]))
  }

  function ItemErrors(env: Env, items: seq<Json>, s: Schema, path: Path, resolving: set<string>): seq<SchemaError>
    requires s.items.Some?
    decreases env.defs.Keys - resolving, s, 0, |items|
  {
    if items == [] then [] else
    var n := |items| - 1;
    ItemErrors(env, items[..n], s, path, resolving)
    + ValueErrors(env, items[n], s.items.value, Element(path, n), resolving)
  }

  function FieldErrors(env: Env, fields: seq<Field>, s: Schema, path: Path, resolving: set<string>): seq<SchemaError>
    decreases env.defs.Keys - resolving, s, 0, |fields|
  {
    if fields == [] then [] else
    FieldErrors(env, fields[..|fields| - 1], s, path, resolving)
    + FieldError(env, fields[|fields| - 1], s, path, resolving)
  }

  lemma ItemErrorsStep(env: Env, items: seq<Json>, i: nat, s: Schema, path: Path, resolving: set<string>)
    requires i < |items| && s.items.Some?
    ensures ItemErrors(env, items[..i + 1], s, path, resolving)
         == ItemErrors(env, items[..i], s, path, resolving)
            + ValueErrors(env, items[i], s.items.value, Element(path, i), resolving)
  {
    assert items[..i + 1][..i] == items[..i];
  }

  lemma RequiredErrorsStep(fields: seq<Field>, required: seq<string>, i: nat, path: Path)
    requires i < |required|
    ensures RequiredErrors(fields, required[..i + 1], path)
         == RequiredErrors(fields, required[..i], path)
            + When(!HasKey(fields, required[i]), MissingField(path, required[i]))
  {
    assert required[..i + 1][..i] == required[..i];
  }

  // Which of the content rules apply.
  lemma ContentCases(env: Env, v: Json, s: Schema, path: Path, resolving: set<string>)
    ensures var checksItems := s.typeName == Some("array") && v.Arr? && s.items.Some?;
            var checksFields := v.Obj? && (s.properties.Properties? || s.additional != NotDeclared || s.required.Some?);
      && (checksItems ==> ContentErrors(env, v, s, path, resolving) == ItemErrors(env, v.items, s, path, resolving))
      && (checksFields ==>
            ContentErrors(env, v, s, path, resolving)
            == RequiredErrors(v.fields, GetOr(s.required, []), path) + FieldErrors(env, v.fields, s, path, resolving))
      && (!checksItems && !checksFields ==> ContentErrors(env, v, s, path, resolving) == [])
  {
  }

  lemma FieldErrorsStep(env: Env, fields: seq<Field>, i: nat, s: Schema, path: Path, resolving: set<string>)
    requires i < |fields|
    ensures FieldErrors(env, fields[..i + 1], s, path, resolving)
         == FieldErrors(env, fields[..i], s, path, resolving) + FieldError(env, fields[i], s, path, resolving)
  {
    assert fields[..i + 1][..i] == fields[..i];
  }

  function FieldError(env: Env, f: Field, s: Schema, path: Path, resolving: set<string>): seq<SchemaError>
    decreases env.defs.Keys - resolving, s, 0, 0
  {
    var props := PropertyList(s);
    var k := PropertyIndex(props, f.key);
    if k == |props| then When(s.additional == Forbidden, UnknownField(path, f.key))
    else ValueErrors(env, f.value, props[k].schema, Member(path, f.key), resolving)
  }

  // ---- No error exactly when the value satisfies the schema, at any path ----

  lemma {:induction false} NoErrorsIffSatisfies(env: Env, v: Json, s: Schema, path: Path, resolving: set<string>)
    ensures ValueErrors(env, v, s, path, resolving) == [] <==> Satisfies(env, v, s, resolving)
    decreases env.defs.Keys - resolving, s, 2
  {
    if s.ref.Some? {
      var name := RefName(s.ref.value);
      if name !in resolving && name in env.defs {
        NoErrorsIffSatisfies(env, v, env.defs[name], path, resolving + {name});
      }
    } else {
      NoBranchErrors(env, v, s, path, resolving);
      NoBaseErrors(env, v, s, path, resolving);
    }
  }

  lemma {:induction false} NoBranchErrors(env: Env, v: Json, s: Schema, path: Path, resolving: set<string>)
    ensures BranchErrors(env, v, s, path, resolving) == [] <==> BranchHolds(env, v, s, resolving)
    decreases env.defs.Keys - resolving, s, 1, 1
  {
    if s.condition.Some? {
      NoErrorsIffSatisfies(env, v, s.condition.value, Probe, resolving);
      if s.thenBranch.Some? {
        NoErrorsIffSatisfies(env, v, s.thenBranch.value, path, resolving);
      }
      if s.elseBranch.Some? {
        NoErrorsIffSatisfies(env, v, s.elseBranch.value, path, resolving);
      }
    }
  }

  lemma {:induction false} NoBaseErrors(env: Env, v: Json, s: Schema, path: Path, resolving: set<string>)
    ensures BaseErrors(env, v, s, path, resolving) == [] <==> BaseHolds(env, v, s, resolving)
    decreases env.defs.Keys - resolving, s, 1, 1
  {
    if s.oneOf.OneOf? {
      NoOneOfErrors(env, v, s, path, resolving);
    } else {
      NoContentErrors(env, v, s, path, resolving);
    }
  }

  lemma {:induction false} NoContentErrors(env: Env, v: Json, s: Schema, path: Path, resolving: set<string>)
    ensures ContentErrors(env, v, s, path, resolving) == [] <==> ContentHolds(env, v, s, resolving)
    decreases env.defs.Keys - resolving, s, 1, 0
  {
    if v.Arr? && s.items.Some? {
      NoItemErrors(env, v.items, s, path, resolving);
    }
    if v.Obj? {
      NoFieldErrors(env, v.fields, s, path, resolving);
    }
  }

  lemma {:induction false} NoOneOfErrors(env: Env, v: Json, s: Schema, path: Path, resolving: set<string>)
    requires s.oneOf.OneOf?
    ensures BaseErrors(env, v, s, path, resolving) == [] <==> BaseHolds(env, v, s, resolving)
    decreases env.defs.Keys - resolving, s, 0, |s.oneOf.candidates| + 2
  {
    var matching := Matching(env, v, s, resolving, |s.oneOf.candidates|);
    SingleMatchIsOnlyOption(env, v, s, resolving);
    if |matching| == 1 {
      NoErrorsIffSatisfies(env, v, s.oneOf.candidates[matching[0]], path, resolving);
    }
  }

  lemma {:induction false} SingleMatchIsOnlyOption(env: Env, v: Json, s: Schema, resolving: set<string>)
    requires s.oneOf.OneOf?
    ensures var matching := Matching(env, v, s, resolving, |s.oneOf.candidates|);
            && (|matching| == 1 ==> OnlyOption(env, v, s.oneOf.candidates, matching[0], resolving))
            && (|matching| != 1 ==>
                  !exists i | 0 <= i < |s.oneOf.candidates| :: OnlyOption(env, v, s.oneOf.candidates, i, resolving))
    decreases env.defs.Keys - resolving, s, 0, |s.oneOf.candidates| + 1
  {
    var n := |s.oneOf.candidates|;
    MatchingExact(env, v, s, resolving, n);
    var matching := Matching(env, v, s, resolving, n);
    if |matching| == 1 {
      assert matching[0] in matching;
      assert forall j | 0 <= j < n && j != matching[0] :: j !in matching;
    } else if |matching| > 1 {
      assert matching[0] in matching && matching[1] in matching && matching[0] < matching[1];
    }
  }

  lemma {:induction false} MatchingExact(env: Env, v: Json, s: Schema, resolving: set<string>, n: nat)
    requires s.oneOf.OneOf? && n <= |s.oneOf.candidates|
    ensures forall i | 0 <= i < n ::
              i in Matching(env, v, s, resolving, n) <==> Satisfies(env, v, s.oneOf.candidates[i], resolving)
    ensures forall j, k | 0 <= j < k < |Matching(env, v, s, resolving, n)| ::
              Matching(env, v, s, resolving, n)[j] < Matching(env, v, s, resolving, n)[k]
    decreases env.defs.Keys - resolving, s, 0, n
  {
    if n > 0 {
      MatchingExact(env, v, s, resolving, n - 1);
      NoErrorsIffSatisfies(env, v, s.oneOf.candidates[n - 1], Probe, resolving);
    }
  }

  ghost predicate ItemsHold(env: Env, items: seq<Json>, s: Schema, resolving: set<string>) {
    forall v | v in items :: Satisfies(env, v, s, resolving)
  }

  lemma ItemsHoldFront(env: Env, items: seq<Json>, s: Schema, resolving: set<string>)
    requires items != []
    ensures ItemsHold(env, items, s, resolving)
       <==> ItemsHold(env, items[..|items| - 1], s, resolving) && Satisfies(env, items[|items| - 1], s, resolving)
  {
    var front, last := items[..|items| - 1], items[|items| - 1];
    assert forall v :: v in items <==> v in front || v == last;
  }

  lemma {:induction false} NoItemErrors(env: Env, items: seq<Json>, s: Schema, path: Path, resolving: set<string>)
    requires s.items.Some?
    ensures ItemErrors(env, items, s, path, resolving) == [] <==> ItemsHold(env, items, s.items.value, resolving)
    decreases env.defs.Keys - resolving, s, 0, |items|
  {
    if items != [] {
      var n := |items| - 1;
      NoItemErrors(env, items[..n], s, path, resolving);
      NoErrorsIffSatisfies(env, items[n], s.items.value, Element(path, n), resolving);
      ItemErrorsStep(env, items, n, s, path, resolving);
      ItemsHoldFront(env, items, s.items.value, resolving);
      assert items[..n + 1] == items;
    }
  }

  ghost predicate FieldsHold(env: Env, fields: seq<Field>, s: Schema, resolving: set<string>) {
    forall f | f in fields :: FieldHolds(env, f, s, resolving)
  }

  lemma FieldsHoldFront(env: Env, fields: seq<Field>, s: Schema, resolving: set<string>)
    requires fields != []
    ensures FieldsHold(env, fields, s, resolving)
       <==> FieldsHold(env, fields[..|fields| - 1], s, resolving) && FieldHolds(env, fields[|fields| - 1], s, resolving)
  {
    var front, last := fields[..|fields| - 1], fields[|fields| - 1];
    assert forall f :: f in fields <==> f in front || f == last;
  }

  lemma {:induction false} NoFieldErrors(env: Env, fields: seq<Field>, s: Schema, path: Path, resolving: set<string>)
    ensures FieldErrors(env, fields, s, path, resolving) == [] <==> FieldsHold(env, fields, s, resolving)
    decreases env.defs.Keys - resolving, s, 0, |fields|
  {
    if fields != [] {
      var n := |fields| - 1;
      NoFieldErrors(env, fields[..n], s, path, resolving);
      NoFieldError(env, fields[n], s, path, resolving);
      FieldErrorsStep(env, fields, n, s, path, resolving);
      FieldsHoldFront(env, fields, s, resolving);
      assert fields[..n + 1] == fields;
    }
  }

  lemma {:induction false} NoFieldError(env: Env, f: Field, s: Schema, path: Path, resolving: set<string>)
    ensures FieldError(env, f, s, path, resolving) == [] <==> FieldHolds(env, f, s, resolving)
    decreases env.defs.Keys - resolving, s, 0, 0
  {
    var props := PropertyList(s);
    var k := PropertyIndex(props, f.key);
    if k < |props| {
      NoErrorsIffSatisfies(env, f.value, props[k].schema, Member(path, f.key), resolving);
    }
  }

  // Whether a value is accepted does not depend on where in the document it stands.
  lemma AcceptanceIgnoresPath(env: Env, v: Json, s: Schema, path: Path, other: Path, resolving: set<string>)
    ensures ValueErrors(env, v, s, path, resolving) == [] <==> ValueErrors(env, v, s, other, resolving) == []
  {
    NoErrorsIffSatisfies(env, v, s, path, resolving);
    NoErrorsIffSatisfies(env, v, s, other, resolving);
  }

  // Validating the single matching oneOf option again, at the real path, reports nothing.
  lemma SingleMatchAddsNothing(env: Env, v: Json, s: Schema, path: Path, resolving: set<string>)
    requires s.ref.None? && s.oneOf.OneOf?
    ensures var matching := Matching(env, v, s, resolving, |s.oneOf.candidates|);
            BaseErrors(env, v, s, path, resolving) ==
            if |matching| == 1 then [] else if |matching| == 0 then [NoOneOfMatch(path)]
            else [ManyOneOfMatches(path, |matching|)]
  {
    var n := |s.oneOf.candidates|;
    var matching := Matching(env, v, s, resolving, n);
    if |matching| == 1 {
      MatchingExact(env, v, s, resolving, n);
      assert matching[0] in matching;
      NoErrorsIffSatisfies(env, v, s.oneOf.candidates[matching[0]], path, resolving);
    }
  }

  // ---- Schemas without recursive references ----

  // Every definition that s refers to, at any depth, has a rank below limit.
  ghost predicate RefsBelow(env: Env, s: Schema, rank: string -> nat, limit: nat)
    decreases s
  {
    if s.ref.Some? then
      RefName(s.ref.value) in env.defs ==> rank(RefName(s.ref.value)) < limit
    else
      && (s.condition.Some? ==> RefsBelow(env, s.condition.value, rank, limit))
      && (s.thenBranch.Some? ==> RefsBelow(env, s.thenBranch.value, rank, limit))
      && (s.elseBranch.Some? ==> RefsBelow(env, s.elseBranch.value, rank, limit))
      && (s.items.Some? ==> RefsBelow(env, s.items.value, rank, limit))
      && (s.oneOf.OneOf? ==>
            forall i | 0 <= i < |s.oneOf.candidates| :: RefsBelow(env, s.oneOf.candidates[i], rank, limit))
      && (s.properties.Properties? ==>
            forall i | 0 <= i < |s.properties.list| :: RefsBelow(env, s.properties.list[i].schema, rank, limit))
  }

  // No definition reaches itself: each one refers only to definitions of lower rank.
  ghost predicate Ranked(env: Env, rank: string -> nat) {
    forall name | name in env.defs :: RefsBelow(env, env.defs[name], rank, rank(name))
  }

  ghost predicate EnteredAbove(env: Env, resolving: set<string>, rank: string -> nat, limit: nat) {
    forall name | name in resolving :: name in env.defs && limit <= rank(name)
  }

  /** Without recursive definitions the set of entered definitions never matters: a value satisfies
      a schema after any chain of references exactly when it satisfies it on its own. */
  lemma {:induction false} ResolvingIrrelevant(
    env: Env, v: Json, s: Schema, rank: string -> nat, limit: nat, r1: set<string>, r2: set<string>)
    requires Ranked(env, rank) && RefsBelow(env, s, rank, limit)
    requires EnteredAbove(env, r1, rank, limit) && EnteredAbove(env, r2, rank, limit)
    ensures Satisfies(env, v, s, r1) <==> Satisfies(env, v, s, r2)
    decreases limit, s, 2
  {
    if s.ref.Some? {
      var name := RefName(s.ref.value);
      if name in env.defs {
        ResolvingIrrelevant(env, v, env.defs[name], rank, rank(name), r1 + {name}, r2 + {name});
      }
    } else {
      if s.condition.Some? {
        ResolvingIrrelevant(env, v, s.condition.value, rank, limit, r1, r2);
        if s.thenBranch.Some? {
          ResolvingIrrelevant(env, v, s.thenBranch.value, rank, limit, r1, r2);
        }
        if s.elseBranch.Some? {
          ResolvingIrrelevant(env, v, s.elseBranch.value, rank, limit, r1, r2);
        }
      }
      BaseResolvingIrrelevant(env, v, s, rank, limit, r1, r2);
    }
  }

  lemma {:induction false} BaseResolvingIrrelevant(
    env: Env, v: Json, s: Schema, rank: string -> nat, limit: nat, r1: set<string>, r2: set<string>)
    requires Ranked(env, rank) && RefsBelow(env, s, rank, limit) && s.ref.None?
    requires EnteredAbove(env, r1, rank, limit) && EnteredAbove(env, r2, rank, limit)
    ensures BaseHolds(env, v, s, r1) <==> BaseHolds(env, v, s, r2)
    decreases limit, s, 1, 1
  {
    if s.oneOf.OneOf? {
      forall i | 0 <= i < |s.oneOf.candidates|
        ensures Satisfies(env, v, s.oneOf.candidates[i], r1) <==> Satisfies(env, v, s.oneOf.candidates[i], r2)
      {
        ResolvingIrrelevant(env, v, s.oneOf.candidates[i], rank, limit, r1, r2);
      }
      assert forall i | 0 <= i < |s.oneOf.candidates| ::
          OnlyOption(env, v, s.oneOf.candidates, i, r1) <==> OnlyOption(env, v, s.oneOf.candidates, i, r2);
    } else {
      ContentResolvingIrrelevant(env, v, s, rank, limit, r1, r2);
    }
  }

  lemma {:induction false} ContentResolvingIrrelevant(
    env: Env, v: Json, s: Schema, rank: string -> nat, limit: nat, r1: set<string>, r2: set<string>)
    requires Ranked(env, rank) && RefsBelow(env, s, rank, limit) && s.ref.None?
    requires EnteredAbove(env, r1, rank, limit) && EnteredAbove(env, r2, rank, limit)
    ensures ContentHolds(env, v, s, r1) <==> ContentHolds(env, v, s, r2)
    decreases limit, s, 1, 0
  {
    if v.Arr? && s.items.Some? {
      forall i | 0 <= i < |v.items|
        ensures Satisfies(env, v.items[i], s.items.value, r1) <==> Satisfies(env, v.items[i], s.items.value, r2)
      {
        ResolvingIrrelevant(env, v.items[i], s.items.value, rank, limit, r1, r2);
      }
    }
    if v.Obj? {
      forall i | 0 <= i < |v.fields|
        ensures FieldHolds(env, v.fields[i], s, r1) <==> FieldHolds(env, v.fields[i], s, r2)
      {
        var props := PropertyList(s);
        var k := PropertyIndex(props, v.fields[i].key);
        if k < |props| {
          ResolvingIrrelevant(env, v.fields[i].value, props[k].schema, rank, limit, r1, r2);
        }
      }
    }
  }

  // For such schemas a $ref means just the definition it names.
  lemma RefIsTransparent(env: Env, v: Json, s: Schema, rank: string -> nat)
    requires Ranked(env, rank) && s.ref.Some? && RefName(s.ref.value) in env.defs
    ensures Satisfies(env, v, s, {}) <==> Satisfies(env, v, env.defs[RefName(s.ref.value)], {})
  {
    var name := RefName(s.ref.value);
    ResolvingIrrelevant(env, v, env.defs[name], rank, rank(name), {} + {name}, {});
  }

  // One move from a schema to a schema inside it, or from a reference to its definition.
  datatype Move = IntoField(key: string) | IntoItem | IntoDefinition

  // Only these keywords of a schema without reference, oneOf and const apply to nested values.
  predicate ChecksContent(s: Schema) {
    s.ref.None? && s.oneOf.NoChoices? && s.constant.None?
  }

  // Following the route from s ends at a reference to the named definition.
  ghost predicate LeadsTo(env: Env, s: Schema, route: seq<Move>, name: string)
    decreases |route|
  {
    if route == [] then s.ref.Some? && RefName(s.ref.value) == name
    else
      match route[0]
      case IntoDefinition =>
        s.ref.Some? && RefName(s.ref.value) in env.defs
        && LeadsTo(env, env.defs[RefName(s.ref.value)], route[1..], name)
      case IntoField(key) =>
        var props := PropertyList(s);
        var k := PropertyIndex(props, key);
        ChecksContent(s) && k < |props| && LeadsTo(env, props[k].schema, route[1..], name)
      case IntoItem =>
        ChecksContent(s) && s.typeName == Some("array") && s.items.Some?
        && LeadsTo(env, s.items.value, route[1..], name)
  }

  // The value has fields and items all along the route.
  ghost predicate HasRoute(v: Json, route: seq<Move>)
    decreases |route|
  {
    if route == [] then true
    else
      match route[0]
      case IntoDefinition => HasRoute(v, route[1..])
      case IntoField(key) =>
        v.Obj? && exists i | 0 <= i < |v.fields| :: v.fields[i].key == key && HasRoute(v.fields[i].value, route[1..])
      case IntoItem => v.Arr? && exists i | 0 <= i < |v.items| :: HasRoute(v.items[i], route[1..])
  }

  lemma {:induction false} RouteToEnteredRejects(
    env: Env, v: Json, s: Schema, route: seq<Move>, name: string, resolving: set<string>)
    requires LeadsTo(env, s, route, name) && HasRoute(v, route) && name in resolving
    ensures !Satisfies(env, v, s, resolving)
    decreases |route|
  {
    if route != [] {
      match route[0]
      case IntoDefinition =>
        var d := RefName(s.ref.value);
        if d !in resolving {
          RouteToEnteredRejects(env, v, env.defs[d], route[1..], name, resolving + {d});
        }
      case IntoField(key) =>
        var props := PropertyList(s);
        var i :| 0 <= i < |v.fields| && v.fields[i].key == key && HasRoute(v.fields[i].value, route[1..]);
        var inner := props[PropertyIndex(props, key)].schema;
        RouteToEnteredRejects(env, v.fields[i].value, inner, route[1..], name, resolving);
        assert !FieldHolds(env, v.fields[i], s, resolving);
        assert !ContentHolds(env, v, s, resolving);
      case IntoItem =>
        var i :| 0 <= i < |v.items| && HasRoute(v.items[i], route[1..]);
        RouteToEnteredRejects(env, v.items[i], s.items.value, route[1..], name, resolving);
        assert !ContentHolds(env, v, s, resolving);
    }
  }

  /** A definition that leads back to itself, through fields, items and other definitions, rejects every
      value that follows the way back once, wherever it is referred to. */
  lemma RecursiveDefinitionRejectsRoute(
    env: Env, v: Json, s: Schema, route: seq<Move>, resolving: set<string>)
    requires s.ref.Some? && RefName(s.ref.value) in env.defs
    requires LeadsTo(env, env.defs[RefName(s.ref.value)], route, RefName(s.ref.value)) && HasRoute(v, route)
    ensures !Satisfies(env, v, s, resolving)
  {
    var name := RefName(s.ref.value);
    if name !in resolving {
      RouteToEnteredRejects(env, v, env.defs[name], route, name, resolving + {name});
    }
  }

  // An object type whose child field refers back to the type itself.
  function NodeSchema(ref: string): Schema {
    EMPTY_SCHEMA.(typeName := Some("object"),
    properties := Properties([Property("child", EMPTY_SCHEMA.(ref := Some(ref)))]))
  }

  /** A recursive definition accepts exactly the objects that do not use the recursion: a child at
      any depth is reported as a circular reference, however small the document. */
  lemma RecursiveDefinitionRejectsNesting(env: Env, v: Json, ref: string)
    requires RefName(ref) in env.defs && env.defs[RefName(ref)] == NodeSchema(ref)
    ensures Satisfies(env, v, EMPTY_SCHEMA.(ref := Some(ref)), {})
       <==> v.Obj? && !HasKey(v.fields, "child")
  {
    var name := RefName(ref);
    var s := NodeSchema(ref);
    var entered := {} + {name};
    var back := EMPTY_SCHEMA.(ref := Some(ref));
    assert Satisfies(env, v, back, {}) <==> Satisfies(env, v, s, entered);
    assert Satisfies(env, v, s, entered) <==> BaseHolds(env, v, s, entered);
    assert PropertyList(s)[0] == Property("child", back);
    if v.Obj? {
      forall i | 0 <= i < |v.fields|
        ensures FieldHolds(env, v.fields[i], s, entered) <==> v.fields[i].key != "child"
      {
        if v.fields[i].key == "child" {
          assert !Satisfies(env, v.fields[i].value, back, entered);
        }
      }
    }
  }

  // ---- The validator with its shared error list ----

  class StructuralValidator {
    const env: Env
    var errors: seq<SchemaError>

    constructor (env: Env)
      ensures this.env == env && errors == []
    {
      this.env := env;
      errors := [];
    }

    // Runs a candidate schema and rolls back whatever it reported.
    method MatchesSchema(v: Json, candidate: Schema, resolving: set<string>) returns (matched: bool)
      modifies this`errors
      ensures errors == old(errors)
      ensures matched <==> Satisfies(env, v, candidate, resolving)
      decreases env.defs.Keys - resolving, candidate, 3
    {
      var saved := |errors|;
      ValidateValue(v, candidate, Probe, resolving);
      matched := |errors| == saved;
      errors := errors[..saved];
      NoErrorsIffSatisfies(env, v, candidate, Probe, resolving);
    }

    method CheckRequired(fields: seq<Field>, required: seq<string>, path: Path)
      modifies this`errors
      ensures errors == old(errors) + RequiredErrors(fields, required, path)
    {
      for i := 0 to |required|
        invariant errors == old(errors) + RequiredErrors(fields, required[..i], path)
      {
        RequiredErrorsStep(fields, required, i, path);
        if !HasKey(fields, required[i]) {
          errors := errors + [MissingField(path, required[i])];
        }
      }
      assert required[..|required|] == required;
    }

    method ValidateField(f: Field, s: Schema, path: Path, resolving: set<string>)
      modifies this`errors
      ensures errors == old(errors) + FieldError(env, f, s, path, resolving)
      decreases env.defs.Keys - resolving, s, 0, 0
    {
      var props := PropertyList(s);
      var k := PropertyIndex(props, f.key);
      if k < |props| {
        ValidateValue(f.value, props[k].schema, Member(path, f.key), resolving);
      } else if s.additional == Forbidden {
        errors := errors + [UnknownField(path, f.key)];
      }
    }

    method ValidateFields(fields: seq<Field>, s: Schema, path: Path, resolving: set<string>)
      modifies this`errors
      ensures errors == old(errors) + FieldErrors(env, fields, s, path, resolving)
      decreases env.defs.Keys - resolving, s, 0, 1
    {
      for i := 0 to |fields|
        invariant errors == old(errors) + FieldErrors(env, fields[..i], s, path, resolving)
      {
        ghost var before := FieldErrors(env, fields[..i], s, path, resolving);
        ghost var added := FieldError(env, fields[i], s, path, resolving);
        ValidateField(fields[i], s, path, resolving);
        assert errors == old(errors) + (before + added);
        FieldErrorsStep(env, fields, i, s, path, resolving);
      }
      assert fields[..|fields|] == fields;
    }

    method ValidateItems(items: seq<Json>, s: Schema, path: Path, resolving: set<string>)
      requires s.items.Some?
      modifies this`errors
      ensures errors == old(errors) + ItemErrors(env, items, s, path, resolving)
      decreases env.defs.Keys - resolving, s, 0
    {
      for i := 0 to |items|
        invariant errors == old(errors) + ItemErrors(env, items[..i], s, path, resolving)
      {
        ghost var before := ItemErrors(env, items[..i], s, path, resolving);
        ghost var added := ValueErrors(env, items[i], s.items.value, Element(path, i), resolving);
        ValidateValue(items[i], s.items.value, Element(path, i), resolving);
        assert errors == old(errors) + (before + added);
        ItemErrorsStep(env, items, i, s, path, resolving);
      }
      assert items[..|items|] == items;
    }

    method ValidateOneOf(v: Json, s: Schema, path: Path, resolving: set<string>)
      requires s.oneOf.OneOf?
      modifies this`errors
      ensures errors == old(errors) + BaseErrors(env, v, s, path, resolving)
      decreases env.defs.Keys - resolving, s, 1, 0
    {
      var candidates := s.oneOf.candidates;
      var matching: seq<nat> := [];
      for i := 0 to |candidates|
        invariant errors == old(errors)
        invariant matching == Matching(env, v, s, resolving, i)
      {
        var matched := MatchesSchema(v, candidates[i], resolving);
        NoErrorsIffSatisfies(env, v, candidates[i], Probe, resolving);
        if matched {
          matching := matching + [i];
        }
      }
      if |matching| == 0 {
        errors := errors + [NoOneOfMatch(path)];
      } else if |matching| > 1 {
        errors := errors + [ManyOneOfMatches(path, |matching|)];
      } else {
        ValidateValue(v, candidates[matching[0]], path, resolving);
      }
    }

    method CheckPattern(v: Json, s: Schema, path: Path)
      modifies this`errors
      ensures errors == old(errors) + PatternErrors(env, v, s, path)
    {
      if s.pattern.Some? && v.Str? && !env.matches(s.pattern.value, v.s) {
        errors := errors + [NoPatternMatch(path, s.pattern.value)];
      }
    }

    method CheckEnum(v: Json, s: Schema, path: Path)
      modifies this`errors
      ensures errors == old(errors) + AllowedErrors(v, s, path)
    {
      if s.allowed.Some? && !exists a | a in s.allowed.value :: PyEqual(v, a) {
        errors := errors + [NotAllowed(path)];
      }
    }

    method CheckBounds(v: Json, s: Schema, path: Path)
      modifies this`errors
      ensures errors == old(errors) + LengthErrors(v, s, path) + ItemCountErrors(v, s, path) + MinimumErrors(v, s, path)
    {
      if s.minLength.Some? && v.Str? && |v.s| < s.minLength.value {
        errors := errors + [TooShort(path, |v.s|, s.minLength.value)];
      }
      if s.minItems.Some? && v.Arr? && |v.items| < s.minItems.value {
        errors := errors + [TooFewItems(path, |v.items|, s.minItems.value)];
      }
      if s.minimum.Some? && (v.Int? || v.Float?) && AsNumber(v).value < s.minimum.value {
        errors := errors + [BelowMinimum(path, s.minimum.value)];
      }
    }

    method ValidateKeywords(v: Json, s: Schema, path: Path)
      modifies this`errors
      ensures errors == old(errors) + KeywordErrors(env, v, s, path)
    {
      CheckPattern(v, s, path);
      CheckEnum(v, s, path);
      CheckBounds(v, s, path);
    }

    // if/then/else dispatch; a missing branch adds nothing.
    method ValidateBranch(v: Json, s: Schema, path: Path, resolving: set<string>)
      modifies this`errors
      ensures errors == old(errors) + BranchErrors(env, v, s, path, resolving)
      decreases env.defs.Keys - resolving, s, 1, 1
    {
      if s.condition.Some? && (s.thenBranch.Some? || s.elseBranch.Some?) {
        var matched := MatchesSchema(v, s.condition.value, resolving);
        NoErrorsIffSatisfies(env, v, s.condition.value, Probe, resolving);
        var branch := if matched then s.thenBranch else s.elseBranch;
        if branch.Some? {
          ValidateValue(v, branch.value, path, resolving);
        }
      }
    }

    // Everything after the if/then/else dispatch.
    method ValidateBase(v: Json, s: Schema, path: Path, resolving: set<string>)
      modifies this`errors
      ensures errors == old(errors) + BaseErrors(env, v, s, path, resolving)
      decreases env.defs.Keys - resolving, s, 1, 1
    {
      if s.oneOf.OneOf? {
        ValidateOneOf(v, s, path, resolving);
        return;
      }
      if s.constant.Some? {
        if !PyEqual(v, s.constant.value) {
          errors := errors + [NotConstant(path)];
        }
        return;
      }
      if s.typeName.Some? && !HasType(v, s.typeName.value) {
        errors := errors + [WrongType(path, s.typeName.value)];
        return;
      }
      ghost var keywords := KeywordErrors(env, v, s, path);
      ghost var content := ContentErrors(env, v, s, path, resolving);
      ValidateKeywords(v, s, path);
      ValidateContent(v, s, path, resolving);
      assert errors == old(errors) + (keywords + content);
    }

    method ValidateContent(v: Json, s: Schema, path: Path, resolving: set<string>)
      modifies this`errors
      ensures errors == old(errors) + ContentErrors(env, v, s, path, resolving)
      decreases env.defs.Keys - resolving, s, 1, 0
    {
      ContentCases(env, v, s, path, resolving);
      if s.typeName == Some("array") && v.Arr? && s.items.Some? {
        ValidateItems(v.items, s, path, resolving);
      } else if v.Obj? && (s.properties.Properties? || s.additional != NotDeclared || s.required.Some?) {
        var required := GetOr(s.required, []);
        ghost var missing := RequiredErrors(v.fields, required, path);
        ghost var inFields := FieldErrors(env, v.fields, s, path, resolving);
        CheckRequired(v.fields, required, path);
        assert errors == old(errors) + missing;
        ValidateFields(v.fields, s, path, resolving);
        assert errors == old(errors) + missing + inFields;
        ConcatAssociates(old(errors), missing, inFields);
      }
    }

    method ValidateValue(v: Json, s: Schema, path: Path, resolving: set<string>)
      modifies this`errors
      ensures errors == old(errors) + ValueErrors(env, v, s, path, resolving)
      decreases env.defs.Keys - resolving, s, 2
    {
      if s.ref.Some? {
        var name := RefName(s.ref.value);
        if name in resolving {
          errors := errors + [CircularRef(path, name)];
          return;
        }
        if name in env.defs {
          ValidateValue(v, env.defs[name], path, resolving + {name});
        }
        return;
      }
      ValidateBranch(v, s, path, resolving);
      ValidateBase(v, s, path, resolving);
    }
  }

  /** Validates a whole plan document: the reported errors, in order, and acceptance exactly when
      the document satisfies the schema. */
  method ValidateStructural(env: Env, plan: Json, schema: Schema) returns (errors: seq<SchemaError>)
    ensures errors == ValueErrors(env, plan, schema, Root, {})
    ensures errors == [] <==> Satisfies(env, plan, schema, {})
  {
    var validator := new StructuralValidator(env);
    validator.ValidateValue(plan, schema, Root, {});
    errors := validator.errors;
    NoErrorsIffSatisfies(env, plan, schema, Root, {});
  }
}
