/** What the structural validator reports: exactly the faults of the places it visits, each where it is. */
module StructuralErrors {
  import opened Options
  import opened Sequences
  import opened JsonSchemas
  import opened StructuralValidation

  // A schema applied to a value, with the path that labels errors and the definitions being resolved.
  datatype Visit = Visit(v: Json, s: Schema, path: Path, resolving: set<string>)

  // From one visit to the next: through a reference, a branch, an item or a field.
  datatype Hop = IntoRef | IntoThen | IntoElse | IntoItemAt(i: nat) | IntoFieldAt(i: nat)

  function ErrorsAt(env: Env, x: Visit): seq<SchemaError> {
    ValueErrors(env, x.v, x.s, x.path, x.resolving)
  }

  // The keywords after oneOf, const and type are looked at.
  predicate KeywordsApply(x: Visit) {
    && x.s.ref.None? && x.s.oneOf.NoChoices? && x.s.constant.None?
    && (x.s.typeName.Some? ==> HasType(x.v, x.s.typeName.value))
  }

  ghost function After(env: Env, x: Visit, hop: Hop): Option<Visit> {
    match hop
    case IntoRef =>
      if x.s.ref.Some? && RefName(x.s.ref.value) !in x.resolving && RefName(x.s.ref.value) in env.defs then
        var name := RefName(x.s.ref.value);
        Some(Visit(x.v, env.defs[name], x.path, x.resolving + {name}))
      else None
    case IntoThen =>
      if x.s.ref.None? && x.s.condition.Some? && x.s.thenBranch.Some?
         && Satisfies(env, x.v, x.s.condition.value, x.resolving)
      then Some(Visit(x.v, x.s.thenBranch.value, x.path, x.resolving)) else None
    case IntoElse =>
      if x.s.ref.None? && x.s.condition.Some? && x.s.elseBranch.Some?
         && !Satisfies(env, x.v, x.s.condition.value, x.resolving)
      then Some(Visit(x.v, x.s.elseBranch.value, x.path, x.resolving)) else None
    case IntoItemAt(i) =>
      if KeywordsApply(x) && x.v.Arr? && x.s.typeName == Some("array") && x.s.items.Some? && i < |x.v.items|
      then Some(Visit(x.v.items[i], x.s.items.value, Element(x.path, i), x.resolving)) else None
    case IntoFieldAt(i) =>
      if KeywordsApply(x) && x.v.Obj? && i < |x.v.fields|
         && PropertyIndex(PropertyList(x.s), x.v.fields[i].key) < |PropertyList(x.s)|
      then
        var f := x.v.fields[i];
        Some(Visit(f.value, PropertyList(x.s)[PropertyIndex(PropertyList(x.s), f.key)].schema,
                   Member(x.path, f.key), x.resolving))
      else None
  }

  // The options of a oneOf that hold.
  ghost function HoldingOptions(env: Env, x: Visit): set<nat>
    requires x.s.oneOf.OneOf?
  {
    set i: nat | i < |x.s.oneOf.candidates| && Satisfies(env, x.v, x.s.oneOf.candidates[i], x.resolving)
  }

  // The value visited has the fault that the error names, by the schema applied to it and at its path.
  ghost predicate KeywordFault(env: Env, x: Visit, e: SchemaError) {
    match e
    case NoPatternMatch(p, pattern) =>
      p == x.path && x.s.pattern == Some(pattern) && x.v.Str? && !env.matches(pattern, x.v.s)
    case NotAllowed(p) =>
      p == x.path && x.s.allowed.Some? && !exists a | a in x.s.allowed.value :: PyEqual(x.v, a)
    case TooShort(p, n, m) => p == x.path && x.s.minLength == Some(m) && x.v.Str? && |x.v.s| == n && n < m
    case TooFewItems(p, n, m) => p == x.path && x.s.minItems == Some(m) && x.v.Arr? && |x.v.items| == n && n < m
    case BelowMinimum(p, m) =>
      p == x.path && x.s.minimum == Some(m) && (x.v.Int? || x.v.Float?) && AsNumber(x.v).value < m
    case _ => false
  }

  ghost predicate ObjectFault(env: Env, x: Visit, e: SchemaError) {
    match e
    case MissingField(p, k) =>
      p == x.path && x.v.Obj? && x.s.required.Some? && k in x.s.required.value && !HasKey(x.v.fields, k)
    case UnknownField(p, k) =>
      p == x.path && x.v.Obj? && x.s.additional == Forbidden && HasKey(x.v.fields, k)
      && forall q | q in PropertyList(x.s) :: q.key != k
    case _ => false
  }

  ghost predicate OwnFault(env: Env, x: Visit, e: SchemaError) {
    if x.s.ref.Some? then
      var name := RefName(x.s.ref.value);
      name in x.resolving && e == CircularRef(x.path, name)
    else if x.s.oneOf.OneOf? then
      var count := |HoldingOptions(env, x)|;
      || (count == 0 && e == NoOneOfMatch(x.path))
      || (count > 1 && e == ManyOneOfMatches(x.path, count))
    else if x.s.constant.Some? then !PyEqual(x.v, x.s.constant.value) && e == NotConstant(x.path)
    else if x.s.typeName.Some? && !HasType(x.v, x.s.typeName.value) then e == WrongType(x.path, x.s.typeName.value)
    else KeywordFault(env, x, e) || ObjectFault(env, x, e)
  }

  ghost predicate Leads(env: Env, x: Visit, hop: Hop, e: SchemaError) {
    After(env, x, hop).Some? && e in ErrorsAt(env, After(env, x, hop).value)
  }

  // ---- One visit ----

  lemma KeywordErrorsExact(env: Env, x: Visit, e: SchemaError)
    ensures e in KeywordErrors(env, x.v, x.s, x.path) <==> KeywordFault(env, x, e)
  {
    var a, b := PatternErrors(env, x.v, x.s, x.path), AllowedErrors(x.v, x.s, x.path);
    var c, d := LengthErrors(x.v, x.s, x.path), ItemCountErrors(x.v, x.s, x.path);
    var f := MinimumErrors(x.v, x.s, x.path);
    assert e in KeywordErrors(env, x.v, x.s, x.path) <==> e in a || e in b || e in c || e in d || e in f;
  }

  lemma {:induction false} RequiredErrorsExact(fields: seq<Field>, required: seq<string>, path: Path, e: SchemaError)
    ensures e in RequiredErrors(fields, required, path)
       <==> e.MissingField? && e.path == path && e.field in required && !HasKey(fields, e.field)
  {
    if required != [] {
      var n := |required| - 1;
      RequiredErrorsExact(fields, required[..n], path, e);
      assert required == required[..n] + [required[n]];
    }
  }

  ghost predicate ItemHasError(env: Env, x: Visit, i: nat, e: SchemaError) {
    && x.v.Arr? && i < |x.v.items| && x.s.items.Some?
    && e in ValueErrors(env, x.v.items[i], x.s.items.value, Element(x.path, i), x.resolving)
  }

  ghost predicate SomeItemHasError(env: Env, x: Visit, n: nat, e: SchemaError) {
    exists i: nat | i < n :: ItemHasError(env, x, i, e)
  }

  lemma {:induction false} ItemErrorsExact(env: Env, x: Visit, n: nat, e: SchemaError)
    requires x.v.Arr? && x.s.items.Some? && n <= |x.v.items|
    ensures e in ItemErrors(env, x.v.items[..n], x.s, x.path, x.resolving) <==> SomeItemHasError(env, x, n, e)
  {
    if n > 0 {
      ItemErrorsExact(env, x, n - 1, e);
      ItemErrorsStep(env, x.v.items, n - 1, x.s, x.path, x.resolving);
      OneMoreItem(env, x, n - 1, e);
    }
  }

  lemma OneMoreItem(env: Env, x: Visit, n: nat, e: SchemaError)
    ensures SomeItemHasError(env, x, n + 1, e) <==> SomeItemHasError(env, x, n, e) || ItemHasError(env, x, n, e)
  {
  }

  ghost predicate FieldHasError(env: Env, x: Visit, i: nat, e: SchemaError) {
    x.v.Obj? && i < |x.v.fields| && e in FieldError(env, x.v.fields[i], x.s, x.path, x.resolving)
  }

  ghost predicate SomeFieldHasError(env: Env, x: Visit, n: nat, e: SchemaError) {
    exists i: nat | i < n :: FieldHasError(env, x, i, e)
  }

  lemma {:induction false} FieldErrorsExact(env: Env, x: Visit, n: nat, e: SchemaError)
    requires x.v.Obj? && n <= |x.v.fields|
    ensures e in FieldErrors(env, x.v.fields[..n], x.s, x.path, x.resolving) <==> SomeFieldHasError(env, x, n, e)
  {
    if n > 0 {
      FieldErrorsExact(env, x, n - 1, e);
      FieldErrorsStep(env, x.v.fields, n - 1, x.s, x.path, x.resolving);
      OneMoreField(env, x, n - 1, e);
    }
  }

  lemma OneMoreField(env: Env, x: Visit, n: nat, e: SchemaError)
    ensures SomeFieldHasError(env, x, n + 1, e) <==> SomeFieldHasError(env, x, n, e) || FieldHasError(env, x, n, e)
  {
  }

  lemma BranchErrorsExact(env: Env, x: Visit, e: SchemaError)
    requires x.s.ref.None?
    ensures e in BranchErrors(env, x.v, x.s, x.path, x.resolving)
       <==> Leads(env, x, IntoThen, e) || Leads(env, x, IntoElse, e)
  {
    if x.s.condition.Some? {
      NoErrorsIffSatisfies(env, x.v, x.s.condition.value, Probe, x.resolving);
    }
  }

  // A field earns the errors of its value, or is unknown where that is forbidden.
  ghost predicate FieldFault(x: Visit, i: nat, e: SchemaError)
    requires x.v.Obj? && i < |x.v.fields|
  {
    && e == UnknownField(x.path, x.v.fields[i].key) && x.s.additional == Forbidden
    && forall q | q in PropertyList(x.s) :: q.key != x.v.fields[i].key
  }

  lemma FieldErrorExact(env: Env, x: Visit, i: nat, e: SchemaError)
    requires KeywordsApply(x) && x.v.Obj? && i < |x.v.fields|
    ensures e in FieldError(env, x.v.fields[i], x.s, x.path, x.resolving)
       <==> Leads(env, x, IntoFieldAt(i), e) || FieldFault(x, i, e)
  {
  }

  lemma UnknownFieldsExact(env: Env, x: Visit, e: SchemaError)
    requires x.v.Obj?
    ensures (exists i: nat | i < |x.v.fields| :: FieldFault(x, i, e)) <==> e.UnknownField? && ObjectFault(env, x, e)
  {
    if e.UnknownField? && ObjectFault(env, x, e) {
      var f :| f in x.v.fields && f.key == e.field;
      var i :| 0 <= i < |x.v.fields| && x.v.fields[i] == f;
      assert FieldFault(x, i, e);
    }
  }

  ghost predicate LeadsInside(env: Env, x: Visit, e: SchemaError) {
    (exists i: nat :: Leads(env, x, IntoItemAt(i), e)) || exists i: nat :: Leads(env, x, IntoFieldAt(i), e)
  }

  lemma ArrayErrorsExact(env: Env, x: Visit, e: SchemaError)
    requires KeywordsApply(x) && x.v.Arr?
    ensures e in ContentErrors(env, x.v, x.s, x.path, x.resolving) <==> ObjectFault(env, x, e) || LeadsInside(env, x, e)
  {
    if x.s.typeName == Some("array") && x.s.items.Some? {
      ItemErrorsExact(env, x, |x.v.items|, e);
      assert x.v.items[..|x.v.items|] == x.v.items;
      forall i: nat ensures Leads(env, x, IntoItemAt(i), e) <==> ItemHasError(env, x, i, e) {
      }
      assert forall i: nat :: ItemHasError(env, x, i, e) ==> i < |x.v.items|;
    }
  }

  lemma FieldsExact(env: Env, x: Visit, e: SchemaError)
    requires KeywordsApply(x) && x.v.Obj?
    ensures e in FieldErrors(env, x.v.fields, x.s, x.path, x.resolving)
       <==> (e.UnknownField? && ObjectFault(env, x, e)) || exists i: nat :: Leads(env, x, IntoFieldAt(i), e)
  {
    FieldErrorsExact(env, x, |x.v.fields|, e);
    assert x.v.fields[..|x.v.fields|] == x.v.fields;
    UnknownFieldsExact(env, x, e);
    forall i: nat | i < |x.v.fields|
      ensures FieldHasError(env, x, i, e) <==> Leads(env, x, IntoFieldAt(i), e) || FieldFault(x, i, e)
    {
      FieldErrorExact(env, x, i, e);
    }
    if i: nat :| Leads(env, x, IntoFieldAt(i), e) {
      assert i < |x.v.fields| && FieldHasError(env, x, i, e);
    }
  }

  lemma ObjectErrorsExact(env: Env, x: Visit, e: SchemaError)
    requires KeywordsApply(x) && x.v.Obj?
    ensures e in ContentErrors(env, x.v, x.s, x.path, x.resolving) <==> ObjectFault(env, x, e) || LeadsInside(env, x, e)
  {
    FieldsExact(env, x, e);
    RequiredErrorsExact(x.v.fields, GetOr(x.s.required, []), x.path, e);
    ContentCases(env, x.v, x.s, x.path, x.resolving);
  }

  lemma ContentErrorsExact(env: Env, x: Visit, e: SchemaError)
    requires KeywordsApply(x)
    ensures e in ContentErrors(env, x.v, x.s, x.path, x.resolving) <==> ObjectFault(env, x, e) || LeadsInside(env, x, e)
  {
    if x.v.Arr? {
      ArrayErrorsExact(env, x, e);
    } else if x.v.Obj? {
      ObjectErrorsExact(env, x, e);
    }
  }

  lemma HoldingAreMatching(env: Env, x: Visit)
    requires x.s.oneOf.OneOf?
    ensures |HoldingOptions(env, x)| == |Matching(env, x.v, x.s, x.resolving, |x.s.oneOf.candidates|)|
  {
    var n := |x.s.oneOf.candidates|;
    var matching := Matching(env, x.v, x.s, x.resolving, n);
    MatchingExact(env, x.v, x.s, x.resolving, n);
    assert Elements(matching) == HoldingOptions(env, x);
    DistinctSize(matching);
  }

  lemma OneOfErrorsExact(env: Env, x: Visit, e: SchemaError)
    requires x.s.ref.None? && x.s.oneOf.OneOf?
    ensures e in BaseErrors(env, x.v, x.s, x.path, x.resolving) <==> OwnFault(env, x, e)
  {
    SingleMatchAddsNothing(env, x.v, x.s, x.path, x.resolving);
    HoldingAreMatching(env, x);
  }

  lemma BaseErrorsExact(env: Env, x: Visit, e: SchemaError)
    requires x.s.ref.None?
    ensures e in BaseErrors(env, x.v, x.s, x.path, x.resolving) <==> OwnFault(env, x, e) || LeadsInside(env, x, e)
  {
    if x.s.oneOf.OneOf? {
      OneOfErrorsExact(env, x, e);
    } else if KeywordsApply(x) {
      KeywordErrorsExact(env, x, e);
      ContentErrorsExact(env, x, e);
    }
  }

  lemma RefErrorsExact(env: Env, x: Visit, e: SchemaError)
    requires x.s.ref.Some?
    ensures e in ErrorsAt(env, x) <==> OwnFault(env, x, e) || Leads(env, x, IntoRef, e)
  {
  }

  // A reference leads on by itself alone; any other schema by its branches and inside.
  lemma HopsByKind(env: Env, x: Visit, e: SchemaError)
    ensures (exists hop :: Leads(env, x, hop, e))
       <==> if x.s.ref.Some? then Leads(env, x, IntoRef, e)
            else Leads(env, x, IntoThen, e) || Leads(env, x, IntoElse, e) || LeadsInside(env, x, e)
  {
    if hop :| Leads(env, x, hop, e) {
      match hop
      case IntoItemAt(i) => assert Leads(env, x, IntoItemAt(i), e);
      case IntoFieldAt(i) => assert Leads(env, x, IntoFieldAt(i), e);
      case _ =>
    }
  }

  // The errors of a visit are its own faults and the errors of the visits it leads to.
  lemma OneVisitExact(env: Env, x: Visit, e: SchemaError)
    ensures e in ErrorsAt(env, x) <==> OwnFault(env, x, e) || exists hop :: Leads(env, x, hop, e)
  {
    HopsByKind(env, x, e);
    if x.s.ref.Some? {
      RefErrorsExact(env, x, e);
    } else {
      BranchErrorsExact(env, x, e);
      BaseErrorsExact(env, x, e);
    }
  }

  // ---- All visits ----

  ghost function Visited(env: Env, x: Visit, hops: seq<Hop>): Option<Visit> {
    if hops == [] then Some(x)
    else
      var before := Visited(env, x, hops[..|hops| - 1]);
      if before.None? then None else After(env, before.value, hops[|hops| - 1])
  }

  ghost predicate ArisesAt(env: Env, x: Visit, hops: seq<Hop>, e: SchemaError) {
    Visited(env, x, hops).Some? && OwnFault(env, Visited(env, x, hops).value, e)
  }

  lemma VisitedOneMore(env: Env, x: Visit, hops: seq<Hop>, hop: Hop)
    ensures Visited(env, x, hops + [hop])
         == if Visited(env, x, hops).None? then None else After(env, Visited(env, x, hops).value, hop)
  {
    assert (hops + [hop])[..|hops|] == hops;
  }

  lemma {:induction false} VisitedAfterHop(env: Env, x: Visit, hop: Hop, hops: seq<Hop>)
    requires After(env, x, hop).Some?
    ensures Visited(env, x, [hop] + hops) == Visited(env, After(env, x, hop).value, hops)
  {
    if hops == [] {
      assert [hop] + hops == [hop];
      VisitedOneMore(env, x, [], hop);
    } else {
      var n := |hops| - 1;
      VisitedAfterHop(env, x, hop, hops[..n]);
      VisitedOneMore(env, x, [hop] + hops[..n], hops[n]);
      assert [hop] + hops[..n] + [hops[n]] == [hop] + hops;
    }
  }

  lemma {:induction false} VisitedErrorsReported(env: Env, x: Visit, hops: seq<Hop>, e: SchemaError)
    requires Visited(env, x, hops).Some? && e in ErrorsAt(env, Visited(env, x, hops).value)
    ensures e in ErrorsAt(env, x)
  {
    if hops != [] {
      var n := |hops| - 1;
      var before := Visited(env, x, hops[..n]).value;
      OneVisitExact(env, before, e);
      assert Leads(env, before, hops[n], e);
      VisitedErrorsReported(env, x, hops[..n], e);
    }
  }

  lemma {:induction false} ReportedErrorsArise(env: Env, x: Visit, e: SchemaError) returns (hops: seq<Hop>)
    requires e in ErrorsAt(env, x)
    ensures ArisesAt(env, x, hops, e)
    decreases env.defs.Keys - x.resolving, x.s
  {
    OneVisitExact(env, x, e);
    if OwnFault(env, x, e) {
      hops := [];
    } else {
      var hop :| Leads(env, x, hop, e);
      var next := After(env, x, hop).value;
      assert hop.IntoRef? ==> RefName(x.s.ref.value) in env.defs.Keys - x.resolving;
      var rest := ReportedErrorsArise(env, next, e);
      VisitedAfterHop(env, x, hop, rest);
      hops := [hop] + rest;
    }
  }

  /** An error is reported if and only if some visit, reached through references, branches, items and
      fields, has exactly that fault by the schema applied there. */
  lemma ErrorsExact(env: Env, x: Visit, e: SchemaError)
    ensures e in ErrorsAt(env, x) <==> exists hops :: ArisesAt(env, x, hops, e)
  {
    if e in ErrorsAt(env, x) {
      var hops := ReportedErrorsArise(env, x, e);
    }
    if hops :| ArisesAt(env, x, hops, e) {
      OneVisitExact(env, Visited(env, x, hops).value, e);
      VisitedErrorsReported(env, x, hops, e);
    }
  }

  // ---- Where an error points ----

  // Following the path from v, which is at base, by its fields and items gives u.
  ghost predicate Located(v: Json, base: Path, target: Path, u: Json) {
    || (target == base && u == v)
    || match target
       case Member(parent, key) =>
         exists w :: Located(v, base, parent, w) && w.Obj? && Field(key, u) in w.fields
       case Element(parent, i) =>
         exists w :: Located(v, base, parent, w) && w.Arr? && i < |w.items| && w.items[i] == u
       case _ => false
  }

  lemma HopKeepsLocation(env: Env, v: Json, base: Path, x: Visit, hop: Hop)
    requires Located(v, base, x.path, x.v) && After(env, x, hop).Some?
    ensures var next := After(env, x, hop).value; Located(v, base, next.path, next.v)
  {
    if hop.IntoFieldAt? {
      assert Field(x.v.fields[hop.i].key, x.v.fields[hop.i].value) in x.v.fields;
    }
  }

  lemma {:induction false} VisitsAreLocated(env: Env, x: Visit, hops: seq<Hop>)
    requires Visited(env, x, hops).Some?
    ensures var y := Visited(env, x, hops).value; Located(x.v, x.path, y.path, y.v)
  {
    if hops != [] {
      var n := |hops| - 1;
      VisitsAreLocated(env, x, hops[..n]);
      HopKeepsLocation(env, x.v, x.path, Visited(env, x, hops[..n]).value, hops[n]);
    }
  }

  // What an error says about the value it points to.
  ghost predicate TrueOf(env: Env, u: Json, e: SchemaError) {
    match e
    case MissingField(_, k) => u.Obj? && !HasKey(u.fields, k)
    case UnknownField(_, k) => u.Obj? && HasKey(u.fields, k)
    case WrongType(_, t) => !HasType(u, t)
    case NoPatternMatch(_, pattern) => u.Str? && !env.matches(pattern, u.s)
    case TooShort(_, n, m) => u.Str? && |u.s| == n && n < m
    case TooFewItems(_, n, m) => u.Arr? && |u.items| == n && n < m
    case BelowMinimum(_, m) => (u.Int? || u.Float?) && AsNumber(u).value < m
    case CircularRef(_, name) => true
    case NotAllowed(_) => true
    case NoOneOfMatch(_) => true
    case ManyOneOfMatches(_, count) => count > 1
    case NotConstant(_) => true
  }

  lemma FaultIsTrue(env: Env, x: Visit, e: SchemaError)
    requires OwnFault(env, x, e)
    ensures e.path == x.path && TrueOf(env, x.v, e)
  {
  }

  /** Every reported error points, by fields and items, to a value of the document that has the fault. */
  lemma ErrorsPointToFaults(env: Env, plan: Json, schema: Schema, e: SchemaError)
    requires e in ValueErrors(env, plan, schema, Root, {})
    ensures exists u :: Located(plan, Root, e.path, u) && TrueOf(env, u, e)
  {
    var x := Visit(plan, schema, Root, {});
    var hops := ReportedErrorsArise(env, x, e);
    var y := Visited(env, x, hops).value;
    VisitsAreLocated(env, x, hops);
    FaultIsTrue(env, y, e);
  }

  // ---- The order of the report ----

  function Rank(e: SchemaError): nat {
    match e
    case NoPatternMatch(_, _) => 0
    case NotAllowed(_) => 1
    case TooShort(_, _, _) => 2
    case TooFewItems(_, _, _) => 3
    case _ => 4
  }

  /** The faults of a value come in the order pattern, enum, length, number of items, minimum, each at
      most once. */
  lemma KeywordErrorsInOrder(env: Env, x: Visit)
    ensures var errors := KeywordErrors(env, x.v, x.s, x.path);
      forall i, j | 0 <= i < j < |errors| :: Rank(errors[i]) < Rank(errors[j])
  {
  }

  lemma {:induction false} FieldErrorsInOrder(env: Env, x: Visit, n: nat, m: nat)
    requires x.v.Obj? && n <= m <= |x.v.fields|
    ensures FieldErrors(env, x.v.fields[..n], x.s, x.path, x.resolving)
         <= FieldErrors(env, x.v.fields[..m], x.s, x.path, x.resolving)
  {
    if n < m {
      FieldErrorsInOrder(env, x, n, m - 1);
      FieldErrorsStep(env, x.v.fields, m - 1, x.s, x.path, x.resolving);
    }
  }

  lemma {:induction false} ItemErrorsInOrder(env: Env, x: Visit, n: nat, m: nat)
    requires x.v.Arr? && x.s.items.Some? && n <= m <= |x.v.items|
    ensures ItemErrors(env, x.v.items[..n], x.s, x.path, x.resolving)
         <= ItemErrors(env, x.v.items[..m], x.s, x.path, x.resolving)
  {
    if n < m {
      ItemErrorsInOrder(env, x, n, m - 1);
      ItemErrorsStep(env, x.v.items, m - 1, x.s, x.path, x.resolving);
    }
  }

  /** First the errors of the branch, then the faults of the value itself, then its missing fields, then
      what its fields report. */
  lemma ErrorsInOrder(env: Env, x: Visit)
    requires KeywordsApply(x)
    ensures BranchErrors(env, x.v, x.s, x.path, x.resolving) + KeywordErrors(env, x.v, x.s, x.path) <= ErrorsAt(env, x)
    ensures x.v.Obj? && x.s.required.Some? ==>
      BranchErrors(env, x.v, x.s, x.path, x.resolving) + KeywordErrors(env, x.v, x.s, x.path)
      + RequiredErrors(x.v.fields, x.s.required.value, x.path) <= ErrorsAt(env, x)
  {
    var branch, keywords := BranchErrors(env, x.v, x.s, x.path, x.resolving), KeywordErrors(env, x.v, x.s, x.path);
    var content := ContentErrors(env, x.v, x.s, x.path, x.resolving);
    ContentCases(env, x.v, x.s, x.path, x.resolving);
    assert BaseErrors(env, x.v, x.s, x.path, x.resolving) == keywords + content;
    ConcatAssociates(branch, keywords, content);
    assert ErrorsAt(env, x) == branch + keywords + content;
  }
}
