/**
 * One concrete pair of documents for each condition of the soundness theorem: the condition fails, the
 * other four hold, PROVEN is reported, and the subset fails all the same. None can be dropped.
 */
module SchemaCounterexamples {
  import opened Ordering
  import opened JsonPointer
  import opened JsonValues
  import opened SchemaSemantics
  import opened SchemaRelation
  import opened SchemaSteps
  import opened SchemaPlain
  import opened SchemaSoundness
  import opened SchemaConditions

  /** PROVEN is reported although the left schema accepts a value the right one rejects. */
  ghost predicate Unsound(c: Roots, dl: Document, dr: Document, v: Json) {
    && Guarded(dl) && Guarded(dr)
    && CompareSubset(c.left, c.right) == Proven
    && Valid(dl, c.left, v)
    && !Valid(dr, c.right, v)
  }

  /** Of the five conditions exactly one fails. */
  ghost predicate OnlyFails(condition: Condition, c: Roots, dl: Document, dr: Document, reach: set<Pair>) {
    && Explored(c, reach)
    && (forall k: Condition :: Meets(k, c, dl, dr, reach) <==> k != condition)
  }

  function Whole(dl: Document, dr: Document): Roots {
    Roots(dl.root, dr.root)
  }

  /** A comparison that goes no further than its first pair. */
  lemma OneRound(c: Roots)
    requires c.left.Obj? && c.right.Obj?
    requires forall q :: q in PlanPairs(PlanFor(c, RootPair(c).0, RootPair(c).1)) ==>
      Immediate(q.0.value, q.1.value).Some?
    ensures Explored(c, {RootPair(c)})
  {
  }

  lemma Tally(condition: Condition, c: Roots, dl: Document, dr: Document, reach: set<Pair>)
    requires Explored(c, reach)
    requires NoForgivenRevisit(c, reach) <==> condition != Unforgiving
    requires AllOfsStandAlone(reach) <==> condition != AllOfAlone
    requires KindsDeclared(reach) <==> condition != Typed
    requires ReferencesAgree(c, dl, dr, reach) <==> condition != SameReferences
    requires EqualityIsFaithful(c, reach) <==> condition != FaithfulEquality
    ensures OnlyFails(condition, c, dl, dr, reach)
  {
    forall k: Condition ensures Meets(k, c, dl, dr, reach) <==> k != condition {
      match k
      case Unforgiving =>
      case AllOfAlone =>
      case Typed =>
      case SameReferences =>
      case FaithfulEquality =>
    }
  }

  /** One round without references, where Python's `==` decides nothing. */
  lemma QuietRound(condition: Condition, c: Roots, dl: Document, dr: Document, p: Pair)
    requires !ContainsReference(c.left) && !ContainsReference(c.right) && p == RootPair(c) && Explored(c, {p})
    requires !PyEqual(c.left, c.right) && ShortcutsFaithful(PlanPairs(PlanFor(c, p.0, p.1)))
    requires ComparedPlainly(p) ==> ListedFaithfully(c.left, c.right)
    requires condition == AllOfAlone || condition == Typed
    requires AllOfsStandAlone({p}) <==> condition != AllOfAlone
    requires KindsDeclared({p}) <==> condition != Typed
    ensures OnlyFails(condition, c, dl, dr, {p})
  {
    ReferenceFreeAgree(c, dl, dr, {p});
    Tally(condition, c, dl, dr, {p});
  }

  lemma ImmediateEach(c: Roots, pairs: seq<Pair>, visited: set<Pair>)
    requires forall q :: q in pairs ==> PairInside(c, q) && Immediate(q.0.value, q.1.value) == Some(Proven)
    ensures AllProven(CompareEach(c, pairs, visited).relations)
    ensures CompareEach(c, pairs, visited).visited == visited
  {
    if pairs == [] {
    } else {
      ImmediateEach(c, pairs[1..], visited);
    }
  }

  /** A plan whose sub-pairs are all proven at once. */
  lemma OneLevelProven(c: Roots, p: Pair, visited: set<Pair>)
    requires PairInside(c, p) && Immediate(p.0.value, p.1.value).None? && p !in visited
    requires PlanFor(c, p.0, p.1).Every? && PlanFor(c, p.0, p.1).local == Proven
    requires forall q :: q in PlanFor(c, p.0, p.1).pairs ==> Immediate(q.0.value, q.1.value) == Some(Proven)
    ensures Compare(c, p, visited) == Outcome(Proven, visited + {p})
  {
    PlanStaysInside(c, p.0, p.1);
    var pairs := PlanFor(c, p.0, p.1).pairs;
    ImmediateEach(c, pairs, visited + {p});
    EveryProven(Proven, CompareEach(c, pairs, visited + {p}).relations);
  }

  // ---------- Untyped schemas ----------

  const ANY_OBJECT := Obj(map[])
  const NEEDS_A := Obj(map["required" := Arr([Str("a")])])

  /** A schema that uses no keyword but `only`. */
  predicate Only(s: Json, only: set<string>) {
    s.Obj? && s.fields.Keys == only
  }

  /** Without references, combinators and listed values the plan is the plain one. */
  predicate OnlyPlainKeywords(s: Json) {
    && s.Obj? && s.fields.Keys <= HANDLED + ANNOTATIONS
    && !Has(s, "$ref") && !Has(s, "allOf") && !Has(s, "anyOf") && !Has(s, "oneOf")
    && !Has(s, "const") && !Has(s, "enum")
  }

  lemma PlainPlanFor(c: Roots, l: Occurrence, r: Occurrence)
    requires OnlyPlainKeywords(l.value) && OnlyPlainKeywords(r.value)
    ensures PlanFor(c, l, r) == PlainPlan(l, r)
  {
  }

  const BOUNDS := {
    "minimum", "exclusiveMinimum", "maximum", "exclusiveMaximum", "minLength", "maxLength", "minItems", "maxItems"
  }

  /** A right schema that bounds and lists nothing is compared by type alone. */
  lemma TypeDecides(l: Json, r: Json)
    requires CompareTypes(l, r) == Proven && Keys(r) !! BOUNDS + {"const", "enum"}
    ensures AllProven(LocalReports(l, r))
  {
    assert forall k :: k in BOUNDS + {"const", "enum"} ==> !Has(r, k);
    assert CompareNumericBound(l, r, true) == Proven && CompareNumericBound(l, r, false) == Proven;
    assert CompareLowerBound(l, r, "minLength") == Proven && CompareLowerBound(l, r, "minItems") == Proven;
    assert CompareUpperBound(l, r, "maxLength") == Proven && CompareUpperBound(l, r, "maxItems") == Proven;
    assert CompareConst(l, r) == Proven && CompareEnum(l, r) == Proven;
  }

  lemma UntypedReports(l: Json, r: Json)
    requires Only(l, {}) && Only(r, {"required"})
    ensures AllProven(LocalReports(l, r)) && Types(l).None? && Types(r).None?
  {
    assert !Has(l, "type") && !Has(r, "type");
    TypeDecides(l, r);
  }

  lemma UntypedPlan(l: Occurrence, r: Occurrence)
    requires Only(l.value, {}) && Only(r.value, {"required"})
    ensures PlanFor(Roots(l.value, r.value), l, r) == Every(Proven, [])
  {
    assert OnlyPlainKeywords(l.value) && OnlyPlainKeywords(r.value);
    PlainPlanFor(Roots(l.value, r.value), l, r);
    UntypedReports(l.value, r.value);
    assert PlainReports(l, r) == LocalReports(l.value, r.value);
    assert PlainPairs(l, r) == [];
  }

  lemma UntypedUndecided()
    ensures Immediate(ANY_OBJECT, NEEDS_A).None?
  {
    assert "required" in Normal(NEEDS_A).fields;
  }

  lemma UntypedProven()
    ensures CompareSubset(ANY_OBJECT, NEEDS_A) == Proven
  {
    assert Only(ANY_OBJECT, {}) && Only(NEEDS_A, {"required"});
    var p := RootPair(Roots(ANY_OBJECT, NEEDS_A));
    UntypedUndecided();
    UntypedPlan(p.0, p.1);
    OneLevelProven(Roots(ANY_OBJECT, NEEDS_A), p, {});
  }

  lemma UntypedGuarded()
    ensures Guarded(Document(ANY_OBJECT, map[]))
    ensures Guarded(Document(NEEDS_A, map[]))
  {
    ReferenceFreeIsGuarded(ANY_OBJECT);
    assert !ContainsReference(NEEDS_A.fields["required"]);
    assert !ContainsReference(NEEDS_A);
    ReferenceFreeIsGuarded(NEEDS_A);
  }

  lemma UntypedValid()
    requires Guarded(Document(ANY_OBJECT, map[]))
    ensures Valid(Document(ANY_OBJECT, map[]), ANY_OBJECT, Obj(map[]))
  {
  }

  lemma UntypedInvalid()
    requires Guarded(Document(NEEDS_A, map[]))
    ensures !Valid(Document(NEEDS_A, map[]), NEEDS_A, Obj(map[]))
  {
    assert Branches(NEEDS_A, "required")[0] == Str("a");
    assert "a" in RequiredNames(NEEDS_A);
    assert !AssertionsHold(NEEDS_A, Obj(map[]));
  }

  lemma UntypedConditions(dl: Document, dr: Document)
    requires dl == Document(ANY_OBJECT, map[]) && dr == Document(NEEDS_A, map[])
    ensures OnlyFails(Typed, Whole(dl, dr), dl, dr, {RootPair(Whole(dl, dr))})
  {
    assert Only(ANY_OBJECT, {}) && Only(NEEDS_A, {"required"});
    UntypedUndecided();
    assert !ContainsReference(NEEDS_A.fields["required"]);
    UntypedKeywords();
    UntypedRound(Whole(dl, dr), dl, dr);
  }

  lemma UntypedRound(c: Roots, dl: Document, dr: Document)
    requires Only(c.left, {}) && Only(c.right, {"required"}) && !TypesDeclared(c.left, c.right)
    requires !ContainsReference(c.left) && !ContainsReference(c.right) && Immediate(c.left, c.right).None?
    ensures OnlyFails(Typed, c, dl, dr, {RootPair(c)})
  {
    var p := RootPair(c);
    UntypedPlan(p.0, p.1);
    OneRound(c);
    UntypedPair(p);
    QuietRound(Typed, c, dl, dr, p);
  }

  lemma UntypedPair(p: Pair)
    requires Only(p.0.value, {}) && Only(p.1.value, {"required"}) && !TypesDeclared(p.0.value, p.1.value)
    ensures AllOfsStandAlone({p}) && !KindsDeclared({p}) && ListedFaithfully(p.0.value, p.1.value)
  {
    assert forall k :: Has(p.1.value, k) <==> k == "required";
    assert forall k :: !Has(p.0.value, k);
    assert ComparedPlainly(p);
  }

  lemma UntypedKeywords()
    ensures forall k :: Has(NEEDS_A, k) <==> k == "required"
    ensures !TypesDeclared(ANY_OBJECT, NEEDS_A)
  {
    assert "required" in Keys(NEEDS_A) * {"properties", "additionalProperties", "required", "items"};
  }

  /** Neither side declares `type`, so `required` is never compared. */
  lemma UntypedIsUnsound(dl: Document, dr: Document)
    requires dl == Document(ANY_OBJECT, map[]) && dr == Document(NEEDS_A, map[])
    ensures OnlyFails(Typed, Whole(dl, dr), dl, dr, {RootPair(Whole(dl, dr))})
    ensures Unsound(Whole(dl, dr), dl, dr, Obj(map[]))
  {
    UntypedConditions(dl, dr);
    UntypedGuarded();
    UntypedProven();
    UntypedValid();
    UntypedInvalid();
  }

  // ---------- Python equality ----------

  const IS_TRUE := Obj(map["const" := Bool(true)])
  const IS_ONE := Obj(map["const" := Num(1.0)])

  lemma TrueOrOne()
    ensures Guarded(Document(IS_TRUE, map[])) && Guarded(Document(IS_ONE, map[]))
    ensures CompareSubset(IS_TRUE, IS_ONE) == Proven && PyEqual(IS_TRUE, IS_ONE)
  {
    assert !ContainsReference(IS_TRUE.fields["const"]) && !ContainsReference(IS_ONE.fields["const"]);
    ReferenceFreeIsGuarded(IS_TRUE);
    ReferenceFreeIsGuarded(IS_ONE);
    assert Normal(IS_TRUE) == Normal(IS_ONE);
  }

  lemma ConstSchema(d: Document, s: Json, w: Json, v: Json)
    requires Guarded(d) && Only(s, {"const"}) && Get(s, "const") == w
    ensures Valid(d, s, v) <==> v == w
  {
    assert forall k :: Has(s, k) <==> k == "const";
  }

  lemma TrueOrOneConditions(dl: Document, dr: Document)
    requires dl == Document(IS_TRUE, map[]) && dr == Document(IS_ONE, map[])
    ensures OnlyFails(FaithfulEquality, Whole(dl, dr), dl, dr, {})
  {
    var c := Whole(dl, dr);
    TrueOrOne();
    assert Get(IS_TRUE, "const") != Get(IS_ONE, "const");
    assert !ContainsReference(IS_TRUE.fields["const"]) && !ContainsReference(IS_ONE.fields["const"]);
    assert ShortcutApplies(c.left, c.right) && Explored(c, {});
    ReferenceFreeAgree(c, dl, dr, {});
    Tally(FaithfulEquality, c, dl, dr, {});
  }

  /** The shortcut `left == right` takes `True` for `1`. */
  lemma PythonEqualityIsUnsound(dl: Document, dr: Document)
    requires dl == Document(IS_TRUE, map[]) && dr == Document(IS_ONE, map[])
    ensures OnlyFails(FaithfulEquality, Whole(dl, dr), dl, dr, {})
    ensures Unsound(Whole(dl, dr), dl, dr, Bool(true))
  {
    TrueOrOneConditions(dl, dr);
    TrueOrOne();
    ConstSchema(dl, IS_TRUE, Bool(true), Bool(true));
    ConstSchema(dr, IS_ONE, Num(1.0), Bool(true));
  }

  // ---------- Right allOf with siblings ----------

  const STRINGS := Obj(map["type" := Str("string")])
  const NUMBERS_AND := Obj(map["type" := Str("number"), "allOf" := Arr([Bool(true)])])

  lemma AllOfPlan(c: Roots, l: Occurrence, r: Occurrence)
    requires Only(l.value, {"type"}) && Only(r.value, {"type", "allOf"}) && HasList(r.value, "allOf")
    ensures PlanFor(c, l, r) == Every(Proven, RightBranchPairs(l, r, "allOf"))
  {
    assert Keys(l.value) + Keys(r.value) <= HANDLED + ANNOTATIONS;
  }

  lemma AllOfProven(c: Roots, p: Pair)
    requires PairInside(c, p) && Immediate(p.0.value, p.1.value).None?
    requires Only(p.0.value, {"type"}) && Only(p.1.value, {"type", "allOf"}) && HasList(p.1.value, "allOf")
    requires Branches(p.1.value, "allOf") == [Bool(true)]
    ensures Compare(c, p, {}).relation == Proven
  {
    AllOfPlan(c, p.0, p.1);
    BranchesAnything(p.0, p.1);
    OneLevelProven(c, p, {});
  }

  lemma AllOfGuarded()
    ensures Guarded(Document(STRINGS, map[])) && Guarded(Document(NUMBERS_AND, map[]))
  {
    AllOfReferenceFree();
    ReferenceFreeIsGuarded(STRINGS);
    ReferenceFreeIsGuarded(NUMBERS_AND);
  }

  lemma NumbersReject(d: Document)
    requires Guarded(d)
    ensures !Valid(d, NUMBERS_AND, Str(""))
  {
    assert Types(NUMBERS_AND) == Some({"number"});
    assert !TypeOk(NUMBERS_AND, Str(""));
  }

  lemma AllOfVerdict()
    ensures CompareSubset(STRINGS, NUMBERS_AND) == Proven
  {
    AllOfUndecided();
    AllOfProven(Roots(STRINGS, NUMBERS_AND), RootPair(Roots(STRINGS, NUMBERS_AND)));
  }

  lemma AllOfUndecided()
    ensures !PyEqual(STRINGS, NUMBERS_AND)
    ensures Only(STRINGS, {"type"}) && Only(NUMBERS_AND, {"type", "allOf"})
  {
    assert "allOf" in Normal(NUMBERS_AND).fields && "allOf" !in Normal(STRINGS).fields;
  }

  lemma BranchesAnything(l: Occurrence, r: Occurrence)
    requires Branches(r.value, "allOf") == [Bool(true)]
    ensures forall q :: q in RightBranchPairs(l, r, "allOf") ==> q.1.value == Bool(true)
  {
    forall q | q in RightBranchPairs(l, r, "allOf") ensures q.1.value == Bool(true) {
      var i :| 0 <= i < |RightBranchPairs(l, r, "allOf")| && RightBranchPairs(l, r, "allOf")[i] == q;
      assert Branches(r.value, "allOf")[i] == Bool(true);
    }
  }

  lemma AllOfConditions(dl: Document, dr: Document)
    requires dl == Document(STRINGS, map[]) && dr == Document(NUMBERS_AND, map[])
    ensures OnlyFails(AllOfAlone, Whole(dl, dr), dl, dr, {RootPair(Whole(dl, dr))})
  {
    var c := Whole(dl, dr);
    var p := RootPair(c);
    AllOfUndecided();
    AllOfPlan(c, p.0, p.1);
    BranchesAnything(p.0, p.1);
    OneRound(c);
    AllOfReferenceFree();
    NotAlone(STRINGS, NUMBERS_AND);
    AllOfPair(p);
    QuietRound(AllOfAlone, c, dl, dr, p);
  }

  lemma AllOfPair(p: Pair)
    requires Only(p.0.value, {"type"}) && Only(p.1.value, {"type", "allOf"}) && HasList(p.1.value, "allOf")
    requires !(Keys(p.1.value) <= {"allOf"} + ANNOTATIONS)
    ensures !AllOfsStandAlone({p}) && KindsDeclared({p}) && !ComparedPlainly(p)
  {
    assert Keys(p.0.value) + Keys(p.1.value) <= HANDLED + ANNOTATIONS;
    assert !Has(p.0.value, "anyOf") && !Has(p.0.value, "oneOf");
    assert RightAllOfDecides(p) && !ComparedPlainly(p);
  }

  lemma AllOfReferenceFree()
    ensures !ContainsReference(STRINGS) && !ContainsReference(NUMBERS_AND)
  {
    assert !ContainsReference(STRINGS.fields["type"]) && !ContainsReference(Bool(true));
    assert !ContainsReference(NUMBERS_AND.fields["type"]) && !ContainsReference(NUMBERS_AND.fields["allOf"]);
  }

  lemma NotAlone(left: Json, right: Json)
    requires Only(left, {"type"}) && Only(right, {"type", "allOf"}) && HasList(right, "allOf")
    ensures !(Keys(right) <= {"allOf"} + ANNOTATIONS)
  {
    assert "type" in Keys(right) && "type" !in {"allOf"} + ANNOTATIONS;
  }

  /** A right `allOf` hides its sibling `type`. */
  lemma AllOfSiblingsAreUnsound(dl: Document, dr: Document)
    requires dl == Document(STRINGS, map[]) && dr == Document(NUMBERS_AND, map[])
    ensures OnlyFails(AllOfAlone, Whole(dl, dr), dl, dr, {RootPair(Whole(dl, dr))})
    ensures Unsound(Whole(dl, dr), dl, dr, Str(""))
  {
    AllOfConditions(dl, dr);
    AllOfGuarded();
    AllOfVerdict();
    StringSchema(dl, Str(""));
    NumbersReject(dr);
  }

  lemma StringSchema(d: Document, v: Json)
    requires Guarded(d)
    ensures Valid(d, STRINGS, v) <==> v.Str?
  {
    assert Types(STRINGS) == Some({"string"});
    assert Keys(STRINGS) == {"type"};
    assert TypeHolds("string", v) <==> v.Str?;
  }

  // ---------- References ----------

  function Reference(name: string): Json {
    Obj(map["$ref" := Str(DefinitionReference(name))])
  }

  /** `{"type": "array", "items": {"$ref": "#/$defs/<name>"}}`. */
  function Row(name: string): Json {
    Obj(map["type" := Str("array"), "items" := Reference(name)])
  }

  function Definitions(name: string, kind: string): Json {
    Obj(map[name := Obj(map["type" := Str(kind)])])
  }

  /** `Row(name)` with its definition. */
  function RowDocument(name: string, kind: string): Json {
    Obj(map["type" := Str("array"), "items" := Reference(name), "$defs" := Definitions(name, kind)])
  }

  /** The row twice under `allOf`, with its definition. */
  function TwiceDocument(name: string, kind: string): Json {
    Obj(map["allOf" := Arr([Row(name), Row(name)]), "$defs" := Definitions(name, kind)])
  }

  lemma {:induction false} PlainToken(token: string)
    requires '~' !in token
    ensures DecodeOnce(token) == token
  {
    if token == "" {
    } else {
      PlainToken(token[1..]);
      assert token == [token[0]] + token[1..];
      assert token[0] in token;
    }
  }

  lemma TwoTokens(a: string, b: string)
    requires '~' !in a && '/' !in a && '~' !in b && '/' !in b
    ensures Tokens(a + "/" + b) == [a, b]
  {
    SplitJoin([a, b], '/');
    assert [a, b][1..] == [b];
    assert Join([a, b], '/') == a + "/" + b;
    UnescapeIsOnePass(a);
    UnescapeIsOnePass(b);
    PlainToken(a);
    PlainToken(b);
  }

  /** `#/$defs/<name>`. */
  function DefinitionReference(name: string): string {
    "#/" + ("$defs" + "/" + name)
  }

  lemma WalkDefinition(o: Occurrence, name: string, target: Json)
    requires Has(o.value, "$defs") && Has(Get(o.value, "$defs"), name) && Get(Get(o.value, "$defs"), name) == target
    ensures Walk(o, ["$defs", name]) == Some(Occurrence(o.path + [Field("$defs"), Field(name)], target))
  {
    var definitions := Descend(o, Field("$defs"));
    assert ["$defs", name][1..] == [name] && [name][1..] == [];
    assert Walk(o, ["$defs", name]) == Walk(definitions, [name]);
    assert Walk(definitions, [name]) == Some(Descend(definitions, Field(name)));
    assert o.path + [Field("$defs")] + [Field(name)] == o.path + [Field("$defs"), Field(name)];
  }

  lemma ResolveDefinition(root: Json, name: string, target: Json)
    requires Has(root, "$defs") && Has(Get(root, "$defs"), name) && Get(Get(root, "$defs"), name) == target
    requires '~' !in name && '/' !in name && !target.Null?
    ensures Resolve(root, DefinitionReference(name)) == Some(Occurrence([Field("$defs"), Field(name)], target))
  {
    TwoTokens("$defs", name);
    var reference := DefinitionReference(name);
    assert reference[2..] == "$defs" + "/" + name && StartsWith(reference, "#/");
    WalkDefinition(Occurrence([], root), name, target);
    assert [] + [Field("$defs"), Field(name)] == [Field("$defs"), Field(name)];
  }

  /** An array schema that says nothing but what its items are. */
  predicate IsRow(s: Json) {
    && s.Obj? && s.fields.Keys <= {"type", "items", "$defs"}
    && Types(s) == Some({"array"})
    && Has(s, "items") && Get(s, "items").Obj?
  }

  lemma RowKeywords(s: Json)
    requires IsRow(s)
    ensures !Has(s, "$ref") && !Has(s, "allOf") && !Has(s, "anyOf") && !Has(s, "oneOf")
    ensures !Has(s, "const") && !Has(s, "enum") && Keys(s) <= HANDLED + ANNOTATIONS
  {
    assert forall k :: Has(s, k) ==> k in {"type", "items", "$defs"};
  }

  lemma RowReports(l: Json, r: Json)
    requires IsRow(l) && IsRow(r)
    ensures AllProven(LocalReports(l, r))
  {
    TypeDecides(l, r);
  }

  lemma RowPlan(c: Roots, l: Occurrence, r: Occurrence)
    requires IsRow(l.value) && IsRow(r.value)
    ensures PlanFor(c, l, r) == Every(Proven, [(ItemSchema(l), ItemSchema(r))])
  {
    RowKeywords(l.value);
    RowKeywords(r.value);
    RowReports(l.value, r.value);
    PlainPlanFor(c, l, r);
    assert PlainReports(l, r) == LocalReports(l.value, r.value);
    assert PlainPairs(l, r) == [(ItemSchema(l), ItemSchema(r))];
  }

  lemma ReferencePlan(c: Roots, l: Occurrence, r: Occurrence, a: string, b: string, left: Occurrence, right: Occurrence)
    requires l.value == Reference(a) && r.value == Reference(b)
    requires Resolve(c.left, DefinitionReference(a)) == Some(left)
    requires Resolve(c.right, DefinitionReference(b)) == Some(right)
    ensures PlanFor(c, l, r) == Every(Proven, [(left, right)])
  {
    assert Keys(l.value) == {"$ref"} && Keys(r.value) == {"$ref"};
  }

  lemma MismatchPlan(c: Roots, l: Occurrence, r: Occurrence)
    requires Only(l.value, {"type"}) && Only(r.value, {"type"})
    requires Types(l.value) == Some({"string"}) && Types(r.value) == Some({"number"})
    ensures PlanFor(c, l, r) == Every(Conflict, [])
  {
    assert OnlyPlainKeywords(l.value) && OnlyPlainKeywords(r.value);
    PlainPlanFor(c, l, r);
    assert "string" in {"string"};
    assert CompareTypes(l.value, r.value) == Conflict;
    assert PlainReports(l, r)[0] == Conflict;
    assert PlainPairs(l, r) == [];
  }

  lemma OneChild(c: Roots, p: Pair, q: Pair, visited: set<Pair>)
    requires PairInside(c, p) && PairInside(c, q)
    requires Immediate(p.0.value, p.1.value).None? && p !in visited
    requires PlanFor(c, p.0, p.1) == Every(Proven, [q])
    ensures Compare(c, p, visited) == Compare(c, q, visited + {p})
  {
    var first := Compare(c, q, visited + {p});
    assert [q][1..] == [];
    assert CompareEach(c, [q], visited + {p}) == Outcomes([first.relation], first.visited);
    assert [Proven] + [first.relation] == [Proven, first.relation];
    assert Combine([Proven, first.relation]) == first.relation by {
      assert [Proven, first.relation][1] == first.relation;
    }
  }

  // ---------- Meaning of the documents with one reference ----------

  /** References occur in `value` only as the schema `node`, and never right under a combinator. */
  predicate Tame(value: Json, node: Json) {
    || value == node
    || match value
       case Obj(fields) =>
         && "$ref" !in fields
         && node !in Branches(value, "allOf") && node !in Branches(value, "anyOf") && node !in Branches(value, "oneOf")
         && forall k | k in fields :: Tame(fields[k], node)
       case Arr(items) => forall i | 0 <= i < |items| :: Tame(items[i], node)
       case _ => true
  }

  lemma {:induction false} TamePart(value: Json, node: Json, sub: Json)
    requires Tame(value, node) && sub in SubValues(value)
    ensures sub in SubValues(node) || (Tame(sub, node) && sub != node)
    decreases value
  {
    if value != node && sub != value {
      match value
      case Arr(items) =>
        var i :| 0 <= i < |items| && sub in SubValues(items[i]);
        TamePart(items[i], node, sub);
      case Obj(fields) =>
        var k :| k in fields && sub in SubValues(fields[k]);
        TamePart(fields[k], node, sub);
    }
  }

  lemma {:induction false} TameHasNoReference(s: Json, node: Json)
    requires Tame(s, node) && s != node && node.Obj?
    ensures InPlaceRefs(s) == {}
  {
    forall keyword, i | keyword in {"allOf", "anyOf", "oneOf"} && 0 <= i < |Branches(s, keyword)|
      ensures InPlaceRefs(Branches(s, keyword)[i]) == {}
    {
      assert Tame(s.fields[keyword], node) && Branches(s, keyword)[i] in Branches(s, keyword);
      assert s.fields[keyword] != node;
      TameHasNoReference(Branches(s, keyword)[i], node);
    }
  }

  lemma OneReferenceGuarded(root: Json, name: string, target: Json)
    requires Tame(root, Reference(name))
    requires Resolve(root, DefinitionReference(name)).Some?
    requires Resolve(root, DefinitionReference(name)).value.value == target
    requires Tame(target, Reference(name)) && target != Reference(name)
    ensures Guarded(Document(root, map[Reference(name) := 1]))
  {
    var d, node := Document(root, map[Reference(name) := 1]), Reference(name);
    forall s | s in SubValues(root) ensures Height(d, s) <= Rank(d, s) {
      TamePart(root, node, s);
      ReferenceParts(name, s);
      if s != node && s !in SubValues(node) {
        TameHasNoReference(s, node);
      }
      if s == node {
        assert RefRank(d, DefinitionReference(name)) == 0;
      }
    }
  }

  lemma ReferenceParts(name: string, s: Json)
    ensures InPlaceRefs(Reference(name)) == {DefinitionReference(name)}
    ensures s in SubValues(Reference(name)) && s != Reference(name) ==> InPlaceRefs(s) == {}
  {
    var node := Reference(name);
    assert node.fields.Keys == {"$ref"};
    assert Branches(node, "allOf") == [] && Branches(node, "anyOf") == [] && Branches(node, "oneOf") == [];
    if s in SubValues(node) && s != node {
      var k :| k in node.fields && s in SubValues(node.fields[k]);
      assert s == Str(DefinitionReference(name));
    }
  }

  lemma KindSchema(d: Document, kind: string, v: Json)
    requires Guarded(d)
    ensures Valid(d, Obj(map["type" := Str(kind)]), v) <==> TypeHolds(kind, v)
  {
    var s := Obj(map["type" := Str(kind)]);
    assert Only(s, {"type"});
    assert Types(s) == Some({kind});
  }

  /** A row accepts `[w]` exactly when `w` has the kind its definition names. */
  lemma RowMeaning(d: Document, s: Json, name: string, kind: string, w: Json)
    requires Guarded(d) && IsRow(s) && Get(s, "items") == Reference(name)
    requires Resolve(d.root, DefinitionReference(name)).Some?
    requires Resolve(d.root, DefinitionReference(name)).value.value == Obj(map["type" := Str(kind)])
    ensures Valid(d, s, Arr([w])) <==> TypeHolds(kind, w)
  {
    var v := Arr([w]);
    assert Keys(Reference(name)) == {"$ref"};
    NoAssertions(d, Reference(name), w);
    KindSchema(d, kind, w);
    assert Valid(d, Reference(name), w) <==> TypeHolds(kind, w);
    RowAssertions(s, v);
    RowKeywords(s);
    assert v.items[0] == w;
    assert ItemsValid(d, s, v) <==> Valid(d, Reference(name), w);
  }

  lemma RowAssertions(s: Json, v: Json)
    requires IsRow(s) && v.Arr?
    ensures AssertionsHold(s, v)
  {
    assert forall k :: Has(s, k) ==> k in {"type", "items", "$defs"};
    assert TypeHolds("array", v);
    assert !Has(s, "minItems") && !Has(s, "maxItems") && !Has(s, "const") && !Has(s, "enum");
  }

  // ---------- One reference string, two meanings ----------

  /** The document's parts, each found where the reference looks for it. */
  lemma RowDocumentShape(name: string, kind: string)
    requires '~' !in name && '/' !in name
    ensures IsRow(RowDocument(name, kind)) && Get(RowDocument(name, kind), "items") == Reference(name)
    ensures Resolve(RowDocument(name, kind), DefinitionReference(name))
      == Some(Occurrence([Field("$defs"), Field(name)], Obj(map["type" := Str(kind)])))
  {
    var root := RowDocument(name, kind);
    assert Get(root, "$defs") == Definitions(name, kind);
    assert Get(Definitions(name, kind), name) == Obj(map["type" := Str(kind)]);
    ResolveDefinition(root, name, Obj(map["type" := Str(kind)]));
  }

  lemma DefinitionsTame(name: string, kind: string)
    requires name != "$ref"
    ensures Tame(Definitions(name, kind), Reference(name)) && Tame(Obj(map["type" := Str(kind)]), Reference(name))
    ensures Obj(map["type" := Str(kind)]) != Reference(name)
  {
    var schema := Obj(map["type" := Str(kind)]);
    assert schema.fields.Keys == {"type"} && Reference(name).fields.Keys == {"$ref"};
    assert Tame(Str(kind), Reference(name));
    assert Definitions(name, kind).fields.Keys == {name};
    forall keyword ensures Reference(name) !in Branches(Definitions(name, kind), keyword) {}
  }

  lemma RowTame(name: string)
    ensures Tame(Row(name), Reference(name))
  {
    assert Tame(Row(name).fields["type"], Reference(name));
    assert Row(name).fields["items"] == Reference(name);
    forall keyword ensures Branches(Row(name), keyword) == [] {}
  }

  lemma RowDocumentGuarded(name: string, kind: string)
    requires '~' !in name && '/' !in name && name != "$ref"
    ensures Guarded(Document(RowDocument(name, kind), map[Reference(name) := 1]))
  {
    RowDocumentShape(name, kind);
    DefinitionsTame(name, kind);
    RowDocumentTame(name, kind);
    OneReferenceGuarded(RowDocument(name, kind), name, Obj(map["type" := Str(kind)]));
  }

  lemma RowDocumentTame(name: string, kind: string)
    requires name != "$ref"
    ensures Tame(RowDocument(name, kind), Reference(name))
  {
    DefinitionsTame(name, kind);
    RowTame(name);
    var root := RowDocument(name, kind);
    assert root.fields.Keys == {"type", "items", "$defs"};
    assert root.fields["items"] == Reference(name);
    assert root.fields["type"] == Str("array") && Tame(root.fields["type"], Reference(name));
    forall keyword ensures Branches(root, keyword) == [] {}
  }

  /** In a tame document every schema with a reference is the one schema `node`. */
  lemma TameReference(root: Json, name: string, s: Json)
    requires Tame(root, Reference(name)) && s in SubValues(root) && Has(s, "$ref")
    ensures s == Reference(name)
  {
    TamePart(root, Reference(name), s);
    if s in SubValues(Reference(name)) {
      PartsOfReference(name, s);
    }
  }

  lemma PartsOfReference(name: string, s: Json)
    requires s in SubValues(Reference(name))
    ensures s == Reference(name) || s.Str?
  {
    assert Reference(name).fields.Keys == {"$ref"};
  }

  lemma PartsOfKind(kind: string, s: Json)
    requires s in SubValues(Obj(map["type" := Str(kind)]))
    ensures s == Obj(map["type" := Str(kind)]) || s.Str?
  {
  }

  lemma PartsOfDefinitions(name: string, kind: string, s: Json)
    requires s in SubValues(Definitions(name, kind))
    ensures s == Definitions(name, kind) || s == Obj(map["type" := Str(kind)]) || s.Str?
  {
    var definitions := Definitions(name, kind);
    if s != definitions {
      var k :| k in definitions.fields && s in SubValues(definitions.fields[k]);
      PartsOfKind(kind, s);
    }
  }

  lemma PartsOfRowDocument(name: string, kind: string, s: Json)
    requires s in SubValues(RowDocument(name, kind))
    ensures || s == RowDocument(name, kind) || s == Reference(name) || s == Definitions(name, kind)
            || s == Obj(map["type" := Str(kind)]) || s.Str?
  {
    var root := RowDocument(name, kind);
    if s != root {
      var k :| k in root.fields && s in SubValues(root.fields[k]);
      assert root.fields.Keys == {"type", "items", "$defs"};
      if k == "items" {
        PartsOfReference(name, s);
      } else if k == "$defs" {
        PartsOfDefinitions(name, kind, s);
      }
    }
  }

  lemma ReferenceText(name: string)
    ensures Has(Reference(name), "$ref") && Get(Reference(name), "$ref") == Str(DefinitionReference(name))
  {
  }

  /** One reference, and all schemas around it, mean different things when its targets do. */
  lemma MeaningsDiffer(dl: Document, dr: Document, name: string, s: Json)
    requires Reference(name) in SubValues(s)
    requires Target(dl.root, Str(DefinitionReference(name))) != Target(dr.root, Str(DefinitionReference(name)))
    ensures !MeansAlike(dl, dr, s)
  {
    ReferenceText(name);
    forall shared ensures !AgreeAround(dl, dr, s, shared) {
      assert Reference(name) in SubValues(s);
    }
  }

  lemma KindsDiffer()
    ensures Obj(map["type" := Str("string")]) != Obj(map["type" := Str("number")])
  {
    assert Obj(map["type" := Str("string")]).fields["type"] == Str("string");
    assert Obj(map["type" := Str("number")]).fields["type"] == Str("number");
  }

  lemma RowTargets(dl: Document, dr: Document)
    requires dl.root == RowDocument("T", "string") && dr.root == RowDocument("T", "number")
    ensures Target(dl.root, Str(DefinitionReference("T"))) != Target(dr.root, Str(DefinitionReference("T")))
  {
    RowDocumentShape("T", "string");
    RowDocumentShape("T", "number");
    KindsDiffer();
  }

  lemma RowsFaithful(m: string, a: string, n: string, b: string)
    ensures EqualityFaithful(RowDocument(m, a), RowDocument(n, b))
  {
    forall x | x in SubValues(RowDocument(m, a)) ensures !x.Bool? { PartsOfRowDocument(m, a, x); }
    forall x | x in SubValues(RowDocument(n, b)) ensures !x.Bool? { PartsOfRowDocument(n, b, x); }
    FaithfulWithoutBooleans(RowDocument(m, a), RowDocument(n, b));
  }

  /** What holds of any two rows over one reference, compared in one round. */
  lemma RowsRound(c: Roots)
    requires IsRow(c.left) && IsRow(c.right) && Get(c.left, "items") == Get(c.right, "items")
    ensures Explored(c, {RootPair(c)}) && NoLeftAllOf(c, {RootPair(c)})
    ensures AllOfsStandAlone({RootPair(c)}) && KindsDeclared({RootPair(c)})
    ensures Arrives(c, {RootPair(c)}, (ItemSchema(RootPair(c).0), ItemSchema(RootPair(c).1)))
  {
    var p := RootPair(c);
    RowPlan(c, p.0, p.1);
    RowKeywords(c.right);
    var q := (ItemSchema(p.0), ItemSchema(p.1));
    assert q.0.value == Get(c.left, "items") && q.1.value == Get(c.right, "items");
    assert Immediate(q.0.value, q.1.value).Some?;
    assert PlanPairs(PlanFor(c, p.0, p.1)) == [q] && q in [q];
    OneRound(c);
  }

  lemma SharedConditions(dl: Document, dr: Document)
    requires dl.root == RowDocument("T", "string") && dr.root == RowDocument("T", "number")
    ensures OnlyFails(SameReferences, Whole(dl, dr), dl, dr, {RootPair(Whole(dl, dr))})
  {
    var c := Whole(dl, dr);
    var p := RootPair(c);
    RowDocumentShape("T", "string");
    RowDocumentShape("T", "number");
    RowsRound(c);
    RowsFaithful("T", "string", "T", "number");
    FaithfulDocuments(c, {p});
    RowTargets(dl, dr);
    MeaningsDiffer(dl, dr, "T", Reference("T"));
    assert ItemSchema(p.0).value == Reference("T") && ItemSchema(p.1).value == Reference("T");
    assert !ReferencesAgree(c, dl, dr, {p});
    Tally(SameReferences, c, dl, dr, {p});
  }

  /** Equal schemas are PROVEN at once, although each document defines the reference its own way. */
  lemma SharedReferencesAreUnsound(dl: Document, dr: Document)
    requires dl == Document(RowDocument("T", "string"), map[Reference("T") := 1])
    requires dr == Document(RowDocument("T", "number"), map[Reference("T") := 1])
    ensures OnlyFails(SameReferences, Whole(dl, dr), dl, dr, {RootPair(Whole(dl, dr))})
    ensures Unsound(Whole(dl, dr), dl, dr, Arr([Str("")]))
  {
    SharedConditions(dl, dr);
    RowDocumentGuarded("T", "string");
    RowDocumentGuarded("T", "number");
    SharedMeanings(dl, dr);
    RowDocumentShape("T", "string");
    RowDocumentShape("T", "number");
    RowsProven(Whole(dl, dr), RootPair(Whole(dl, dr)));
  }

  lemma SharedMeanings(dl: Document, dr: Document)
    requires dl == Document(RowDocument("T", "string"), map[Reference("T") := 1])
    requires dr == Document(RowDocument("T", "number"), map[Reference("T") := 1])
    requires Guarded(dl) && Guarded(dr)
    ensures Valid(dl, dl.root, Arr([Str("")])) && !Valid(dr, dr.root, Arr([Str("")]))
  {
    RowDocumentShape("T", "string");
    RowDocumentShape("T", "number");
    RowMeaning(dl, dl.root, "T", "string", Str(""));
    RowMeaning(dr, dr.root, "T", "number", Str(""));
  }

  lemma RowsProven(c: Roots, p: Pair)
    requires PairInside(c, p) && IsRow(p.0.value) && IsRow(p.1.value)
    requires Get(p.0.value, "items") == Get(p.1.value, "items")
    ensures Compare(c, p, {}).relation == Proven
  {
    if Immediate(p.0.value, p.1.value).None? {
      RowPlan(c, p.0, p.1);
      OneLevelProven(c, p, {});
    }
  }

  lemma RowSelf(name: string)
    ensures CompareSubset(Row(name), Row(name)) == Proven
  {
    assert Immediate(Row(name), Row(name)) == Some(Proven);
  }

  lemma CutOutConditions(dl: Document, dr: Document)
    requires dl.root == RowDocument("T", "string") && dr.root == RowDocument("T", "number")
    ensures OnlyFails(SameReferences, Roots(Row("T"), Row("T")), dl, dr, {})
  {
    RowIsRow("T");
    RowTargets(dl, dr);
    assert Reference("T") in SubValues(Reference("T")) && Row("T").fields["items"] == Reference("T");
    MeaningsDiffer(dl, dr, "T", Row("T"));
    OneTextTwoMeanings(dl, dr, Row("T"));
  }

  /** A schema compared with its own text, which means different things in the two documents. */
  lemma OneTextTwoMeanings(dl: Document, dr: Document, s: Json)
    requires s.Obj? && !MeansAlike(dl, dr, s)
    ensures OnlyFails(SameReferences, Roots(s, s), dl, dr, {})
  {
    var c := Roots(s, s);
    assert Explored(c, {}) && Arrives(c, {}, RootPair(c));
    assert !ReferencesAgree(c, dl, dr, {});
    Tally(SameReferences, c, dl, dr, {});
  }

  /** A schema cut out of its document keeps its text and loses the meaning of its references. */
  lemma CutOutReferencesAreUnsound(dl: Document, dr: Document)
    requires dl == Document(RowDocument("T", "string"), map[Reference("T") := 1])
    requires dr == Document(RowDocument("T", "number"), map[Reference("T") := 1])
    ensures OnlyFails(SameReferences, Roots(Row("T"), Row("T")), dl, dr, {})
    ensures Unsound(Roots(Row("T"), Row("T")), dl, dr, Arr([Str("")]))
  {
    CutOutConditions(dl, dr);
    RowDocumentShape("T", "string");
    RowDocumentShape("T", "number");
    RowDocumentGuarded("T", "string");
    RowDocumentGuarded("T", "number");
    RowIsRow("T");
    RowSelf("T");
    RowMeaning(dl, Row("T"), "T", "string", Str(""));
    RowMeaning(dr, Row("T"), "T", "number", Str(""));
  }

  // ---------- A forgiven failure, met again ----------

  lemma TwicePlan(c: Roots, l: Occurrence, r: Occurrence)
    requires l.value.Obj? && l.value.fields.Keys == {"allOf", "$defs"} && HasList(l.value, "allOf")
    requires IsRow(r.value)
    ensures PlanFor(c, l, r) == AnyOne(LeftBranchPairs(l, r, "allOf"))
  {
    RowKeywords(r.value);
    assert Keys(l.value) <= HANDLED + ANNOTATIONS;
  }

  lemma RowsUndecided(l: Json, r: Json, m: string, n: string)
    requires IsRow(l) && IsRow(r) && Get(l, "items") == Reference(m) && Get(r, "items") == Reference(n) && m != n
    ensures Immediate(l, r).None?
  {
    DifferentReferences(m, n);
    DifferentRows(l, r);
  }

  lemma RowItemsInside(c: Roots, b: Occurrence, r: Occurrence)
    requires PairInside(c, (b, r)) && IsRow(b.value) && IsRow(r.value)
    ensures PairInside(c, (ItemSchema(b), ItemSchema(r)))
  {
    KeywordStaysInside(c.left, b);
    KeywordStaysInside(c.right, r);
  }

  lemma RowStep(c: Roots, b: Occurrence, r: Occurrence, m: string, n: string, visited: set<Pair>)
    requires PairInside(c, (b, r)) && IsRow(b.value) && IsRow(r.value)
    requires Get(b.value, "items") == Reference(m) && Get(r.value, "items") == Reference(n) && m != n
    requires (b, r) !in visited
    ensures PairInside(c, (ItemSchema(b), ItemSchema(r)))
    ensures Compare(c, (b, r), visited) == Compare(c, (ItemSchema(b), ItemSchema(r)), visited + {(b, r)})
  {
    RowsUndecided(b.value, r.value, m, n);
    RowPlan(c, b, r);
    RowItemsInside(c, b, r);
    OneChild(c, (b, r), (ItemSchema(b), ItemSchema(r)), visited);
  }

  lemma ReferenceStep(c: Roots, q: Pair, m: string, n: string, leaf: Pair, visited: set<Pair>)
    requires PairInside(c, q) && PairInside(c, leaf) && q !in visited
    requires q.0.value == Reference(m) && q.1.value == Reference(n) && m != n
    requires Resolve(c.left, DefinitionReference(m)) == Some(leaf.0)
    requires Resolve(c.right, DefinitionReference(n)) == Some(leaf.1)
    ensures Compare(c, q, visited) == Compare(c, leaf, visited + {q})
  {
    DifferentReferences(m, n);
    ReferencePlan(c, q.0, q.1, m, n, leaf.0, leaf.1);
    OneChild(c, q, leaf, visited);
  }

  /** Comparing one row: its items, the references there, and what they name. */
  lemma RowRun(c: Roots, b: Occurrence, r: Occurrence, m: string, n: string, leaf: Pair, visited: set<Pair>)
    requires PairInside(c, (b, r)) && PairInside(c, leaf) && IsRow(b.value) && IsRow(r.value)
    requires Get(b.value, "items") == Reference(m) && Get(r.value, "items") == Reference(n) && m != n
    requires Resolve(c.left, DefinitionReference(m)) == Some(leaf.0)
    requires Resolve(c.right, DefinitionReference(n)) == Some(leaf.1)
    requires (b, r) !in visited && (ItemSchema(b), ItemSchema(r)) !in visited
    ensures Compare(c, (b, r), visited)
      == Compare(c, leaf, visited + {(b, r)} + {(ItemSchema(b), ItemSchema(r))})
  {
    RowStep(c, b, r, m, n, visited);
    var q := (ItemSchema(b), ItemSchema(r));
    assert |q.0.path| == |b.path| + 1;
    ReferenceStep(c, q, m, n, leaf, visited + {(b, r)});
  }

  lemma DifferentReferences(m: string, n: string)
    requires m != n
    ensures !PyEqual(Reference(m), Reference(n))
  {
    var a, b := DefinitionReference(m), DefinitionReference(n);
    assert a[|"#/$defs/"|..] == m && b[|"#/$defs/"|..] == n;
    NormalField(Reference(m), "$ref");
    NormalField(Reference(n), "$ref");
    assert Get(Reference(m), "$ref") == Str(a) && Get(Reference(n), "$ref") == Str(b);
  }

  lemma NormalField(value: Json, key: string)
    requires Has(value, key)
    ensures Has(Normal(value), key) && Get(Normal(value), key) == Normal(Get(value, key))
  {
  }

  lemma DifferentRows(left: Json, right: Json)
    requires IsRow(left) && IsRow(right) && !PyEqual(Get(left, "items"), Get(right, "items"))
    ensures !PyEqual(left, right)
  {
    NormalField(left, "items");
    NormalField(right, "items");
  }

  lemma LeafConflict(c: Roots, leaf: Pair, visited: set<Pair>)
    requires PairInside(c, leaf) && leaf !in visited
    requires leaf.0.value == Obj(map["type" := Str("string")]) && leaf.1.value == Obj(map["type" := Str("number")])
    ensures Compare(c, leaf, visited) == Outcome(Conflict, visited + {leaf})
  {
    LeafUndecided(leaf);
    MismatchPlan(c, leaf.0, leaf.1);
    assert [Conflict] + [] == [Conflict];
    assert Conflict in [Conflict];
  }

  /** An `allOf` of two copies of one row. */
  predicate IsTwice(s: Json, row: Json) {
    s.Obj? && s.fields.Keys == {"allOf", "$defs"} && Branches(s, "allOf") == [row, row] && HasList(s, "allOf")
  }

  /** A left `allOf` answers from its branches alone. */
  lemma TwiceStep(c: Roots, p: Pair, row: Json)
    requires PairInside(c, p) && IsTwice(p.0.value, row) && IsRow(p.1.value)
    ensures var b := BranchOccurrences(p.0, "allOf");
      && PairInside(c, (b[0], p.1)) && PairInside(c, (b[1], p.1))
      && (var first := Compare(c, (b[0], p.1), {p});
          Compare(c, (b[1], p.1), first.visited).relation == Proven ==> Compare(c, p, {}).relation == Proven)
  {
    var (l, r) := p;
    var b := BranchOccurrences(l, "allOf");
    NormalField(r.value, "items");
    assert !Has(Normal(l.value), "items");
    TwicePlan(c, l, r);
    BranchStaysInside(c.left, l, "allOf", 0);
    BranchStaysInside(c.left, l, "allOf", 1);
    assert LeftBranchPairs(l, r, "allOf") == [(b[0], r), (b[1], r)];
    OneProvenBranch(c, p, (b[0], r), (b[1], r));
  }

  /** The second of two alternatives is enough. */
  lemma OneProvenBranch(c: Roots, p: Pair, q0: Pair, q1: Pair)
    requires PairInside(c, p) && PairInside(c, q0) && PairInside(c, q1)
    requires Immediate(p.0.value, p.1.value).None? && PlanFor(c, p.0, p.1) == AnyOne([q0, q1])
    ensures var first := Compare(c, q0, {p});
      Compare(c, q1, first.visited).relation == Proven ==> Compare(c, p, {}).relation == Proven
  {
    TwoPairs(c, q0, q1, {p});
    assert {} + {p} == {p};
  }

  lemma TwoPairs(c: Roots, p: Pair, q: Pair, visited: set<Pair>)
    requires PairInside(c, p) && PairInside(c, q)
    ensures var first := Compare(c, p, visited);
      CompareEach(c, [p, q], visited).relations == [first.relation, Compare(c, q, first.visited).relation]
  {
    var first := Compare(c, p, visited);
    assert [p, q][1..] == [q] && [q][1..] == [];
    assert CompareEach(c, [q], first.visited).relations == [Compare(c, q, first.visited).relation];
  }

  /** The first row fails and leaves its pairs behind; the second finds them in `visited`. */
  lemma TwoRows(c: Roots, p: Pair, b0: Occurrence, b1: Occurrence, m: string, n: string, leaf: Pair)
    requires PairInside(c, (b0, p.1)) && PairInside(c, (b1, p.1)) && PairInside(c, leaf)
    requires b0.value == b1.value && b0.path != b1.path && |b0.path| == |b1.path| == |p.0.path| + 2
    requires IsRow(b0.value) && IsRow(p.1.value) && m != n
    requires Get(b0.value, "items") == Reference(m) && Get(p.1.value, "items") == Reference(n)
    requires Resolve(c.left, DefinitionReference(m)) == Some(leaf.0)
    requires Resolve(c.right, DefinitionReference(n)) == Some(leaf.1)
    requires leaf.0.value == Obj(map["type" := Str("string")]) && leaf.1.value == Obj(map["type" := Str("number")])
    requires leaf.1 != p.1 && leaf.1 != ItemSchema(p.1)
    ensures Compare(c, (b1, p.1), Compare(c, (b0, p.1), {p}).visited).relation == Proven
  {
    var r := p.1;
    ItemsApart(b0, b1);
    var first, between := {p}, {p} + {(b0, r)} + {(ItemSchema(b0), ItemSchema(r))} + {leaf};
    FreshRows(p, b0, b1, ItemSchema(b0), ItemSchema(b1), ItemSchema(r), leaf, first, between);
    FirstRow(c, b0, r, m, n, leaf, first);
    SecondRow(c, b1, r, m, n, leaf, between);
  }

  lemma FreshRows(
    p: Pair, b0: Occurrence, b1: Occurrence, i0: Occurrence, i1: Occurrence, ir: Occurrence, leaf: Pair,
    first: set<Pair>, between: set<Pair>)
    requires |p.0.path| < |b0.path| == |b1.path| && |b0.path| < |i0.path| == |i1.path|
    requires b0 != b1 && i0 != i1 && leaf.1 != p.1 && leaf.1 != ir
    requires first == {p} && between == {p} + {(b0, p.1)} + {(i0, ir)} + {leaf}
    ensures (b0, p.1) !in first && (i0, ir) !in first && leaf !in first
    ensures (b1, p.1) !in between && (i1, ir) !in between && leaf in between
  {
  }

  lemma ItemsApart(b0: Occurrence, b1: Occurrence)
    requires IsRow(b0.value) && IsRow(b1.value) && b0.path != b1.path && |b0.path| == |b1.path|
    ensures ItemSchema(b0).path != ItemSchema(b1).path
    ensures |b0.path| < |ItemSchema(b0).path| == |ItemSchema(b1).path|
  {
    assert ItemSchema(b0).path[..|b0.path|] == b0.path && ItemSchema(b1).path[..|b1.path|] == b1.path;
  }

  lemma FirstRow(c: Roots, b: Occurrence, r: Occurrence, m: string, n: string, leaf: Pair, visited: set<Pair>)
    requires PairInside(c, (b, r)) && PairInside(c, leaf) && IsRow(b.value) && IsRow(r.value)
    requires Get(b.value, "items") == Reference(m) && Get(r.value, "items") == Reference(n) && m != n
    requires Resolve(c.left, DefinitionReference(m)) == Some(leaf.0)
    requires Resolve(c.right, DefinitionReference(n)) == Some(leaf.1)
    requires leaf.0.value == Obj(map["type" := Str("string")]) && leaf.1.value == Obj(map["type" := Str("number")])
    requires (b, r) !in visited && (ItemSchema(b), ItemSchema(r)) !in visited && leaf !in visited
    requires leaf.1 != r && leaf.1 != ItemSchema(r)
    ensures Compare(c, (b, r), visited)
      == Outcome(Conflict, visited + {(b, r)} + {(ItemSchema(b), ItemSchema(r))} + {leaf})
  {
    RowRun(c, b, r, m, n, leaf, visited);
    LeafConflict(c, leaf, visited + {(b, r)} + {(ItemSchema(b), ItemSchema(r))});
  }

  lemma SecondRow(c: Roots, b: Occurrence, r: Occurrence, m: string, n: string, leaf: Pair, visited: set<Pair>)
    requires PairInside(c, (b, r)) && PairInside(c, leaf) && IsRow(b.value) && IsRow(r.value)
    requires Get(b.value, "items") == Reference(m) && Get(r.value, "items") == Reference(n) && m != n
    requires Resolve(c.left, DefinitionReference(m)) == Some(leaf.0)
    requires Resolve(c.right, DefinitionReference(n)) == Some(leaf.1)
    requires leaf.0.value == Obj(map["type" := Str("string")]) && leaf.1.value == Obj(map["type" := Str("number")])
    requires (b, r) !in visited && (ItemSchema(b), ItemSchema(r)) !in visited && leaf in visited
    ensures Compare(c, (b, r), visited).relation == Proven
  {
    RowRun(c, b, r, m, n, leaf, visited);
    LeafUndecided(leaf);
  }

  lemma LeafUndecided(leaf: Pair)
    requires leaf.0.value == Obj(map["type" := Str("string")]) && leaf.1.value == Obj(map["type" := Str("number")])
    ensures Immediate(leaf.0.value, leaf.1.value).None?
  {
    NormalField(leaf.0.value, "type");
    NormalField(leaf.1.value, "type");
  }

  lemma RowIsRow(name: string)
    ensures IsRow(Row(name)) && Get(Row(name), "items") == Reference(name)
  {
    assert Types(Row(name)) == Some({"array"});
  }

  lemma TwiceIsTwice()
    ensures IsTwice(TwiceDocument("T", "string"), Row("T"))
  {
  }

  lemma TwiceShape()
    ensures IsTwice(TwiceDocument("T", "string"), Row("T")) && IsRow(Row("T"))
    ensures Resolve(TwiceDocument("T", "string"), DefinitionReference("T"))
      == Some(Occurrence([Field("$defs"), Field("T")], Obj(map["type" := Str("string")])))
  {
    RowIsRow("T");
    TwiceIsTwice();
    var root := TwiceDocument("T", "string");
    assert Get(root, "$defs") == Definitions("T", "string");
    ResolveDefinition(root, "T", Obj(map["type" := Str("string")]));
  }

  lemma TwiceParts(s: Json, row: Json, definitions: Json, node: Json)
    requires s.Obj? && s.fields.Keys == {"allOf", "$defs"}
    requires Get(s, "allOf") == Arr([row, row]) && Get(s, "$defs") == definitions
    requires node.Obj? && node != row && Tame(row, node) && Tame(definitions, node)
    ensures Tame(s, node)
  {
    assert Branches(s, "allOf") == [row, row] && Branches(s, "anyOf") == [] && Branches(s, "oneOf") == [];
    forall k | k in s.fields ensures Tame(s.fields[k], node) {
      assert k == "allOf" || k == "$defs";
    }
  }

  lemma TwiceTame()
    ensures Tame(TwiceDocument("T", "string"), Reference("T"))
  {
    DefinitionsTame("T", "string");
    RowTame("T");
    assert Row("T").fields.Keys == {"type", "items"} && Reference("T").fields.Keys == {"$ref"};
    TwiceParts(TwiceDocument("T", "string"), Row("T"), Definitions("T", "string"), Reference("T"));
  }

  lemma TwiceGuarded()
    ensures Guarded(Document(TwiceDocument("T", "string"), map[Reference("T") := 1]))
  {
    TwiceShape();
    TwiceTame();
    DefinitionsTame("T", "string");
    OneReferenceGuarded(TwiceDocument("T", "string"), "T", Obj(map["type" := Str("string")]));
  }

  lemma TwiceMeaning(d: Document, s: Json, row: Json, v: Json)
    requires Guarded(d) && IsTwice(s, row) && Valid(d, row, v)
    ensures Valid(d, s, v)
  {
    OnlyAllOf(d, s, v);
  }

  lemma TwiceAccepts(d: Document)
    requires Guarded(d) && d.root == TwiceDocument("T", "string")
    ensures Valid(d, d.root, Arr([Str("")]))
  {
    TwiceShape();
    RowMeaning(d, Row("T"), "T", "string", Str(""));
    TwiceMeaning(d, d.root, Row("T"), Arr([Str("")]));
  }

  /** The comparison of an `allOf` of two equal rows with a row whose items name something else. */
  lemma TwiceOutcome(c: Roots, p: Pair, row: Json, m: string, n: string, leaf: Pair)
    requires PairInside(c, p) && PairInside(c, leaf) && IsTwice(p.0.value, row) && IsRow(row) && IsRow(p.1.value)
    requires m != n && Get(row, "items") == Reference(m) && Get(p.1.value, "items") == Reference(n)
    requires Resolve(c.left, DefinitionReference(m)) == Some(leaf.0)
    requires Resolve(c.right, DefinitionReference(n)) == Some(leaf.1)
    requires leaf.0.value == Obj(map["type" := Str("string")]) && leaf.1.value == Obj(map["type" := Str("number")])
    requires leaf.1 != p.1 && leaf.1 != ItemSchema(p.1)
    ensures Compare(c, p, {}).relation == Proven
  {
    TwiceStep(c, p, row);
    var b := BranchOccurrences(p.0, "allOf");
    BranchesApart(p.0, row);
    TwoRows(c, p, b[0], b[1], m, n, leaf);
  }

  lemma BranchesApart(l: Occurrence, row: Json)
    requires IsTwice(l.value, row)
    ensures var b := BranchOccurrences(l, "allOf");
      && |b| == 2 && b[0].value == b[1].value == row
      && b[0].path != b[1].path && |b[0].path| == |b[1].path| == |l.path| + 2
  {
    var b := BranchOccurrences(l, "allOf");
    assert b[0].path[|l.path| + 1] == Index(0) && b[1].path[|l.path| + 1] == Index(1);
  }

  lemma TwiceLeaf(left: Json, right: Json) returns (leaf: Pair)
    requires left == TwiceDocument("T", "string") && right == RowDocument("N", "number")
    ensures PairInside(Roots(left, right), leaf)
    ensures Resolve(left, DefinitionReference("T")) == Some(leaf.0)
    ensures Resolve(right, DefinitionReference("N")) == Some(leaf.1)
    ensures leaf.0.value == Obj(map["type" := Str("string")]) && leaf.1.value == Obj(map["type" := Str("number")])
    ensures leaf.1.path == [Field("$defs"), Field("N")]
  {
    TwiceShape();
    RowDocumentShape("N", "number");
    leaf := (Resolve(left, DefinitionReference("T")).value, Resolve(right, DefinitionReference("N")).value);
    ResolveIsSubValue(left, DefinitionReference("T"));
    ResolveIsSubValue(right, DefinitionReference("N"));
  }

  lemma TwiceProven(left: Json, right: Json)
    requires left == TwiceDocument("T", "string") && right == RowDocument("N", "number")
    ensures CompareSubset(left, right) == Proven
  {
    TwiceShape();
    RowDocumentShape("N", "number");
    var leaf := TwiceLeaf(left, right);
    var p := RootPair(Roots(left, right));
    assert |ItemSchema(p.1).path| == 1 && p.1.path == [];
    TwiceOutcome(Roots(left, right), p, Row("T"), "T", "N", leaf);
  }

  lemma PartsOfRow(name: string, s: Json)
    requires s in SubValues(Row(name))
    ensures s == Row(name) || s == Reference(name) || s.Str?
  {
    if s != Row(name) {
      var k :| k in Row(name).fields && s in SubValues(Row(name).fields[k]);
      if k == "items" { PartsOfReference(name, s); }
    }
  }

  lemma TwiceHasNoBoolean(name: string, kind: string, s: Json)
    requires s in SubValues(TwiceDocument(name, kind))
    ensures !s.Bool?
  {
    var root := TwiceDocument(name, kind);
    if s != root {
      var k :| k in root.fields && s in SubValues(root.fields[k]);
      assert root.fields.Keys == {"allOf", "$defs"};
      if k == "$defs" {
        PartsOfDefinitions(name, kind, s);
      } else if s != Arr([Row(name), Row(name)]) {
        PartsOfRow(name, s);
      }
    }
  }

  lemma TwiceFaithful(m: string, a: string, n: string, b: string)
    ensures EqualityFaithful(TwiceDocument(m, a), RowDocument(n, b))
  {
    forall x | x in SubValues(TwiceDocument(m, a)) ensures !x.Bool? { TwiceHasNoBoolean(m, a, x); }
    forall x | x in SubValues(RowDocument(n, b)) ensures !x.Bool? { PartsOfRowDocument(n, b, x); }
    FaithfulWithoutBooleans(TwiceDocument(m, a), RowDocument(n, b));
  }

  lemma TwiceSharesNoReference()
    ensures SharedRefsAgree(TwiceDocument("T", "string"), RowDocument("N", "number"))
  {
    TwiceTame();
    RowDocumentTame("N", "number");
    DifferentReferences("T", "N");
    assert Reference("T") != Reference("N");
    forall s | s in SubValues(TwiceDocument("T", "string")) && s in SubValues(RowDocument("N", "number"))
      ensures !Has(s, "$ref")
    {
      if Has(s, "$ref") {
        TameReference(TwiceDocument("T", "string"), "T", s);
        TameReference(RowDocument("N", "number"), "N", s);
      }
    }
  }

  predicate Harmless(s: Json) {
    && !Has(s, "allOf")
    && (Has(s, "$ref") || Types(s).Some?
        || Keys(s) !! {"properties", "additionalProperties", "required", "items"})
  }

  lemma RowDocumentHarmless(s: Json)
    requires s in SubValues(RowDocument("N", "number")) && s.Obj?
    ensures Harmless(s)
  {
    PartsOfRowDocument("N", "number", s);
    if s == RowDocument("N", "number") {
      RowDocumentShape("N", "number");
      RowKeywords(s);
    } else if s == Definitions("N", "number") {
      assert Keys(s) == {"N"};
    } else if s == Obj(map["type" := Str("number")]) {
      KindHarmless("number");
    }
  }

  lemma KindHarmless(kind: string)
    ensures Harmless(Obj(map["type" := Str(kind)]))
  {
    assert Types(Obj(map["type" := Str(kind)])) == Some({kind});
  }

  lemma ForgivenHarmless()
    ensures AllHarmless(Roots(TwiceDocument("T", "string"), RowDocument("N", "number")))
  {
    var c := Roots(TwiceDocument("T", "string"), RowDocument("N", "number"));
    forall p | p in ObjectPairsOf(c)
      ensures !RightAllOfDecides(p) && (Refers(p) || TypesDeclared(p.0.value, p.1.value))
    {
      PairParts(c, p);
      RowDocumentHarmless(p.1.value);
    }
  }

  lemma SomethingResolves()
    ensures !NothingResolves(RowDocument("N", "number"))
  {
    RowDocumentShape("N", "number");
    ReferenceText("N");
    ItemsResolve(RowDocument("N", "number"), Reference("N"));
  }

  lemma ItemsResolve(root: Json, items: Json)
    requires root.Obj? && "items" in root.fields && root.fields["items"] == items
    requires Has(items, "$ref") && Target(root, Get(items, "$ref")).Some?
    ensures !NothingResolves(root)
  {
    assert items in SubValues(items);
    assert items in SubValues(root);
  }

  lemma SomethingForgiven(c: Roots)
    requires c == Roots(TwiceDocument("T", "string"), RowDocument("N", "number"))
    ensures !NoLeftAllOf(c, ObjectPairsOf(c))
  {
    var p := RootPair(c);
    TwiceShape();
    RowDocumentShape("N", "number");
    TwicePlan(c, p.0, p.1);
    RootsAreObjects(c);
  }

  lemma RootsAreObjects(c: Roots)
    requires c.left.Obj? && c.right.Obj?
    ensures RootPair(c) in ObjectPairsOf(c)
  {
  }

  lemma ForgivenConditions(dl: Document, dr: Document)
    requires dl.root == TwiceDocument("T", "string") && dr.root == RowDocument("N", "number")
    requires Guarded(dl) && Guarded(dr)
    ensures OnlyFails(Unforgiving, Whole(dl, dr), dl, dr, ObjectPairsOf(Whole(dl, dr)))
  {
    TwiceFaithful("T", "string", "N", "number");
    TwiceSharesNoReference();
    ForgivenHarmless();
    WholeDocumentsQualify(dl, dr);
    SomethingResolves();
    SomethingForgiven(Whole(dl, dr));
    Tally(Unforgiving, Whole(dl, dr), dl, dr, ObjectPairsOf(Whole(dl, dr)));
  }

  /** A left `allOf` forgives a failed branch, whose pairs then read PROVEN in the next one. */
  lemma ForgivenFailureIsUnsound(dl: Document, dr: Document)
    requires dl == Document(TwiceDocument("T", "string"), map[Reference("T") := 1])
    requires dr == Document(RowDocument("N", "number"), map[Reference("N") := 1])
    ensures OnlyFails(Unforgiving, Whole(dl, dr), dl, dr, ObjectPairsOf(Whole(dl, dr)))
    ensures Unsound(Whole(dl, dr), dl, dr, Arr([Str("")]))
  {
    TwiceGuarded();
    RowDocumentGuarded("N", "number");
    ForgivenConditions(dl, dr);
    TwiceAccepts(dl);
    RowDocumentShape("N", "number");
    RowMeaning(dr, dr.root, "N", "number", Str(""));
    TwiceProven(dl.root, dr.root);
  }
}
