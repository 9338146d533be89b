/** Static data pointers into a schema: which sub-schema they select, and when a value must be there. */
module PointerGuarantee {
  import opened Ordering
  import opened JsonPointer
  import opened JsonValues
  import opened SchemaSemantics
  import opened SchemaRelation
  import opened SchemaSteps

  const NON_ASSERTING: set<string> :=
    {"$comment", "$id", "$schema", "default", "deprecated", "description", "title"}

  // ---------- Following references ----------

  /** Reference strings written anywhere in `value`. */
  function References(value: Json): set<string> {
    set s | s in SubValues(value) && Has(s, "$ref") && Get(s, "$ref").Str? :: Get(s, "$ref").s
  }

  /** A reference that `_dereference_schema` follows: new, local, and with inert siblings only. */
  predicate Follows(s: Json, seen: set<string>) {
    && Has(s, "$ref") && Get(s, "$ref").Str?
    && StartsWith(Get(s, "$ref").s, "#/")
    && Get(s, "$ref").s !in seen
    && Keys(s) <= {"$ref"} + NON_ASSERTING
  }

  /** `_dereference_schema`; a chain of references that repeats itself leads nowhere. */
  function Dereference(root: Json, s: Json, seen: set<string>): (result: Option<Json>)
    ensures result.Some? ==> result.value.Obj? && !Has(result.value, "$ref")
    decreases References(root) + References(s) - seen
  {
    if !Has(s, "$ref") then (if s.Obj? then Some(s) else None)
    else if !Follows(s, seen) then None
    else
      var reference := Get(s, "$ref").s;
      match Resolve(root, reference)
      case None => None
      case Some(target) =>
        ResolveIsSubValue(root, reference);
        SubValuesTransitive(root, target.value);
        assert reference in References(s);
        Dereference(root, target.value, seen + {reference})
  }

  method DereferenceSchema(root: Json, schema: Json) returns (result: Option<Json>)
    ensures result == Dereference(root, schema, {})
  {
    var current := schema;
    var seen: set<string> := {};
    while Has(current, "$ref")
      invariant Dereference(root, schema, {}) == Dereference(root, current, seen)
      decreases References(root) + References(current) - seen
    {
      if !Follows(current, seen) {
        return None;
      }
      var reference := Get(current, "$ref").s;
      var target := Resolve(root, reference);
      if target.None? {
        return None;
      }
      ResolveIsSubValue(root, reference);
      SubValuesTransitive(root, target.value.value);
      assert reference in References(current);
      seen := seen + {reference};
      current := target.value.value;
    }
    result := if current.Obj? then Some(current) else None;
  }

  /**
   * Following references never changes which instances are accepted. The references are followed in
   * `root`, which may be cut out of the document `d` that gives it its meaning.
   */
  lemma {:induction false} DereferenceMeaning(root: Json, d: Document, s: Json, seen: set<string>, v: Json)
    requires Guarded(d) && KeepsReferences(root, d) && s in SubValues(root)
    requires Dereference(root, s, seen).Some?
    ensures Dereference(root, s, seen).value in SubValues(root)
    ensures Valid(d, s, v) <==> Valid(d, Dereference(root, s, seen).value, v)
    decreases References(root) + References(s) - seen
  {
    if Has(s, "$ref") {
      var reference := Get(s, "$ref").s;
      var target := Resolve(root, reference).value.value;
      ResolveIsSubValue(root, reference);
      SubValuesTransitive(root, target);
      assert reference in References(s);
      assert Keys(s) <= {"$ref"} + ANNOTATIONS;
      NoAssertions(d, s, v);
      assert Target(d.root, Get(s, "$ref")) == Some(target);
      DereferenceMeaning(root, d, target, seen + {reference}, v);
    }
  }

  // ---------- Walking a data pointer ----------

  predicate IsArraySchema(s: Json) {
    Has(s, "type") && Get(s, "type") == Str("array")
  }

  /** One token deeper, as both walks select it. */
  function Inner(s: Json, token: string): Option<Json> {
    if IsArraySchema(s) then
      if IsIndex(token) && Has(s, "items") && Get(s, "items").Obj? then Some(Get(s, "items")) else None
    else if token in Properties(s) && Properties(s)[token].Obj? then Some(Properties(s)[token])
    else None
  }

  /** The extra demand of the guarantee: enough items, or a required property. */
  predicate MustBePresent(s: Json, token: string) {
    if IsArraySchema(s) then
      IsIndex(token) && HasNumber(s, "minItems") && IsInteger(Get(s, "minItems").n)
      && Get(s, "minItems").n > IndexOf(token) as real
    else HasList(s, "required") && Str(token) in Get(s, "required").items
  }

  /** `_schema_at_data_pointer`, from any point on the way. */
  function SchemaAt(root: Json, current: Json, tokens: seq<string>): Option<Json>
    decreases |tokens|
  {
    match Dereference(root, current, {})
    case None => None
    case Some(s) =>
      if tokens == [] then Some(s)
      else match Inner(s, tokens[0])
           case None => None
           case Some(next) => SchemaAt(root, next, tokens[1..])
  }

  /** `_schema_pointer_is_guaranteed`, from any point on the way. */
  predicate IsGuaranteed(root: Json, current: Json, tokens: seq<string>)
    decreases |tokens|
  {
    match Dereference(root, current, {})
    case None => false
    case Some(s) =>
      tokens == []
      || (Inner(s, tokens[0]).Some? && MustBePresent(s, tokens[0])
          && IsGuaranteed(root, Inner(s, tokens[0]).value, tokens[1..]))
  }

  method SchemaAtDataPointer(schema: Json, pointer: string) returns (result: Option<Json>)
    ensures result == SchemaAt(schema, schema, PointerTokens(pointer))
  {
    var tokens := PointerTokens(pointer);
    ghost var answer := SchemaAt(schema, schema, tokens);
    var current := schema;
    var i := 0;
    assert tokens[0..] == tokens;
    while i < |tokens|
      invariant 0 <= i <= |tokens|
      invariant answer == SchemaAt(schema, current, tokens[i..])
    {
      SchemaAtStep(schema, current, tokens, i);
      var resolved := DereferenceSchema(schema, current);
      if resolved.None? || Inner(resolved.value, tokens[i]).None? {
        return None;
      }
      current := Inner(resolved.value, tokens[i]).value;
      i := i + 1;
    }
    result := DereferenceSchema(schema, current);
  }

  lemma SchemaAtStep(root: Json, current: Json, tokens: seq<string>, i: nat)
    requires i < |tokens|
    ensures var resolved := Dereference(root, current, {});
      SchemaAt(root, current, tokens[i..])
        == if resolved.None? || Inner(resolved.value, tokens[i]).None? then None
           else SchemaAt(root, Inner(resolved.value, tokens[i]).value, tokens[i + 1..])
  {
    assert tokens[i..][1..] == tokens[i + 1..] && tokens[i..][0] == tokens[i];
  }

  lemma GuaranteeStep(root: Json, current: Json, tokens: seq<string>, i: nat)
    requires i < |tokens|
    ensures var resolved := Dereference(root, current, {});
      IsGuaranteed(root, current, tokens[i..])
        == (&& resolved.Some? && Inner(resolved.value, tokens[i]).Some? && MustBePresent(resolved.value, tokens[i])
            && IsGuaranteed(root, Inner(resolved.value, tokens[i]).value, tokens[i + 1..]))
  {
    assert tokens[i..][1..] == tokens[i + 1..] && tokens[i..][0] == tokens[i];
  }

  method SchemaPointerIsGuaranteed(schema: Json, pointer: string) returns (result: bool)
    ensures result == IsGuaranteed(schema, schema, PointerTokens(pointer))
  {
    var tokens := PointerTokens(pointer);
    ghost var answer := IsGuaranteed(schema, schema, tokens);
    var current := schema;
    var i := 0;
    assert tokens[0..] == tokens;
    while i < |tokens|
      invariant 0 <= i <= |tokens|
      invariant answer == IsGuaranteed(schema, current, tokens[i..])
    {
      GuaranteeStep(schema, current, tokens, i);
      var resolved := DereferenceSchema(schema, current);
      if resolved.None? || Inner(resolved.value, tokens[i]).None? || !MustBePresent(resolved.value, tokens[i]) {
        return false;
      }
      current := Inner(resolved.value, tokens[i]).value;
      i := i + 1;
    }
    var last := DereferenceSchema(schema, current);
    result := last.Some?;
  }

  // ---------- The guarantee is sound ----------

  /** An array schema, or one that accepts objects only. */
  predicate Typed(s: Json) {
    IsArraySchema(s) || Types(s) == Some({"object"})
  }

  /** Every object step on the way accepts objects only; the source does not check this. */
  predicate StepsAreTyped(root: Json, current: Json, tokens: seq<string>)
    decreases |tokens|
  {
    match Dereference(root, current, {})
    case None => true
    case Some(s) =>
      tokens == [] || Inner(s, tokens[0]).None?
      || (Typed(s) && StepsAreTyped(root, Inner(s, tokens[0]).value, tokens[1..]))
  }

  /** One step: the instance has the child, and the child satisfies the selected schema. */
  lemma StepPresent(d: Document, s: Json, token: string, v: Json)
    requires Guarded(d) && s.Obj? && Valid(d, s, v)
    requires Inner(s, token).Some? && MustBePresent(s, token)
    requires Typed(s)
    ensures Child(v, token).Some? && Valid(d, Inner(s, token).value, Child(v, token).value)
  {
    var t :| t in Types(s).value && TypeHolds(t, v);
    if IsArraySchema(s) {
      assert ItemsValid(d, s, v);
      assert SizeOk(s, "minItems", "maxItems", |v.items|);
    } else {
      assert FieldsValid(d, s, v);
      var items := Branches(s, "required");
      var i :| 0 <= i < |items| && items[i] == Str(token);
      assert Branches(s, "required")[i].Str? && Branches(s, "required")[i].s == token;
      assert token in RequiredNames(s);
    }
  }

  lemma InnerStandsInside(root: Json, s: Json, token: string)
    requires s in SubValues(root) && Inner(s, token).Some?
    ensures Inner(s, token).value in SubValues(root)
  {
    SubValuesTransitive(root, s);
    if IsArraySchema(s) { PartOf(s, "items"); } else { PartOf(s, "properties"); }
  }

  /**
   * A guaranteed pointer finds a value in every instance of the schema, through references,
   * array lengths and required properties, and that value satisfies the schema selected there.
   */
  lemma {:induction false} GuaranteeIsSound(root: Json, d: Document, current: Json, tokens: seq<string>, v: Json)
    requires Guarded(d) && KeepsReferences(root, d) && current in SubValues(root)
    requires IsGuaranteed(root, current, tokens) && StepsAreTyped(root, current, tokens)
    requires Valid(d, current, v)
    ensures Lookup(v, tokens).Some? && SchemaAt(root, current, tokens).Some?
    ensures Valid(d, SchemaAt(root, current, tokens).value, Lookup(v, tokens).value)
    decreases |tokens|
  {
    var s := Dereference(root, current, {}).value;
    DereferenceMeaning(root, d, current, {}, v);
    if tokens == [] {
    } else {
      StepPresent(d, s, tokens[0], v);
      InnerStandsInside(root, s, tokens[0]);
      GuaranteeIsSound(root, d, Inner(s, tokens[0]).value, tokens[1..], Child(v, tokens[0]).value);
    }
  }

  // ---------- Exactly when the guarantee holds ----------

  /** A step schema that asserts through its type, sizes, bounds, `required` and parts only. */
  predicate Plain(s: Json) {
    !Has(s, "const") && !Has(s, "enum") && !Has(s, "allOf") && !Has(s, "anyOf") && !Has(s, "oneOf")
  }

  /** The schema accepts some value without this child. */
  ghost predicate Escapes(d: Document, s: Json, token: string)
    requires Guarded(d)
  {
    exists v :: Valid(d, s, v) && Child(v, token).None?
  }

  /** Steps are plain up to the first object step without `type: object`, and that one accepts more than objects. */
  ghost predicate StepsAreLoose(root: Json, d: Document, current: Json, tokens: seq<string>)
    requires Guarded(d)
    decreases |tokens|
  {
    match Dereference(root, current, {})
    case None => true
    case Some(s) =>
      || tokens == [] || Inner(s, tokens[0]).None?
      || StepsAreTyped(root, current, tokens)
      || (if Typed(s) then Plain(s) && StepsAreLoose(root, d, Inner(s, tokens[0]).value, tokens[1..])
          else Escapes(d, s, tokens[0]))
  }

  /** The child at `token` replaced. */
  function Put(v: Json, token: string, child: Json): Json
    requires Child(v, token).Some?
  {
    match v
    case Obj(fields) => Obj(fields[token := child])
    case Arr(items) => Arr(items[IndexOf(token) := child])
    case _ => v
  }

  lemma PutChild(v: Json, token: string, child: Json)
    requires Child(v, token).Some?
    ensures Child(Put(v, token, child), token) == Some(child)
  {
  }

  /** An accepted value stays accepted when a child is replaced by another accepted one. */
  lemma PutValid(d: Document, s: Json, token: string, v: Json, child: Json)
    requires Guarded(d) && s.Obj? && !Has(s, "$ref") && Plain(s) && Inner(s, token).Some?
    requires Child(v, token).Some? && (IsArraySchema(s) <==> v.Arr?)
    requires Valid(d, s, v) && Valid(d, Inner(s, token).value, child)
    ensures Valid(d, s, Put(v, token, child))
  {
    var w := Put(v, token, child);
    assert AssertionsHold(s, v) && FieldsValid(d, s, v) && ItemsValid(d, s, v);
    assert AssertionsHold(s, w);
    assert FieldsValid(d, s, w) && ItemsValid(d, s, w);
    assert AllValid(d, s, w) && AnyValid(d, s, w) && OneValid(d, s, w) && RefValid(d, s, w);
  }

  /** A plain schema accepts every value that is neither object nor list and passes its assertions. */
  lemma ScalarEscapes(d: Document, s: Json, token: string, v: Json)
    requires Guarded(d) && s.Obj? && !Has(s, "$ref") && Plain(s)
    requires !v.Obj? && !v.Arr? && AssertionsHold(s, v)
    ensures Valid(d, s, v) && Escapes(d, s, token)
  {
    assert FieldsValid(d, s, v) && ItemsValid(d, s, v);
    assert AllValid(d, s, v) && AnyValid(d, s, v) && OneValid(d, s, v) && RefValid(d, s, v);
    ScalarHasNoChild(v, token);
    assert Valid(d, s, v) && Child(v, token).None?;
  }

  lemma ScalarHasNoChild(v: Json, token: string)
    requires !v.Obj? && !v.Arr?
    ensures Child(v, token).None?
  {
  }

  /** A plain schema without a type, or with one of these beside `object`, accepts more than objects. */
  lemma OpenTypeEscapes(d: Document, s: Json, token: string)
    requires Guarded(d) && s.Obj? && !Has(s, "$ref") && Plain(s)
    requires || Types(s).None?
             || "null" in Types(s).value || "boolean" in Types(s).value
             || ("string" in Types(s).value && !Has(s, "minLength") && !Has(s, "maxLength"))
    ensures Escapes(d, s, token)
  {
    if Types(s).None? || "null" in Types(s).value {
      assert TypeHolds("null", Null);
      ScalarEscapes(d, s, token, Null);
    } else if "boolean" in Types(s).value {
      assert TypeHolds("boolean", Bool(true));
      ScalarEscapes(d, s, token, Bool(true));
    } else {
      assert TypeHolds("string", Str(""));
      ScalarEscapes(d, s, token, Str(""));
    }
  }

  /** From any accepted value, one that lacks the pointer: another value at the first object step without its type. */
  lemma {:induction false} Witness(root: Json, d: Document, current: Json, tokens: seq<string>, v: Json)
    returns (w: Json)
    requires Guarded(d) && KeepsReferences(root, d) && current in SubValues(root)
    requires IsGuaranteed(root, current, tokens) && StepsAreLoose(root, d, current, tokens)
    requires !StepsAreTyped(root, current, tokens) && Valid(d, current, v)
    ensures Valid(d, current, w) && Lookup(w, tokens).None?
    decreases |tokens|
  {
    var s := Dereference(root, current, {}).value;
    if Typed(s) {
      DereferenceMeaning(root, d, current, {}, v);
      StepPresent(d, s, tokens[0], v);
      InnerStandsInside(root, s, tokens[0]);
      var child := Witness(root, d, Inner(s, tokens[0]).value, tokens[1..], Child(v, tokens[0]).value);
      KindFits(s, v);
      PutValid(d, s, tokens[0], v, child);
      PutChild(v, tokens[0], child);
      w := Put(v, tokens[0], child);
    } else {
      w :| Valid(d, s, w) && Child(w, tokens[0]).None?;
    }
    DereferenceMeaning(root, d, current, {}, w);
  }

  lemma KindFits(s: Json, v: Json)
    requires Typed(s)
    requires TypeOk(s, v)
    ensures IsArraySchema(s) <==> v.Arr?
  {
    assert IsArraySchema(s) ==> Types(s) == Some({"array"});
    var t :| t in Types(s).value && TypeHolds(t, v);
  }

  /**
   * The exact condition: a pointer the source calls guaranteed into a schema that can be met at all
   * is present in every instance if and only if every object step on the way declares `type: object`.
   */
  lemma GuaranteeExactly(root: Json, d: Document, tokens: seq<string>)
    requires Guarded(d) && KeepsReferences(root, d)
    requires IsGuaranteed(root, root, tokens) && StepsAreLoose(root, d, root, tokens)
    requires exists v :: Valid(d, root, v)
    ensures StepsAreTyped(root, root, tokens) <==> forall v :: Valid(d, root, v) ==> Lookup(v, tokens).Some?
  {
    if StepsAreTyped(root, root, tokens) {
      forall v | Valid(d, root, v) ensures Lookup(v, tokens).Some? {
        GuaranteeIsSound(root, d, root, tokens, v);
      }
    } else {
      var v :| Valid(d, root, v);
      var w := Witness(root, d, root, tokens, v);
    }
  }

  const UNTYPED := Obj(map["properties" := Obj(map["a" := Obj(map[])]), "required" := Arr([Str("a")])])

  lemma UntypedGuarded()
    ensures Guarded(Document(UNTYPED, map[]))
  {
    var a := Obj(map[]);
    assert !ContainsReference(a) && !ContainsReference(Obj(map["a" := a])) && !ContainsReference(Arr([Str("a")]));
    assert !ContainsReference(UNTYPED);
    ReferenceFreeIsGuarded(UNTYPED);
  }

  lemma UntypedAccepts(d: Document)
    requires Guarded(d)
    ensures Valid(d, UNTYPED, Str(""))
  {
    assert Keys(UNTYPED) == {"properties", "required"};
    assert forall k :: Has(UNTYPED, k) <==> k == "properties" || k == "required";
  }

  /** Without `type`, `required` binds objects only: a string passes and has no `a`. */
  lemma UntypedStepIsNoGuarantee()
    ensures IsGuaranteed(UNTYPED, UNTYPED, ["a"])
    ensures Lookup(Str(""), ["a"]).None?
    ensures Guarded(Document(UNTYPED, map[])) && Valid(Document(UNTYPED, map[]), UNTYPED, Str(""))
  {
    UntypedGuarded();
    UntypedAccepts(Document(UNTYPED, map[]));
    var a := Obj(map[]);
    assert Properties(UNTYPED)["a"] == a;
    assert Inner(UNTYPED, "a") == Some(a) && MustBePresent(UNTYPED, "a");
    assert ["a"][1..] == [];
  }
}
