/** The static proof that a status query can always be built from sealed Action values. */
module StatusQuery {
  import opened Ordering
  import opened JsonPointer
  import opened JsonValues
  import opened SchemaSemantics
  import opened SchemaRelation
  import opened SchemaSteps
  import opened SchemaTrees
  import opened SchemaProver
  import opened PointerGuarantee
  import opened Policies

  // ---------- Data model ----------

  datatype Source = CapabilityInput | PreparedPreview | RuntimeIdempotencyKey

  datatype Binding = Binding(target: string, source: Source, sourcePointer: Option<string>)

  /** The parts of a capability, a read Operation and an outcome contract the proof looks at. */
  datatype Query = Query(
    capabilityInput: Json,
    capabilityPolicy: string,
    operationInput: Json,
    contextBindings: set<string>,
    requestBindings: seq<Binding>,
    previewSchema: Option<Json>,
    policy: Option<Policy>,
    operationOutput: Json,
    success: Option<Success>)

  /** The output field that tells success, and the values that do. */
  datatype Success = Success(pointer: string, values: seq<Json>)

  /** What the JSON Schema library says of a schema with references, cut out of its document. */
  type Validator = (Json, Json) -> bool

  datatype Code =
    | TargetInvalid
    | ContextForbidden
    | RuntimeKeyTargetInvalid
    | SourceInvalid
    | PreviewNotPublic
    | SchemaUnproven
    | RequiredInputUnbound
    | SuccessFieldUnproven
    | SuccessValueInvalid

  // ---------- The proof ----------

  /** Every Runtime idempotency key is a string of 1 to 200 characters. */
  const KEY_SCHEMA: Json :=
    Obj(map["type" := Str("string"), "minLength" := Num(1.0), "maxLength" := Num(200.0)])

  predicate TargetsReadable(q: Query) {
    && Has(q.operationInput, "properties") && Get(q.operationInput, "properties").Obj?
    && (Has(q.operationInput, "required") ==> Get(q.operationInput, "required").Arr?)
  }

  /** Required inputs the Runtime does not own. */
  function RequiredTargets(q: Query): set<string> {
    RequiredNames(q.operationInput) - q.contextBindings
  }

  /** Declared bindings, or one from the like-named input of the capability for each required target. */
  function Bindings(q: Query): seq<Binding> {
    if q.requestBindings != [] then q.requestBindings
    else
      var targets := Sorted(RequiredTargets(q));
      seq(|targets|, i requires 0 <= i < |targets| =>
        Binding(targets[i], CapabilityInput, Some("/" + Escape(targets[i]))))
  }

  function SourceSchema(q: Query, source: Source): Option<Json> {
    if source == CapabilityInput then Some(q.capabilityInput) else q.previewSchema
  }

  /** The first objection to one binding, in the order the source raises them. */
  function Objection(q: Query, b: Binding): Option<Code> {
    if !(b.target in Properties(q.operationInput) && Properties(q.operationInput)[b.target].Obj?)
    then Some(TargetInvalid)
    else if b.target in q.contextBindings then Some(ContextForbidden)
    else
      var target := Properties(q.operationInput)[b.target];
      if b.source == RuntimeIdempotencyKey then
        if CompareSubset(KEY_SCHEMA, target) == Proven then None else Some(RuntimeKeyTargetInvalid)
      else if b.sourcePointer.None? then Some(SourceInvalid)
      else
        var tokens := PointerTokens(b.sourcePointer.value);
        if b.source == PreparedPreview
           && !(q.policy.Some? && q.policy.value.id == q.capabilityPolicy
                && DisclosesUnmodified(q.policy.value, tokens))
        then Some(PreviewNotPublic)
        else
          match SourceSchema(q, b.source)
          case None => Some(SourceInvalid)
          case Some(root) =>
            match SchemaAt(root, root, tokens)
            case None => Some(SourceInvalid)
            case Some(found) =>
              if !IsGuaranteed(root, root, tokens) then Some(SourceInvalid)
              else if CompareSubset(found, target) == Proven then None else Some(SchemaUnproven)
  }

  /** Targets of the bindings nothing is objected to. */
  function Constructed(q: Query, bindings: seq<Binding>): set<string> {
    set i | 0 <= i < |bindings| && Objection(q, bindings[i]).None? :: bindings[i].target
  }

  function ObjectionList(q: Query, bindings: seq<Binding>): (found: seq<Option<Code>>)
    ensures |found| == |bindings|
  {
    seq(|bindings|, i requires 0 <= i < |bindings| => Objection(q, bindings[i]))
  }

  /** The codes among the objections. */
  function Raised(found: seq<Option<Code>>): seq<Code> {
    if found == [] then []
    else Raised(found[..|found| - 1]) + CodesOf(found[|found| - 1])
  }

  function CodesOf(objection: Option<Code>): seq<Code> {
    match objection
    case None => []
    case Some(code) => [code]
  }

  function Objections(q: Query, bindings: seq<Binding>): seq<Code> {
    Raised(ObjectionList(q, bindings))
  }

  function Unbound(count: nat): seq<Code> {
    seq(count, _ => RequiredInputUnbound)
  }

  /** `Draft202012Validator(schema).iter_errors(value)` finds nothing. */
  predicate ValueFits(accepts: Validator, s: Json, v: Json) {
    if ContainsReference(s) then accepts(s, v) else ValidAlone(s, v)
  }

  /** The objection to the success field. */
  function SuccessObjection(q: Query, accepts: Validator): seq<Code> {
    if q.success.None? then []
    else
      var tokens := PointerTokens(q.success.value.pointer);
      var found := SchemaAt(q.operationOutput, q.operationOutput, tokens);
      if found.None? || !IsGuaranteed(q.operationOutput, q.operationOutput, tokens) then [SuccessFieldUnproven]
      else if exists v | v in q.success.value.values :: !ValueFits(accepts, found.value, v) then [SuccessValueInvalid]
      else []
  }

  /** Everything `_prove_status_query_bindings` reports. */
  function Diagnostics(q: Query, accepts: Validator): seq<Code> {
    if !TargetsReadable(q) then [TargetInvalid]
    else BindingDiagnostics(q, Bindings(q), accepts)
  }

  /** First the bindings, then the success field, then the required targets no binding constructs. */
  function BindingDiagnostics(q: Query, bindings: seq<Binding>, accepts: Validator): seq<Code> {
    Objections(q, bindings)
    + SuccessObjection(q, accepts)
    + Unbound(|RequiredTargets(q) - Constructed(q, bindings)|)
  }

  /** The body of the loop over bindings, up to its first `continue`. */
  method FindObjection(q: Query, b: Binding) returns (objection: Option<Code>)
    ensures objection == Objection(q, b)
  {
    if b.target !in Properties(q.operationInput) || !Properties(q.operationInput)[b.target].Obj? {
      return Some(TargetInvalid);
    }
    if b.target in q.contextBindings {
      return Some(ContextForbidden);
    }
    var target := Properties(q.operationInput)[b.target];
    if b.source == RuntimeIdempotencyKey {
      var relation := CompareSchemas(KEY_SCHEMA, target);
      return if relation == Proven then None else Some(RuntimeKeyTargetInvalid);
    }
    if b.sourcePointer.None? {
      return Some(SourceInvalid);
    }
    var pointer := b.sourcePointer.value;
    if b.source == PreparedPreview
       && !(q.policy.Some? && q.policy.value.id == q.capabilityPolicy
            && DisclosesUnmodified(q.policy.value, PointerTokens(pointer)))
    {
      return Some(PreviewNotPublic);
    }
    var root := SourceSchema(q, b.source);
    if root.None? {
      return Some(SourceInvalid);
    }
    var found := SchemaAtDataPointer(root.value, pointer);
    var guaranteed := SchemaPointerIsGuaranteed(root.value, pointer);
    if found.None? || !guaranteed {
      return Some(SourceInvalid);
    }
    var relation := CompareSchemas(found.value, target);
    objection := if relation == Proven then None else Some(SchemaUnproven);
  }

  /** `_prove_status_query_bindings`: appends to `diagnostics` and grows `constructed`. */
  class BindingProof {
    var diagnostics: seq<Code>

    constructor ()
      ensures diagnostics == []
    {
      diagnostics := [];
    }

    method Prove(q: Query, accepts: Validator)
      modifies this
      ensures diagnostics == old(diagnostics) + Diagnostics(q, accepts)
    {
      if !TargetsReadable(q) {
        diagnostics := diagnostics + [TargetInvalid];
        return;
      }
      ProveBindings(q, Bindings(q), accepts);
    }

    method ProveBindings(q: Query, bindings: seq<Binding>, accepts: Validator)
      modifies this
      ensures diagnostics == old(diagnostics) + BindingDiagnostics(q, bindings, accepts)
    {
      var constructed := ProveEach(q, bindings);
      CheckSuccess(q, accepts);
      var missing := RequiredTargets(q) - constructed;
      ReportUnbound(missing);
      Appended(old(diagnostics), Objections(q, bindings), SuccessObjection(q, accepts), Unbound(|missing|));
    }

    /** The success field must be guaranteed, and each declared value must fit it. */
    method CheckSuccess(q: Query, accepts: Validator)
      modifies this
      ensures diagnostics == old(diagnostics) + SuccessObjection(q, accepts)
    {
      if q.success.None? {
        return;
      }
      var found := SchemaAtDataPointer(q.operationOutput, q.success.value.pointer);
      var guaranteed := SchemaPointerIsGuaranteed(q.operationOutput, q.success.value.pointer);
      if found.None? || !guaranteed {
        diagnostics := diagnostics + [SuccessFieldUnproven];
        return;
      }
      var values := q.success.value.values;
      for i := 0 to |values|
        invariant forall j :: 0 <= j < i ==> ValueFits(accepts, found.value, values[j])
      {
        if !ValueFits(accepts, found.value, values[i]) {
          diagnostics := diagnostics + [SuccessValueInvalid];
          return;
        }
      }
    }

    /** The loop over bindings. */
    method ProveEach(q: Query, bindings: seq<Binding>) returns (constructed: set<string>)
      modifies this
      ensures diagnostics == old(diagnostics) + Objections(q, bindings)
      ensures constructed == Constructed(q, bindings)
    {
      constructed := {};
      assert bindings[..0] == [];
      for index := 0 to |bindings|
        invariant diagnostics == old(diagnostics) + Objections(q, bindings[..index])
        invariant constructed == Constructed(q, bindings[..index])
      {
        ObjectionsSnoc(q, bindings, index);
        ConstructedSnoc(q, bindings, index);
        constructed := ProveOne(q, bindings[index], constructed);
      }
      assert bindings[..|bindings|] == bindings;
    }

    /** The body of the loop. */
    method ProveOne(q: Query, b: Binding, constructed: set<string>) returns (grown: set<string>)
      modifies this
      ensures diagnostics == old(diagnostics) + CodesOf(Objection(q, b))
      ensures grown == constructed + if Objection(q, b).None? then {b.target} else {}
    {
      var objection := FindObjection(q, b);
      if objection.Some? {
        diagnostics := diagnostics + [objection.value];
        return constructed;
      }
      grown := constructed + {b.target};
    }

    /** The loop over required targets no binding constructs. */
    method ReportUnbound(targets: set<string>)
      modifies this
      ensures diagnostics == old(diagnostics) + Unbound(|targets|)
    {
      var missing := Sorted(targets);
      for i := 0 to |missing|
        invariant diagnostics == old(diagnostics) + Unbound(i)
      {
        assert Unbound(i + 1) == Unbound(i) + [RequiredInputUnbound];
        diagnostics := diagnostics + [RequiredInputUnbound];
      }
    }
  }

  lemma Appended(start: seq<Code>, a: seq<Code>, b: seq<Code>, c: seq<Code>)
    ensures start + a + b + c == start + (a + b + c)
  {
  }

  lemma ObjectionsSnoc(q: Query, bindings: seq<Binding>, index: nat)
    requires index < |bindings|
    ensures Objections(q, bindings[..index + 1])
      == Objections(q, bindings[..index]) + CodesOf(Objection(q, bindings[index]))
  {
    var front := ObjectionList(q, bindings[..index]);
    assert ObjectionList(q, bindings[..index + 1]) == front + [Objection(q, bindings[index])];
    assert (front + [Objection(q, bindings[index])])[..index] == front;
  }

  lemma ConstructedSnoc(q: Query, bindings: seq<Binding>, index: nat)
    requires index < |bindings|
    ensures Constructed(q, bindings[..index + 1]) == Constructed(q, bindings[..index])
      + (if Objection(q, bindings[index]).None? then {bindings[index].target} else {})
  {
    var front, more := bindings[..index], bindings[..index + 1];
    assert forall i :: 0 <= i < index ==> front[i] == more[i];
    assert more[index] == bindings[index];
  }

  // ---------- What an accepted query can rely on ----------

  /** The sealed values of one Action run. */
  datatype Sealed = Sealed(input: Json, published: Json, key: string)

  /** The value a binding delivers. */
  function Evaluate(b: Binding, values: Sealed): Option<Json> {
    match b.source
    case RuntimeIdempotencyKey => Some(Str(values.key))
    case CapabilityInput =>
      if b.sourcePointer.None? then None else Lookup(values.input, PointerTokens(b.sourcePointer.value))
    case PreparedPreview =>
      if b.sourcePointer.None? then None else Lookup(values.published, PointerTokens(b.sourcePointer.value))
  }

  /**
   * The documents that give the schemas their meaning. The preview schema may be cut out of the output
   * schema of the Operation that produced it; `preview` is that Operation's whole document.
   */
  datatype Context = Context(capability: Document, preview: Document, operation: Document)

  function SourceDocument(ctx: Context, source: Source): Document {
    if source == CapabilityInput then ctx.capability else ctx.preview
  }

  ghost predicate ContextFits(q: Query, ctx: Context) {
    && Guarded(ctx.capability) && Guarded(ctx.preview) && Guarded(ctx.operation)
    && KeepsReferences(q.capabilityInput, ctx.capability)
    && (q.previewSchema.Some? ==> KeepsReferences(q.previewSchema.value, ctx.preview))
  }

  /** The sealed values satisfy the schemas they were sealed under, and the preview is published by the enforcer. */
  ghost predicate ValuesFit(q: Query, ctx: Context, digest: Digest, preview: Json, values: Sealed)
    requires ContextFits(q, ctx)
  {
    && Valid(ctx.capability, q.capabilityInput, values.input)
    && (q.previewSchema.Some? ==> Valid(ctx.preview, q.previewSchema.value, preview))
    && (q.policy.Some? ==> values.published == FilterOutput(q.policy.value, digest, preview))
    && 1 <= |values.key| <= 200
  }

  /** `_preview_result_schema`, for a preview emitted as `$.steps.<step>.<tokens>` of a read Operation. */
  function PreviewResultSchema(output: Json, tokens: seq<string>): Option<Json> {
    if tokens == [] then Some(output)
    else if IsGuaranteed(output, output, tokens) then SchemaAt(output, output, tokens)
    else None
  }

  /** The preview taken from a valid result satisfies the preview schema, in the output document. */
  lemma PreviewSatisfiesItsSchema(output: Document, tokens: seq<string>, result: Json)
    requires Guarded(output) && Valid(output, output.root, result)
    requires PreviewResultSchema(output.root, tokens).Some? && StepsAreTyped(output.root, output.root, tokens)
    ensures Lookup(result, tokens).Some?
    ensures Valid(output, PreviewResultSchema(output.root, tokens).value, Lookup(result, tokens).value)
  {
    if tokens == [] {
    } else {
      GuaranteeIsSound(output.root, output, output.root, tokens, result);
    }
  }

  /** The steps of a pointer that lead through array schemas. */
  function ListSteps(root: Json, current: Json, tokens: seq<string>): (lists: seq<bool>)
    ensures |lists| == |tokens|
    decreases |tokens|
  {
    if tokens == [] then []
    else
      match Dereference(root, current, {})
      case None => seq(|tokens|, _ => false)
      case Some(s) =>
        [IsArraySchema(s)]
        + match Inner(s, tokens[0])
          case None => seq(|tokens| - 1, _ => false)
          case Some(next) => ListSteps(root, next, tokens[1..])
  }

  /** In every instance a guaranteed pointer leads through lists exactly where the schema has arrays. */
  lemma {:induction false} GuaranteedLeads(root: Json, d: Document, current: Json, tokens: seq<string>, v: Json)
    requires Guarded(d) && KeepsReferences(root, d) && current in SubValues(root)
    requires IsGuaranteed(root, current, tokens) && StepsAreTyped(root, current, tokens)
    requires Valid(d, current, v)
    ensures Leads(v, tokens, ListSteps(root, current, tokens))
    decreases |tokens|
  {
    if tokens == [] {
    } else {
      var s := Dereference(root, current, {}).value;
      DereferenceMeaning(root, d, current, {}, v);
      StepPresent(d, s, tokens[0], v);
      KindFits(s, v);
      InnerStandsInside(root, s, tokens[0]);
      GuaranteedLeads(root, d, Inner(s, tokens[0]).value, tokens[1..], Child(v, tokens[0]).value);
    }
  }

  /**
   * What the binding proof takes for granted about a binding: object steps declare their type, the policy
   * discloses the preview path without its list positions, and the schemas can be compared.
   */
  ghost predicate BindingFits(q: Query, ctx: Context, b: Binding) {
    b.target in Properties(q.operationInput) ==>
      var target := Properties(q.operationInput)[b.target];
      if b.source == RuntimeIdempotencyKey then Comparable(KEY_SCHEMA, target, ctx.capability, ctx.operation)
      else
        b.sourcePointer.Some? && SourceSchema(q, b.source).Some? ==>
          var root := SourceSchema(q, b.source).value;
          var tokens := PointerTokens(b.sourcePointer.value);
          && StepsAreTyped(root, root, tokens)
          && (b.source == PreparedPreview && q.policy.Some? ==>
            DisclosesUnmodified(q.policy.value, FieldPath(tokens, ListSteps(root, root, tokens))))
          && (SchemaAt(root, root, tokens).Some? ==>
            Comparable(SchemaAt(root, root, tokens).value, target, SourceDocument(ctx, b.source), ctx.operation))
  }

  /** For a pointer that takes no list step, what the compiler checks is enough. */
  lemma DisclosedWithoutLists(q: Query, b: Binding)
    requires Objection(q, b).None? && b.source == PreparedPreview
    requires var root := q.previewSchema.value; true !in ListSteps(root, root, PointerTokens(b.sourcePointer.value))
    ensures var (root, tokens) := (q.previewSchema.value, PointerTokens(b.sourcePointer.value));
      DisclosesUnmodified(q.policy.value, FieldPath(tokens, ListSteps(root, root, tokens)))
  {
    var root := q.previewSchema.value;
    var tokens := PointerTokens(b.sourcePointer.value);
    FieldPathWithoutLists(tokens, ListSteps(root, root, tokens));
  }

  lemma KeySatisfiesSchema(d: Document, key: string)
    requires Guarded(d) && 1 <= |key| <= 200
    ensures Valid(d, KEY_SCHEMA, Str(key))
  {
    assert Keys(KEY_SCHEMA) == {"type", "minLength", "maxLength"};
    assert Types(KEY_SCHEMA) == Some({"string"});
    assert TypeHolds("string", Str(key));
    assert Get(KEY_SCHEMA, "minLength").n == 1.0 && Get(KEY_SCHEMA, "maxLength").n == 200.0;
  }

  /** A binding nothing is objected to always delivers a value its target accepts. */
  lemma BindingDelivers(q: Query, ctx: Context, digest: Digest, preview: Json, values: Sealed, b: Binding)
    requires ContextFits(q, ctx) && ValuesFit(q, ctx, digest, preview, values) && BindingFits(q, ctx, b)
    requires Objection(q, b).None?
    ensures b.target in Properties(q.operationInput)
    ensures Evaluate(b, values).Some?
    ensures Valid(ctx.operation, Properties(q.operationInput)[b.target], Evaluate(b, values).value)
  {
    var target := Properties(q.operationInput)[b.target];
    if b.source == RuntimeIdempotencyKey {
      KeySatisfiesSchema(ctx.capability, values.key);
      CutOutSubset(KEY_SCHEMA, target, ctx.capability, ctx.operation, Str(values.key));
    } else {
      var root := SourceSchema(q, b.source).value;
      var tokens := PointerTokens(b.sourcePointer.value);
      var d := SourceDocument(ctx, b.source);
      var whole := if b.source == CapabilityInput then values.input else preview;
      GuaranteeIsSound(root, d, root, tokens, whole);
      if b.source == PreparedPreview {
        GuaranteedLeads(root, d, root, tokens, preview);
        KeptWhenDisclosed(q.policy.value, digest, preview, tokens, ListSteps(root, root, tokens));
      }
      CutOutSubset(SchemaAt(root, root, tokens).value, target, d, ctx.operation, Lookup(whole, tokens).value);
    }
  }

  /**
   * If nothing is reported, then for all valid sealed values every required input the Runtime does
   * not own has a binding, and each binding delivers a value that satisfies its target schema.
   */
  lemma AcceptedQueryIsConstructible(
    q: Query, accepts: Validator, ctx: Context, digest: Digest, preview: Json, values: Sealed)
    requires ContextFits(q, ctx) && ValuesFit(q, ctx, digest, preview, values)
    requires forall b :: b in Bindings(q) ==> BindingFits(q, ctx, b)
    requires Diagnostics(q, accepts) == []
    ensures forall target :: target in RequiredTargets(q) ==> exists b :: b in Bindings(q) && b.target == target
    ensures forall b :: b in Bindings(q) ==>
      && b.target in Properties(q.operationInput)
      && Evaluate(b, values).Some?
      && Valid(ctx.operation, Properties(q.operationInput)[b.target], Evaluate(b, values).value)
  {
    var bindings := Bindings(q);
    NoObjections(q, bindings);
    forall b | b in bindings
      ensures b.target in Properties(q.operationInput) && Evaluate(b, values).Some?
      ensures Valid(ctx.operation, Properties(q.operationInput)[b.target], Evaluate(b, values).value)
    {
      BindingDelivers(q, ctx, digest, preview, values, b);
    }
    var missing := RequiredTargets(q) - Constructed(q, bindings);
    assert |Unbound(|missing|)| == 0;
    forall target | target in RequiredTargets(q) ensures exists b :: b in bindings && b.target == target {
      assert target !in missing;
      var i :| 0 <= i < |bindings| && bindings[i].target == target;
      assert bindings[i] in bindings;
    }
  }

  /**
   * An accepted query's success field is present in every output, and its declared values satisfy the schema
   * of the field, as far as that schema stands without references.
   */
  lemma AcceptedSuccessFieldIsPresent(q: Query, accepts: Validator, output: Document, result: Json)
    requires Diagnostics(q, accepts) == [] && q.success.Some?
    requires Guarded(output) && KeepsReferences(q.operationOutput, output)
    requires StepsAreTyped(q.operationOutput, q.operationOutput, PointerTokens(q.success.value.pointer))
    requires Valid(output, q.operationOutput, result)
    ensures var tokens := PointerTokens(q.success.value.pointer);
      var found := SchemaAt(q.operationOutput, q.operationOutput, tokens);
      && Lookup(result, tokens).Some? && found.Some?
      && Valid(output, found.value, Lookup(result, tokens).value)
      && forall v :: v in q.success.value.values ==>
           if ContainsReference(found.value) then accepts(found.value, v) else Valid(output, found.value, v)
  {
    var tokens := PointerTokens(q.success.value.pointer);
    assert SuccessObjection(q, accepts) == [];
    GuaranteeIsSound(q.operationOutput, output, q.operationOutput, tokens, result);
    var found := SchemaAt(q.operationOutput, q.operationOutput, tokens).value;
    forall v | v in q.success.value.values && !ContainsReference(found) ensures Valid(output, found, v) {
      assert ValueFits(accepts, found, v);
      ReferenceFreeIsGuarded(found);
      ReferenceFreeMeaning(Document(found, map[]), output, found, v);
    }
  }

  lemma {:induction false} NothingRaised(found: seq<Option<Code>>)
    requires Raised(found) == []
    ensures forall i :: 0 <= i < |found| ==> found[i].None?
  {
    if found == [] {
    } else {
      NothingRaised(found[..|found| - 1]);
    }
  }

  lemma NoObjections(q: Query, bindings: seq<Binding>)
    requires Objections(q, bindings) == []
    ensures forall b :: b in bindings ==> Objection(q, b).None?
  {
    var found := ObjectionList(q, bindings);
    NothingRaised(found);
    forall b | b in bindings ensures Objection(q, b).None? {
      var i :| 0 <= i < |bindings| && bindings[i] == b;
      assert found[i] == Objection(q, b);
    }
  }

  /** An implicit binding reads the capability input of the same name, whatever characters it holds. */
  lemma ImplicitBindingReadsItsName(q: Query, values: Sealed, b: Binding)
    requires q.requestBindings == [] && b in Bindings(q)
    ensures b.target in RequiredTargets(q)
    ensures Evaluate(b, values) == Child(values.input, b.target)
  {
    var targets := Sorted(RequiredTargets(q));
    var i :| 0 <= i < |targets| && Bindings(q)[i] == b;
    assert targets[i] in targets;
    ImplicitPointer(b.target);
    LookupOne(values.input, b.target);
  }

  lemma ImplicitPointer(target: string)
    ensures PointerTokens("/" + Escape(target)) == [target]
  {
    ParsePrint([target]);
    assert [target][..0] == [];
    assert Print([target]) == "/" + Escape(target);
  }
}
