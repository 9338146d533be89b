/** A status query the proof accepts, under the conditions its main theorem asks for. */
module StatusQueryExample {
  import opened Ordering
  import opened JsonPointer
  import opened JsonValues
  import opened SchemaSemantics
  import opened SchemaRelation
  import opened SchemaSteps
  import opened SchemaSoundness
  import opened SchemaTrees
  import opened SchemaConditions
  import opened PointerGuarantee
  import opened Policies
  import opened StatusQuery

  const ANYTHING := Obj(map[])

  /** An object with one required field `a`. */
  const RECORD := Obj(map[
    "type" := Str("object"), "properties" := Obj(map["a" := ANYTHING]), "required" := Arr([Str("a")])])

  const QUERY := Query(RECORD, "", RECORD, {}, [], None, None, RECORD, None)
  const CONTEXT := Context(Document(RECORD, map[]), Document(RECORD, map[]), Document(RECORD, map[]))
  const SEALED := Sealed(Obj(map["a" := Null]), Null, "k")

  lemma RecordShape()
    ensures RECORD.fields.Keys == {"type", "properties", "required"}
    ensures Types(RECORD) == Some({"object"}) && Properties(RECORD) == map["a" := ANYTHING]
    ensures RequiredNames(RECORD) == {"a"} && MustBePresent(RECORD, "a") && !IsArraySchema(RECORD)
  {
    assert Branches(RECORD, "required") == [Str("a")];
    assert Str("a") in Branches(RECORD, "required");
  }

  lemma RecordGuarded()
    ensures Guarded(Document(RECORD, map[])) && !ContainsReference(ANYTHING)
  {
    assert !ContainsReference(ANYTHING) && !ContainsReference(Obj(map["a" := ANYTHING]));
    assert !ContainsReference(Arr([Str("a")])) && !ContainsReference(Str("object"));
    assert !ContainsReference(RECORD);
    ReferenceFreeIsGuarded(RECORD);
  }

  lemma PointerReaches()
    ensures SchemaAt(RECORD, RECORD, ["a"]) == Some(ANYTHING)
    ensures IsGuaranteed(RECORD, RECORD, ["a"]) && StepsAreTyped(RECORD, RECORD, ["a"])
  {
    RecordShape();
    assert ["a"][1..] == [];
    assert !Has(RECORD, "$ref") && !Has(ANYTHING, "$ref");
    assert Dereference(RECORD, RECORD, {}) == Some(RECORD) && Dereference(RECORD, ANYTHING, {}) == Some(ANYTHING);
    assert Inner(RECORD, "a") == Some(ANYTHING);
  }

  lemma AnythingComparable(dl: Document, dr: Document)
    requires Guarded(dl) && Guarded(dr)
    ensures Comparable(ANYTHING, ANYTHING, dl, dr) && CompareSubset(ANYTHING, ANYTHING) == Proven
  {
    var c := Roots(ANYTHING, ANYTHING);
    RecordGuarded();
    assert Immediate(ANYTHING, ANYTHING) == Some(Proven) && Explored(c, {});
    ReferenceFreeAgree(c, dl, dr, {});
    assert Trusted(c, dl, dr, {});
  }

  lemma OneBinding()
    ensures RequiredTargets(QUERY) == {"a"}
    ensures Bindings(QUERY) == [Binding("a", CapabilityInput, Some("/" + Escape("a")))]
  {
    RecordShape();
    assert RequiredTargets(QUERY) == {"a"};
    assert Sorted({"a"}) == ["a"];
  }

  lemma NothingObjected()
    requires Guarded(CONTEXT.capability) && Guarded(CONTEXT.operation)
    ensures forall b :: b in Bindings(QUERY) ==>
      Objection(QUERY, b).None? && BindingFits(QUERY, CONTEXT, b) && b.target == "a"
  {
    OneBinding();
    forall b | b in Bindings(QUERY)
      ensures Objection(QUERY, b).None? && BindingFits(QUERY, CONTEXT, b) && b.target == "a"
    {
      ReadsItsName(b);
    }
  }

  lemma ReadsItsName(b: Binding)
    requires Guarded(CONTEXT.capability) && Guarded(CONTEXT.operation)
    requires b == Binding("a", CapabilityInput, Some("/" + Escape("a")))
    ensures Objection(QUERY, b).None? && BindingFits(QUERY, CONTEXT, b)
  {
    RecordShape();
    ImplicitPointer("a");
    PointerReaches();
    AnythingComparable(CONTEXT.capability, CONTEXT.operation);
    assert SourceDocument(CONTEXT, CapabilityInput) == CONTEXT.capability;
  }

  lemma AnythingAccepts(d: Document, v: Json)
    requires Guarded(d)
    ensures Valid(d, ANYTHING, v)
  {
    assert Keys(ANYTHING) == {};
    NoAssertions(d, ANYTHING, v);
  }

  lemma RecordAccepts()
    requires Guarded(Document(RECORD, map[]))
    ensures Valid(Document(RECORD, map[]), RECORD, SEALED.input)
  {
    RecordShape();
    assert forall k :: Has(RECORD, k) ==> k in {"type", "properties", "required"};
    assert SEALED.input.fields.Keys == {"a"};
    AnythingAccepts(Document(RECORD, map[]), Null);
    assert FieldsValid(Document(RECORD, map[]), RECORD, SEALED.input);
  }

  /** The conditions of the main theorem can all be met at once, by a query that is accepted. */
  lemma SomeQueryIsAccepted(accepts: Validator, digest: Digest)
    ensures ContextFits(QUERY, CONTEXT) && ValuesFit(QUERY, CONTEXT, digest, Null, SEALED)
    ensures forall b :: b in Bindings(QUERY) ==> BindingFits(QUERY, CONTEXT, b)
    ensures RequiredTargets(QUERY) == {"a"} && Diagnostics(QUERY, accepts) == []
  {
    RecordGuarded();
    RecordAccepts();
    OneBinding();
    NothingObjected();
    var all := Bindings(QUERY);
    assert all[..0] == [] && Objections(QUERY, all[..0]) == [];
    assert Objection(QUERY, all[0]).None? && all[0].target == "a";
    assert "a" in Constructed(QUERY, all);
    assert RequiredTargets(QUERY) - Constructed(QUERY, all) == {};
  }
}
