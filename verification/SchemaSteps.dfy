/** One step of the subset argument: from a pair's sub-pairs to the pair itself, at one instance. */
module SchemaSteps {
  import opened Ordering
  import opened JsonValues
  import opened SchemaSemantics
  import opened SchemaRelation

  /** Instance `v` does not separate the pair: accepted on the left means accepted on the right. */
  ghost predicate Carries(dl: Document, dr: Document, p: Pair, v: Json)
    requires Guarded(dl) && Guarded(dr)
  {
    Valid(dl, p.0.value, v) ==> Valid(dr, p.1.value, v)
  }

  // ---------- When two documents give a schema the same meaning ----------

  function Target(root: Json, reference: Json): Option<Json> {
    match ResolveValue(root, reference)
    case None => None
    case Some(o) => Some(o.value)
  }

  /** Every reference standing in `shared` leads both documents to one schema, again in `shared`. */
  ghost predicate AgreeOn(left: Json, right: Json, shared: set<Json>) {
    forall s :: s in shared ==>
      && SubValues(s) <= shared
      && (Has(s, "$ref") ==>
            && Target(left, Get(s, "$ref")) == Target(right, Get(s, "$ref"))
            && (Target(left, Get(s, "$ref")).Some? ==> Target(left, Get(s, "$ref")).value in shared))
  }

  lemma PartOf(s: Json, keyword: string)
    requires Has(s, keyword)
    ensures Get(s, keyword) in SubValues(s)
    ensures forall i :: 0 <= i < |Branches(s, keyword)| ==> Branches(s, keyword)[i] in SubValues(s)
    ensures keyword == "properties" ==> forall name :: name in Properties(s) ==> Properties(s)[name] in SubValues(s)
  {
    assert Get(s, keyword) in SubValues(s.fields[keyword]);
    SubValuesTransitive(s, Get(s, keyword));
    if HasList(s, keyword) {
      forall i | 0 <= i < |Branches(s, keyword)| ensures Branches(s, keyword)[i] in SubValues(s) {
        var list := Get(s, keyword);
        assert list.items[i] in SubValues(list.items[i]);
        assert list.items[i] in SubValues(list);
      }
    }
    if keyword == "properties" {
      forall name | name in Properties(s) ensures Properties(s)[name] in SubValues(s) {
        assert Properties(s)[name] in SubValues(Properties(s)[name]);
        assert Properties(s)[name] in SubValues(Get(s, keyword));
      }
    }
  }

  lemma {:induction false} SameMeaning(dl: Document, dr: Document, shared: set<Json>, s: Json, v: Json)
    requires Guarded(dl) && Guarded(dr)
    requires AgreeOn(dl.root, dr.root, shared) && s in shared
    ensures Valid(dl, s, v) == Valid(dr, s, v)
    decreases v, Height(dl, s), s
  {
    if s.Obj? {
      SameReference(dl, dr, shared, s, v);
      SameBranches(dl, dr, shared, s, v);
      SameParts(dl, dr, shared, s, v);
    }
  }

  lemma {:induction false} SameReference(dl: Document, dr: Document, shared: set<Json>, s: Json, v: Json)
    requires Guarded(dl) && Guarded(dr)
    requires AgreeOn(dl.root, dr.root, shared) && s in shared
    ensures RefValid(dl, s, v) == RefValid(dr, s, v)
    decreases v, Height(dl, s), s, 0
  {
    if Has(s, "$ref") && Target(dl.root, Get(s, "$ref")).Some? {
      HeightOfRef(dl, s);
      SameMeaning(dl, dr, shared, Target(dl.root, Get(s, "$ref")).value, v);
    }
  }

  lemma {:induction false} SameBranches(dl: Document, dr: Document, shared: set<Json>, s: Json, v: Json)
    requires Guarded(dl) && Guarded(dr)
    requires AgreeOn(dl.root, dr.root, shared) && s in shared
    ensures AllValid(dl, s, v) == AllValid(dr, s, v)
    ensures AnyValid(dl, s, v) == AnyValid(dr, s, v)
    ensures OneValid(dl, s, v) == OneValid(dr, s, v)
    decreases v, Height(dl, s), s, 0
  {
    forall keyword, i | keyword in {"allOf", "anyOf", "oneOf"} && 0 <= i < |Branches(s, keyword)|
      ensures Valid(dl, Branches(s, keyword)[i], v) == Valid(dr, Branches(s, keyword)[i], v)
    {
      HeightOfBranch(dl, s, keyword, i);
      PartOf(s, keyword);
      SameMeaning(dl, dr, shared, Branches(s, keyword)[i], v);
    }
  }

  lemma {:induction false} SameParts(dl: Document, dr: Document, shared: set<Json>, s: Json, v: Json)
    requires Guarded(dl) && Guarded(dr)
    requires AgreeOn(dl.root, dr.root, shared) && s in shared
    ensures FieldsValid(dl, s, v) == FieldsValid(dr, s, v)
    ensures ItemsValid(dl, s, v) == ItemsValid(dr, s, v)
    decreases v, Height(dl, s), s, 0
  {
    if v.Obj? {
      forall name | name in v.fields && name in Properties(s)
        ensures Valid(dl, Properties(s)[name], v.fields[name]) == Valid(dr, Properties(s)[name], v.fields[name])
      {
        PartOf(s, "properties");
        SameMeaning(dl, dr, shared, Properties(s)[name], v.fields[name]);
      }
      if Has(s, "additionalProperties") {
        PartOf(s, "additionalProperties");
        forall name | name in v.fields
          ensures Valid(dl, Get(s, "additionalProperties"), v.fields[name])
               == Valid(dr, Get(s, "additionalProperties"), v.fields[name])
        {
          SameMeaning(dl, dr, shared, Get(s, "additionalProperties"), v.fields[name]);
        }
      }
    }
    if v.Arr? && Has(s, "items") {
      PartOf(s, "items");
      forall i | 0 <= i < |v.items|
        ensures Valid(dl, Get(s, "items"), v.items[i]) == Valid(dr, Get(s, "items"), v.items[i])
      {
        SameMeaning(dl, dr, shared, Get(s, "items"), v.items[i]);
      }
    }
  }

  /** A schema without references means the same in every document. */
  lemma ReferenceFreeMeaning(dl: Document, dr: Document, s: Json, v: Json)
    requires Guarded(dl) && Guarded(dr)
    requires !ContainsReference(s)
    ensures Valid(dl, s, v) == Valid(dr, s, v)
  {
    ReferenceFreeAgrees(dl.root, dr.root, s);
    SameMeaning(dl, dr, SubValues(s), s, v);
  }

  lemma ReferenceFreeAgrees(left: Json, right: Json, s: Json)
    requires !ContainsReference(s)
    ensures AgreeOn(left, right, SubValues(s))
  {
    forall x | x in SubValues(s) ensures SubValues(x) <= SubValues(s) && !Has(x, "$ref") {
      SubValuesTransitive(s, x);
      ReferenceFreeParts(s, x);
    }
  }

  // ---------- Immediate answers ----------

  /** A reference that resolves inside `part` names the same schema in the document `d`. */
  ghost predicate KeepsReferences(part: Json, d: Document) {
    forall s :: s in SubValues(part) && Has(s, "$ref") && Target(part, Get(s, "$ref")).Some? ==>
      Target(d.root, Get(s, "$ref")) == Target(part, Get(s, "$ref"))
  }

  ghost predicate AgreeAround(dl: Document, dr: Document, s: Json, shared: set<Json>) {
    AgreeOn(dl.root, dr.root, shared) && s in shared
  }

  /** The references in `s`, and in all they lead to, name the same schemas in both documents. */
  ghost predicate MeansAlike(dl: Document, dr: Document, s: Json) {
    exists shared :: AgreeAround(dl, dr, s, shared)
  }

  /** The shortcut `left == right` answers for these two schemas. */
  predicate ShortcutApplies(left: Json, right: Json) {
    left.Obj? && right.Obj? && PyEqual(left, right)
  }

  lemma TargetIsSubValue(root: Json, reference: Json)
    requires Target(root, reference).Some?
    ensures Target(root, reference).value in SubValues(root)
  {
    ResolveIsSubValue(root, reference.s);
  }

  lemma ImmediateStep(dl: Document, dr: Document, p: Pair, v: Json)
    requires Guarded(dl) && Guarded(dr)
    requires ShortcutApplies(p.0.value, p.1.value) ==> p.0.value == p.1.value && MeansAlike(dl, dr, p.0.value)
    requires Immediate(p.0.value, p.1.value) == Some(Proven)
    ensures Carries(dl, dr, p, v)
  {
    if ShortcutApplies(p.0.value, p.1.value) {
      var shared :| AgreeAround(dl, dr, p.0.value, shared);
      SameMeaning(dl, dr, shared, p.0.value, v);
    }
  }

  // ---------- Documents that use their references alike ----------

  /** A schema found in both documents refers to the same schemas from both. */
  ghost predicate SharedRefsAgree(left: Json, right: Json) {
    forall s :: s in SubValues(left) && s in SubValues(right) && Has(s, "$ref")
      ==> Target(left, Get(s, "$ref")) == Target(right, Get(s, "$ref"))
  }

  lemma SharedMeansAlike(dl: Document, dr: Document, s: Json)
    requires SharedRefsAgree(dl.root, dr.root) && s in SubValues(dl.root) && s in SubValues(dr.root)
    ensures MeansAlike(dl, dr, s)
  {
    SharedValuesAgree(dl.root, dr.root);
    assert AgreeAround(dl, dr, s, SubValues(dl.root) * SubValues(dr.root));
  }

  lemma SharedValuesAgree(left: Json, right: Json)
    requires SharedRefsAgree(left, right)
    ensures AgreeOn(left, right, SubValues(left) * SubValues(right))
  {
    var shared := SubValues(left) * SubValues(right);
    forall s | s in shared
      ensures SubValues(s) <= shared
      ensures Has(s, "$ref") ==> Target(left, Get(s, "$ref")) == Target(right, Get(s, "$ref"))
      ensures Has(s, "$ref") && Target(left, Get(s, "$ref")).Some? ==> Target(left, Get(s, "$ref")).value in shared
    {
      SubValuesTransitive(left, s);
      SubValuesTransitive(right, s);
      if Has(s, "$ref") && Target(left, Get(s, "$ref")).Some? {
        TargetIsSubValue(left, Get(s, "$ref"));
        TargetIsSubValue(right, Get(s, "$ref"));
      }
    }
  }

  /** Without references a schema means the same everywhere. */
  lemma ReferenceFreeMeansAlike(dl: Document, dr: Document, s: Json)
    requires !ContainsReference(s)
    ensures MeansAlike(dl, dr, s)
  {
    ReferenceFreeAgrees(dl.root, dr.root, s);
    assert AgreeAround(dl, dr, s, SubValues(s));
  }

  // ---------- References ----------

  lemma VocabulariesDisjoint()
    ensures HANDLED * ANNOTATIONS == {}
  {
  }

  lemma Unused(s: Json, used: set<string>)
    requires Keys(s) <= used + ANNOTATIONS
    ensures forall k :: k in HANDLED && k !in used ==> !Has(s, k)
  {
    VocabulariesDisjoint();
    forall k | k in HANDLED && k !in used ensures !Has(s, k) {
      assert k in ANNOTATIONS ==> k in HANDLED * ANNOTATIONS;
    }
  }

  lemma NoLocalAssertions(s: Json, v: Json)
    requires forall k :: k in HANDLED && k !in {"$ref", "allOf"} ==> !Has(s, k)
    ensures AssertionsHold(s, v)
  {
    assert !Has(s, "type") && !Has(s, "const") && !Has(s, "enum") && !Has(s, "required");
    assert !Has(s, "minimum") && !Has(s, "maximum") && !Has(s, "exclusiveMinimum") && !Has(s, "exclusiveMaximum");
    assert !Has(s, "minLength") && !Has(s, "maxLength") && !Has(s, "minItems") && !Has(s, "maxItems");
  }

  lemma NoAssertions(d: Document, s: Json, v: Json)
    requires Guarded(d) && s.Obj?
    requires Keys(s) <= {"$ref"} + ANNOTATIONS
    ensures Valid(d, s, v) == RefValid(d, s, v)
  {
    Unused(s, {"$ref"});
    assert !Has(s, "allOf") && !Has(s, "anyOf") && !Has(s, "oneOf") && !Has(s, "items");
    assert !Has(s, "properties") && !Has(s, "additionalProperties");
    NoLocalAssertions(s, v);
  }

  /** The references of both schemas are resolved in `c` as in the documents. */
  predicate ResolvedAlike(c: Roots, dl: Document, dr: Document, p: Pair) {
    && (Has(p.0.value, "$ref") && Target(c.left, Get(p.0.value, "$ref")).Some? ==>
      Target(dl.root, Get(p.0.value, "$ref")) == Target(c.left, Get(p.0.value, "$ref")))
    && (Has(p.1.value, "$ref") && Target(c.right, Get(p.1.value, "$ref")).Some? ==>
      Target(dr.root, Get(p.1.value, "$ref")) == Target(c.right, Get(p.1.value, "$ref")))
  }

  lemma RefStep(c: Roots, dl: Document, dr: Document, p: Pair, v: Json)
    requires Guarded(dl) && Guarded(dr) && ResolvedAlike(c, dl, dr, p)
    requires p.0.value.Obj? && p.1.value.Obj?
    requires Has(p.0.value, "$ref") || Has(p.1.value, "$ref")
    requires RefPlan(c, p.0, p.1).Every?
    requires Carries(dl, dr, RefPlan(c, p.0, p.1).pairs[0], v)
    ensures Carries(dl, dr, p, v)
  {
    NoAssertions(dl, p.0.value, v);
    NoAssertions(dr, p.1.value, v);
  }

  // ---------- Combinators ----------

  lemma LeftUnionStep(dl: Document, dr: Document, p: Pair, keyword: string, v: Json)
    requires Guarded(dl) && Guarded(dr)
    requires keyword in {"anyOf", "oneOf"} && HasList(p.0.value, keyword)
    requires forall q :: q in LeftBranchPairs(p.0, p.1, keyword) ==> Carries(dl, dr, q, v)
    ensures Carries(dl, dr, p, v)
  {
    var s := p.0.value;
    if Valid(dl, s, v) {
      assert AnyValid(dl, s, v) && OneValid(dl, s, v);
      var b := Branches(s, keyword);
      var i :| 0 <= i < |b| && Valid(dl, b[i], v);
      assert LeftBranchPairs(p.0, p.1, keyword)[i] in LeftBranchPairs(p.0, p.1, keyword);
    }
  }

  lemma LeftAllStep(dl: Document, dr: Document, p: Pair, i: nat, v: Json)
    requires Guarded(dl) && Guarded(dr)
    requires i < |LeftBranchPairs(p.0, p.1, "allOf")|
    requires Carries(dl, dr, LeftBranchPairs(p.0, p.1, "allOf")[i], v)
    ensures Carries(dl, dr, p, v)
  {
    if Valid(dl, p.0.value, v) {
      assert AllValid(dl, p.0.value, v);
      assert Valid(dl, Branches(p.0.value, "allOf")[i], v);
    }
  }

  lemma RightAllStep(dl: Document, dr: Document, p: Pair, v: Json)
    requires Guarded(dl) && Guarded(dr)
    requires HasList(p.1.value, "allOf") && Keys(p.1.value) <= {"allOf"} + ANNOTATIONS
    requires forall q :: q in RightBranchPairs(p.0, p.1, "allOf") ==> Carries(dl, dr, q, v)
    ensures Carries(dl, dr, p, v)
  {
    var s := p.1.value;
    OnlyAllOf(dr, s, v);
    if Valid(dl, p.0.value, v) {
      var b := Branches(s, "allOf");
      forall i | 0 <= i < |b| ensures Valid(dr, b[i], v) {
        assert RightBranchPairs(p.0, p.1, "allOf")[i] in RightBranchPairs(p.0, p.1, "allOf");
      }
      assert AllValid(dr, s, v);
    }
  }

  lemma OnlyAllOf(d: Document, s: Json, v: Json)
    requires Guarded(d) && s.Obj?
    requires Keys(s) <= {"allOf"} + ANNOTATIONS
    ensures Valid(d, s, v) == AllValid(d, s, v)
  {
    Unused(s, {"allOf"});
    assert !Has(s, "$ref") && !Has(s, "anyOf") && !Has(s, "oneOf") && !Has(s, "items");
    assert !Has(s, "properties") && !Has(s, "additionalProperties");
    NoLocalAssertions(s, v);
  }

  // ---------- Finite left schemas ----------

  lemma FiniteStep(dl: Document, dr: Document, p: Pair, v: Json)
    requires Guarded(dl) && Guarded(dr)
    requires p.0.value.Obj? && FiniteApplies(p.0.value, p.1.value)
    requires CompareFinite(p.0.value, p.1.value, Candidates(p.0.value).value) == Proven
    ensures Carries(dl, dr, p, v)
  {
    ReferenceFreeIsGuarded(p.0.value);
    ReferenceFreeIsGuarded(p.1.value);
    ReferenceFreeMeaning(dl, Document(p.0.value, map[]), p.0.value, v);
    ReferenceFreeMeaning(dr, Document(p.1.value, map[]), p.1.value, v);
    if Valid(dl, p.0.value, v) {
      assert v in Candidates(p.0.value).value;
    }
  }
}
