/** When whole documents meet the conditions of the soundness theorems. */
module SchemaConditions {
  import opened JsonValues
  import opened SchemaSemantics
  import opened SchemaRelation
  import opened SchemaSteps
  import opened SchemaPlain
  import opened SchemaSoundness

  // ---------- Where the conditions range ----------

  function ObjectPairsOf(c: Roots): set<Pair> {
    set p | p in AllPairs(c) && p.0.value.Obj? && p.1.value.Obj?
  }

  /** A set of pairs closed under plans always exists: all pairs of schema objects. */
  lemma ReachExists(c: Roots)
    ensures Explored(c, ObjectPairsOf(c))
  {
    var reach := ObjectPairsOf(c);
    forall p | p in reach
      ensures forall q :: q in PlanPairs(PlanFor(c, p.0, p.1)) ==> Reached(reach, q)
    {
      PlanStaysInside(c, p.0, p.1);
    }
  }

  lemma ArrivalsStandInside(c: Roots, reach: set<Pair>, q: Pair)
    requires Explored(c, reach) && Arrives(c, reach, q)
    ensures q.0.value.Obj? ==> q.0.value in SubValues(c.left)
    ensures q.1.value.Obj? ==> q.1.value in SubValues(c.right)
  {
    if q == RootPair(c) {
    } else {
      var p :| p in reach && q in PlanPairs(PlanFor(c, p.0, p.1));
      PlanStaysInside(c, p.0, p.1);
      if q.0.value.Obj? { OccurrenceIsSubValue(Occurrence([], c.left), q.0); }
      if q.1.value.Obj? { OccurrenceIsSubValue(Occurrence([], c.right), q.1); }
    }
  }

  /** Two whole documents agree on references when a schema standing in both refers to the same schemas. */
  lemma WholeDocumentsAgree(dl: Document, dr: Document, reach: set<Pair>)
    requires SharedRefsAgree(dl.root, dr.root) && Explored(Roots(dl.root, dr.root), reach)
    ensures ReferencesAgree(Roots(dl.root, dr.root), dl, dr, reach)
  {
    var c := Roots(dl.root, dr.root);
    forall q | Arrives(c, reach, q) && q.0.value.Obj? && q.0.value == q.1.value ensures MeansAlike(dl, dr, q.0.value) {
      ArrivalsStandInside(c, reach, q);
      SharedMeansAlike(dl, dr, q.0.value);
    }
  }

  /** Python's `==` confuses no two schema objects, and no listed values, of the two schemas. */
  ghost predicate EqualityFaithful(left: Json, right: Json) {
    forall a, b :: a in SubValues(left) && b in SubValues(right) && a.Obj? && b.Obj? ==>
      (PyEqual(a, b) ==> a == b) && ListedFaithfully(a, b)
  }

  lemma FaithfulDocuments(c: Roots, reach: set<Pair>)
    requires EqualityFaithful(c.left, c.right) && Explored(c, reach)
    ensures EqualityIsFaithful(c, reach)
  {
    forall p | p in reach
      ensures ShortcutsFaithful(PlanPairs(PlanFor(c, p.0, p.1))) && ListedFaithfully(p.0.value, p.1.value)
    {
      OccurrenceIsSubValue(Occurrence([], c.left), p.0);
      OccurrenceIsSubValue(Occurrence([], c.right), p.1);
      forall q | q in PlanPairs(PlanFor(c, p.0, p.1)) && ShortcutApplies(q.0.value, q.1.value)
        ensures q.0.value == q.1.value
      {
        ArrivalsStandInside(c, reach, q);
      }
    }
  }

  /** Schemas without references agree, wherever they are cut out. */
  lemma ReferenceFreeAgree(c: Roots, dl: Document, dr: Document, reach: set<Pair>)
    requires !ContainsReference(c.left) && !ContainsReference(c.right) && Explored(c, reach)
    ensures ReferencesAgree(c, dl, dr, reach) && NothingResolves(c.left) && NothingResolves(c.right)
  {
    forall s | s in SubValues(c.left) ensures !Has(s, "$ref") { ReferenceFreeParts(c.left, s); }
    forall s | s in SubValues(c.right) ensures !Has(s, "$ref") { ReferenceFreeParts(c.right, s); }
    forall q | Arrives(c, reach, q) && q.0.value.Obj? && q.0.value == q.1.value ensures MeansAlike(dl, dr, q.0.value) {
      ArrivalsStandInside(c, reach, q);
      ReferenceFreeParts(c.left, q.0.value);
      ReferenceFreeMeansAlike(dl, dr, q.0.value);
    }
  }

  /** Nowhere under the same names does one value hold a Boolean and the other a number. */
  predicate Unmixed(x: Json, y: Json) {
    && !(x.Bool? && y.Num?) && !(x.Num? && y.Bool?)
    && (x.Arr? && y.Arr? ==> forall p, q | p in x.items && q in y.items :: Unmixed(p, q))
    && (x.Obj? && y.Obj? ==> forall k | k in x.fields && k in y.fields :: Unmixed(x.fields[k], y.fields[k]))
  }

  /** Unmixed values that are equal for Python are equal. */
  lemma {:induction false} UnmixedEquals(x: Json, y: Json)
    requires Unmixed(x, y) && PyEqual(x, y)
    ensures x == y
  {
    match x
    case Arr(items) =>
      forall i | 0 <= i < |items| ensures items[i] == y.items[i] {
        assert Normal(x).items[i] == Normal(y).items[i];
        UnmixedEquals(items[i], y.items[i]);
      }
      assert items == y.items;
    case Obj(fields) =>
      assert fields.Keys == Normal(x).fields.Keys == y.fields.Keys;
      forall k | k in fields ensures fields[k] == y.fields[k] {
        assert Normal(x).fields[k] == Normal(y).fields[k];
        UnmixedEquals(fields[k], y.fields[k]);
      }
      assert fields == y.fields;
    case _ =>
  }

  /** Closed schemas and bounds included: `additionalProperties: false` never stands where `minimum: 0` does. */
  lemma FaithfulWhenUnmixed(left: Json, right: Json)
    requires forall a, b :: a in SubValues(left) && b in SubValues(right) && a.Obj? && b.Obj? ==> Unmixed(a, b)
    ensures EqualityFaithful(left, right)
  {
    forall a, b | a in SubValues(left) && b in SubValues(right) && a.Obj? && b.Obj?
      ensures (PyEqual(a, b) ==> a == b) && ListedFaithfully(a, b)
    {
      if PyEqual(a, b) { UnmixedEquals(a, b); }
      UnmixedLists(a, b);
    }
  }

  lemma UnmixedLists(a: Json, b: Json)
    requires a.Obj? && b.Obj? && Unmixed(a, b)
    ensures ListedFaithfully(a, b)
  {
    if Has(a, "const") && Has(b, "const") && PyEqual(Get(a, "const"), Get(b, "const")) {
      UnmixedEquals(Get(a, "const"), Get(b, "const"));
    }
    forall x, y | x in Branches(a, "enum") && y in Branches(b, "enum") && PyEqual(x, y) ensures x == y {
      assert Unmixed(a.fields["enum"], b.fields["enum"]);
      UnmixedEquals(x, y);
    }
  }

  lemma {:induction false} UnmixedWithoutBooleans(x: Json, y: Json)
    requires forall b: Json :: b in SubValues(x) || b in SubValues(y) ==> !b.Bool?
    ensures Unmixed(x, y)
  {
    assert x in SubValues(x) && y in SubValues(y);
    if x.Arr? && y.Arr? {
      forall p, q | p in x.items && q in y.items ensures Unmixed(p, q) {
        assert SubValues(p) <= SubValues(x) && SubValues(q) <= SubValues(y);
        UnmixedWithoutBooleans(p, q);
      }
    } else if x.Obj? && y.Obj? {
      forall k | k in x.fields && k in y.fields ensures Unmixed(x.fields[k], y.fields[k]) {
        assert SubValues(x.fields[k]) <= SubValues(x) && SubValues(y.fields[k]) <= SubValues(y);
        UnmixedWithoutBooleans(x.fields[k], y.fields[k]);
      }
    }
  }

  lemma FaithfulWithoutBooleans(left: Json, right: Json)
    requires forall x :: x in SubValues(left) || x in SubValues(right) ==> !x.Bool?
    ensures EqualityFaithful(left, right)
  {
    forall a, b | a in SubValues(left) && b in SubValues(right) ensures Unmixed(a, b) {
      SubValuesTransitive(left, a);
      SubValuesTransitive(right, b);
      UnmixedWithoutBooleans(a, b);
    }
    FaithfulWhenUnmixed(left, right);
  }

  lemma PairParts(c: Roots, p: Pair)
    requires p in ObjectPairsOf(c)
    ensures p.0.value in SubValues(c.left) && p.1.value in SubValues(c.right) && p.0.value.Obj? && p.1.value.Obj?
  {
    OccurrenceIsSubValue(Occurrence([], c.left), p.0);
    OccurrenceIsSubValue(Occurrence([], c.right), p.1);
  }

  /** Every pair of the documents' schema objects can be compared without a second thought. */
  ghost predicate AllHarmless(c: Roots) {
    forall p :: p in ObjectPairsOf(c) ==> !RightAllOfDecides(p) && (Refers(p) || TypesDeclared(p.0.value, p.1.value))
  }

  /** Whole documents meet the conditions when their pairs are harmless and equal texts mean the same. */
  lemma WholeDocumentsQualify(dl: Document, dr: Document)
    requires Guarded(dl) && Guarded(dr) && SharedRefsAgree(dl.root, dr.root) && EqualityFaithful(dl.root, dr.root)
    requires AllHarmless(Roots(dl.root, dr.root))
    ensures Hypotheses(Roots(dl.root, dr.root), dl, dr, ObjectPairsOf(Roots(dl.root, dr.root)))
  {
    var c := Roots(dl.root, dr.root);
    ReachExists(c);
    WholeDocumentsAgree(dl, dr, ObjectPairsOf(c));
    FaithfulDocuments(c, ObjectPairsOf(c));
  }
}
