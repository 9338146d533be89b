/** The keyword-by-keyword step: types, bounds, sizes, constants, object and array keywords. */
module SchemaPlain {
  import opened Ordering
  import opened JsonValues
  import opened SchemaSemantics
  import opened SchemaRelation
  import opened SchemaSteps

  predicate BoundOk(s: Json, lower: bool, x: real) {
    if lower then LowerOk(s, x) else UpperOk(s, x)
  }

  /** The numeric comparison is exact: proven just when one half-line contains the other. */
  lemma NumericBoundExact(left: Json, right: Json, lower: bool)
    ensures CompareNumericBound(left, right, lower) == Proven
       <==> forall x: real :: BoundOk(left, lower, x) ==> BoundOk(right, lower, x)
  {
    if CompareNumericBound(left, right, lower) != Proven {
      var rb := NumericBound(right, lower).value;
      var x := match NumericBound(left, lower)
        case None => if lower then rb.value - 1.0 else rb.value + 1.0
        case Some(lb) =>
          if lb.value == rb.value then rb.value
          else (lb.value + rb.value) / 2.0;
      assert BoundOk(left, lower, x) && !BoundOk(right, lower, x);
    }
  }

  lemma TypesSound(left: Json, right: Json, v: Json)
    requires CompareTypes(left, right) == Proven && TypeOk(left, v)
    ensures TypeOk(right, v)
  {
    if Types(right).Some? {
      var t :| t in Types(left).value && TypeHolds(t, v);
      if t !in Types(right).value {
        assert TypeHolds("number", v);
      }
    }
  }

  /** Python's `==` confuses no `const`, and no two `enum` values, of the two schemas. */
  predicate ListedFaithfully(left: Json, right: Json) {
    && (Has(left, "const") && Has(right, "const") && PyEqual(Get(left, "const"), Get(right, "const")) ==>
      Get(left, "const") == Get(right, "const"))
    && (forall x, y :: x in Branches(left, "enum") && y in Branches(right, "enum") && PyEqual(x, y) ==> x == y)
  }

  lemma ValuesSound(left: Json, right: Json, v: Json)
    requires ListedFaithfully(left, right)
    requires CompareConst(left, right) == Proven && CompareEnum(left, right) == Proven
    requires ValueOk(left, v)
    ensures ValueOk(right, v)
  {
    if HasList(right, "enum") {
      assert PyMember(v, Get(right, "enum").items);
      var i :| 0 <= i < |Branches(right, "enum")| && PyEqual(v, Branches(right, "enum")[i]);
      assert v in Branches(left, "enum") && Branches(right, "enum")[i] in Branches(right, "enum");
    }
  }

  lemma AssertionsSound(left: Json, right: Json, v: Json)
    requires ListedFaithfully(left, right)
    requires AllProven(LocalReports(left, right))
    requires v.Obj? ==> RequiredNames(right) <= v.fields.Keys
    requires AssertionsHold(left, v)
    ensures AssertionsHold(right, v)
  {
    var reports := LocalReports(left, right);
    assert reports[0] == reports[1] == reports[2] == Proven;
    assert reports[3] == reports[4] == reports[5] == reports[6] == Proven;
    assert reports[7] == reports[8] == Proven;
    TypesSound(left, right, v);
    ValuesSound(left, right, v);
    NumericBoundExact(left, right, true);
    NumericBoundExact(left, right, false);
    if v.Num? {
      assert BoundOk(left, true, v.n) && BoundOk(left, false, v.n);
    }
  }

  // ---------- Object and array keywords ----------

  /** Object or array keywords on the right are compared only when some side declares `type`. */
  predicate TypesDeclared(left: Json, right: Json) {
    || Types(left).Some?
    || Types(right).Some?
    || Keys(right) * {"properties", "additionalProperties", "required", "items"} == {}
  }

  /** Where objects are not compared, no object passes the left types. */
  lemma UncomparedKind(left: Json, right: Json, v: Json)
    requires CompareTypes(left, right) == Proven && TypeOk(left, v)
    requires TypesDeclared(left, right)
    ensures v.Obj? && !ComparesObjects(left, right)
        ==> !Has(right, "properties") && !Has(right, "additionalProperties") && !Has(right, "required")
    ensures v.Arr? && !ComparesArrays(left, right) ==> !Has(right, "items")
  {
    if Keys(right) * {"properties", "additionalProperties", "required", "items"} == {} {
      var compared := {"properties", "additionalProperties", "required", "items"};
      assert forall k :: k in compared && k in Keys(right) ==> k in Keys(right) * compared;
      assert "properties" in compared && "additionalProperties" in compared;
      assert "required" in compared && "items" in compared;
    } else {
      assert Types(left).Some?;
      var t :| t in Types(left).value && TypeHolds(t, v);
    }
  }

  ghost predicate CarriesAll(dl: Document, dr: Document, pairs: seq<Pair>, v: Json)
    requires Guarded(dl) && Guarded(dr)
  {
    forall p :: p in pairs ==> Carries(dl, dr, p, v)
  }

  /** The left schema's word on one field of an object it accepts. */
  lemma LeftFieldValid(d: Document, o: Occurrence, v: Json, name: string)
    requires Guarded(d) && v.Obj? && name in v.fields
    requires o.value.Obj? && Valid(d, o.value, v)
    ensures Valid(d, SchemaForName(o, name).value, v.fields[name])
  {
    assert FieldsValid(d, o.value, v);
  }

  lemma FieldStep(dl: Document, dr: Document, p: Pair, v: Json, name: string)
    requires Guarded(dl) && Guarded(dr) && v.Obj? && name in v.fields
    requires p.0.value.Obj? && p.1.value.Obj? && Valid(dl, p.0.value, v)
    requires AllProven(ObjectReports(p.0, p.1))
    requires CarriesAll(dl, dr, ObjectPairs(p.0, p.1), v.fields[name])
    ensures Valid(dr, SchemaForName(p.1, name).value, v.fields[name])
  {
    var (l, r) := p;
    LeftFieldValid(dl, l, v, name);
    if name in Properties(r.value) {
      SharedPairListed(l, r, name);
    } else if AdditionalSchema(r).value == Bool(false) {
      assert name in LeftOnlyNames(l, r) <==> name in Properties(l.value);
      ClosedReports(l, r);
    } else if AdditionalSchema(r).value.Obj? {
      if name in Properties(l.value) {
        LeftOnlyPairListed(l, r, name);
      } else {
        assert (AdditionalSchema(l), AdditionalSchema(r)) in ObjectPairs(l, r);
      }
    }
  }

  lemma SharedPairListed(l: Occurrence, r: Occurrence, name: string)
    requires name in SharedNames(l, r)
    ensures exists i ::
      0 <= i < |SharedPairs(l, r)|
      && Sorted(SharedNames(l, r))[i] == name && SharedPairs(l, r)[i] in ObjectPairs(l, r)
  {
    var names := Sorted(SharedNames(l, r));
    var i :| 0 <= i < |names| && names[i] == name;
    assert SharedPairs(l, r)[i] in ObjectPairs(l, r);
  }

  lemma LeftOnlyPairListed(l: Occurrence, r: Occurrence, name: string)
    requires name in LeftOnlyNames(l, r) && AdditionalSchema(r).value.Obj?
    ensures exists i ::
      0 <= i < |LeftOnlyPairs(l, r)|
      && Sorted(LeftOnlyNames(l, r))[i] == name && LeftOnlyPairs(l, r)[i] in ObjectPairs(l, r)
  {
    var names := Sorted(LeftOnlyNames(l, r));
    var i :| 0 <= i < |names| && names[i] == name;
    assert LeftOnlyPairs(l, r)[i] in ObjectPairs(l, r);
  }

  lemma OneFailure()
    ensures !AllProven([Conflict]) && !AllProven([Unknown])
  {
    assert [Conflict][0] == Conflict && [Unknown][0] == Unknown;
  }

  lemma ClosedReports(l: Occurrence, r: Occurrence)
    requires AdditionalSchema(r).value == Bool(false)
    requires AllProven(ObjectReports(l, r))
    ensures LeftOnlyNames(l, r) == {} && AdditionalSchema(l).value == Bool(false)
  {
    var required := [CompareRequired(l.value, r.value)];
    var names := if LeftOnlyNames(l, r) != {} then [Conflict] else [];
    var additional := if AdditionalSchema(l).value != Bool(false) then [Conflict] else [];
    assert ObjectReports(l, r) == required + names + additional;
    AllProvenSplit(required + names, additional);
    AllProvenSplit(required, names);
    OneFailure();
  }

  lemma ItemStep(dl: Document, dr: Document, p: Pair, v: Json, i: nat)
    requires Guarded(dl) && Guarded(dr) && v.Arr? && i < |v.items|
    requires p.0.value.Obj? && p.1.value.Obj? && Valid(dl, p.0.value, v)
    requires Carries(dl, dr, (ItemSchema(p.0), ItemSchema(p.1)), v.items[i])
    ensures Valid(dr, ItemSchema(p.1).value, v.items[i])
  {
    assert ItemsValid(dl, p.0.value, v);
  }

  /** No reference and no combinator: only assertions, fields and items are left. */
  lemma PlainMeaning(d: Document, o: Occurrence, v: Json)
    requires Guarded(d) && o.value.Obj?
    requires !Has(o.value, "$ref") && !HasList(o.value, "allOf") && !Has(o.value, "anyOf") && !Has(o.value, "oneOf")
    requires AssertionsHold(o.value, v)
    requires v.Obj? ==> forall name :: name in v.fields ==> Valid(d, SchemaForName(o, name).value, v.fields[name])
    requires v.Arr? ==> forall i :: 0 <= i < |v.items| ==> Valid(d, ItemSchema(o).value, v.items[i])
    ensures Valid(d, o.value, v)
  {
    var s := o.value;
    assert RefValid(d, s, v) && AllValid(d, s, v) && AnyValid(d, s, v) && OneValid(d, s, v);
    if v.Obj? {
      forall name | name in v.fields
        ensures if name in Properties(s) then Valid(d, Properties(s)[name], v.fields[name])
                else Has(s, "additionalProperties") ==> Valid(d, Get(s, "additionalProperties"), v.fields[name])
      {
        assert Valid(d, SchemaForName(o, name).value, v.fields[name]);
      }
    }
    assert FieldsValid(d, s, v);
    if v.Arr? && Has(s, "items") {
      forall i | 0 <= i < |v.items| ensures Valid(d, Get(s, "items"), v.items[i]) {
        assert Valid(d, ItemSchema(o).value, v.items[i]);
      }
    }
    assert ItemsValid(d, s, v);
  }

  /** Where the object keywords are not compared, the right schema accepts every field. */
  lemma OpenField(d: Document, o: Occurrence, name: string, w: Json)
    requires Guarded(d)
    requires !Has(o.value, "properties") && !Has(o.value, "additionalProperties")
    ensures Valid(d, SchemaForName(o, name).value, w)
  {
  }

  lemma RequiredSound(l: Occurrence, r: Occurrence, v: Json)
    requires v.Obj? && AssertionsHold(l.value, v)
    requires CompareRequired(l.value, r.value) == Proven
    ensures RequiredNames(r.value) <= v.fields.Keys
  {
  }

  lemma FieldsPart(dl: Document, dr: Document, p: Pair, v: Json)
    requires Guarded(dl) && Guarded(dr) && v.Obj?
    requires p.0.value.Obj? && p.1.value.Obj? && Valid(dl, p.0.value, v)
    requires CompareTypes(p.0.value, p.1.value) == Proven && TypesDeclared(p.0.value, p.1.value)
    requires ComparesObjects(p.0.value, p.1.value) ==>
      && AllProven(ObjectReports(p.0, p.1))
      && forall name :: name in v.fields ==> CarriesAll(dl, dr, ObjectPairs(p.0, p.1), v.fields[name])
    ensures RequiredNames(p.1.value) <= v.fields.Keys
    ensures forall name :: name in v.fields ==> Valid(dr, SchemaForName(p.1, name).value, v.fields[name])
  {
    if ComparesObjects(p.0.value, p.1.value) {
      assert ObjectReports(p.0, p.1)[0] == CompareRequired(p.0.value, p.1.value);
      RequiredSound(p.0, p.1, v);
      forall name | name in v.fields ensures Valid(dr, SchemaForName(p.1, name).value, v.fields[name]) {
        FieldStep(dl, dr, p, v, name);
      }
    } else {
      UncomparedKind(p.0.value, p.1.value, v);
      forall name | name in v.fields ensures Valid(dr, SchemaForName(p.1, name).value, v.fields[name]) {
        OpenField(dr, p.1, name, v.fields[name]);
      }
    }
  }

  lemma ItemsPart(dl: Document, dr: Document, p: Pair, v: Json)
    requires Guarded(dl) && Guarded(dr) && v.Arr?
    requires p.0.value.Obj? && p.1.value.Obj? && Valid(dl, p.0.value, v)
    requires CompareTypes(p.0.value, p.1.value) == Proven && TypesDeclared(p.0.value, p.1.value)
    requires ComparesArrays(p.0.value, p.1.value) ==>
      forall i :: 0 <= i < |v.items| ==> Carries(dl, dr, (ItemSchema(p.0), ItemSchema(p.1)), v.items[i])
    ensures forall i :: 0 <= i < |v.items| ==> Valid(dr, ItemSchema(p.1).value, v.items[i])
  {
    forall i | 0 <= i < |v.items| ensures Valid(dr, ItemSchema(p.1).value, v.items[i]) {
      if ComparesArrays(p.0.value, p.1.value) {
        ItemStep(dl, dr, p, v, i);
      } else {
        UncomparedKind(p.0.value, p.1.value, v);
      }
    }
  }

  lemma PlainPairsParts(l: Occurrence, r: Occurrence)
    ensures ComparesObjects(l.value, r.value) && ReadableObjects(l.value, r.value) ==>
      forall q :: q in ObjectPairs(l, r) ==> q in PlainPairs(l, r)
    ensures ComparesArrays(l.value, r.value) ==> (ItemSchema(l), ItemSchema(r)) in PlainPairs(l, r)
  {
  }

  /** `_compare` without combinators: all reports proven and all pairs carried imply the pair is carried. */
  lemma PlainStep(dl: Document, dr: Document, p: Pair, v: Json)
    requires Guarded(dl) && Guarded(dr)
    requires p.0.value.Obj? && p.1.value.Obj?
    requires ListedFaithfully(p.0.value, p.1.value)
    requires !Has(p.1.value, "$ref") && CombinationPlan(p.0, p.1).None?
    requires TypesDeclared(p.0.value, p.1.value)
    requires AllProven(PlainReports(p.0, p.1))
    requires v.Obj? ==> forall name :: name in v.fields ==> CarriesAll(dl, dr, PlainPairs(p.0, p.1), v.fields[name])
    requires v.Arr? ==> forall i :: 0 <= i < |v.items| ==> CarriesAll(dl, dr, PlainPairs(p.0, p.1), v.items[i])
    ensures Carries(dl, dr, p, v)
  {
    if Valid(dl, p.0.value, v) {
      PlainParts(dl, dr, p, v);
      NoCombination(p.0, p.1);
      PlainMeaning(dr, p.1, v);
    }
  }

  lemma NoCombination(l: Occurrence, r: Occurrence)
    requires CombinationPlan(l, r).None?
    ensures !HasList(r.value, "allOf") && !Has(r.value, "anyOf") && !Has(r.value, "oneOf")
  {
  }

  lemma PlainParts(dl: Document, dr: Document, p: Pair, v: Json)
    requires Guarded(dl) && Guarded(dr)
    requires p.0.value.Obj? && p.1.value.Obj? && Valid(dl, p.0.value, v)
    requires ListedFaithfully(p.0.value, p.1.value)
    requires TypesDeclared(p.0.value, p.1.value)
    requires AllProven(PlainReports(p.0, p.1))
    requires v.Obj? ==> forall name :: name in v.fields ==> CarriesAll(dl, dr, PlainPairs(p.0, p.1), v.fields[name])
    requires v.Arr? ==> forall i :: 0 <= i < |v.items| ==> CarriesAll(dl, dr, PlainPairs(p.0, p.1), v.items[i])
    ensures v.Obj? ==> forall name :: name in v.fields ==> Valid(dr, SchemaForName(p.1, name).value, v.fields[name])
    ensures v.Arr? ==> forall i :: 0 <= i < |v.items| ==> Valid(dr, ItemSchema(p.1).value, v.items[i])
    ensures AssertionsHold(p.1.value, v)
  {
    var (l, r) := p;
    PlainReportsSplit(l, r);
    TypesReport(l.value, r.value);
    PlainPairsParts(l, r);
    if v.Obj? { FieldsPart(dl, dr, p, v); }
    if v.Arr? { ItemsPart(dl, dr, p, v); }
    AssertionsSound(l.value, r.value, v);
  }

  lemma TypesReport(left: Json, right: Json)
    requires AllProven(LocalReports(left, right))
    ensures CompareTypes(left, right) == Proven
  {
    assert LocalReports(left, right)[0] == CompareTypes(left, right);
  }

  lemma PlainReportsSplit(l: Occurrence, r: Occurrence)
    requires AllProven(PlainReports(l, r))
    ensures AllProven(LocalReports(l.value, r.value))
    ensures ComparesObjects(l.value, r.value) ==> ReadableObjects(l.value, r.value) && AllProven(ObjectReports(l, r))
  {
    var objects :=
      if !ComparesObjects(l.value, r.value) then []
      else if ReadableObjects(l.value, r.value) then ObjectReports(l, r) else [Unknown];
    AllProvenSplit(LocalReports(l.value, r.value), objects);
    OneFailure();
  }
}
