/** Two cyclic documents that meet the conditions of the soundness theorem and are PROVEN by revisiting a pair. */
module SchemaCycles {
  import opened Ordering
  import opened JsonValues
  import opened SchemaSemantics
  import opened SchemaRelation
  import opened SchemaSteps
  import opened SchemaPlain
  import opened SchemaSoundness
  import opened SchemaConditions
  import opened SchemaCounterexamples

  /** Lists of lists, without end: `{"type": "array", "items": {"$ref": <name>}, "$defs": {<name>: <the same row>}}`. */
  function Nested(name: string): Json {
    Obj(map["type" := Str("array"), "items" := Reference(name), "$defs" := Obj(map[name := Row(name)])])
  }

  function NestedDocument(name: string): Document {
    Document(Nested(name), map[Reference(name) := 1])
  }

  lemma NestedShape(name: string)
    requires '~' !in name && '/' !in name
    ensures IsRow(Nested(name)) && Get(Nested(name), "items") == Reference(name)
    ensures IsRow(Row(name)) && Get(Row(name), "items") == Reference(name)
    ensures Resolve(Nested(name), DefinitionReference(name)) ==
      Some(Occurrence([Field("$defs"), Field(name)], Row(name)))
  {
    var root := Nested(name);
    RowIsRow(name);
    assert Types(root) == Some({"array"});
    assert Get(root, "$defs") == Obj(map[name := Row(name)]);
    ResolveDefinition(root, name, Row(name));
  }

  // ---------- The schema objects in the document ----------

  lemma PartsOfNestedDefinitions(name: string, s: Json)
    requires s in SubValues(Obj(map[name := Row(name)]))
    ensures s == Obj(map[name := Row(name)]) || s == Row(name) || s == Reference(name) || s.Str?
  {
    var definitions := Obj(map[name := Row(name)]);
    if s != definitions {
      var k :| k in definitions.fields && s in SubValues(definitions.fields[k]);
      PartsOfRow(name, s);
    }
  }

  lemma PartsOfNested(name: string, s: Json)
    requires s in SubValues(Nested(name))
    ensures s == Nested(name) || s == Obj(map[name := Row(name)]) || s == Row(name) || s == Reference(name) || s.Str?
  {
    var root := Nested(name);
    if s != root {
      var k :| k in root.fields && s in SubValues(root.fields[k]);
      assert root.fields.Keys == {"type", "items", "$defs"};
      if k == "items" {
        PartsOfReference(name, s);
      } else if k == "$defs" {
        PartsOfNestedDefinitions(name, s);
      }
    }
  }

  // ---------- The conditions ----------

  lemma NestedGuarded(name: string)
    requires '~' !in name && '/' !in name && name != "$ref" && name !in {"allOf", "anyOf", "oneOf"}
    ensures Guarded(NestedDocument(name))
  {
    NestedShape(name);
    RowTame(name);
    NestedTame(name);
    assert Row(name).fields.Keys == {"type", "items"} && Reference(name).fields.Keys == {"$ref"};
    OneReferenceGuarded(Nested(name), name, Row(name));
  }

  lemma NestedTame(name: string)
    requires name != "$ref" && name !in {"allOf", "anyOf", "oneOf"}
    ensures Tame(Nested(name), Reference(name))
  {
    var root, definitions := Nested(name), Obj(map[name := Row(name)]);
    RowTame(name);
    assert definitions.fields.Keys == {name} && root.fields.Keys == {"type", "items", "$defs"};
    forall keyword | keyword in {"allOf", "anyOf", "oneOf"}
      ensures Branches(definitions, keyword) == [] && Branches(root, keyword) == []
    {
    }
    assert Tame(definitions, Reference(name));
    assert Tame(root.fields["type"], Reference(name)) && root.fields["items"] == Reference(name);
  }

  lemma OnlyReference(name: string, s: Json)
    requires s in SubValues(Nested(name)) && Has(s, "$ref") && name != "$ref"
    ensures s == Reference(name)
  {
    PartsOfNested(name, s);
    assert Nested(name).fields.Keys == {"type", "items", "$defs"} && Row(name).fields.Keys == {"type", "items"};
    assert Obj(map[name := Row(name)]).fields.Keys == {name};
  }

  lemma NoSharedReference(m: string, n: string)
    requires m != n && m != "$ref" && n != "$ref"
    ensures SharedRefsAgree(Nested(m), Nested(n))
  {
    DifferentReferences(m, n);
    assert Reference(m) != Reference(n);
    forall s | s in SubValues(Nested(m)) && s in SubValues(Nested(n)) ensures !Has(s, "$ref") {
      if Has(s, "$ref") {
        OnlyReference(m, s);
        OnlyReference(n, s);
      }
    }
  }

  /** Each schema object of the document refers, declares a type, or uses no object or array keyword. */
  lemma NestedHarmless(left: Json, name: string, s: Json)
    requires s in SubValues(Nested(name)) && s.Obj? && '~' !in name && '/' !in name
    requires name !in {"allOf", "properties", "additionalProperties", "required", "items"}
    ensures !Has(s, "allOf") && (Has(s, "$ref") || TypesDeclared(left, s))
  {
    PartsOfNested(name, s);
    NestedShape(name);
    NestedHasNoAllOf(name, s);
    if s == Nested(name) || s == Row(name) {
      RowKeywords(s);
    } else if s == Obj(map[name := Row(name)]) {
      assert Keys(s) == {name};
    }
  }

  lemma NestedHasNoAllOf(name: string, s: Json)
    requires s in SubValues(Nested(name)) && name != "allOf"
    ensures !Has(s, "allOf")
  {
    PartsOfNested(name, s);
    assert Nested(name).fields.Keys == {"type", "items", "$defs"} && Row(name).fields.Keys == {"type", "items"};
    assert Obj(map[name := Row(name)]).fields.Keys == {name} && Reference(name).fields.Keys == {"$ref"};
  }

  lemma NoLeftAllOfPlan(c: Roots, l: Occurrence, r: Occurrence)
    requires !Has(l.value, "allOf")
    ensures !PlanFor(c, l, r).AnyOne?
  {
  }

  lemma NestedPairs(p: Pair)
    requires p in ObjectPairsOf(Roots(Nested("T"), Nested("N")))
    ensures !RightAllOfDecides(p) && (Refers(p) || TypesDeclared(p.0.value, p.1.value))
    ensures !PlanFor(Roots(Nested("T"), Nested("N")), p.0, p.1).AnyOne?
  {
    var c := Roots(Nested("T"), Nested("N"));
    PairParts(c, p);
    NestedHarmless(p.0.value, "N", p.1.value);
    NestedHasNoAllOf("T", p.0.value);
    NoLeftAllOfPlan(c, p.0, p.1);
  }

  lemma NestedFaithful(m: string, n: string)
    ensures EqualityFaithful(Nested(m), Nested(n))
  {
    forall x | x in SubValues(Nested(m)) ensures !x.Bool? { PartsOfNested(m, x); }
    forall x | x in SubValues(Nested(n)) ensures !x.Bool? { PartsOfNested(n, x); }
    FaithfulWithoutBooleans(Nested(m), Nested(n));
  }

  lemma NestedQualifies()
    ensures var c := Roots(Nested("T"), Nested("N"));
      Hypotheses(c, NestedDocument("T"), NestedDocument("N"), ObjectPairsOf(c)) && NoLeftAllOf(c, ObjectPairsOf(c))
  {
    NestedGuarded("T");
    NestedGuarded("N");
    NoSharedReference("T", "N");
    NestedFaithful("T", "N");
    forall p | p in ObjectPairsOf(Roots(Nested("T"), Nested("N")))
      ensures !RightAllOfDecides(p) && (Refers(p) || TypesDeclared(p.0.value, p.1.value))
      ensures !PlanFor(Roots(Nested("T"), Nested("N")), p.0, p.1).AnyOne?
    {
      NestedPairs(p);
    }
    WholeDocumentsQualify(NestedDocument("T"), NestedDocument("N"));
  }

  // ---------- The run ----------

  lemma RevisitIsProven(c: Roots, p: Pair, visited: set<Pair>)
    requires PairInside(c, p) && p in visited && Immediate(p.0.value, p.1.value).None?
    ensures Compare(c, p, visited).relation == Proven
  {
  }

  /** Two rows over the same definitions: the second visit of the definitions ends the run. */
  lemma NestedRun(c: Roots, p: Pair, leaf: Pair, m: string, n: string)
    requires PairInside(c, p) && PairInside(c, leaf) && IsRow(p.0.value) && IsRow(p.1.value) && m != n
    requires IsRow(leaf.0.value) && IsRow(leaf.1.value)
    requires Get(p.0.value, "items") == Reference(m) && Get(p.1.value, "items") == Reference(n)
    requires Get(leaf.0.value, "items") == Reference(m) && Get(leaf.1.value, "items") == Reference(n)
    requires Resolve(c.left, DefinitionReference(m)) == Some(leaf.0)
    requires Resolve(c.right, DefinitionReference(n)) == Some(leaf.1)
    requires |p.0.path| == 0 && |leaf.0.path| == 2
    ensures Compare(c, p, {}).relation == Proven
  {
    var items, inner := (ItemSchema(p.0), ItemSchema(p.1)), (ItemSchema(leaf.0), ItemSchema(leaf.1));
    var first := {} + {p} + {items};
    assert |items.0.path| == 1 && |inner.0.path| == 3;
    RowRun(c, p.0, p.1, m, n, leaf, {});
    RowRun(c, leaf.0, leaf.1, m, n, leaf, first);
    RowsUndecided(leaf.0.value, leaf.1.value, m, n);
    RevisitIsProven(c, leaf, first + {leaf} + {inner});
  }

  lemma NestedProven()
    ensures CompareSubset(Nested("T"), Nested("N")) == Proven
  {
    var c := Roots(Nested("T"), Nested("N"));
    NestedShape("T");
    NestedShape("N");
    var leaf := (Resolve(c.left, DefinitionReference("T")).value, Resolve(c.right, DefinitionReference("N")).value);
    ResolveIsSubValue(c.left, DefinitionReference("T"));
    ResolveIsSubValue(c.right, DefinitionReference("N"));
    NestedRun(c, RootPair(c), leaf, "T", "N");
  }

  /** The soundness theorem applies to documents whose references run in circles. */
  lemma CyclicDocumentsAreCovered(v: Json)
    ensures CompareSubset(Nested("T"), Nested("N")) == Proven
    ensures Guarded(NestedDocument("T")) && Guarded(NestedDocument("N"))
    ensures Valid(NestedDocument("T"), Nested("T"), v) ==> Valid(NestedDocument("N"), Nested("N"), v)
    ensures exists reach ::
      && Hypotheses(Roots(Nested("T"), Nested("N")), NestedDocument("T"), NestedDocument("N"), reach)
      && NoLeftAllOf(Roots(Nested("T"), Nested("N")), reach)
  {
    var c := Roots(Nested("T"), Nested("N"));
    NestedProven();
    NestedQualifies();
    CyclicSoundness(c, NestedDocument("T"), NestedDocument("N"), ObjectPairsOf(c), v);
  }
}
