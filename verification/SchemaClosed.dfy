/** Closed records with a bound: two documents of everyday shape that meet the conditions of the soundness theorem. */
module SchemaClosed {
  import opened Ordering
  import opened JsonValues
  import opened SchemaSemantics
  import opened SchemaRelation
  import opened SchemaPlain
  import opened SchemaSoundness
  import opened SchemaConditions

  function Bounded(least: real): Json {
    Obj(map["type" := Str("integer"), "minimum" := Num(least)])
  }

  function Listing(least: real): Json {
    Obj(map["n" := Bounded(least)])
  }

  /** An object with one bounded member and no others: `false` for names, a number for the bound. */
  function ClosedRecord(least: real): Json {
    Obj(map["type" := Str("object"), "properties" := Listing(least), "additionalProperties" := Bool(false)])
  }

  lemma FlatParts(flat: Json, s: Json)
    requires flat.Obj? && forall k :: k in flat.fields ==> !flat.fields[k].Obj? && !flat.fields[k].Arr?
    requires s in SubValues(flat) && s.Obj?
    ensures s == flat
  {
  }

  lemma PartsOfRecord(least: real, s: Json)
    requires s in SubValues(ClosedRecord(least)) && s.Obj?
    ensures s == ClosedRecord(least) || s == Listing(least) || s == Bounded(least)
  {
    var record, listing, bounded := ClosedRecord(least), Listing(least), Bounded(least);
    if s != record {
      var k :| k in record.fields && s in SubValues(record.fields[k]);
      assert k == "properties" && s in SubValues(listing);
      if s != listing {
        var n :| n in listing.fields && s in SubValues(listing.fields[n]);
        assert n == "n" && s in SubValues(bounded);
        FlatParts(bounded, s);
      }
    }
  }

  lemma RecordsUnmixed(a: real, b: real)
    ensures Unmixed(Bounded(a), Bounded(b)) && Unmixed(Listing(a), Listing(b))
    ensures Unmixed(ClosedRecord(a), ClosedRecord(b))
    ensures Unmixed(Bounded(a), ClosedRecord(b)) && Unmixed(ClosedRecord(a), Bounded(b))
    ensures Unmixed(Listing(a), Bounded(b)) && Unmixed(Bounded(a), Listing(b))
    ensures Unmixed(Listing(a), ClosedRecord(b)) && Unmixed(ClosedRecord(a), Listing(b))
  {
    assert Unmixed(Bounded(a), Bounded(b));
    assert Unmixed(Listing(a), Listing(b));
  }

  lemma RecordsFaithful(a: real, b: real)
    ensures EqualityFaithful(ClosedRecord(a), ClosedRecord(b))
  {
    forall x, y | x in SubValues(ClosedRecord(a)) && y in SubValues(ClosedRecord(b)) && x.Obj? && y.Obj?
      ensures Unmixed(x, y)
    {
      PartsOfRecord(a, x);
      PartsOfRecord(b, y);
      RecordsUnmixed(a, b);
    }
    FaithfulWhenUnmixed(ClosedRecord(a), ClosedRecord(b));
  }

  lemma RecordGuarded(least: real)
    ensures !ContainsReference(ClosedRecord(least)) && Guarded(Document(ClosedRecord(least), map[]))
  {
    assert !ContainsReference(Bounded(least));
    assert !ContainsReference(Listing(least));
    ReferenceFreeIsGuarded(ClosedRecord(least));
  }

  lemma PartHarmless(l: Occurrence, r: Occurrence, least: real)
    requires r.value in SubValues(ClosedRecord(least)) && r.value.Obj?
    ensures !RightAllOfDecides((l, r)) && TypesDeclared(l.value, r.value)
  {
    PartsOfRecord(least, r.value);
    assert Types(ClosedRecord(least)) == Some({"object"});
  }

  /** Whatever the bounds are, zero included, the conditions hold of two closed records. */
  lemma ClosedRecordsAreCovered(a: real, b: real)
    ensures var dl, dr := Document(ClosedRecord(a), map[]), Document(ClosedRecord(b), map[]);
      var c := Roots(dl.root, dr.root);
      Hypotheses(c, dl, dr, ObjectPairsOf(c)) && NoForgivenRevisit(c, ObjectPairsOf(c))
  {
    var dl, dr := Document(ClosedRecord(a), map[]), Document(ClosedRecord(b), map[]);
    var c := Roots(dl.root, dr.root);
    RecordGuarded(a);
    RecordGuarded(b);
    RecordsFaithful(a, b);
    ReachExists(c);
    ReferenceFreeAgree(c, dl, dr, ObjectPairsOf(c));
    forall s | s in SubValues(dl.root) && s in SubValues(dr.root) ensures !Has(s, "$ref") {
      ReferenceFreeParts(dl.root, s);
    }
    forall p | p in ObjectPairsOf(c) ensures !RightAllOfDecides(p) && TypesDeclared(p.0.value, p.1.value) {
      PairParts(c, p);
      PartHarmless(p.0, p.1, b);
    }
    assert AllHarmless(c);
    WholeDocumentsQualify(dl, dr);
  }
}
