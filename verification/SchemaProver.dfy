/** The comparator as the source runs it: loops over one shared, growing `visited` set. */
module SchemaProver {
  import opened Ordering
  import opened JsonPointer
  import opened JsonValues
  import opened SchemaSemantics
  import opened SchemaRelation

  /** `_combine`, the update loop. */
  method CombineReports(reports: seq<Relation>) returns (relation: Relation)
    ensures relation == Combine(reports)
  {
    relation := Proven;
    for i := 0 to |reports|
      invariant relation == Combine(reports[..i])
    {
      assert reports[..i + 1] == reports[..i] + [reports[i]];
      CombineSnoc(reports[..i], reports[i]);
      if reports[i] == Conflict {
        relation := Conflict;
      } else if reports[i] == Unknown && relation == Proven {
        relation := Unknown;
      }
    }
    assert reports[..|reports|] == reports;
  }

  lemma CombineSnoc(reports: seq<Relation>, last: Relation)
    ensures Combine(reports + [last]) ==
      if last == Conflict then Conflict
      else if last == Unknown && Combine(reports) == Proven then Unknown else Combine(reports)
  {
    assert forall r :: r in reports + [last] <==> r in reports || r == last;
    AllProvenSplit(reports, [last]);
    assert AllProven([last]) <==> last == Proven by { assert [last][0] == last; }
  }

  /** `_resolve_local_ref`. */
  method ResolveLocalRef(root: Json, reference: Json) returns (result: Option<Occurrence>)
    ensures result == ResolveValue(root, reference)
  {
    if !reference.Str? || !StartsWith(reference.s, "#/") {
      return None;
    }
    var tokens := Tokens(reference.s[2..]);
    var current := Occurrence([], root);
    var i := 0;
    while i < |tokens|
      invariant 0 <= i <= |tokens|
      invariant Walk(Occurrence([], root), tokens) == Walk(current, tokens[i..])
    {
      if !Has(current.value, tokens[i]) {
        return None;
      }
      assert tokens[i..][1..] == tokens[i + 1..];
      current := Descend(current, Field(tokens[i]));
      i := i + 1;
    }
    result := if current.value.Null? then None else Some(current);
  }

  // ---------- Lists of comparisons ----------

  /** Lists of reports that combine alike. */
  predicate SameVerdict(a: seq<Relation>, b: seq<Relation>) {
    (Conflict in a <==> Conflict in b) && (Unknown in a <==> Unknown in b)
  }

  /** The pairs were compared in order, starting from the set `start`. */
  ghost predicate Compared(
    c: Roots, pairs: seq<Pair>, start: set<Pair>, reports: seq<Relation>, visited: set<Pair>)
  {
    && (forall p :: p in pairs ==> PairInside(c, p))
    && Outcomes(reports, visited) == CompareEach(c, pairs, start)
  }

  lemma OneMorePair(pairs: seq<Pair>, i: nat)
    requires i < |pairs|
    ensures pairs[..i + 1] == pairs[..i] + [pairs[i]] && pairs[i] in pairs
  {
  }

  lemma CompareEachFirst(c: Roots, pairs: seq<Pair>, q: Pair, tail: seq<Pair>, visited: set<Pair>)
    requires pairs == [q] + tail && forall p :: p in pairs ==> PairInside(c, p)
    ensures PairInside(c, q) && forall p :: p in tail ==> PairInside(c, p)
    ensures var first := Compare(c, q, visited);
      var rest := CompareEach(c, tail, first.visited);
      CompareEach(c, pairs, visited) == Outcomes([first.relation] + rest.relations, rest.visited)
  {
    assert q in pairs && pairs[1..] == tail;
    assert forall p :: p in tail ==> p in pairs;
  }

  lemma InOneOf(c: Roots, a: seq<Pair>, b: seq<Pair>)
    requires forall p :: p in a + b ==> PairInside(c, p)
    ensures (forall p :: p in a ==> PairInside(c, p)) && (forall p :: p in b ==> PairInside(c, p))
  {
    assert forall p :: p in a ==> p in a + b;
    assert forall p :: p in b ==> p in a + b;
  }

  lemma {:induction false} CompareEachConcat(c: Roots, a: seq<Pair>, b: seq<Pair>, visited: set<Pair>)
    requires forall p :: p in a + b ==> PairInside(c, p)
    ensures (forall p :: p in a ==> PairInside(c, p)) && (forall p :: p in b ==> PairInside(c, p))
    ensures var front := CompareEach(c, a, visited);
      var back := CompareEach(c, b, front.visited);
      CompareEach(c, a + b, visited) == Outcomes(front.relations + back.relations, back.visited)
    decreases |a|
  {
    InOneOf(c, a, b);
    if a == [] {
      assert a + b == b;
    } else {
      var q, tail := a[0], a[1..];
      assert a == [q] + tail && a + b == [q] + (tail + b);
      CompareEachFirst(c, a, q, tail, visited);
      CompareEachFirst(c, a + b, q, tail + b, visited);
      var first := Compare(c, q, visited);
      CompareEachConcat(c, tail, b, first.visited);
      var front := CompareEach(c, tail, first.visited);
      var back := CompareEach(c, b, front.visited);
      Regrouped([first.relation], front.relations, back.relations);
    }
  }

  lemma Regrouped(x: seq<Relation>, y: seq<Relation>, z: seq<Relation>)
    ensures x + (y + z) == x + y + z
  {
  }

  lemma CompareEachSnoc(c: Roots, pairs: seq<Pair>, q: Pair, visited: set<Pair>)
    requires PairInside(c, q) && forall p :: p in pairs ==> PairInside(c, p)
    ensures var front := CompareEach(c, pairs, visited);
      var last := Compare(c, q, front.visited);
      CompareEach(c, pairs + [q], visited) == Outcomes(front.relations + [last.relation], last.visited)
  {
    assert forall p :: p in pairs + [q] ==> p in pairs || p == q;
    CompareEachConcat(c, pairs, [q], visited);
    CompareEachFirst(c, [q], q, [], CompareEach(c, pairs, visited).visited);
  }

  // ---------- Termination ----------

  /** How many pairs of the two documents have not been visited. */
  ghost function Remaining(c: Roots, visited: set<Pair>): nat {
    |AllPairs(c) - visited|
  }

  lemma RemainingShrinks(c: Roots, before: set<Pair>, after: set<Pair>)
    requires before <= after
    ensures Remaining(c, after) <= Remaining(c, before)
  {
    FewerPairs(AllPairs(c) - after, AllPairs(c) - before);
  }

  lemma RemainingFalls(c: Roots, p: Pair, visited: set<Pair>)
    requires PairInside(c, p) && p.0.value.Obj? && p.1.value.Obj? && p !in visited
    ensures Remaining(c, visited + {p}) < Remaining(c, visited)
  {
    assert p in AllPairs(c) - visited;
    FewerPairs(AllPairs(c) - (visited + {p}), AllPairs(c) - visited - {p});
  }

  lemma FewerPairs(a: set<Pair>, b: set<Pair>)
    requires a <= b
    ensures |a| <= |b|
  {
    assert b == a + (b - a);
  }

  // ---------- Property names in order ----------

  predicate AllNames(o: Occurrence, names: seq<string>) {
    names == Sorted(Properties(o.value).Keys)
  }

  /** `sorted(properties)`. */
  method SortedNames(o: Occurrence) returns (names: seq<string>)
    ensures AllNames(o, names)
    ensures forall i :: 0 <= i < |names| ==> names[i] in Properties(o.value)
  {
    names := Sorted(Properties(o.value).Keys);
    assert forall i :: 0 <= i < |names| ==> names[i] in names;
  }

  // ---------- The comparator ----------

  /** One run of the comparator between two documents. */
  class Comparison {
    const c: Roots
    var visited: set<Pair>

    constructor (left: Json, right: Json)
      ensures c == Roots(left, right) && visited == {}
    {
      c := Roots(left, right);
      visited := {};
    }

    /** `_compare`. */
    method ComparePair(p: Pair) returns (relation: Relation)
      requires PairInside(c, p)
      modifies this
      ensures Outcome(relation, visited) == Compare(c, p, old(visited))
      decreases Remaining(c, visited), 0
    {
      var (l, r) := p;
      var immediate := Immediate(l.value, r.value);
      if immediate.Some? {
        return immediate.value;
      }
      if p in visited {
        return Proven;
      }
      CompareRunsPlan(c, p, visited);
      RemainingFalls(c, p, visited);
      visited := visited + {p};
      if Has(l.value, "$ref") || Has(r.value, "$ref") {
        relation := CompareReferences(l, r);
      } else if !(Keys(l.value) + Keys(r.value) <= HANDLED + ANNOTATIONS) {
        relation := Unknown;
      } else {
        var combination := CompareCombinations(l, r);
        if combination.Some? {
          relation := combination.value;
        } else if FiniteApplies(l.value, r.value) {
          relation := CompareFinite(l.value, r.value, Candidates(l.value).value);
        } else {
          relation := CompareKeywords(l, r);
        }
      }
    }

    /** The `$ref` part of `_compare`. */
    method CompareReferences(l: Occurrence, r: Occurrence) returns (relation: Relation)
      requires PairInside(c, (l, r)) && (Has(l.value, "$ref") || Has(r.value, "$ref"))
      modifies this
      ensures forall p :: p in PlanPairs(RefPlan(c, l, r)) ==> PairInside(c, p)
      ensures Outcome(relation, visited) == RunPlan(c, RefPlan(c, l, r), old(visited))
      decreases Remaining(c, visited), 5
    {
      var left, right := Some(l), Some(r);
      if Has(l.value, "$ref") {
        left := ResolveLocalRef(c.left, Get(l.value, "$ref"));
      }
      if Has(r.value, "$ref") {
        right := ResolveLocalRef(c.right, Get(r.value, "$ref"));
      }
      RefPlanInside(c, l, r);
      if left.None? || right.None? {
        return Unknown;
      }
      if Keys(l.value) - {"$ref"} - ANNOTATIONS != {} || Keys(r.value) - {"$ref"} - ANNOTATIONS != {} {
        return Unknown;
      }
      SingleRun(c, (left.value, right.value), visited);
      relation := ComparePair((left.value, right.value));
    }

    /** `_compare_combinations`. */
    method CompareCombinations(l: Occurrence, r: Occurrence) returns (relation: Option<Relation>)
      requires l in Occurrences(Occurrence([], c.left)) && r in Occurrences(Occurrence([], c.right))
      modifies this
      ensures relation.Some? <==> CombinationPlan(l, r).Some?
      ensures relation.Some? ==> forall p :: p in PlanPairs(CombinationPlan(l, r).value) ==> PairInside(c, p)
      ensures relation.Some? ==>
        Outcome(relation.value, visited) == RunPlan(c, CombinationPlan(l, r).value, old(visited))
      ensures relation.None? ==> visited == old(visited)
      decreases Remaining(c, visited), 5
    {
      CombinationPairsInside(c, l, r);
      if HasList(l.value, "anyOf") {
        var reports := CompareList(LeftBranchPairs(l, r, "anyOf"));
        VerdictOfEvery(reports);
        var combined := CombineReports(reports);
        return Some(combined);
      }
      if HasList(l.value, "oneOf") {
        var reports := CompareList(LeftBranchPairs(l, r, "oneOf"));
        VerdictOfEvery(reports);
        var combined := CombineReports(reports);
        return Some(combined);
      }
      if HasList(r.value, "allOf") {
        var reports := CompareList(RightBranchPairs(l, r, "allOf"));
        VerdictOfEvery(reports);
        var combined := CombineReports(reports);
        return Some(combined);
      }
      if HasList(l.value, "allOf") {
        var reports := CompareList(LeftBranchPairs(l, r, "allOf"));
        return Some(if Proven in reports then Proven else Unknown);
      }
      return if Has(r.value, "anyOf") || Has(r.value, "oneOf") then Some(Unknown) else None;
    }

    /** The keyword-by-keyword end of `_compare`. */
    method CompareKeywords(l: Occurrence, r: Occurrence) returns (relation: Relation)
      requires l in Occurrences(Occurrence([], c.left)) && r in Occurrences(Occurrence([], c.right))
      requires l.value.Obj? && r.value.Obj?
      modifies this
      ensures forall p :: p in PlainPairs(l, r) ==> PairInside(c, p)
      ensures Outcome(relation, visited) == RunPlan(c, PlainPlan(l, r), old(visited))
      decreases Remaining(c, visited), 5
    {
      PlainRun(c, l, r, visited);
      var reports := LocalReports(l.value, r.value);
      var found: seq<Relation> := [];
      if ComparesObjects(l.value, r.value) {
        found := CompareObjects(l, r);
      }
      RemainingShrinks(c, old(visited), visited);
      var items := CompareList(ArrayPart(l, r));
      PlainVerdict(c, l, r, old(visited), found, items);
      relation := CombineReports(reports + found + items);
    }

    /** `_compare_objects`: required names, the two sorted loops over properties, and `additionalProperties`. */
    method CompareObjects(l: Occurrence, r: Occurrence) returns (reports: seq<Relation>)
      requires l in Occurrences(Occurrence([], c.left)) && r in Occurrences(Occurrence([], c.right))
      requires ComparesObjects(l.value, r.value)
      modifies this
      ensures forall p :: p in ObjectPart(l, r) ==> PairInside(c, p)
      ensures visited == CompareEach(c, ObjectPart(l, r), old(visited)).visited
      ensures SameVerdict(reports, ObjectVerdict(c, l, r, old(visited)))
      decreases Remaining(c, visited), 4
    {
      ObjectPartInside(c, l, r);
      var required := CompareRequired(l.value, r.value);
      if !ReadableObjects(l.value, r.value) {
        return [Unknown];
      }
      var shared := CompareShared(l, r);
      ghost var afterShared := visited;
      RemainingShrinks(c, old(visited), visited);
      var leftOnly := CompareLeftOnly(l, r);
      ghost var afterLeftOnly := visited;
      RemainingShrinks(c, old(visited), visited);
      var undeclared := CompareUndeclared(l, r);
      ObjectsJoined(c, l, r, old(visited), shared, afterShared, leftOnly, afterLeftOnly, undeclared, visited);
      reports := [required] + shared + leftOnly + undeclared;
    }

    /** The loop over the properties of the right schema. */
    method CompareShared(l: Occurrence, r: Occurrence) returns (reports: seq<Relation>)
      requires l in Occurrences(Occurrence([], c.left)) && r in Occurrences(Occurrence([], c.right))
      modifies this
      ensures old(visited) <= visited
      ensures Compared(c, SharedPairs(l, r), old(visited), reports, visited)
      decreases Remaining(c, visited), 3
    {
      var names := SortedNames(r);
      reports := [];
      for i := 0 to |names|
        invariant old(visited) <= visited
        invariant Compared(c, SharedFor(l, r, Kept(names, i, SharedNames(l, r))), old(visited), reports, visited)
      {
        RemainingShrinks(c, old(visited), visited);
        reports := CompareSharedName(l, r, names[i], Kept(names, i, SharedNames(l, r)), old(visited), reports);
      }
      SharedForAll(l, r, names);
    }

    /** Compare one property of the right schema, unless its left counterpart is `False`. */
    method CompareSharedName(
      l: Occurrence, r: Occurrence, name: string, ghost before: seq<string>, ghost start: set<Pair>,
      reports: seq<Relation>) returns (extended: seq<Relation>)
      requires l in Occurrences(Occurrence([], c.left)) && r in Occurrences(Occurrence([], c.right))
      requires name in Properties(r.value) && forall n :: n in before ==> n in SharedNames(l, r)
      requires Compared(c, SharedFor(l, r, before), start, reports, visited)
      modifies this
      ensures old(visited) <= visited
      ensures var kept := before + if name in SharedNames(l, r) then [name] else [];
        Compared(c, SharedFor(l, r, kept), start, extended, visited)
      decreases Remaining(c, visited), 2
    {
      var left := SchemaForName(l, name);
      if left.value == Bool(false) {
        assert before + [] == before;
        return reports;
      }
      SharedForSnoc(l, r, before, name);
      SharedPairInside(c, l, r, name);
      extended := CompareNext((left, PropertySchema(r, name)), SharedFor(l, r, before), start, reports);
    }

    /** The loop over the properties only the left schema declares. */
    method CompareLeftOnly(l: Occurrence, r: Occurrence) returns (reports: seq<Relation>)
      requires l in Occurrences(Occurrence([], c.left)) && r in Occurrences(Occurrence([], c.right))
      modifies this
      ensures old(visited) <= visited
      ensures forall p :: p in LeftOnlyPart(l, r) ==> PairInside(c, p)
      ensures visited == CompareEach(c, LeftOnlyPart(l, r), old(visited)).visited
      ensures SameVerdict(reports, LeftOnlyReports(l, r) + CompareEach(c, LeftOnlyPart(l, r), old(visited)).relations)
      decreases Remaining(c, visited), 3
    {
      var names := SortedNames(l);
      reports := [];
      for i := 0 to |names|
        invariant old(visited) <= visited
        invariant LeftOnlyCompared(c, l, r, Kept(names, i, LeftOnlyNames(l, r)), old(visited), reports, visited)
      {
        RemainingShrinks(c, old(visited), visited);
        reports := CompareLeftOnlyName(l, r, names[i], Kept(names, i, LeftOnlyNames(l, r)), old(visited), reports);
      }
      LeftOnlyForAll(l, r, names);
      LeftOnlyVerdict(c, l, r, Kept(names, |names|, LeftOnlyNames(l, r)), old(visited), reports, visited);
    }

    /** Compare one property of the left schema with `additionalProperties`, unless the right schema declares it. */
    method CompareLeftOnlyName(
      l: Occurrence, r: Occurrence, name: string, ghost before: seq<string>, ghost start: set<Pair>,
      reports: seq<Relation>) returns (extended: seq<Relation>)
      requires l in Occurrences(Occurrence([], c.left)) && r in Occurrences(Occurrence([], c.right))
      requires name in Properties(l.value) && forall n :: n in before ==> n in LeftOnlyNames(l, r)
      requires LeftOnlyCompared(c, l, r, before, start, reports, visited)
      modifies this
      ensures old(visited) <= visited
      ensures var kept := before + if name in LeftOnlyNames(l, r) then [name] else [];
        LeftOnlyCompared(c, l, r, kept, start, extended, visited)
      decreases Remaining(c, visited), 2
    {
      var additional := AdditionalSchema(r);
      if name in Properties(r.value) {
        assert before + [] == before;
        return reports;
      }
      if additional.value == Bool(false) {
        return reports + [Conflict];
      }
      if !additional.value.Obj? {
        return reports;
      }
      LeftOnlyForSnoc(l, r, before, name);
      LeftOnlyPairInside(c, l, r, name);
      extended := CompareNext((PropertySchema(l, name), additional), LeftOnlyFor(l, r, before), start, reports);
    }

    /** The last step, for names neither schema declares. */
    method CompareUndeclared(l: Occurrence, r: Occurrence) returns (reports: seq<Relation>)
      requires l in Occurrences(Occurrence([], c.left)) && r in Occurrences(Occurrence([], c.right))
      modifies this
      ensures old(visited) <= visited
      ensures forall p :: p in UndeclaredPart(l, r) ==> PairInside(c, p)
      ensures visited == CompareEach(c, UndeclaredPart(l, r), old(visited)).visited
      ensures reports == UndeclaredReports(l, r) + CompareEach(c, UndeclaredPart(l, r), old(visited)).relations
      decreases Remaining(c, visited), 2
    {
      var (left, right) := (AdditionalSchema(l), AdditionalSchema(r));
      KeywordStaysInside(c.left, l);
      KeywordStaysInside(c.right, r);
      reports := [];
      if right.value == Bool(false) && left.value != Bool(false) {
        reports := [Conflict];
      } else if right.value.Obj? && left.value != Bool(false) {
        RunOne(c, (left, right), visited);
        var report := ComparePair((left, right));
        reports := [report];
      }
    }

    /** The list comprehensions over branches. */
    method CompareList(pairs: seq<Pair>) returns (reports: seq<Relation>)
      requires forall p :: p in pairs ==> PairInside(c, p)
      modifies this
      ensures Compared(c, pairs, old(visited), reports, visited)
      decreases Remaining(c, visited), 2
    {
      reports := [];
      for i := 0 to |pairs|
        invariant old(visited) <= visited
        invariant Compared(c, pairs[..i], old(visited), reports, visited)
      {
        RemainingShrinks(c, old(visited), visited);
        OneMorePair(pairs, i);
        reports := CompareNext(pairs[i], pairs[..i], old(visited), reports);
      }
      assert pairs[..|pairs|] == pairs;
    }

    /** Append one comparison to the reports of those made since `visited` was `start`. */
    method CompareNext(p: Pair, ghost pairs: seq<Pair>, ghost start: set<Pair>, reports: seq<Relation>)
      returns (extended: seq<Relation>)
      requires PairInside(c, p) && Compared(c, pairs, start, reports, visited)
      modifies this
      ensures Compared(c, pairs + [p], start, extended, visited) && old(visited) <= visited
      decreases Remaining(c, visited), 1
    {
      CompareEachSnoc(c, pairs, p, start);
      var report := ComparePair(p);
      extended := reports + [report];
    }
  }

  /** `_compare_subset`. */
  method CompareSchemas(left: Json, right: Json) returns (relation: Relation)
    ensures relation == CompareSubset(left, right)
  {
    var comparison := new Comparison(left, right);
    relation := comparison.ComparePair((Occurrence([], left), Occurrence([], right)));
  }

  // ---------- Proof steps ----------

  /** What `Compare` does with a plan. */
  function RunPlan(c: Roots, plan: Plan, visited: set<Pair>): Outcome
    requires forall p :: p in PlanPairs(plan) ==> PairInside(c, p)
  {
    match plan
    case Settled(relation) => Outcome(relation, visited)
    case Every(local, pairs) =>
      var each := CompareEach(c, pairs, visited);
      Outcome(Combine([local] + each.relations), each.visited)
    case AnyOne(pairs) =>
      var each := CompareEach(c, pairs, visited);
      Outcome(if Proven in each.relations then Proven else Unknown, each.visited)
  }

  lemma CompareRunsPlan(c: Roots, p: Pair, visited: set<Pair>)
    requires PairInside(c, p) && p !in visited && Immediate(p.0.value, p.1.value).None?
    ensures p.0.value.Obj? && p.1.value.Obj?
    ensures forall q :: q in PlanPairs(PlanFor(c, p.0, p.1)) ==> PairInside(c, q)
    ensures Compare(c, p, visited) == RunPlan(c, PlanFor(c, p.0, p.1), visited + {p})
  {
    PlanStaysInside(c, p.0, p.1);
  }

  lemma RunOne(c: Roots, q: Pair, visited: set<Pair>)
    requires PairInside(c, q)
    ensures CompareEach(c, [q], visited)
      == Outcomes([Compare(c, q, visited).relation], Compare(c, q, visited).visited)
  {
    CompareEachSnoc(c, [], q, visited);
    assert [] + [q] == [q];
  }

  lemma SingleRun(c: Roots, q: Pair, visited: set<Pair>)
    requires PairInside(c, q)
    ensures RunPlan(c, Every(Proven, [q]), visited) == Compare(c, q, visited)
  {
    RunOne(c, q, visited);
    OneVerdict(Compare(c, q, visited).relation);
  }

  lemma OneVerdict(relation: Relation)
    ensures Combine([Proven] + [relation]) == relation
  {
    CombineSnoc([Proven], relation);
    assert Combine([Proven]) == Proven;
  }

  lemma VerdictOfEvery(reports: seq<Relation>)
    ensures Combine([Proven] + reports) == Combine(reports)
  {
    SameVerdictCombines([Proven] + reports, reports);
  }

  lemma SameVerdictCombines(a: seq<Relation>, b: seq<Relation>)
    requires SameVerdict(a, b)
    ensures Combine(a) == Combine(b)
  {
  }

  lemma VerdictOfPlain(local: seq<Relation>, relations: seq<Relation>, reports: seq<Relation>)
    requires SameVerdict(reports, local + relations)
    ensures Combine(reports) == Combine([Combine(local)] + relations)
  {
    var all := [Combine(local)] + relations;
    assert forall r :: r in all <==> r == Combine(local) || r in relations;
    assert forall r :: r in local + relations <==> r in local || r in relations;
    assert Unknown in local && Conflict !in local ==> Combine(local) == Unknown;
  }

  lemma CombinationPairsInside(c: Roots, l: Occurrence, r: Occurrence)
    requires l in Occurrences(Occurrence([], c.left)) && r in Occurrences(Occurrence([], c.right))
    ensures CombinationPlan(l, r).Some? ==> forall p :: p in PlanPairs(CombinationPlan(l, r).value) ==> PairInside(c, p)
  {
    if CombinationPlan(l, r).Some? {
      var pairs := PlanPairs(CombinationPlan(l, r).value);
      forall p | p in pairs ensures PairInside(c, p) {
        var i :| 0 <= i < |pairs| && pairs[i] == p;
        CombinationPlanInside(c, l, r, i);
      }
    }
  }

  lemma PlainPairsAllInside(c: Roots, l: Occurrence, r: Occurrence)
    requires l in Occurrences(Occurrence([], c.left)) && r in Occurrences(Occurrence([], c.right))
    ensures forall p :: p in PlainPairs(l, r) ==> PairInside(c, p)
  {
    forall p | p in PlainPairs(l, r) ensures PairInside(c, p) { PlainPairInside(c, l, r, p); }
  }

  /** The pairs `_compare_objects` compares, when it gets that far. */
  function ObjectPart(l: Occurrence, r: Occurrence): seq<Pair> {
    if ComparesObjects(l.value, r.value) && ReadableObjects(l.value, r.value) then ObjectPairs(l, r) else []
  }

  /** The pairs for some names of the right schema's properties. */
  function SharedFor(l: Occurrence, r: Occurrence, names: seq<string>): seq<Pair>
    requires forall name :: name in names ==> name in SharedNames(l, r)
  {
    seq(|names|, i requires 0 <= i < |names| =>
      assert names[i] in SharedNames(l, r);
      (SchemaForName(l, names[i]), PropertySchema(r, names[i])))
  }

  /** The pairs for some names only the left schema declares. */
  function LeftOnlyFor(l: Occurrence, r: Occurrence, names: seq<string>): seq<Pair>
    requires forall name :: name in names ==> name in LeftOnlyNames(l, r)
  {
    seq(|names|, i requires 0 <= i < |names| =>
      assert names[i] in LeftOnlyNames(l, r);
      (PropertySchema(l, names[i]), AdditionalSchema(r)))
  }

  function LeftOnlyPart(l: Occurrence, r: Occurrence): seq<Pair> {
    if AdditionalSchema(r).value.Obj? then LeftOnlyPairs(l, r) else []
  }

  function LeftOnlyReports(l: Occurrence, r: Occurrence): seq<Relation> {
    if AdditionalSchema(r).value == Bool(false) && LeftOnlyNames(l, r) != {} then [Conflict] else []
  }

  function UndeclaredPart(l: Occurrence, r: Occurrence): seq<Pair> {
    if AdditionalSchema(r).value.Obj? && AdditionalSchema(l).value != Bool(false)
    then [(AdditionalSchema(l), AdditionalSchema(r))]
    else []
  }

  function UndeclaredReports(l: Occurrence, r: Occurrence): seq<Relation> {
    if AdditionalSchema(r).value == Bool(false) && AdditionalSchema(l).value != Bool(false) then [Conflict] else []
  }

  /** What the object keywords contribute: the findings made without recursion, and the relations of the pairs. */
  function ObjectVerdict(c: Roots, l: Occurrence, r: Occurrence, visited: set<Pair>): seq<Relation>
    requires forall p :: p in ObjectPart(l, r) ==> PairInside(c, p)
  {
    (if ReadableObjects(l.value, r.value) then ObjectReports(l, r) else [Unknown])
    + CompareEach(c, ObjectPart(l, r), visited).relations
  }

  lemma SharedForAll(l: Occurrence, r: Occurrence, names: seq<string>)
    requires AllNames(r, names)
    ensures SharedFor(l, r, Kept(names, |names|, SharedNames(l, r))) == SharedPairs(l, r)
  {
    KeptSorted(Properties(r.value).Keys, SharedNames(l, r));
    assert Properties(r.value).Keys * SharedNames(l, r) == SharedNames(l, r);
  }

  lemma LeftOnlyForAll(l: Occurrence, r: Occurrence, names: seq<string>)
    requires AllNames(l, names)
    ensures Kept(names, |names|, LeftOnlyNames(l, r)) == Sorted(LeftOnlyNames(l, r))
  {
    KeptSorted(Properties(l.value).Keys, LeftOnlyNames(l, r));
    assert Properties(l.value).Keys * LeftOnlyNames(l, r) == LeftOnlyNames(l, r);
  }

  lemma ObjectPartInside(c: Roots, l: Occurrence, r: Occurrence)
    requires l in Occurrences(Occurrence([], c.left)) && r in Occurrences(Occurrence([], c.right))
    ensures forall p :: p in ObjectPart(l, r) ==> PairInside(c, p)
  {
    PlainPairsAllInside(c, l, r);
    assert forall p :: p in ObjectPart(l, r) ==> p in PlainPairs(l, r);
  }

  lemma SharedForSnoc(l: Occurrence, r: Occurrence, names: seq<string>, name: string)
    requires (forall n :: n in names ==> n in SharedNames(l, r)) && name in SharedNames(l, r)
    ensures SharedFor(l, r, names + [name])
      == SharedFor(l, r, names) + [(SchemaForName(l, name), PropertySchema(r, name))]
  {
  }

  lemma LeftOnlyForSnoc(l: Occurrence, r: Occurrence, names: seq<string>, name: string)
    requires (forall n :: n in names ==> n in LeftOnlyNames(l, r)) && name in LeftOnlyNames(l, r)
    ensures LeftOnlyFor(l, r, names + [name])
      == LeftOnlyFor(l, r, names) + [(PropertySchema(l, name), AdditionalSchema(r))]
  {
  }

  /** The loop over left-only names has dealt with `kept`: a conflict for each, a comparison for each, or nothing. */
  ghost predicate LeftOnlyCompared(
    c: Roots, l: Occurrence, r: Occurrence, kept: seq<string>, start: set<Pair>, reports: seq<Relation>,
    visited: set<Pair>)
    requires forall name :: name in kept ==> name in LeftOnlyNames(l, r)
  {
    var additional := AdditionalSchema(r).value;
    if additional == Bool(false) then
      visited == start && |reports| == |kept| && forall x :: x in reports ==> x == Conflict
    else if additional.Obj? then Compared(c, LeftOnlyFor(l, r, kept), start, reports, visited)
    else visited == start && reports == []
  }

  lemma LeftOnlyVerdict(
    c: Roots, l: Occurrence, r: Occurrence, kept: seq<string>, start: set<Pair>, reports: seq<Relation>,
    visited: set<Pair>)
    requires kept == Sorted(LeftOnlyNames(l, r)) && LeftOnlyCompared(c, l, r, kept, start, reports, visited)
    ensures forall p :: p in LeftOnlyPart(l, r) ==> PairInside(c, p)
    ensures visited == CompareEach(c, LeftOnlyPart(l, r), start).visited
    ensures SameVerdict(reports, LeftOnlyReports(l, r) + CompareEach(c, LeftOnlyPart(l, r), start).relations)
  {
    assert LeftOnlyFor(l, r, kept) == LeftOnlyPairs(l, r);
    if AdditionalSchema(r).value == Bool(false) && kept != [] {
      assert reports[0] in reports;
    }
  }

  /** The pairs of the object keywords, compared in three parts. */
  lemma ObjectRun(c: Roots, l: Occurrence, r: Occurrence, visited: set<Pair>)
    requires ComparesObjects(l.value, r.value) && ReadableObjects(l.value, r.value)
    requires forall p :: p in ObjectPart(l, r) ==> PairInside(c, p)
    ensures forall p :: p in SharedPairs(l, r) + LeftOnlyPart(l, r) + UndeclaredPart(l, r) ==> PairInside(c, p)
    ensures var shared := CompareEach(c, SharedPairs(l, r), visited);
      var leftOnly := CompareEach(c, LeftOnlyPart(l, r), shared.visited);
      var undeclared := CompareEach(c, UndeclaredPart(l, r), leftOnly.visited);
      CompareEach(c, ObjectPart(l, r), visited)
        == Outcomes(shared.relations + leftOnly.relations + undeclared.relations, undeclared.visited)
  {
    var all := SharedPairs(l, r) + LeftOnlyPart(l, r);
    assert ObjectPart(l, r) == all + UndeclaredPart(l, r);
    CompareEachConcat(c, all, UndeclaredPart(l, r), visited);
    CompareEachConcat(c, SharedPairs(l, r), LeftOnlyPart(l, r), visited);
  }

  lemma JoinVerdicts(
    own: seq<Relation>, shared: seq<Relation>, leftOnly: seq<Relation>, undeclared: seq<Relation>,
    a: seq<Relation>, b: seq<Relation>, x: seq<Relation>, y: seq<Relation>)
    requires SameVerdict(leftOnly, a + x) && undeclared == b + y
    ensures SameVerdict(own + shared + leftOnly + undeclared, (own + a + b) + (shared + x + y))
  {
  }

  lemma ObjectsJoined(
    c: Roots, l: Occurrence, r: Occurrence, start: set<Pair>, shared: seq<Relation>, afterShared: set<Pair>,
    leftOnly: seq<Relation>, afterLeftOnly: set<Pair>, undeclared: seq<Relation>, end: set<Pair>)
    requires ComparesObjects(l.value, r.value) && ReadableObjects(l.value, r.value)
    requires forall p :: p in ObjectPart(l, r) ==> PairInside(c, p)
    requires forall p :: p in LeftOnlyPart(l, r) + UndeclaredPart(l, r) ==> PairInside(c, p)
    requires Compared(c, SharedPairs(l, r), start, shared, afterShared)
    requires var rest := CompareEach(c, LeftOnlyPart(l, r), afterShared);
      SameVerdict(leftOnly, LeftOnlyReports(l, r) + rest.relations) && afterLeftOnly == rest.visited
    requires var rest := CompareEach(c, UndeclaredPart(l, r), afterLeftOnly);
      undeclared == UndeclaredReports(l, r) + rest.relations && end == rest.visited
    ensures end == CompareEach(c, ObjectPart(l, r), start).visited
    ensures SameVerdict(
      [CompareRequired(l.value, r.value)] + shared + leftOnly + undeclared, ObjectVerdict(c, l, r, start))
  {
    ObjectRun(c, l, r, start);
    JoinVerdicts(
      [CompareRequired(l.value, r.value)], shared, leftOnly, undeclared, LeftOnlyReports(l, r), UndeclaredReports(l, r),
      CompareEach(c, LeftOnlyPart(l, r), afterShared).relations,
      CompareEach(c, UndeclaredPart(l, r), afterLeftOnly).relations);
  }

  function ArrayPart(l: Occurrence, r: Occurrence): seq<Pair> {
    if ComparesArrays(l.value, r.value) then [(ItemSchema(l), ItemSchema(r))] else []
  }

  lemma PlainRun(c: Roots, l: Occurrence, r: Occurrence, visited: set<Pair>)
    requires l in Occurrences(Occurrence([], c.left)) && r in Occurrences(Occurrence([], c.right))
    ensures forall p :: p in PlainPairs(l, r) ==> PairInside(c, p)
    ensures forall p :: p in ObjectPart(l, r) ==> PairInside(c, p)
    ensures forall p :: p in ArrayPart(l, r) ==> PairInside(c, p)
    ensures var a := CompareEach(c, ObjectPart(l, r), visited);
      var b := CompareEach(c, ArrayPart(l, r), a.visited);
      CompareEach(c, PlainPairs(l, r), visited) == Outcomes(a.relations + b.relations, b.visited)
  {
    PlainPairsAllInside(c, l, r);
    assert PlainPairs(l, r) == ObjectPart(l, r) + ArrayPart(l, r);
    CompareEachConcat(c, ObjectPart(l, r), ArrayPart(l, r), visited);
  }

  lemma PlainVerdict(
    c: Roots, l: Occurrence, r: Occurrence, visited: set<Pair>, found: seq<Relation>, items: seq<Relation>)
    requires l in Occurrences(Occurrence([], c.left)) && r in Occurrences(Occurrence([], c.right))
    requires forall p :: p in PlainPairs(l, r) ==> PairInside(c, p)
    requires forall p :: p in ObjectPart(l, r) ==> PairInside(c, p)
    requires CompareEach(c, PlainPairs(l, r), visited).relations
      == CompareEach(c, ObjectPart(l, r), visited).relations + items
    requires if ComparesObjects(l.value, r.value) then SameVerdict(found, ObjectVerdict(c, l, r, visited))
      else found == []
    ensures Combine(LocalReports(l.value, r.value) + found + items)
         == Combine([Combine(PlainReports(l, r))] + CompareEach(c, PlainPairs(l, r), visited).relations)
  {
    var relations := CompareEach(c, PlainPairs(l, r), visited).relations;
    var objects := CompareEach(c, ObjectPart(l, r), visited).relations;
    var own := if !ComparesObjects(l.value, r.value) then []
      else if ReadableObjects(l.value, r.value) then ObjectReports(l, r) else [Unknown];
    assert PlainReports(l, r) == LocalReports(l.value, r.value) + own;
    SplitVerdict(LocalReports(l.value, r.value), own, objects, found, items);
    VerdictOfPlain(PlainReports(l, r), relations, LocalReports(l.value, r.value) + found + items);
  }

  lemma SplitVerdict(
    local: seq<Relation>, own: seq<Relation>, objects: seq<Relation>, found: seq<Relation>, items: seq<Relation>)
    requires SameVerdict(found, own + objects)
    ensures SameVerdict(local + found + items, (local + own) + (objects + items))
  {
  }
}
