/**
 * PROVEN means subset. Two arguments: on cyclic schema graphs the final `visited` set is a
 * simulation; where no reference resolves no pair is met twice, so `visited` never answers.
 */
module SchemaSoundness {
  import opened Ordering
  import opened JsonValues
  import opened SchemaSemantics
  import opened SchemaRelation
  import opened SchemaSteps
  import opened SchemaPlain

  // ---------- Conditions, all decidable from the two documents ----------

  function RootPair(c: Roots): Pair {
    (Occurrence([], c.left), Occurrence([], c.right))
  }

  /** `reach` holds every pair of schema objects the comparator can arrive at. */
  ghost predicate ClosedUnderPlans(c: Roots, reach: set<Pair>) {
    forall p :: p in reach ==>
      && PairInside(c, p)
      && p.0.value.Obj? && p.1.value.Obj?
      && forall q :: q in PlanPairs(PlanFor(c, p.0, p.1)) ==> Reached(reach, q)
  }

  predicate Reached(reach: set<Pair>, q: Pair) {
    Immediate(q.0.value, q.1.value).Some? || q in reach
  }

  ghost predicate Explored(c: Roots, reach: set<Pair>) {
    ClosedUnderPlans(c, reach) && Reached(reach, RootPair(c))
  }

  /** The comparator is called on `q`: at the start, or from a pair of `reach`. */
  predicate Arrives(c: Roots, reach: set<Pair>, q: Pair) {
    q == RootPair(c) || exists p :: p in reach && q in PlanPairs(PlanFor(c, p.0, p.1))
  }

  predicate Refers(p: Pair) {
    Has(p.0.value, "$ref") || Has(p.1.value, "$ref")
  }

  predicate Understood(p: Pair) {
    !Refers(p) && Keys(p.0.value) + Keys(p.1.value) <= HANDLED + ANNOTATIONS
  }

  /** A right `allOf` decides the pair, branch by branch. */
  predicate RightAllOfDecides(p: Pair) {
    && Understood(p) && HasList(p.1.value, "allOf")
    && !HasList(p.0.value, "anyOf") && !HasList(p.0.value, "oneOf")
  }

  /** The pair is compared keyword by keyword. */
  predicate ComparedPlainly(p: Pair) {
    Understood(p) && CombinationPlan(p.0, p.1).None? && !FiniteApplies(p.0.value, p.1.value)
  }

  /** No pair is decided by a left `allOf`, the only place where a failed comparison is forgiven. */
  ghost predicate NoLeftAllOf(c: Roots, reach: set<Pair>) {
    forall p :: p in reach ==> !PlanFor(c, p.0, p.1).AnyOne?
  }

  /** No reference written in `part` resolves inside it. */
  ghost predicate NothingResolves(part: Json) {
    forall s :: s in SubValues(part) && Has(s, "$ref") ==> Target(part, Get(s, "$ref")).None?
  }

  /** A forgiven failure is not met again: no failure is forgiven, or no reference leads back to a pair. */
  ghost predicate NoForgivenRevisit(c: Roots, reach: set<Pair>) {
    NoLeftAllOf(c, reach) || (NothingResolves(c.left) && NothingResolves(c.right))
  }

  /** A right `allOf` that decides a pair stands alone in its schema. */
  predicate AllOfsStandAlone(reach: set<Pair>) {
    forall p :: p in reach && RightAllOfDecides(p) ==> Keys(p.1.value) <= {"allOf"} + ANNOTATIONS
  }

  /** Where a plainly compared right schema uses object or array keywords, one side declares `type`. */
  predicate KindsDeclared(reach: set<Pair>) {
    forall p :: p in reach && ComparedPlainly(p) ==> TypesDeclared(p.0.value, p.1.value)
  }

  /** References mean in the compared schemas what they mean in the documents, and the same in equal schemas. */
  ghost predicate ReferencesAgree(c: Roots, dl: Document, dr: Document, reach: set<Pair>) {
    && KeepsReferences(c.left, dl) && KeepsReferences(c.right, dr)
    && forall q :: Arrives(c, reach, q) && q.0.value.Obj? && q.0.value == q.1.value ==> MeansAlike(dl, dr, q.0.value)
  }

  /** Where the comparator applies Python's `==`, equal values are equal. */
  predicate EqualityIsFaithful(c: Roots, reach: set<Pair>) {
    && (ShortcutApplies(c.left, c.right) ==> c.left == c.right)
    && (forall p :: p in reach ==> ShortcutsFaithful(PlanPairs(PlanFor(c, p.0, p.1))))
    && (forall p :: p in reach && ComparedPlainly(p) ==> ListedFaithfully(p.0.value, p.1.value))
  }

  predicate ShortcutsFaithful(pairs: seq<Pair>) {
    forall q :: q in pairs && ShortcutApplies(q.0.value, q.1.value) ==> q.0.value == q.1.value
  }

  /** The five conditions of the soundness theorem. */
  datatype Condition = Unforgiving | AllOfAlone | Typed | SameReferences | FaithfulEquality

  ghost predicate Meets(condition: Condition, c: Roots, dl: Document, dr: Document, reach: set<Pair>) {
    match condition
    case Unforgiving => NoForgivenRevisit(c, reach)
    case AllOfAlone => AllOfsStandAlone(reach)
    case Typed => KindsDeclared(reach)
    case SameReferences => ReferencesAgree(c, dl, dr, reach)
    case FaithfulEquality => EqualityIsFaithful(c, reach)
  }

  /**
   * What both soundness arguments ask. The schemas `c` are compared, references resolved inside
   * them; `dl` and `dr` are the documents that give them their meaning, from which they may be cut out.
   */
  ghost predicate Hypotheses(c: Roots, dl: Document, dr: Document, reach: set<Pair>) {
    && Guarded(dl) && Guarded(dr) && Explored(c, reach)
    && AllOfsStandAlone(reach) && KindsDeclared(reach)
    && ReferencesAgree(c, dl, dr, reach) && EqualityIsFaithful(c, reach)
  }

  lemma ArrivalIsReached(c: Roots, reach: set<Pair>, q: Pair)
    requires Explored(c, reach) && Arrives(c, reach, q)
    ensures Reached(reach, q)
  {
  }

  lemma ArrivalStep(c: Roots, dl: Document, dr: Document, reach: set<Pair>, q: Pair, v: Json)
    requires Hypotheses(c, dl, dr, reach) && Arrives(c, reach, q)
    requires Immediate(q.0.value, q.1.value) == Some(Proven)
    ensures Carries(dl, dr, q, v)
  {
    ImmediateStep(dl, dr, q, v);
  }

  // ---------- One step, for any plan ----------

  ghost predicate PlanCarries(dl: Document, dr: Document, plan: Plan, v: Json)
    requires Guarded(dl) && Guarded(dr)
  {
    match plan
    case Settled(relation) => relation == Proven
    case Every(local, pairs) => local == Proven && CarriesAll(dl, dr, pairs, v)
    case AnyOne(pairs) => exists i :: 0 <= i < |pairs| && Carries(dl, dr, pairs[i], v)
  }

  /** A pair decided on the instance itself: by reference or by a combinator. */
  predicate InPlace(p: Pair) {
    Has(p.0.value, "$ref") || Has(p.1.value, "$ref") || CombinationPlan(p.0, p.1).Some?
  }

  lemma InsideResolvedAlike(c: Roots, dl: Document, dr: Document, p: Pair)
    requires KeepsReferences(c.left, dl) && KeepsReferences(c.right, dr)
    requires PairInside(c, p)
    ensures ResolvedAlike(c, dl, dr, p)
  {
    if p.0.value.Obj? { OccurrenceIsSubValue(Occurrence([], c.left), p.0); }
    if p.1.value.Obj? { OccurrenceIsSubValue(Occurrence([], c.right), p.1); }
  }

  lemma InPlaceStep(c: Roots, dl: Document, dr: Document, reach: set<Pair>, p: Pair, v: Json)
    requires Hypotheses(c, dl, dr, reach) && p in reach && InPlace(p)
    requires PlanCarries(dl, dr, PlanFor(c, p.0, p.1), v)
    ensures Carries(dl, dr, p, v)
  {
    var (l, r) := p;
    if Refers(p) {
      InsideResolvedAlike(c, dl, dr, p);
      RefStep(c, dl, dr, p, v);
    } else if HasList(l.value, "anyOf") {
      LeftUnionStep(dl, dr, p, "anyOf", v);
    } else if HasList(l.value, "oneOf") {
      LeftUnionStep(dl, dr, p, "oneOf", v);
    } else if HasList(r.value, "allOf") {
      RightAllStep(dl, dr, p, v);
    } else if HasList(l.value, "allOf") {
      var pairs := LeftBranchPairs(l, r, "allOf");
      var i :| 0 <= i < |pairs| && Carries(dl, dr, pairs[i], v);
      LeftAllStep(dl, dr, p, i, v);
    }
  }

  lemma NestedStep(c: Roots, dl: Document, dr: Document, reach: set<Pair>, p: Pair, v: Json)
    requires Hypotheses(c, dl, dr, reach) && p in reach && !InPlace(p)
    requires Accepts(PlanFor(c, p.0, p.1))
    requires var pairs := PlanPairs(PlanFor(c, p.0, p.1));
      && (v.Obj? ==> forall name :: name in v.fields ==> CarriesAll(dl, dr, pairs, v.fields[name]))
      && (v.Arr? ==> forall i :: 0 <= i < |v.items| ==> CarriesAll(dl, dr, pairs, v.items[i]))
    ensures Carries(dl, dr, p, v)
  {
    if FiniteApplies(p.0.value, p.1.value) {
      FiniteStep(dl, dr, p, v);
    } else {
      assert ComparedPlainly(p) && PlanFor(c, p.0, p.1) == PlainPlan(p.0, p.1);
      PlainStep(dl, dr, p, v);
    }
  }

  /** The part of a plan that is decided without recursion. */
  predicate Accepts(plan: Plan) {
    match plan
    case Settled(relation) => relation == Proven
    case Every(local, _) => local == Proven
    case AnyOne(_) => true
  }

  // ---------- Cyclic graphs: the visited set is a simulation ----------

  predicate Covered(s: set<Pair>, q: Pair) {
    Immediate(q.0.value, q.1.value) == Some(Proven) || q in s
  }

  /** The pair's own checks pass and each pair it depends on is in `s` or immediately proven. */
  ghost predicate Justified(c: Roots, s: set<Pair>, p: Pair) {
    var plan := PlanFor(c, p.0, p.1);
    Accepts(plan) && !plan.AnyOne? && forall q :: q in PlanPairs(plan) ==> Covered(s, q)
  }

  ghost predicate Simulation(c: Roots, s: set<Pair>) {
    forall p :: p in s ==> Justified(c, s, p)
  }

  /** Every pair added on the way from `before` to `after` is justified in `after`. */
  ghost predicate Added(c: Roots, before: set<Pair>, after: set<Pair>) {
    before <= after && forall q :: q in after && q !in before ==> Justified(c, after, q)
  }

  lemma AddedCompose(c: Roots, a: set<Pair>, b: set<Pair>, d: set<Pair>)
    requires Added(c, a, b) && Added(c, b, d)
    ensures Added(c, a, d)
  {
    forall q | q in d && q !in a ensures Justified(c, d, q) {
      if q in b { assert Justified(c, b, q); }
    }
  }

  /** A proven run justifies every pair it added, and covers the pair it was asked about. */
  lemma {:induction false} ProvenRunJustifies(c: Roots, p: Pair, visited: set<Pair>, reach: set<Pair>)
    requires PairInside(c, p) && ClosedUnderPlans(c, reach) && NoLeftAllOf(c, reach)
    requires Reached(reach, p) && visited <= reach
    requires Compare(c, p, visited).relation == Proven
    ensures Covered(Compare(c, p, visited).visited, p)
    ensures Compare(c, p, visited).visited <= reach
    ensures Added(c, visited, Compare(c, p, visited).visited)
    decreases AllPairs(c) - visited, 0
  {
    if Immediate(p.0.value, p.1.value).None? && p !in visited {
      PlanStaysInside(c, p.0, p.1);
      var grown := visited + {p};
      assert p in AllPairs(c) - visited && p !in AllPairs(c) - grown;
      assert AllPairs(c) - grown < AllPairs(c) - visited;
      var plan := PlanFor(c, p.0, p.1);
      match plan
      case Settled(relation) =>
      case AnyOne(_) =>
      case Every(local, pairs) =>
        var each := CompareEach(c, pairs, grown);
        EveryProven(local, each.relations);
        ProvenRunsJustify(c, pairs, grown, reach);
        assert Justified(c, each.visited, p);
    }
  }

  lemma EveryProven(local: Relation, relations: seq<Relation>)
    ensures Combine([local] + relations) == Proven <==> local == Proven && AllProven(relations)
  {
    AllProvenSplit([local], relations);
    assert [local][0] == local;
  }

  ghost predicate AllCovered(s: set<Pair>, pairs: seq<Pair>) {
    forall i :: 0 <= i < |pairs| ==> Covered(s, pairs[i])
  }

  lemma CoveredFirst(before: set<Pair>, after: set<Pair>, pairs: seq<Pair>)
    requires pairs != [] && before <= after
    requires Covered(before, pairs[0]) && AllCovered(after, pairs[1..])
    ensures AllCovered(after, pairs)
  {
    forall i | 0 <= i < |pairs| ensures Covered(after, pairs[i]) {
      if i > 0 { assert pairs[i] == pairs[1..][i - 1]; }
    }
  }

  lemma {:induction false} ProvenRunsJustify(c: Roots, pairs: seq<Pair>, visited: set<Pair>, reach: set<Pair>)
    requires forall p :: p in pairs ==> PairInside(c, p) && Reached(reach, p)
    requires ClosedUnderPlans(c, reach) && NoLeftAllOf(c, reach) && visited <= reach
    requires AllProven(CompareEach(c, pairs, visited).relations)
    ensures AllCovered(CompareEach(c, pairs, visited).visited, pairs)
    ensures CompareEach(c, pairs, visited).visited <= reach
    ensures Added(c, visited, CompareEach(c, pairs, visited).visited)
    decreases AllPairs(c) - visited, 1, |pairs|
  {
    if pairs == [] {
    } else {
      var first := Compare(c, pairs[0], visited);
      assert AllPairs(c) - first.visited <= AllPairs(c) - visited;
      var rest := CompareEach(c, pairs[1..], first.visited);
      FirstAndRest(first.relation, rest.relations);
      ProvenRunJustifies(c, pairs[0], visited, reach);
      ProvenRunsJustify(c, pairs[1..], first.visited, reach);
      CoveredFirst(first.visited, rest.visited, pairs);
      AddedCompose(c, visited, first.visited, rest.visited);
    }
  }

  lemma FirstAndRest(first: Relation, rest: seq<Relation>)
    ensures AllProven([first] + rest) <==> first == Proven && AllProven(rest)
  {
    AllProvenSplit([first], rest);
    assert [first][0] == first;
  }

  /** Every pair a simulation covers is a subset pair: induction on the instance, then on ranks. */
  lemma {:induction false} SimulationIsSound(
    c: Roots, dl: Document, dr: Document, s: set<Pair>, reach: set<Pair>, p: Pair, v: Json)
    requires Hypotheses(c, dl, dr, reach) && s <= reach && Simulation(c, s)
    requires Arrives(c, reach, p) && Covered(s, p)
    ensures Carries(dl, dr, p, v)
    decreases v, Height(dl, p.0.value) + Height(dr, p.1.value), p.0.value, p.1.value
  {
    if Immediate(p.0.value, p.1.value) == Some(Proven) {
      ArrivalStep(c, dl, dr, reach, p, v);
    } else {
      var pairs := PlanPairs(PlanFor(c, p.0, p.1));
      assert Justified(c, s, p);
      assert forall q :: q in pairs ==> Covered(s, q) && Arrives(c, reach, q);
      if InPlace(p) {
        forall q | q in pairs ensures Carries(dl, dr, q, v) {
          InPlaceDecreases(c, dl, dr, p, q);
          SimulationIsSound(c, dl, dr, s, reach, q, v);
        }
        InPlaceStep(c, dl, dr, reach, p, v);
      } else {
        if v.Obj? {
          forall name | name in v.fields ensures CarriesAll(dl, dr, pairs, v.fields[name]) {
            forall q | q in pairs ensures Carries(dl, dr, q, v.fields[name]) {
              SimulationIsSound(c, dl, dr, s, reach, q, v.fields[name]);
            }
          }
        }
        if v.Arr? {
          forall i | 0 <= i < |v.items| ensures CarriesAll(dl, dr, pairs, v.items[i]) {
            forall q | q in pairs ensures Carries(dl, dr, q, v.items[i]) {
              SimulationIsSound(c, dl, dr, s, reach, q, v.items[i]);
            }
          }
        }
        NestedStep(c, dl, dr, reach, p, v);
      }
    }
  }

  /** Following a reference lowers a rank; opening a combinator keeps ranks and shrinks a schema. */
  lemma InPlaceDecreases(c: Roots, dl: Document, dr: Document, p: Pair, q: Pair)
    requires Guarded(dl) && Guarded(dr) && InPlace(p)
    requires KeepsReferences(c.left, dl) && KeepsReferences(c.right, dr) && PairInside(c, p)
    requires q in PlanPairs(PlanFor(c, p.0, p.1))
    ensures Lower(dl, dr, q, p)
  {
    var (l, r) := p;
    if Refers(p) {
      InsideResolvedAlike(c, dl, dr, p);
      ReferenceDecreases(c, dl, dr, p, q);
    } else {
      var pairs := PlanPairs(PlanFor(c, l, r));
      var i :| 0 <= i < |pairs| && pairs[i] == q;
      if HasList(l.value, "anyOf") { LeftBranchDecreases(dl, dr, p, "anyOf", i); }
      else if HasList(l.value, "oneOf") { LeftBranchDecreases(dl, dr, p, "oneOf", i); }
      else if HasList(r.value, "allOf") { RightBranchDecreases(dl, dr, p, i); }
      else { LeftBranchDecreases(dl, dr, p, "allOf", i); }
    }
  }

  /** Lower ranks, or the same ranks and a smaller schema. */
  ghost predicate Lower(dl: Document, dr: Document, q: Pair, p: Pair) {
    var below, above := Height(dl, q.0.value) + Height(dr, q.1.value), Height(dl, p.0.value) + Height(dr, p.1.value);
    || below < above
    || (below == above && (q.0.value < p.0.value || (q.0.value == p.0.value && q.1.value < p.1.value)))
  }

  lemma ReferenceDecreases(c: Roots, dl: Document, dr: Document, p: Pair, q: Pair)
    requires Guarded(dl) && Guarded(dr) && Refers(p) && ResolvedAlike(c, dl, dr, p)
    requires q in PlanPairs(RefPlan(c, p.0, p.1))
    ensures Lower(dl, dr, q, p)
  {
    if Has(p.0.value, "$ref") { HeightOfRef(dl, p.0.value); }
    if Has(p.1.value, "$ref") { HeightOfRef(dr, p.1.value); }
  }

  lemma LeftBranchDecreases(dl: Document, dr: Document, p: Pair, keyword: string, i: nat)
    requires keyword in {"allOf", "anyOf", "oneOf"} && i < |Branches(p.0.value, keyword)|
    ensures Lower(dl, dr, LeftBranchPairs(p.0, p.1, keyword)[i], p)
  {
    HeightOfBranch(dl, p.0.value, keyword, i);
  }

  lemma RightBranchDecreases(dl: Document, dr: Document, p: Pair, i: nat)
    requires i < |Branches(p.1.value, "allOf")|
    ensures Lower(dl, dr, RightBranchPairs(p.0, p.1, "allOf")[i], p)
  {
    HeightOfBranch(dr, p.1.value, "allOf", i);
  }

  /**
   * Soundness on arbitrary, possibly cyclic, schema graphs: when no left `allOf` takes part,
   * PROVEN means every instance the left schema accepts is accepted by the right one.
   */
  lemma CyclicSoundness(c: Roots, dl: Document, dr: Document, reach: set<Pair>, v: Json)
    requires Hypotheses(c, dl, dr, reach) && NoLeftAllOf(c, reach)
    requires CompareSubset(c.left, c.right) == Proven
    ensures Valid(dl, c.left, v) ==> Valid(dr, c.right, v)
  {
    var final := Compare(c, RootPair(c), {}).visited;
    ProvenRunJustifies(c, RootPair(c), {}, reach);
    SimulationIsSound(c, dl, dr, final, reach, RootPair(c), v);
  }
}
