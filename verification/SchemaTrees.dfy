/**
 * Soundness with left `allOf`, on schemas whose references do not resolve inside them. There every
 * pair of positions is met at most once, so `visited` never answers and a forgiven failure does no harm.
 */
module SchemaTrees {
  import opened Ordering
  import opened JsonValues
  import opened SchemaSemantics
  import opened SchemaRelation
  import opened SchemaSteps
  import opened SchemaSoundness

  // ---------- Positions ----------

  /** Two paths that part at some step: nothing lies below both. */
  predicate Diverge(a: seq<Step>, b: seq<Step>) {
    exists k :: 0 <= k < |a| && k < |b| && a[k] != b[k]
  }

  predicate Under(p: Pair, q: Pair) {
    p.0.path <= q.0.path && p.1.path <= q.1.path
  }

  predicate Apart(p: Pair, q: Pair) {
    Diverge(p.0.path, q.0.path) || Diverge(p.1.path, q.1.path)
  }

  predicate Decided(p: Pair) {
    Immediate(p.0.value, p.1.value).Some?
  }

  predicate Fresh(p: Pair, visited: set<Pair>) {
    Decided(p) || forall q :: q in visited ==> !Under(p, q)
  }

  predicate Separate(p: Pair, q: Pair) {
    Decided(p) || Decided(q) || Apart(p, q)
  }

  predicate AllSeparate(pairs: seq<Pair>) {
    forall i, j :: 0 <= i < j < |pairs| ==> Separate(pairs[i], pairs[j])
  }

  lemma ApartUnder(p: Pair, q: Pair, x: Pair)
    requires Apart(p, q) && Under(p, x)
    ensures !Under(q, x)
  {
    if Diverge(p.0.path, q.0.path) {
      var k :| 0 <= k < |p.0.path| && k < |q.0.path| && p.0.path[k] != q.0.path[k];
      assert x.0.path[k] == p.0.path[k];
    } else {
      var k :| 0 <= k < |p.1.path| && k < |q.1.path| && p.1.path[k] != q.1.path[k];
      assert x.1.path[k] == p.1.path[k];
    }
  }

  // ---------- The pairs of one plan ----------

  /** A sub-pair stands strictly below its pair. */
  predicate Below(p: Pair, q: Pair) {
    Decided(q) || (Under(p, q) && |p.0.path| + |p.1.path| < |q.0.path| + |q.1.path|)
  }

  lemma BranchPath(o: Occurrence, keyword: string, i: nat)
    requires i < |BranchOccurrences(o, keyword)|
    ensures BranchOccurrences(o, keyword)[i].path == o.path + [Field(keyword), Index(i)]
  {
  }

  lemma PropertyPath(o: Occurrence, name: string)
    requires name in Properties(o.value)
    ensures PropertySchema(o, name).path == o.path + [Field("properties"), Field(name)]
  {
  }

  lemma DivergeAfter(base: seq<Step>, a: seq<Step>, b: seq<Step>, k: nat)
    requires k < |a| && k < |b| && a[k] != b[k]
    ensures Diverge(base + a, base + b)
  {
    assert (base + a)[|base| + k] == a[k] && (base + b)[|base| + k] == b[k];
  }

  lemma CombinationPairs(l: Occurrence, r: Occurrence)
    requires CombinationPlan(l, r).Some?
    ensures var pairs := PlanPairs(CombinationPlan(l, r).value);
      AllSeparate(pairs) && forall q :: q in pairs ==> Below((l, r), q)
  {
    var pairs := PlanPairs(CombinationPlan(l, r).value);
    var keyword :=
      if HasList(l.value, "anyOf") then "anyOf" else if HasList(l.value, "oneOf") then "oneOf" else "allOf";
    var side := if HasList(l.value, "anyOf") || HasList(l.value, "oneOf") || !HasList(r.value, "allOf") then l else r;
    forall i | 0 <= i < |pairs| ensures Below((l, r), pairs[i]) {
      BranchPath(side, keyword, i);
    }
    forall i, j | 0 <= i < j < |pairs| ensures Separate(pairs[i], pairs[j]) {
      BranchPath(side, keyword, i);
      BranchPath(side, keyword, j);
      DivergeAfter(side.path, [Field(keyword), Index(i)], [Field(keyword), Index(j)], 1);
    }
  }

  /** `path` goes from `base` through the keyword `key`. */
  predicate Through(base: seq<Step>, key: string, path: seq<Step>) {
    base + [Field(key)] <= path
  }

  lemma ThroughDiverge(base: seq<Step>, a: string, x: seq<Step>, b: string, y: seq<Step>)
    requires Through(base, a, x) && Through(base, b, y) && a != b
    ensures Diverge(x, y)
  {
    assert x[|base|] == (base + [Field(a)])[|base|] == Field(a);
    assert y[|base|] == (base + [Field(b)])[|base|] == Field(b);
  }

  /** Pairs compared through the given keywords of the two schemas. */
  predicate AllThrough(l: Occurrence, r: Occurrence, leftKey: Option<string>, rightKey: string, pairs: seq<Pair>) {
    forall q :: q in pairs ==>
      || Decided(q)
      || (Through(r.path, rightKey, q.1.path)
          && if leftKey.Some? then Through(l.path, leftKey.value, q.0.path) else l.path <= q.0.path)
  }

  lemma SeparateConcat(a: seq<Pair>, b: seq<Pair>)
    requires AllSeparate(a) && AllSeparate(b)
    requires forall p, q :: p in a && q in b ==> Separate(p, q)
    ensures AllSeparate(a + b)
  {
    var all := a + b;
    forall i, j | 0 <= i < j < |all| ensures Separate(all[i], all[j]) {
      if j < |a| { assert all[i] == a[i] && all[j] == a[j]; }
      else if i < |a| { assert all[i] in a && all[j] in b; }
      else { assert all[i] == b[i - |a|] && all[j] == b[j - |a|]; }
    }
  }

  lemma SharedPairsSeparate(l: Occurrence, r: Occurrence)
    ensures AllSeparate(SharedPairs(l, r)) && AllThrough(l, r, None, "properties", SharedPairs(l, r))
  {
    var names, pairs := Sorted(SharedNames(l, r)), SharedPairs(l, r);
    SortedDistinct(SharedNames(l, r));
    forall i | 0 <= i < |pairs|
      ensures pairs[i].1.path == r.path + [Field("properties"), Field(names[i])]
      ensures Decided(pairs[i]) || l.path <= pairs[i].0.path
      ensures Through(r.path, "properties", pairs[i].1.path)
    {
      assert names[i] in SharedNames(l, r);
      PropertyPath(r, names[i]);
      if names[i] in Properties(l.value) { PropertyPath(l, names[i]); }
    }
    forall i, j | 0 <= i < j < |pairs| ensures Separate(pairs[i], pairs[j]) {
      DivergeAfter(r.path, [Field("properties"), Field(names[i])], [Field("properties"), Field(names[j])], 1);
    }
  }

  lemma LeftOnlyPairsSeparate(l: Occurrence, r: Occurrence)
    requires AdditionalSchema(r).value.Obj?
    ensures AllSeparate(LeftOnlyPairs(l, r))
    ensures AllThrough(l, r, Some("properties"), "additionalProperties", LeftOnlyPairs(l, r))
  {
    var names, pairs := Sorted(LeftOnlyNames(l, r)), LeftOnlyPairs(l, r);
    SortedDistinct(LeftOnlyNames(l, r));
    forall i | 0 <= i < |pairs|
      ensures pairs[i].0.path == l.path + [Field("properties"), Field(names[i])]
      ensures Through(l.path, "properties", pairs[i].0.path) && Through(r.path, "additionalProperties", pairs[i].1.path)
    {
      assert names[i] in LeftOnlyNames(l, r);
      PropertyPath(l, names[i]);
    }
    forall i, j | 0 <= i < j < |pairs| ensures Separate(pairs[i], pairs[j]) {
      DivergeAfter(l.path, [Field("properties"), Field(names[i])], [Field("properties"), Field(names[j])], 1);
    }
  }

  /** Two blocks that go through different right keywords, or different left ones, are separate. */
  lemma BlocksSeparate(l: Occurrence, r: Occurrence, al: Option<string>, ar: string, a: seq<Pair>,
                       bl: Option<string>, br: string, b: seq<Pair>)
    requires AllThrough(l, r, al, ar, a) && AllThrough(l, r, bl, br, b)
    requires ar != br || (al.Some? && bl.Some? && al != bl)
    ensures forall p, q :: p in a && q in b ==> Separate(p, q)
  {
    forall p, q | p in a && q in b ensures Separate(p, q) {
      if !Decided(p) && !Decided(q) {
        if ar != br { ThroughDiverge(r.path, ar, p.1.path, br, q.1.path); }
        else { ThroughDiverge(l.path, al.value, p.0.path, bl.value, q.0.path); }
      }
    }
  }

  lemma ThroughIsBelow(l: Occurrence, r: Occurrence, leftKey: Option<string>, rightKey: string, pairs: seq<Pair>)
    requires AllThrough(l, r, leftKey, rightKey, pairs)
    ensures forall q :: q in pairs ==> Below((l, r), q)
  {
  }

  lemma SeparateFromConcat(a: seq<Pair>, b: seq<Pair>, c: seq<Pair>)
    requires forall p, q :: p in a && q in c ==> Separate(p, q)
    requires forall p, q :: p in b && q in c ==> Separate(p, q)
    ensures forall p, q :: p in a + b && q in c ==> Separate(p, q)
  {
  }

  lemma PlainPairsSeparate(l: Occurrence, r: Occurrence)
    ensures AllSeparate(PlainPairs(l, r))
    ensures forall q :: q in PlainPairs(l, r) ==> Below((l, r), q)
  {
    var open := AdditionalSchema(r).value.Obj?;
    var shared := SharedPairs(l, r);
    var leftOnly := if open then LeftOnlyPairs(l, r) else [];
    var additional :=
      if open && AdditionalSchema(l).value != Bool(false) then [(AdditionalSchema(l), AdditionalSchema(r))] else [];
    var items := if ComparesArrays(l.value, r.value) then [(ItemSchema(l), ItemSchema(r))] else [];
    SharedPairsSeparate(l, r);
    if open { LeftOnlyPairsSeparate(l, r); }
    assert AllThrough(l, r, Some("properties"), "additionalProperties", leftOnly);
    assert AllThrough(l, r, Some("additionalProperties"), "additionalProperties", additional);
    assert AllThrough(l, r, Some("items"), "items", items);
    assert AllThrough(l, r, None, "items", items);
    ThroughIsBelow(l, r, None, "properties", shared);
    ThroughIsBelow(l, r, Some("properties"), "additionalProperties", leftOnly);
    ThroughIsBelow(l, r, Some("additionalProperties"), "additionalProperties", additional);
    ThroughIsBelow(l, r, Some("items"), "items", items);
    BlocksSeparate(l, r, None, "properties", shared, Some("properties"), "additionalProperties", leftOnly);
    BlocksSeparate(l, r, None, "properties", shared, Some("additionalProperties"), "additionalProperties", additional);
    BlocksSeparate(l, r, None, "properties", shared, Some("items"), "items", items);
    BlocksSeparate(l, r, Some("properties"), "additionalProperties", leftOnly,
                   Some("additionalProperties"), "additionalProperties", additional);
    BlocksSeparate(l, r, Some("properties"), "additionalProperties", leftOnly, Some("items"), "items", items);
    BlocksSeparate(
      l, r, Some("additionalProperties"), "additionalProperties", additional, Some("items"), "items", items);
    SeparateConcat(shared, leftOnly);
    SeparateFromConcat(shared, leftOnly, additional);
    SeparateConcat(shared + leftOnly, additional);
    SeparateFromConcat(shared, leftOnly, items);
    SeparateFromConcat(shared + leftOnly, additional, items);
    SeparateConcat(shared + leftOnly + additional, items);
    if ComparesObjects(l.value, r.value) && ReadableObjects(l.value, r.value) {
      assert PlainPairs(l, r) == shared + leftOnly + additional + items;
    } else {
      assert PlainPairs(l, r) == items;
    }
  }

  lemma PlanPairsSeparate(c: Roots, l: Occurrence, r: Occurrence)
    requires !Has(l.value, "$ref") && !Has(r.value, "$ref")
    ensures var pairs := PlanPairs(PlanFor(c, l, r));
      AllSeparate(pairs) && forall q :: q in pairs ==> Below((l, r), q)
  {
    if CombinationPlan(l, r).Some? {
      CombinationPairs(l, r);
    } else {
      PlainPairsSeparate(l, r);
    }
  }

  // ---------- Runs on trees ----------

  /** A pair with a dangling reference is settled without recursion. */
  lemma DanglingPlan(c: Roots, p: Pair)
    requires NothingResolves(c.left) && NothingResolves(c.right) && PairInside(c, p) && Refers(p)
    ensures PlanFor(c, p.0, p.1) == Settled(Unknown)
  {
    if p.0.value.Obj? { OccurrenceIsSubValue(Occurrence([], c.left), p.0); }
    if p.1.value.Obj? { OccurrenceIsSubValue(Occurrence([], c.right), p.1); }
  }

  ghost predicate CarriesAlways(dl: Document, dr: Document, p: Pair)
    requires Guarded(dl) && Guarded(dr)
  {
    forall v :: Carries(dl, dr, p, v)
  }

  /** A run on a fresh pair touches only what lies below it, and its PROVEN is sound. */
  ghost predicate RunIsSound(dl: Document, dr: Document, p: Pair, visited: set<Pair>, out: Outcome)
    requires Guarded(dl) && Guarded(dr)
  {
    && (forall q :: q in out.visited && q !in visited ==> !Decided(p) && Under(p, q))
    && (out.relation == Proven ==> CarriesAlways(dl, dr, p))
  }

  ghost predicate RunsAreSound(dl: Document, dr: Document, pairs: seq<Pair>, visited: set<Pair>, out: Outcomes)
    requires Guarded(dl) && Guarded(dr)
  {
    && |out.relations| == |pairs|
    && (forall q :: q in out.visited && q !in visited ==>
          exists i :: 0 <= i < |pairs| && !Decided(pairs[i]) && Under(pairs[i], q))
    && (forall i :: 0 <= i < |pairs| && out.relations[i] == Proven ==> CarriesAlways(dl, dr, pairs[i]))
  }

  lemma TreePlan(c: Roots, p: Pair, reach: set<Pair>)
    requires Explored(c, reach) && NothingResolves(c.left) && NothingResolves(c.right) && p in reach
    ensures var pairs := PlanPairs(PlanFor(c, p.0, p.1));
      && AllSeparate(pairs)
      && forall q :: q in pairs ==> PairInside(c, q) && Arrives(c, reach, q) && Below(p, q)
  {
    PlanStaysInside(c, p.0, p.1);
    if Refers(p) {
      DanglingPlan(c, p);
    } else {
      PlanPairsSeparate(c, p.0, p.1);
    }
  }

  lemma {:induction false} TreeRun(c: Roots, dl: Document, dr: Document, p: Pair, visited: set<Pair>, reach: set<Pair>)
    requires Hypotheses(c, dl, dr, reach) && NothingResolves(c.left) && NothingResolves(c.right)
    requires PairInside(c, p) && Arrives(c, reach, p) && Fresh(p, visited)
    ensures RunIsSound(dl, dr, p, visited, Compare(c, p, visited))
    decreases AllPairs(c) - visited, 0
  {
    if Decided(p) {
      if Compare(c, p, visited).relation == Proven {
        forall v ensures Carries(dl, dr, p, v) { ArrivalStep(c, dl, dr, reach, p, v); }
      }
    } else {
      ArrivalIsReached(c, reach, p);
      assert Under(p, p);
      TreePlan(c, p, reach);
      var grown := visited + {p};
      assert p in AllPairs(c) - visited && p !in AllPairs(c) - grown;
      assert AllPairs(c) - grown < AllPairs(c) - visited;
      var pairs := PlanPairs(PlanFor(c, p.0, p.1));
      forall q | q in pairs ensures Fresh(q, grown) {
        ChildStaysFresh(p, q, visited);
      }
      TreeRuns(c, dl, dr, pairs, grown, reach);
      var each := CompareEach(c, pairs, grown);
      TreeRunTouches(dl, dr, p, pairs, visited, each);
      assert Compare(c, p, visited).visited == each.visited;
      if Compare(c, p, visited).relation == Proven {
        forall v ensures Carries(dl, dr, p, v) { PlanIsSound(c, dl, dr, p, each.relations, reach, v); }
      }
    }
  }

  lemma TreeRunTouches(dl: Document, dr: Document, p: Pair, pairs: seq<Pair>, visited: set<Pair>, each: Outcomes)
    requires Guarded(dl) && Guarded(dr)
    requires RunsAreSound(dl, dr, pairs, visited + {p}, each)
    requires forall q :: q in pairs ==> Below(p, q)
    ensures forall x :: x in each.visited && x !in visited ==> Under(p, x)
  {
    forall x | x in each.visited && x !in visited ensures Under(p, x) {
      if x != p {
        var i :| 0 <= i < |pairs| && !Decided(pairs[i]) && Under(pairs[i], x);
        assert pairs[i] in pairs && Below(p, pairs[i]);
        UnderTransitive(p, pairs[i], x);
      }
    }
  }

  lemma ChildStaysFresh(p: Pair, q: Pair, visited: set<Pair>)
    requires Fresh(p, visited) && !Decided(p) && Below(p, q)
    ensures Fresh(q, visited + {p})
  {
    if !Decided(q) {
      forall x | x in visited + {p} ensures !Under(q, x) {
        if x in visited && Under(q, x) { UnderTransitive(p, q, x); }
      }
    }
  }

  lemma UnderTransitive(p: Pair, q: Pair, x: Pair)
    requires Under(p, q) && Under(q, x)
    ensures Under(p, x)
  {
  }

  /** The relation `Compare` reports once the plan's pairs are compared. */
  predicate AnswerFrom(plan: Plan, relations: seq<Relation>, relation: Relation) {
    relation ==
    match plan
    case Settled(settled) => settled
    case Every(local, _) => Combine([local] + relations)
    case AnyOne(_) => if Proven in relations then Proven else Unknown
  }

  /** From the relations of a plan's pairs to the pair, at one instance. */
  lemma PlanIsSound(
    c: Roots, dl: Document, dr: Document, p: Pair, relations: seq<Relation>, reach: set<Pair>, v: Json)
    requires Hypotheses(c, dl, dr, reach) && p in reach
    requires var plan := PlanFor(c, p.0, p.1);
      && |relations| == |PlanPairs(plan)|
      && (forall i :: 0 <= i < |relations| && relations[i] == Proven ==> CarriesAlways(dl, dr, PlanPairs(plan)[i]))
      && AnswerFrom(plan, relations, Proven)
    ensures Carries(dl, dr, p, v)
  {
    var plan := PlanFor(c, p.0, p.1);
    var pairs := PlanPairs(plan);
    if plan.Every? {
      EveryProven(plan.local, relations);
      forall q, w | q in pairs ensures Carries(dl, dr, q, w) {
        var i :| 0 <= i < |pairs| && pairs[i] == q;
        assert CarriesAlways(dl, dr, pairs[i]);
      }
    } else if plan.AnyOne? {
      var i :| 0 <= i < |relations| && relations[i] == Proven;
      assert CarriesAlways(dl, dr, pairs[i]);
      assert Carries(dl, dr, pairs[i], v);
    }
    if InPlace(p) {
      InPlaceStep(c, dl, dr, reach, p, v);
    } else {
      NestedStep(c, dl, dr, reach, p, v);
    }
  }

  lemma {:induction false} TreeRuns(
    c: Roots, dl: Document, dr: Document, pairs: seq<Pair>, visited: set<Pair>, reach: set<Pair>)
    requires Hypotheses(c, dl, dr, reach) && NothingResolves(c.left) && NothingResolves(c.right)
    requires forall p :: p in pairs ==> PairInside(c, p) && Arrives(c, reach, p) && Fresh(p, visited)
    requires AllSeparate(pairs)
    ensures RunsAreSound(dl, dr, pairs, visited, CompareEach(c, pairs, visited))
    decreases AllPairs(c) - visited, 1, |pairs|
  {
    if pairs == [] {
    } else {
      var first := Compare(c, pairs[0], visited);
      assert AllPairs(c) - first.visited <= AllPairs(c) - visited;
      TreeRun(c, dl, dr, pairs[0], visited, reach);
      RestStaysFresh(dl, dr, pairs, visited, first);
      TreeRuns(c, dl, dr, pairs[1..], first.visited, reach);
      RunsCompose(dl, dr, pairs, visited, first, CompareEach(c, pairs[1..], first.visited));
    }
  }

  lemma RestStaysFresh(dl: Document, dr: Document, pairs: seq<Pair>, visited: set<Pair>, first: Outcome)
    requires Guarded(dl) && Guarded(dr) && pairs != [] && AllSeparate(pairs)
    requires forall p :: p in pairs ==> Fresh(p, visited)
    requires RunIsSound(dl, dr, pairs[0], visited, first)
    ensures AllSeparate(pairs[1..])
    ensures forall p :: p in pairs[1..] ==> Fresh(p, first.visited)
  {
    var tail := pairs[1..];
    forall i, j | 0 <= i < j < |tail| ensures Separate(tail[i], tail[j]) {
      assert Separate(pairs[i + 1], pairs[j + 1]);
    }
    forall p | p in tail ensures Fresh(p, first.visited) {
      var j :| 0 <= j < |tail| && tail[j] == p;
      assert Separate(pairs[0], pairs[j + 1]) && pairs[j + 1] in pairs;
      SiblingStaysFresh(pairs[0], p, visited, first.visited);
    }
  }

  lemma RunsCompose(dl: Document, dr: Document, pairs: seq<Pair>, visited: set<Pair>, first: Outcome, rest: Outcomes)
    requires Guarded(dl) && Guarded(dr) && pairs != []
    requires RunIsSound(dl, dr, pairs[0], visited, first)
    requires RunsAreSound(dl, dr, pairs[1..], first.visited, rest)
    ensures RunsAreSound(dl, dr, pairs, visited, Outcomes([first.relation] + rest.relations, rest.visited))
  {
    var tail := pairs[1..];
    forall q | q in rest.visited && q !in visited
      ensures exists i :: 0 <= i < |pairs| && !Decided(pairs[i]) && Under(pairs[i], q)
    {
      if q in first.visited {
        assert !Decided(pairs[0]) && Under(pairs[0], q);
      } else {
        var i :| 0 <= i < |tail| && !Decided(tail[i]) && Under(tail[i], q);
        assert pairs[i + 1] == tail[i];
      }
    }
    var relations := [first.relation] + rest.relations;
    forall i | 0 <= i < |pairs| && relations[i] == Proven ensures CarriesAlways(dl, dr, pairs[i]) {
      if i > 0 {
        assert relations[i] == rest.relations[i - 1] && pairs[i] == tail[i - 1];
      }
    }
  }

  lemma SiblingStaysFresh(p: Pair, q: Pair, visited: set<Pair>, after: set<Pair>)
    requires Separate(p, q) && Fresh(q, visited)
    requires forall x :: x in after && x !in visited ==> !Decided(p) && Under(p, x)
    ensures Fresh(q, after)
  {
    if !Decided(q) {
      forall x | x in after ensures !Under(q, x) {
        if x !in visited { ApartUnder(p, q, x); }
      }
    }
  }

  /** Soundness over the whole handled vocabulary, left `allOf` included, where no reference resolves. */
  lemma TreeSoundness(c: Roots, dl: Document, dr: Document, reach: set<Pair>, v: Json)
    requires Hypotheses(c, dl, dr, reach) && NothingResolves(c.left) && NothingResolves(c.right)
    requires CompareSubset(c.left, c.right) == Proven
    ensures Valid(dl, c.left, v) ==> Valid(dr, c.right, v)
  {
    TreeRun(c, dl, dr, RootPair(c), {}, reach);
    assert Carries(dl, dr, RootPair(c), v);
  }

  /**
   * The module's claim, "sound": PROVEN means subset whenever a forgiven failure cannot be met
   * again, either because no left `allOf` is compared or because no reference resolves.
   */
  lemma SubsetSoundness(c: Roots, dl: Document, dr: Document, reach: set<Pair>, v: Json)
    requires Hypotheses(c, dl, dr, reach) && NoForgivenRevisit(c, reach)
    requires CompareSubset(c.left, c.right) == Proven
    ensures Valid(dl, c.left, v) ==> Valid(dr, c.right, v)
  {
    if NoLeftAllOf(c, reach) {
      CyclicSoundness(c, dl, dr, reach, v);
    } else {
      TreeSoundness(c, dl, dr, reach, v);
    }
  }

  // ---------- Schemas cut out of documents ----------

  /** Everything the subset argument asks of two schemas and the documents they are cut out of. */
  ghost predicate Trusted(c: Roots, dl: Document, dr: Document, reach: set<Pair>) {
    Hypotheses(c, dl, dr, reach) && NoForgivenRevisit(c, reach)
  }

  ghost predicate Comparable(left: Json, right: Json, dl: Document, dr: Document) {
    exists reach :: Trusted(Roots(left, right), dl, dr, reach)
  }

  /** Soundness for schemas cut out of larger documents, references into those documents included. */
  lemma CutOutSubset(left: Json, right: Json, dl: Document, dr: Document, v: Json)
    requires Comparable(left, right, dl, dr) && CompareSubset(left, right) == Proven
    requires Guarded(dl) && Guarded(dr)
    ensures Valid(dl, left, v) ==> Valid(dr, right, v)
  {
    var reach :| Trusted(Roots(left, right), dl, dr, reach);
    SubsetSoundness(Roots(left, right), dl, dr, reach, v);
  }
}
