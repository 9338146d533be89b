/** The domain dependency graph: validation by peeling, topological ranks and cycles. */
module DomainGraph {
  import opened Ordering

  /** The reference a domain keeps to its confirmed decision. */
  datatype Reference = Reference(domainId: string, revision: nat, digest: string)

  datatype Domain = Domain(
    id: string, candidates: seq<string>, dependencies: set<string>, reference: Option<Reference>)

  datatype DomainMap = DomainMap(domains: seq<Domain>, unclassified: seq<string>, preferredOrder: seq<string>)

  /** Dependencies by domain identifier. */
  type Graph = map<string, set<string>>

  // ---------- Ranks and cycles ----------

  /** Every dependency inside the graph ranks below its dependent. */
  ghost predicate Ranked(g: Graph, rank: map<string, nat>) {
    && g.Keys <= rank.Keys
    && forall d, e :: d in g && e in g[d] && e in g ==> rank[e] < rank[d]
  }

  ghost predicate HasRank(g: Graph) {
    exists rank :: Ranked(g, rank)
  }

  /** A walk along dependencies. */
  predicate Walk(g: Graph, p: seq<string>) {
    && (forall i :: 0 <= i < |p| ==> p[i] in g)
    && forall i :: 0 <= i < |p| - 1 ==> p[i + 1] in g[p[i]]
  }

  ghost predicate HasCycle(g: Graph) {
    exists p :: Walk(g, p) && |p| >= 2 && p[0] == p[|p| - 1]
  }

  lemma {:induction false} RankFalls(g: Graph, rank: map<string, nat>, p: seq<string>)
    requires Ranked(g, rank) && Walk(g, p) && |p| >= 2
    ensures rank[p[|p| - 1]] < rank[p[0]]
  {
    var n := |p| - 1;
    assert p[n] in g[p[n - 1]];
    if n <= 1 {
    } else {
      RankFalls(g, rank, p[..n]);
    }
  }

  lemma RankExcludesCycle(g: Graph, rank: map<string, nat>)
    requires Ranked(g, rank)
    ensures !HasCycle(g)
  {
    if p :| Walk(g, p) && |p| >= 2 && p[0] == p[|p| - 1] {
      RankFalls(g, rank, p);
    }
  }

  function Members(p: seq<string>): (s: set<string>)
    ensures forall x :: x in s <==> x in p
  {
    set x | x in p
  }

  /** A walk that cannot leave `stuck` must meet itself: there are only finitely many domains. */
  lemma {:induction false} WalkMeetsItself(g: Graph, stuck: set<string>, p: seq<string>)
    requires stuck <= g.Keys
    requires forall d :: d in stuck ==> g[d] * stuck != {}
    requires p != [] && Walk(g, p) && forall x :: x in p ==> x in stuck
    requires forall i, j :: 0 <= i < j < |p| ==> p[i] != p[j]
    ensures HasCycle(g)
    decreases stuck - Members(p)
  {
    var last := p[|p| - 1];
    assert last in p;
    var next :| next in g[last] * stuck;
    var longer := p + [next];
    assert Walk(g, longer);
    if next in p {
      var i :| 0 <= i < |p| && p[i] == next;
      var loop := longer[i..];
      assert Walk(g, loop) && loop[0] == loop[|loop| - 1];
    } else {
      assert next in stuck - Members(p) && next !in stuck - Members(longer);
      assert stuck - Members(longer) <= stuck - Members(p);
      WalkMeetsItself(g, stuck, longer);
    }
  }

  lemma StuckHasCycle(g: Graph, stuck: set<string>)
    requires stuck != {} && stuck <= g.Keys
    requires forall d :: d in stuck ==> g[d] * stuck != {}
    ensures HasCycle(g)
  {
    var d :| d in stuck;
    WalkMeetsItself(g, stuck, [d]);
  }

  /** Remove domains whose remaining dependencies are gone, round after round. */
  method Peel(g: Graph) returns (acyclic: bool)
    ensures acyclic <==> HasRank(g)
    ensures acyclic <==> !HasCycle(g)
  {
    var remaining := g.Keys;
    ghost var rank: map<string, nat> := map[];
    ghost var round: nat := 0;
    while remaining != {}
      invariant remaining <= g.Keys
      invariant rank.Keys == g.Keys - remaining
      invariant forall d :: d in rank ==> rank[d] < round
      invariant forall d, e :: d in rank && e in g[d] && e in g ==> e in rank && rank[e] < rank[d]
      decreases remaining
    {
      var ready := set d | d in remaining && g[d] * remaining == {};
      if ready == {} {
        assert forall d :: d in remaining && g[d] * remaining == {} ==> d in ready;
        StuckHasCycle(g, remaining);
        forall r | Ranked(g, r) ensures false { RankExcludesCycle(g, r); }
        return false;
      }
      ReadyIsRanked(g, remaining, ready, rank, round);
      rank := rank + map d | d in ready :: round;
      round := round + 1;
      remaining := remaining - ready;
    }
    assert Ranked(g, rank);
    RankExcludesCycle(g, rank);
    acyclic := true;
  }

  lemma ReadyIsRanked(g: Graph, remaining: set<string>, ready: set<string>, rank: map<string, nat>, round: nat)
    requires remaining <= g.Keys && rank.Keys == g.Keys - remaining
    requires ready == set d | d in remaining && g[d] * remaining == {}
    requires forall d :: d in rank ==> rank[d] < round
    requires forall d, e :: d in rank && e in g[d] && e in g ==> e in rank && rank[e] < rank[d]
    ensures var extended := rank + map d | d in ready :: round;
      forall d, e :: d in extended && e in g[d] && e in g ==> e in extended && extended[e] < extended[d]
  {
    var extended := rank + map d | d in ready :: round;
    forall d, e | d in extended && e in g[d] && e in g ensures e in extended && extended[e] < extended[d] {
      if d in ready {
        assert e !in g[d] * remaining;
      }
    }
  }

  // ---------- The validator ----------

  datatype Problem =
    | RepeatedPreference
    | UnsortedDomains
    | UnknownDependency
    | RepeatedCandidate
    | IncompletePreference
    | DependencyCycle

  function Ids(m: DomainMap): (ids: seq<string>)
    ensures |ids| == |m.domains|
  {
    seq(|m.domains|, i requires 0 <= i < |m.domains| => m.domains[i].id)
  }

  function IdSet(m: DomainMap): set<string> {
    set d | d in m.domains :: d.id
  }

  /** `domain_ids == sorted(set(domain_ids))`. */
  predicate SortedUnique(ids: seq<string>) {
    forall i, j :: 0 <= i < j < |ids| ==> Less(ids[i], ids[j])
  }

  predicate DependenciesKnown(m: DomainMap) {
    forall d :: d in m.domains ==> d.dependencies <= IdSet(m)
  }

  /** Candidates of all domains in order, then the unclassified ones. */
  function AllCandidates(m: DomainMap): seq<string> {
    Flatten(m.domains) + m.unclassified
  }

  function Flatten(domains: seq<Domain>): seq<string> {
    if domains == [] then [] else domains[0].candidates + Flatten(domains[1..])
  }

  /** `preferred_order` is empty, the domains themselves, or a permutation of them. */
  predicate PreferenceComplete(m: DomainMap) {
    m.preferredOrder == [] || m.preferredOrder == Ids(m) || Members(m.preferredOrder) == IdSet(m)
  }

  /** `{domain.id: set(domain.dependency_domain_ids)}`; with repeated ids the last entry counts. */
  function GraphOf(domains: seq<Domain>): (g: Graph)
    ensures g.Keys == set d | d in domains :: d.id
  {
    if domains == [] then map[]
    else
      var last := |domains| - 1;
      assert domains == domains[..last] + [domains[last]];
      GraphOf(domains[..last])[domains[last].id := domains[last].dependencies]
  }

  /** The `seen_candidates` loops. */
  method FirstRepetition(items: seq<string>) returns (distinct: bool)
    ensures distinct <==> Distinct(items)
  {
    var seen: set<string> := {};
    for i := 0 to |items|
      invariant seen == set x | x in items[..i]
      invariant Distinct(items[..i])
    {
      if items[i] in seen {
        var j :| 0 <= j < i && items[..i][j] == items[i];
        return false;
      }
      assert items[..i + 1] == items[..i] + [items[i]];
      seen := seen + {items[i]};
    }
    assert items[..|items|] == items;
    distinct := true;
  }

  lemma SubsetBySize(a: set<string>, b: set<string>)
    requires a <= b
    ensures |a| <= |b| && (|a| == |b| <==> a == b)
  {
    assert b == a + (b - a);
    assert |b| == |a| + |b - a|;
  }

  /** `len(value) == len(set(value))` says that nothing is repeated. */
  lemma {:induction false} DistinctByCount(s: seq<string>)
    ensures |Members(s)| <= |s|
    ensures Distinct(s) <==> |s| == |Members(s)|
  {
    if s == [] {
    } else {
      var init, last := s[..|s| - 1], s[|s| - 1];
      assert s == init + [last];
      DistinctByCount(init);
      var all, before := Members(s), Members(init);
      assert all == before + {last};
      if last in before {
        assert all == before;
        var j :| 0 <= j < |init| && init[j] == last;
        assert s[j] == s[|s| - 1];
      } else {
        assert Distinct(init) ==> Distinct(s);
        assert Distinct(s) ==> Distinct(init);
      }
    }
  }

  /** What a valid domain map is. */
  ghost predicate ValidMap(m: DomainMap) {
    && Distinct(m.preferredOrder)
    && SortedUnique(Ids(m))
    && DependenciesKnown(m)
    && Distinct(AllCandidates(m))
    && PreferenceComplete(m)
    && HasRank(GraphOf(m.domains))
  }

  /** `validate_graph_and_candidate_identity`: accepts exactly the valid maps, rejects exactly by cause. */
  method ValidateMap(m: DomainMap) returns (problem: Option<Problem>)
    ensures problem.None? <==> ValidMap(m)
    ensures problem == Some(DependencyCycle) ==> HasCycle(GraphOf(m.domains))
    ensures problem.None? ==> !HasCycle(GraphOf(m.domains))
  {
    DistinctByCount(m.preferredOrder);
    if |m.preferredOrder| != |Members(m.preferredOrder)| {
      return Some(RepeatedPreference);
    }
    if !SortedUnique(Ids(m)) {
      return Some(UnsortedDomains);
    }
    if !DependenciesKnown(m) {
      return Some(UnknownDependency);
    }
    var distinct := FirstRepetition(AllCandidates(m));
    if !distinct {
      return Some(RepeatedCandidate);
    }
    if !PreferenceComplete(m) {
      return Some(IncompletePreference);
    }
    var acyclic := Peel(GraphOf(m.domains));
    problem := if acyclic then None else Some(DependencyCycle);
  }
}
