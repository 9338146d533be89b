/** Which domain to work on next, and why working through the recommendations never gets stuck. */
module DomainSelector {
  import opened Ordering
  import opened DomainGraph

  datatype Kind = Read | Action | OtherKind

  datatype Decision = Decision(domainId: string, status: string, confirmed: bool, digest: string)

  /** A structurally valid project, as far as the selector reads it. */
  datatype Report = Report(
    domainMap: DomainMap, decisions: map<(string, nat), Decision>, candidates: map<string, Kind>)

  // ---------- Verified completion ----------

  /** The domain refers to an existing, confirmed, completed decision of its own with the same digest. */
  predicate IsVerified(r: Report, d: Domain) {
    && d.reference.Some?
    && var reference := d.reference.value;
       var key := (reference.domainId, reference.revision);
       && key in r.decisions
       && r.decisions[key].domainId == d.id
       && r.decisions[key].status == "completed"
       && r.decisions[key].confirmed
       && r.decisions[key].digest == reference.digest
  }

  function Verified(r: Report): set<string> {
    set d | d in r.domainMap.domains && IsVerified(r, d) :: d.id
  }

  /** `_verified_completed_domain_ids`. */
  method VerifiedCompletedDomainIds(r: Report) returns (completed: set<string>)
    ensures completed == Verified(r)
  {
    completed := {};
    var domains := r.domainMap.domains;
    for i := 0 to |domains|
      invariant completed == set d | d in domains[..i] && IsVerified(r, d) :: d.id
    {
      var domain := domains[i];
      assert domains[..i + 1] == domains[..i] + [domain];
      if domain.reference.None? {
        continue;
      }
      var reference := domain.reference.value;
      var key := (reference.domainId, reference.revision);
      if key in r.decisions {
        var decision := r.decisions[key];
        if decision.domainId == domain.id && decision.status == "completed" && decision.confirmed
           && decision.digest == reference.digest
        {
          completed := completed + {domain.id};
        }
      }
    }
    assert domains[..|domains|] == domains;
  }

  // ---------- Selection ----------

  /** Not completed itself, while everything it depends on is. */
  predicate Selectable(r: Report, d: Domain) {
    d in r.domainMap.domains && d.id !in Verified(r) && d.dependencies <= IdSet(r.domainMap) * Verified(r)
  }

  function Risk(kind: Kind): nat {
    match kind
    case Read => 0
    case Action => 1
    case OtherKind => 2
  }

  /** The greatest risk among the known candidates of a domain; the highest risk when none is known. */
  predicate IsRisk(r: Report, d: Domain, risk: nat) {
    var known := set c | c in d.candidates && c in r.candidates :: Risk(r.candidates[c]);
    if known == {} then risk == 2 else risk in known && forall k :: k in known ==> k <= risk
  }

  method HighestRisk(r: Report, d: Domain) returns (risk: nat)
    ensures IsRisk(r, d, risk)
  {
    var highest: Option<nat> := None;
    for i := 0 to |d.candidates|
      invariant highest.None? ==> forall c :: c in d.candidates[..i] ==> c !in r.candidates
      invariant highest.Some? ==> (
        && (exists c :: c in d.candidates[..i] && c in r.candidates && Risk(r.candidates[c]) == highest.value)
        && forall c :: c in d.candidates[..i] && c in r.candidates ==> Risk(r.candidates[c]) <= highest.value)
    {
      var c := d.candidates[i];
      assert d.candidates[..i + 1] == d.candidates[..i] + [c];
      if c in r.candidates && (highest.None? || Risk(r.candidates[c]) > highest.value) {
        highest := Some(Risk(r.candidates[c]));
      }
    }
    assert d.candidates[..|d.candidates|] == d.candidates;
    risk := if highest.Some? then highest.value else 2;
    ghost var known := set c | c in d.candidates && c in r.candidates :: Risk(r.candidates[c]);
    assert highest.Some? ==> risk in known;
    assert highest.None? ==> known == {};
  }

  /** `{domain_id: index}` over the preferred order. */
  function Places(order: seq<string>): (places: map<string, nat>)
    ensures places.Keys == set id | id in order
  {
    if order == [] then map[]
    else
      var last := |order| - 1;
      assert order == order[..last] + [order[last]];
      Places(order[..last])[order[last] := last]
  }

  function Place(r: Report, id: string): nat {
    var places := Places(r.domainMap.preferredOrder);
    if id in places then places[id] else |places|
  }

  datatype Key = Key(place: nat, risk: nat, id: string)

  /** Tuple order. */
  predicate Before(a: Key, b: Key) {
    || a.place < b.place
    || (a.place == b.place && a.risk < b.risk)
    || (a.place == b.place && a.risk == b.risk && Less(a.id, b.id))
  }

  predicate IsKey(r: Report, d: Domain, key: Key) {
    Selectable(r, d) && key.place == Place(r, d.id) && IsRisk(r, d, key.risk) && key.id == d.id
  }

  /** The identifier of the least selection key. */
  ghost predicate IsNext(r: Report, id: string) {
    exists d, key :: IsKey(r, d, key) && id == d.id
      && forall d', key' :: IsKey(r, d', key') && key' != key ==> Before(key, key')
  }

  /** The recommendation of `status_domains`. */
  method NextDomain(r: Report) returns (next: Option<string>)
    ensures next.None? <==> forall d :: d in r.domainMap.domains ==> !Selectable(r, d)
    ensures next.Some? ==> IsNext(r, next.value)
  {
    var completed := VerifiedCompletedDomainIds(r);
    var places := Places(r.domainMap.preferredOrder);
    var domains := r.domainMap.domains;
    var best: Option<Key> := None;
    ghost var chosen: Option<Domain> := None;
    for i := 0 to |domains|
      invariant best.None? <==> forall d :: d in domains[..i] ==> !Selectable(r, d)
      invariant best.Some? ==> chosen.Some? && IsKey(r, chosen.value, best.value)
      invariant best.Some? ==> forall d, key ::
        d in domains[..i] && IsKey(r, d, key) && key != best.value ==> Before(best.value, key)
    {
      var domain := domains[i];
      assert domains[..i + 1] == domains[..i] + [domain];
      if domain.id !in completed && domain.dependencies <= IdSet(r.domainMap) * completed {
        var risk := HighestRisk(r, domain);
        var key := Key(if domain.id in places then places[domain.id] else |places|, risk, domain.id);
        assert IsKey(r, domain, key);
        forall k | IsKey(r, domain, k) ensures k == key { }
        if best.Some? {
          KeysTotal(best.value, key);
          forall k | Before(key, best.value) && Before(best.value, k) ensures Before(key, k) {
            KeysTransitive(key, best.value, k);
          }
        }
        if best.None? || Before(key, best.value) {
          best, chosen := Some(key), Some(domain);
        }
      }
    }
    assert domains[..|domains|] == domains;
    next := if best.Some? then Some(best.value.id) else None;
  }

  lemma KeysTotal(a: Key, b: Key)
    ensures Before(a, b) || a == b || Before(b, a)
  {
    LessTotal(a.id, b.id);
  }

  lemma KeysTransitive(a: Key, b: Key, c: Key)
    requires Before(a, b) && Before(b, c)
    ensures Before(a, c)
  {
    if a.place == b.place == c.place && a.risk == b.risk == c.risk {
      LessTransitive(a.id, b.id, c.id);
    }
  }

  // ---------- Never stuck ----------

  /** What the selector needs of a map; every valid map has it. */
  ghost predicate Orderly(m: DomainMap) {
    SortedUnique(Ids(m)) && DependenciesKnown(m) && HasRank(GraphOf(m.domains))
  }

  ghost predicate NothingNext(r: Report) {
    forall d :: d in r.domainMap.domains ==> !Selectable(r, d)
  }

  lemma GraphHas(m: DomainMap, d: Domain)
    requires SortedUnique(Ids(m)) && d in m.domains
    ensures d.id in GraphOf(m.domains) && GraphOf(m.domains)[d.id] == d.dependencies
  {
    var i :| 0 <= i < |m.domains| && m.domains[i] == d;
    forall j | 0 <= j < |m.domains| && j != i ensures m.domains[j].id != d.id {
      assert Ids(m)[i] == d.id && Ids(m)[j] == m.domains[j].id;
      if j < i { LessIrreflexive(Ids(m)[j], Ids(m)[i]); } else { LessIrreflexive(Ids(m)[i], Ids(m)[j]); }
    }
    UniqueInGraph(m.domains, i);
  }

  lemma {:induction false} UniqueInGraph(domains: seq<Domain>, i: nat)
    requires i < |domains| && forall j :: 0 <= j < |domains| && j != i ==> domains[j].id != domains[i].id
    ensures domains[i].id in GraphOf(domains) && GraphOf(domains)[domains[i].id] == domains[i].dependencies
  {
    var last := |domains| - 1;
    if i >= last {
    } else {
      assert domains[..last][i] == domains[i];
      UniqueInGraph(domains[..last], i);
    }
  }

  /** From any uncompleted domain, descending through uncompleted dependencies ends at a selectable one. */
  lemma {:induction false} SomeSelectable(r: Report, rank: map<string, nat>, d: Domain)
    requires Ranked(GraphOf(r.domainMap.domains), rank)
    requires DependenciesKnown(r.domainMap) && SortedUnique(Ids(r.domainMap))
    requires d in r.domainMap.domains && d.id !in Verified(r)
    ensures exists e :: e in r.domainMap.domains && Selectable(r, e)
    decreases (GraphHas(r.domainMap, d); rank[d.id])
  {
    GraphHas(r.domainMap, d);
    if Selectable(r, d) {
    } else {
      var id :| id in d.dependencies && id !in Verified(r);
      assert id in IdSet(r.domainMap);
      var e :| e in r.domainMap.domains && e.id == id;
      GraphHas(r.domainMap, e);
      SomeSelectable(r, rank, e);
    }
  }

  /** On a valid map nothing is recommended exactly when every domain is verified completed. */
  lemma NothingNextExactlyWhenComplete(r: Report)
    requires Orderly(r.domainMap)
    ensures NothingNext(r) <==> IdSet(r.domainMap) <= Verified(r)
  {
    var rank :| Ranked(GraphOf(r.domainMap.domains), rank);
    if !(IdSet(r.domainMap) <= Verified(r)) {
      var id :| id in IdSet(r.domainMap) && id !in Verified(r);
      var d :| d in r.domainMap.domains && d.id == id;
      SomeSelectable(r, rank, d);
    }
  }

  // ---------- Runs ----------

  /** The same domains with the same dependencies; candidates, references and decisions may differ. */
  predicate SameDomains(a: seq<Domain>, b: seq<Domain>) {
    && |a| == |b|
    && forall i :: 0 <= i < |a| ==> a[i].id == b[i].id && a[i].dependencies == b[i].dependencies
  }

  /** The recommended domain, and no other, becomes verified completed. */
  ghost predicate Step(before: Report, id: string, after: Report) {
    && IsNext(before, id)
    && SameDomains(before.domainMap.domains, after.domainMap.domains)
    && Verified(after) == Verified(before) + {id}
  }

  ghost predicate Run(reports: seq<Report>, ids: seq<string>) {
    && |reports| == |ids| + 1
    && forall i :: 0 <= i < |ids| ==> Step(reports[i], ids[i], reports[i + 1])
  }

  lemma {:induction false} SameGraph(a: seq<Domain>, b: seq<Domain>)
    requires SameDomains(a, b)
    ensures GraphOf(a) == GraphOf(b)
  {
    if a == [] {
    } else {
      SameGraph(a[..|a| - 1], b[..|b| - 1]);
    }
  }

  lemma SameOrder(a: DomainMap, b: DomainMap)
    requires SameDomains(a.domains, b.domains) && Orderly(a)
    ensures Orderly(b) && IdSet(a) == IdSet(b)
  {
    SameGraph(a.domains, b.domains);
    assert Ids(a) == Ids(b);
    SameIds(a, b);
    forall d | d in b.domains ensures d.dependencies <= IdSet(b) {
      var i :| 0 <= i < |b.domains| && b.domains[i] == d;
      assert a.domains[i].dependencies <= IdSet(a);
    }
  }

  lemma SameIds(a: DomainMap, b: DomainMap)
    requires Ids(a) == Ids(b)
    ensures IdSet(a) == IdSet(b)
  {
    IdsAreMembers(a);
    IdsAreMembers(b);
  }

  lemma IdsAreMembers(m: DomainMap)
    ensures IdSet(m) == set id | id in Ids(m)
  {
    forall id | id in IdSet(m) ensures id in Ids(m) {
      var i :| 0 <= i < |m.domains| && m.domains[i].id == id;
      assert Ids(m)[i] == id;
    }
    forall id | id in Ids(m) ensures id in IdSet(m) {
      var i :| 0 <= i < |Ids(m)| && Ids(m)[i] == id;
      assert m.domains[i] in m.domains;
    }
  }

  lemma RunPrefix(reports: seq<Report>, ids: seq<string>, n: nat)
    requires Run(reports, ids) && n <= |ids|
    ensures Run(reports[..n + 1], ids[..n])
  {
    forall i | 0 <= i < n ensures Step(reports[..n + 1][i], ids[..n][i], reports[..n + 1][i + 1]) {
      assert Step(reports[i], ids[i], reports[i + 1]);
    }
  }

  /** What a run keeps: the domains, and which of them are verified. */
  lemma {:induction false} RunState(reports: seq<Report>, ids: seq<string>)
    requires Run(reports, ids)
    ensures SameDomains(reports[0].domainMap.domains, reports[|ids|].domainMap.domains)
    ensures Verified(reports[|ids|]) == Verified(reports[0]) + Members(ids)
  {
    if ids == [] {
      assert Members(ids) == {};
    } else {
      var last := |ids| - 1;
      RunPrefix(reports, ids, last);
      RunState(reports[..last + 1], ids[..last]);
      ElementsGrow(ids);
      StepState(reports[0], reports[last], ids[last], reports[last + 1], Members(ids[..last]), Members(ids));
    }
  }

  lemma StepState(first: Report, before: Report, id: string, after: Report, done: set<string>, next: set<string>)
    requires Step(before, id, after) && next == done + {id}
    requires SameDomains(first.domainMap.domains, before.domainMap.domains)
    requires Verified(before) == Verified(first) + done
    ensures SameDomains(first.domainMap.domains, after.domainMap.domains) && Verified(after) == Verified(first) + next
  {
    SameDomainsTransitive(first.domainMap.domains, before.domainMap.domains, after.domainMap.domains);
    Regroup(Verified(first), done, {id});
  }

  lemma SameDomainsTransitive(a: seq<Domain>, b: seq<Domain>, c: seq<Domain>)
    requires SameDomains(a, b) && SameDomains(b, c)
    ensures SameDomains(a, c)
  {
  }

  lemma Regroup(a: set<string>, b: set<string>, c: set<string>)
    ensures (a + b) + c == a + (b + c)
  {
  }

  lemma ElementsGrow(ids: seq<string>)
    requires ids != []
    ensures Members(ids) == Members(ids[..|ids| - 1]) + {ids[|ids| - 1]}
  {
    assert ids == ids[..|ids| - 1] + [ids[|ids| - 1]];
  }

  /** Every recommended domain is still open and comes after everything it depends on. */
  lemma DependenciesComeFirst(reports: seq<Report>, ids: seq<string>, i: nat, d: Domain)
    requires Run(reports, ids) && Orderly(reports[0].domainMap)
    requires i < |ids| && d in reports[0].domainMap.domains && d.id == ids[i]
    ensures ids[i] !in ids[..i] && ids[i] !in Verified(reports[0])
    ensures forall e :: e in d.dependencies ==> e in Verified(reports[0]) || e in ids[..i]
  {
    RunPrefix(reports, ids, i);
    RunState(reports[..i + 1], ids[..i]);
    var here := reports[i];
    assert Step(here, ids[i], reports[i + 1]);
    var chosen, key :| IsKey(here, chosen, key) && ids[i] == chosen.id;
    var k :| 0 <= k < |reports[0].domainMap.domains| && reports[0].domainMap.domains[k] == d;
    var twin := here.domainMap.domains[k];
    SameOrder(reports[0].domainMap, here.domainMap);
    GraphHas(here.domainMap, twin);
    GraphHas(here.domainMap, chosen);
  }

  /** A run recommends each domain at most once, and a run that can go no further has been through them all. */
  lemma RunsVisitEveryDomainOnce(reports: seq<Report>, ids: seq<string>)
    requires Run(reports, ids) && Orderly(reports[0].domainMap)
    ensures Distinct(ids)
    ensures Members(ids) <= IdSet(reports[0].domainMap) - Verified(reports[0])
    ensures NothingNext(reports[|ids|]) <==> Members(ids) == IdSet(reports[0].domainMap) - Verified(reports[0])
    ensures NothingNext(reports[|ids|]) <==> |ids| == |IdSet(reports[0].domainMap) - Verified(reports[0])|
  {
    var open := IdSet(reports[0].domainMap) - Verified(reports[0]);
    RecommendationsAreOpen(reports, ids);
    RunState(reports, ids);
    SameOrder(reports[0].domainMap, reports[|ids|].domainMap);
    NothingNextExactlyWhenComplete(reports[|ids|]);
    CountMembers(ids);
    SubsetBySize(Members(ids), open);
    Exhausted(IdSet(reports[0].domainMap), Verified(reports[0]), Members(ids));
  }

  lemma CountMembers(ids: seq<string>)
    requires Distinct(ids)
    ensures |ids| == |Members(ids)|
  {
    DistinctByCount(ids);
  }

  lemma Exhausted(all: set<string>, verified: set<string>, visited: set<string>)
    requires visited <= all - verified
    ensures all <= verified + visited <==> visited == all - verified
  {
  }

  lemma RecommendationsAreOpen(reports: seq<Report>, ids: seq<string>)
    requires Run(reports, ids) && Orderly(reports[0].domainMap)
    ensures Distinct(ids)
    ensures Members(ids) <= IdSet(reports[0].domainMap) - Verified(reports[0])
  {
    forall i | 0 <= i < |ids|
      ensures ids[i] in IdSet(reports[0].domainMap) - Verified(reports[0])
      ensures ids[i] !in ids[..i]
    {
      RecommendedIsOpen(reports, ids, i);
    }
    forall i, j | 0 <= i < j < |ids| ensures ids[i] != ids[j] {
      assert ids[j] !in ids[..j] && ids[..j][i] == ids[i];
    }
  }

  lemma RecommendedIsOpen(reports: seq<Report>, ids: seq<string>, i: nat)
    requires Run(reports, ids) && Orderly(reports[0].domainMap) && i < |ids|
    ensures ids[i] in IdSet(reports[0].domainMap) - Verified(reports[0]) && ids[i] !in ids[..i]
  {
    RunPrefix(reports, ids, i);
    RunState(reports[..i + 1], ids[..i]);
    assert Step(reports[i], ids[i], reports[i + 1]);
    SameOrder(reports[0].domainMap, reports[i].domainMap);
    assert ids[i] in IdSet(reports[i].domainMap);
    var d :| d in reports[0].domainMap.domains && d.id == ids[i];
    DependenciesComeFirst(reports, ids, i, d);
  }

  // ---------- A recommendation can be followed ----------

  /** `DomainEntry`: an active reference belongs to its own domain. */
  predicate OwnReferences(m: DomainMap) {
    forall d :: d in m.domains && d.reference.Some? ==> d.reference.value.domainId == d.id
  }

  /** Record a confirmed completed decision for one domain and make it the active one. */
  function Complete(r: Report, i: nat, revision: nat, digest: string): Report
    requires i < |r.domainMap.domains|
  {
    var d := r.domainMap.domains[i];
    r.(
      domainMap := r.domainMap.(
        domains := r.domainMap.domains[i := d.(reference := Some(Reference(d.id, revision, digest)))]),
      decisions := r.decisions[(d.id, revision) := Decision(d.id, "completed", true, digest)])
  }

  lemma OthersUndisturbed(r: Report, i: nat, k: nat, revision: nat, digest: string)
    requires SortedUnique(Ids(r.domainMap)) && OwnReferences(r.domainMap)
    requires i < |r.domainMap.domains| && k < |r.domainMap.domains| && k != i
    ensures var after := Complete(r, i, revision, digest);
      && after.domainMap.domains[k] == r.domainMap.domains[k]
      && IsVerified(after, r.domainMap.domains[k]) == IsVerified(r, r.domainMap.domains[k])
  {
    var ids := Ids(r.domainMap);
    if k < i { LessIrreflexive(ids[k], ids[i]); } else { LessIrreflexive(ids[i], ids[k]); }
    assert r.domainMap.domains[k] in r.domainMap.domains;
  }

  /** Completing the recommended domain is a step: no other domain's completion is disturbed. */
  lemma CompletingIsAStep(r: Report, i: nat, revision: nat, digest: string)
    requires Orderly(r.domainMap) && OwnReferences(r.domainMap)
    requires i < |r.domainMap.domains| && IsNext(r, r.domainMap.domains[i].id)
    ensures Step(r, r.domainMap.domains[i].id, Complete(r, i, revision, digest))
    ensures OwnReferences(Complete(r, i, revision, digest).domainMap)
  {
    CompletingVerifies(r, i, revision, digest);
  }

  lemma CompletingVerifies(r: Report, i: nat, revision: nat, digest: string)
    requires SortedUnique(Ids(r.domainMap)) && OwnReferences(r.domainMap) && i < |r.domainMap.domains|
    ensures Verified(Complete(r, i, revision, digest)) == Verified(r) + {r.domainMap.domains[i].id}
  {
    var after := Complete(r, i, revision, digest);
    var id, olds, news := r.domainMap.domains[i].id, r.domainMap.domains, after.domainMap.domains;
    forall k | 0 <= k < |olds| && k != i
      ensures news[k] == olds[k] && IsVerified(after, olds[k]) == IsVerified(r, olds[k])
    {
      OthersUndisturbed(r, i, k, revision, digest);
    }
    assert IsVerified(after, news[i]);
    forall x | x in Verified(r) + {id} ensures x in Verified(after) {
      if x != id {
        var k :| 0 <= k < |olds| && IsVerified(r, olds[k]) && olds[k].id == x;
        assert IsVerified(after, news[k]);
      }
    }
    forall x | x in Verified(after) ensures x in Verified(r) + {id} {
      var k :| 0 <= k < |news| && IsVerified(after, news[k]) && news[k].id == x;
    }
  }
}
