/** The worklist that spreads impact to dependent domains, against the least fixpoint it computes. */
module ImpactPropagation {
  import opened Ordering
  import opened DomainGraph
  import opened ImpactClosure
  import opened DirectImpacts

  type Owners = map<string, set<string>>

  // ---------- One delivery, on values ----------

  function Absorbed(id: string, a: Impact, b: Impact): (r: Impact)
    ensures Above(b, r) && Flows(id, a, r)
  {
    b.(
      upstream := b.upstream + (a.upstream + {id}),
      evidence := b.evidence + a.evidence,
      axes := b.axes + InheritedAxes(a.axes))
  }

  /** The table after domain `a` has passed its impact to its dependent `b`. */
  function Delivered(g: Domains, owners: Owners, m: Impacts, a: string, b: string): Impacts
    requires a in m && b in g
  {
    m[b := Absorbed(a, m[a], if b in m then m[b] else Fresh(g, owners, b))]
  }

  predicate SameBase(x: Impact, y: Impact) {
    x.direct == y.direct && x.candidates == y.candidates && x.capabilities == y.capabilities
  }

  predicate SameBases(m: Impacts, c: Impacts) {
    forall d :: d in m ==> d in c && SameBase(m[d], c[d])
  }

  /** The table lies between the direct impacts and the closure. */
  predicate Between(seeds: Impacts, m: Impacts, c: Impacts) {
    AllAbove(seeds, m) && AllAbove(m, c) && SameBases(m, c)
  }

  /** What deliveries need to know of the closure `c`. */
  predicate Limit(g: Domains, owners: Owners, seeds: Impacts, c: Impacts) {
    && Closed(g, c)
    && forall d :: d in c && d in g && d !in seeds ==> SameBase(Fresh(g, owners, d), c[d])
  }

  lemma ClosureIsLimit(g: Domains, owners: Owners, seeds: Impacts)
    ensures Limit(g, owners, seeds, Closure(g, owners, seeds))
  {
    ClosureIsClosed(g, owners, seeds);
  }

  /** Only domains in the queue, and possibly `current`, still have something to pass on. */
  predicate Settled(g: Domains, m: Impacts, queue: seq<string>, current: Option<string>) {
    forall x, b :: x in m && x !in queue && current != Some(x) && b in g && DependsOn(g, b, x) ==>
      b in m && Flows(x, m[x], m[b])
  }

  lemma AbsorbedBelow(id: string, a: Impact, b: Impact, ca: Impact, cb: Impact)
    requires Above(a, ca) && Above(b, cb) && Flows(id, ca, cb)
    ensures Above(Absorbed(id, a, b), cb)
  {
    assert InheritedAxes(a.axes) <= InheritedAxes(ca.axes);
  }

  lemma DeliveryStaysBelow(g: Domains, owners: Owners, m: Impacts, c: Impacts, a: string, b: string)
    requires Closed(g, c) && AllAbove(m, c)
    requires a in m && b in g && b != a && DependsOn(g, b, a)
    ensures AllAbove(m, Delivered(g, owners, m, a, b)) && AllAbove(Delivered(g, owners, m, a, b), c)
  {
    assert Flows(a, c[a], c[b]);
    var target := if b in m then m[b] else Fresh(g, owners, b);
    AbsorbedBelow(a, m[a], target, c[a], c[b]);
  }

  lemma AboveTransitively(x: Impacts, y: Impacts, z: Impacts)
    requires AllAbove(x, y) && AllAbove(y, z)
    ensures AllAbove(x, z)
  {
  }

  lemma DeliveryStaysBetween(g: Domains, owners: Owners, seeds: Impacts, c: Impacts, m: Impacts, a: string, b: string)
    requires Limit(g, owners, seeds, c) && Between(seeds, m, c)
    requires a in m && b in g && b != a && DependsOn(g, b, a)
    ensures Between(seeds, Delivered(g, owners, m, a, b), c)
    ensures AllAbove(m, Delivered(g, owners, m, a, b))
  {
    DeliveryStaysBelow(g, owners, m, c, a, b);
    AboveTransitively(seeds, m, Delivered(g, owners, m, a, b));
  }

  lemma DeliveryStaysSettled(g: Domains, owners: Owners, m: Impacts, a: string, b: string, queue: seq<string>)
    requires a in m && b in g && b != a && DependsOn(g, b, a)
    requires Settled(g, m, queue, Some(a))
    ensures var after := Delivered(g, owners, m, a, b);
      Settled(g, after, if after != m then queue + [b] else queue, Some(a))
  {
  }

  /** Listing `b` first, with its initial impact when it is new, and then letting it absorb `a` is one delivery. */
  lemma OneDelivery(g: Domains, owners: Owners, was: Impacts, listed: Impacts, a: string, b: string)
    requires a in was && b in g && b != a
    requires listed == if b in was then was else was[b := Fresh(g, owners, b)]
    ensures var now := listed[b := Absorbed(a, listed[a], listed[b])];
      && now == Delivered(g, owners, was, a, b)
      && (now != was <==> (b !in was || now[b] != listed[b]))
  {
  }

  lemma OneRecording(g: Domains, was: Impacts, listed: Impacts, b: Binding)
    requires b.domain in g && listed == if b.domain in was then was else was[b.domain := UNTOUCHED]
    ensures listed[b.domain := Added(g, listed[b.domain], b)]
      == was[b.domain := Added(g, if b.domain in was then was[b.domain] else UNTOUCHED, b)]
  {
  }

  // ---------- Progress ----------

  datatype Fact =
    | Listed(id: string)
    | Below(id: string, source: string)
    | Evident(id: string, evidence: string)
    | OnAxis(id: string, axis: string)

  function Facts(m: Impacts): set<Fact> {
    (set d | d in m :: Listed(d))
    + (set d, u | d in m && u in m[d].upstream :: Below(d, u))
    + (set d, e | d in m && e in m[d].evidence :: Evident(d, e))
    + (set d, x | d in m && x in m[d].axes :: OnAxis(d, x))
  }

  lemma FactsFollow(small: Impacts, large: Impacts)
    requires AllAbove(small, large)
    ensures Facts(small) <= Facts(large)
  {
  }

  lemma FactsAbout(m: Impacts, d: string)
    ensures Listed(d) in Facts(m) <==> d in m
    ensures forall u :: Below(d, u) in Facts(m) <==> d in m && u in m[d].upstream
    ensures forall e :: Evident(d, e) in Facts(m) <==> d in m && e in m[d].evidence
    ensures forall x :: OnAxis(d, x) in Facts(m) <==> d in m && x in m[d].axes
  {
  }

  lemma FieldGrew(a: Impact, b: Impact, id: string)
    requires Absorbed(id, a, b) != b
    ensures var r := Absorbed(id, a, b);
      || (exists u :: u in r.upstream && u !in b.upstream)
      || (exists e :: e in r.evidence && e !in b.evidence)
      || (exists x :: x in r.axes && x !in b.axes)
  {
    var r := Absorbed(id, a, b);
    assert r.upstream == b.upstream && r.evidence == b.evidence && r.axes == b.axes ==> r == b;
  }

  lemma DeliveryAddsFact(g: Domains, owners: Owners, m: Impacts, a: string, b: string)
    requires a in m && b in g && Delivered(g, owners, m, a, b) != m
    ensures exists fact :: fact in Facts(Delivered(g, owners, m, a, b)) && fact !in Facts(m)
  {
    FactsAbout(m, b);
    FactsAbout(Delivered(g, owners, m, a, b), b);
    if b in m {
      FieldGrew(m[a], m[b], a);
    }
  }

  /** A delivery that changes the table leaves fewer facts to be found. */
  lemma DeliveryProgresses(g: Domains, owners: Owners, c: Impacts, m: Impacts, a: string, b: string)
    requires Closed(g, c) && AllAbove(m, c)
    requires a in m && b in g && b != a && DependsOn(g, b, a) && Delivered(g, owners, m, a, b) != m
    ensures Facts(c) - Facts(Delivered(g, owners, m, a, b)) < Facts(c) - Facts(m)
  {
    var after := Delivered(g, owners, m, a, b);
    DeliveryStaysBelow(g, owners, m, c, a, b);
    FactsFollow(m, after);
    FactsFollow(after, c);
    DeliveryAddsFact(g, owners, m, a, b);
  }

  /** Either nothing happened, or facts were found. */
  ghost predicate Progress(c: Impacts, was: Impacts, now: Impacts, waiting: seq<string>, queue: seq<string>) {
    (now == was && queue == waiting) || Facts(c) - Facts(now) < Facts(c) - Facts(was)
  }

  /** The first dependents have what `a` passes on. */
  predicate Served(m: Impacts, a: string, dependents: seq<string>) {
    a in m && forall b :: b in dependents ==> b in m && Flows(a, m[a], m[b])
  }

  predicate AllListed(m: Impacts, queue: seq<string>) {
    forall q :: q in queue ==> q in m
  }

  /** The inner loop after serving some dependents of `a`. */
  predicate Round(
    g: Domains, seeds: Impacts, c: Impacts, m: Impacts, a: string, served: seq<string>, queue: seq<string>)
  {
    && Between(seeds, m, c)
    && Settled(g, m, queue, Some(a))
    && Served(m, a, served)
    && AllListed(m, queue)
  }

  /** The inner loop has served the first `j` dependents of `a` and found facts if it changed anything. */
  ghost predicate Serving(
    g: Domains, seeds: Impacts, c: Impacts, start: Impacts, m: Impacts, a: string, dependents: seq<string>, j: nat,
    waiting: seq<string>, queue: seq<string>)
    requires j <= |dependents|
  {
    Round(g, seeds, c, m, a, dependents[..j], queue) && Progress(c, start, m, waiting, queue)
  }

  function Requeued(m: Impacts, after: Impacts, queue: seq<string>, b: string): seq<string> {
    if after != m then queue + [b] else queue
  }

  lemma DeliveryKeepsRound(
    g: Domains, owners: Owners, seeds: Impacts, c: Impacts, m: Impacts, a: string, dependents: seq<string>, j: nat,
    queue: seq<string>)
    requires Limit(g, owners, seeds, c)
    requires j < |dependents| && a in m && dependents[j] in g && dependents[j] != a && DependsOn(g, dependents[j], a)
    requires Round(g, seeds, c, m, a, dependents[..j], queue)
    ensures var after := Delivered(g, owners, m, a, dependents[j]);
      Round(g, seeds, c, after, a, dependents[..j + 1], Requeued(m, after, queue, dependents[j]))
  {
    var b := dependents[j];
    DeliveryStaysBetween(g, owners, seeds, c, m, a, b);
    DeliveryStaysSettled(g, owners, m, a, b, queue);
    DeliveryServes(g, owners, m, a, dependents, j);
    DeliveryLists(g, owners, m, a, b, queue);
  }

  lemma DeliveryLists(g: Domains, owners: Owners, m: Impacts, a: string, b: string, queue: seq<string>)
    requires a in m && b in g && AllListed(m, queue)
    ensures var after := Delivered(g, owners, m, a, b); AllListed(after, Requeued(m, after, queue, b))
  {
  }

  lemma DeliveryKeepsProgress(
    g: Domains, owners: Owners, c: Impacts, start: Impacts, m: Impacts, a: string, b: string,
    waiting: seq<string>, queue: seq<string>)
    requires Closed(g, c) && AllAbove(m, c)
    requires a in m && b in g && b != a && DependsOn(g, b, a) && Progress(c, start, m, waiting, queue)
    ensures var after := Delivered(g, owners, m, a, b);
      Progress(c, start, after, waiting, Requeued(m, after, queue, b))
  {
    if Delivered(g, owners, m, a, b) != m {
      DeliveryProgresses(g, owners, c, m, a, b);
    }
  }

  lemma DeliveryKeepsServing(
    g: Domains, owners: Owners, seeds: Impacts, c: Impacts, start: Impacts, m: Impacts, a: string,
    dependents: seq<string>, j: nat, waiting: seq<string>, queue: seq<string>)
    requires Limit(g, owners, seeds, c) && NoSelfDependency(g)
    requires forall b :: b in dependents ==> b in g && DependsOn(g, b, a)
    requires j < |dependents| && Serving(g, seeds, c, start, m, a, dependents, j, waiting, queue)
    ensures var b := dependents[j]; a in m && b in g && b != a
    ensures var after := Delivered(g, owners, m, a, dependents[j]);
      Serving(g, seeds, c, start, after, a, dependents, j + 1, waiting, Requeued(m, after, queue, dependents[j]))
  {
    assert dependents[j] in dependents;
    DeliveryKeepsRound(g, owners, seeds, c, m, a, dependents, j, queue);
    DeliveryKeepsProgress(g, owners, c, start, m, a, dependents[j], waiting, queue);
  }

  lemma ServingEnds(
    g: Domains, seeds: Impacts, c: Impacts, start: Impacts, m: Impacts, a: string, dependents: seq<string>,
    waiting: seq<string>, queue: seq<string>)
    requires Serving(g, seeds, c, start, m, a, dependents, |dependents|, waiting, queue)
    requires forall b :: b in g && DependsOn(g, b, a) ==> b in dependents
    ensures Waiting(g, seeds, c, m, queue) && Progress(c, start, m, waiting, queue)
  {
    assert dependents[..|dependents|] == dependents;
    RoundEnds(g, seeds, c, m, a, dependents, queue);
  }

  /** The table and queue between two rounds. */
  predicate Waiting(g: Domains, seeds: Impacts, c: Impacts, m: Impacts, queue: seq<string>) {
    && Between(seeds, m, c)
    && Settled(g, m, queue, None)
    && AllListed(m, queue)
  }

  /** Whichever domain is taken from the queue, the rest may wait. */
  lemma RoundStarts(g: Domains, seeds: Impacts, c: Impacts, m: Impacts, queue: seq<string>, k: nat)
    requires k < |queue| && Waiting(g, seeds, c, m, queue)
    ensures Round(g, seeds, c, m, queue[k], [], queue[..k] + queue[k + 1..])
  {
    assert queue == queue[..k] + [queue[k]] + queue[k + 1..];
    assert queue[k] in queue;
  }

  lemma RoundEnds(
    g: Domains, seeds: Impacts, c: Impacts, m: Impacts, a: string, dependents: seq<string>, queue: seq<string>)
    requires Round(g, seeds, c, m, a, dependents, queue)
    requires forall b :: b in g && DependsOn(g, b, a) ==> b in dependents
    ensures Waiting(g, seeds, c, m, queue)
  {
  }

  lemma DeliveryServes(g: Domains, owners: Owners, m: Impacts, a: string, dependents: seq<string>, j: nat)
    requires j < |dependents| && a in m && dependents[j] in g && dependents[j] != a
    requires Served(m, a, dependents[..j])
    ensures Served(Delivered(g, owners, m, a, dependents[j]), a, dependents[..j + 1])
  {
    assert dependents[..j + 1] == dependents[..j] + [dependents[j]];
  }

  lemma SeedsWait(g: Domains, seeds: Impacts, c: Impacts, queue: seq<string>)
    requires AllAbove(seeds, c) && SameBases(seeds, c) && forall q :: q in queue <==> q in seeds
    ensures Waiting(g, seeds, c, seeds, queue)
  {
  }

  /** When the queue is empty the table is the closure. */
  lemma SettledIsClosure(g: Domains, owners: Owners, seeds: Impacts, m: Impacts)
    requires Seeds(g, seeds) && Waiting(g, seeds, Closure(g, owners, seeds), m, [])
    ensures m == Closure(g, owners, seeds)
  {
    NothingWaiting(g, m);
    ClosureIsLeast(g, owners, seeds, m);
    AboveBothWays(m, Closure(g, owners, seeds));
  }

  lemma NothingWaiting(g: Domains, m: Impacts)
    requires Settled(g, m, [], None)
    ensures Closed(g, m)
  {
  }

  /** The state the worklist starts in, and what it will have computed once the queue is empty. */
  lemma WorkBegins(g: Domains, owners: Owners, seeds: Impacts, queue: seq<string>) returns (c: Impacts)
    requires Seeds(g, seeds) && forall q :: q in queue <==> q in seeds
    ensures Limit(g, owners, seeds, c) && Waiting(g, seeds, c, seeds, queue)
    ensures forall m :: Waiting(g, seeds, c, m, []) ==> m == Closure(g, owners, seeds)
  {
    c := Closure(g, owners, seeds);
    SeedsInClosure(g, owners, seeds);
    ClosureIsLimit(g, owners, seeds);
    SeedsWait(g, seeds, c, queue);
    forall m | Waiting(g, seeds, c, m, []) ensures m == c {
      SettledIsClosure(g, owners, seeds, m);
    }
  }

  lemma AboveBothWays(x: Impacts, y: Impacts)
    requires AllAbove(x, y) && AllAbove(y, x) && SameBases(x, y)
    ensures x == y
  {
    forall d | d in x ensures x[d] == y[d] {
      assert x[d].upstream == y[d].upstream && x[d].evidence == y[d].evidence && x[d].axes == y[d].axes;
    }
  }

  // ---------- Dependents ----------

  predicate NoSelfDependency(g: Domains) {
    forall d :: d in g ==> d !in g[d].dependencies
  }

  function DependentsOf(g: Domains, d: string): set<string> {
    set e | e in g && d in g[e].dependencies
  }

  function Listing(dependents: map<string, set<string>>, d: string): set<string> {
    if d in dependents then dependents[d] else {}
  }

  /** The dependencies of all domains but those pending are turned around, and of `id` those not in `left`. */
  ghost predicate Turning(
    g: Domains, dependents: map<string, set<string>>, pending: set<string>, id: string, left: set<string>)
    requires id in g
  {
    forall d :: Listing(dependents, d)
      == (DependentsOf(g, d) - pending) + if d in g[id].dependencies - left then {id} else {}
  }

  lemma OneMoreDependent(
    g: Domains, dependents: map<string, set<string>>, pending: set<string>, id: string, left: set<string>, d: string)
    requires id in g && id in pending && d in left && left <= g[id].dependencies
    requires Turning(g, dependents, pending, id, left)
    ensures Turning(g, dependents[d := Listing(dependents, d) + {id}], pending, id, left - {d})
  {
    var after := dependents[d := Listing(dependents, d) + {id}];
    forall e ensures Listing(after, e)
      == (DependentsOf(g, e) - pending) + if e in g[id].dependencies - (left - {d}) then {id} else {}
    {
      assert Listing(dependents, e)
        == (DependentsOf(g, e) - pending) + if e in g[id].dependencies - left then {id} else {};
      assert e != d ==> Listing(after, e) == Listing(dependents, e);
    }
  }

  /** The dependencies turned around. */
  method CollectDependents(g: Domains) returns (dependents: map<string, set<string>>)
    ensures forall d :: Listing(dependents, d) == DependentsOf(g, d)
  {
    dependents := map[];
    var pending := g.Keys;
    while pending != {}
      invariant pending <= g.Keys
      invariant forall d :: Listing(dependents, d) == DependentsOf(g, d) - pending
    {
      var id :| id in pending;
      var dependencies := g[id].dependencies;
      while dependencies != {}
        invariant dependencies <= g[id].dependencies
        invariant Turning(g, dependents, pending, id, dependencies)
      {
        var dependency :| dependency in dependencies;
        OneMoreDependent(g, dependents, pending, id, dependencies, dependency);
        dependents := dependents[dependency := Listing(dependents, dependency) + {id}];
        dependencies := dependencies - {dependency};
      }
      pending := pending - {id};
    }
  }

  // ---------- The mutable impacts ----------

  class DomainImpact {
    var direct: bool
    var upstream: set<string>
    var evidence: set<string>
    var candidates: set<string>
    var capabilities: set<string>
    var axes: set<string>

    function Value(): Impact
      reads this
    {
      Impact(direct, upstream, evidence, candidates, capabilities, axes)
    }

    constructor (value: Impact)
      ensures Value() == value
    {
      direct, upstream, evidence := value.direct, value.upstream, value.evidence;
      candidates, capabilities, axes := value.candidates, value.capabilities, value.axes;
    }

    /** Enter a matching binding of this domain. */
    method Add(g: Domains, b: Binding)
      requires b.domain in g
      modifies this
      ensures Value() == Added(g, old(Value()), b)
    {
      evidence := evidence + {b.evidence};
      if b.candidate.None? {
        candidates := candidates + Members(g[b.domain].candidates);
      } else {
        candidates := candidates + {b.candidate.value};
      }
      if b.capability.Some? {
        capabilities := capabilities + {b.capability.value};
      }
      if b.security && b.axis.Some? {
        axes := axes + {b.axis.value};
      }
    }

    /** Enter the capabilities accepted for the affected candidates. */
    method AddCapabilities(owners: Owners)
      modifies this
      ensures Value() == WithCapabilities(owners, old(Value()))
    {
      var pending := candidates;
      while pending != {}
        invariant pending <= candidates
        invariant Value() == old(Value()).(
          capabilities := old(capabilities) + CapabilitiesOf(owners, candidates - pending))
      {
        var candidate :| candidate in pending;
        OneMoreCandidate(owners, candidates, pending, candidate);
        capabilities := capabilities + if candidate in owners then owners[candidate] else {};
        pending := pending - {candidate};
      }
      assert candidates - {} == candidates;
    }

    /** Take over what a changed dependency passes on; tell from the set sizes whether anything was new. */
    method Absorb(changedId: string, changed: DomainImpact) returns (grew: bool)
      requires changed != this
      modifies this
      ensures Value() == Absorbed(changedId, changed.Value(), old(Value()))
      ensures grew <==> Value() != old(Value())
    {
      var sourceIds := changed.upstream + {changedId};
      var before := (|upstream|, |evidence|, |axes|);
      GrowthBySize(upstream, upstream + sourceIds);
      GrowthBySize(evidence, evidence + changed.evidence);
      GrowthBySize(axes, axes + InheritedAxes(changed.axes));
      upstream := upstream + sourceIds;
      evidence := evidence + changed.evidence;
      axes := axes + InheritedAxes(changed.axes);
      var after := (|upstream|, |evidence|, |axes|);
      grew := after != before;
    }
  }

  lemma OneMoreCandidate(owners: Owners, all: set<string>, pending: set<string>, candidate: string)
    requires pending <= all && candidate in pending
    ensures CapabilitiesOf(owners, all - (pending - {candidate}))
      == CapabilitiesOf(owners, all - pending) + if candidate in owners then owners[candidate] else {}
  {
  }

  function Filled(owners: Owners, m: Impacts, pending: set<string>): Impacts {
    map d | d in m :: if d in pending then m[d] else WithCapabilities(owners, m[d])
  }

  lemma FilledOneMore(owners: Owners, m: Impacts, pending: set<string>, id: string, was: Impacts, now: Impacts)
    requires id in pending && id in m && was == Filled(owners, m, pending) && now.Keys == was.Keys
    requires now[id] == WithCapabilities(owners, was[id]) && forall d :: d in now && d != id ==> now[d] == was[d]
    ensures now == Filled(owners, m, pending - {id})
  {
  }

  lemma NoneFilled(owners: Owners, m: Impacts)
    ensures Filled(owners, m, m.Keys) == m
  {
  }

  lemma GrowthBySize(small: set<string>, large: set<string>)
    requires small <= large
    ensures |small| == |large| <==> small == large
  {
    SubsetBySize(small, large);
  }

  class ImpactTable {
    var impacts: map<string, DomainImpact>
    ghost var View: Impacts
    ghost var Repr: set<object>

    /** The view holds the value of every impact, and no two domains share an impact object. */
    ghost predicate Valid()
      reads this, Repr
    {
      && Apart()
      && forall d :: d in impacts ==> impacts[d].Value() == View[d]
    }

    ghost predicate Apart()
      reads this
    {
      && this in Repr
      && impacts.Keys == View.Keys
      && (forall d :: d in impacts ==> impacts[d] in Repr)
      && forall d, e :: d in impacts && e in impacts && d != e ==> impacts[d] != impacts[e]
    }

    /** Bring the view up to date after the impact of one domain has changed. */
    ghost method Update(id: string)
      requires Apart() && id in impacts
      requires forall d :: d in impacts && d != id ==> impacts[d].Value() == View[d]
      modifies this`View
      ensures Valid() && View == old(View)[id := impacts[id].Value()]
    {
      View := View[id := impacts[id].Value()];
    }

    constructor ()
      ensures Valid() && impacts == map[] && View == map[] && fresh(Repr)
    {
      impacts, View, Repr := map[], map[], {this};
    }

    /** The impact of a domain, created with initial values on first contact. */
    method FindOrCreate(id: string, initial: Impact) returns (created: bool, impact: DomainImpact)
      requires Valid()
      modifies this
      ensures Valid() && fresh(Repr - old(Repr))
      ensures id in impacts && impacts[id] == impact
      ensures created <==> id !in old(impacts)
      ensures View == if created then old(View)[id := initial] else old(View)
    {
      created := id !in impacts;
      if created {
        impact := new DomainImpact(initial);
        impacts, View := impacts[id := impact], View[id := initial];
        Repr := Repr + {impact};
      } else {
        impact := impacts[id];
      }
    }

    /** Deliver to one dependent, creating its impact on first contact. */
    method Deliver(g: Domains, owners: Owners, changedId: string, dependentId: string) returns (changed: bool)
      requires Valid() && changedId in impacts && dependentId in g && dependentId != changedId
      modifies Repr
      ensures Valid() && fresh(Repr - old(Repr))
      ensures View == Delivered(g, owners, old(View), changedId, dependentId)
      ensures changed <==> View != old(View)
    {
      ghost var was := View;
      var created, dependent := FindOrCreate(dependentId, Fresh(g, owners, dependentId));
      OneDelivery(g, owners, was, View, changedId, dependentId);
      var grew := dependent.Absorb(changedId, impacts[changedId]);
      Update(dependentId);
      changed := created || grew;
    }

    /** Enter one matching binding. */
    method Record(g: Domains, b: Binding)
      requires Valid() && b.domain in g
      modifies Repr
      ensures Valid() && fresh(Repr - old(Repr))
      ensures var was := old(View);
        View == was[b.domain := Added(g, if b.domain in was then was[b.domain] else UNTOUCHED, b)]
    {
      ghost var was := View;
      var created, impact := FindOrCreate(b.domain, UNTOUCHED);
      OneRecording(g, was, View, b);
      impact.Add(g, b);
      Update(b.domain);
    }

    /** Complete every impact with the capabilities of its candidates. */
    method FillCapabilities(owners: Owners)
      requires Valid()
      modifies Repr
      ensures Valid() && fresh(Repr - old(Repr))
      ensures View == Filled(owners, old(View), {})
    {
      ghost var recorded := View;
      NoneFilled(owners, recorded);
      var pending := impacts.Keys;
      while pending != {}
        invariant Valid() && Repr == old(Repr) && pending <= impacts.Keys
        invariant View == Filled(owners, recorded, pending)
      {
        var id :| id in pending;
        ghost var was := View;
        impacts[id].AddCapabilities(owners);
        Update(id);
        FilledOneMore(owners, recorded, pending, id, was, View);
        pending := pending - {id};
      }
    }

    /** The impacts of the bindings a change matches, with the references and digests that matched. */
    method CollectDirect(g: Domains, owners: Owners, c: Change, bindings: seq<Binding>)
      returns (matchedIds: set<string>, matchedDigests: set<string>)
      requires Valid() && impacts == map[] && AllBound(g, bindings)
      modifies Repr
      ensures Valid() && fresh(Repr - old(Repr))
      ensures View == Direct(g, owners, c, bindings)
      ensures matchedIds == MatchedIds(c, bindings) && matchedDigests == MatchedDigests(c, bindings)
    {
      matchedIds, matchedDigests := {}, {};
      for i := 0 to |bindings|
        invariant Valid() && fresh(Repr - old(Repr))
        invariant View == Recorded(g, c, bindings[..i])
        invariant matchedIds == MatchedIds(c, bindings[..i]) && matchedDigests == MatchedDigests(c, bindings[..i])
      {
        var b := bindings[i];
        OneMoreBinding(g, c, bindings, i);
        var digestMatches := b.digests * c.digests;
        if MatchesById(c, b) || digestMatches != {} {
          matchedIds := matchedIds + {b.evidence};
          matchedDigests := matchedDigests + digestMatches;
          Record(g, b);
        }
      }
      assert bindings[..|bindings|] == bindings;
      FillCapabilities(owners);
    }

    /** Deliver to the dependent at place `j`, and queue it if it changed. */
    method Offer(
      g: Domains, owners: Owners, ghost seeds: Impacts, ghost c: Impacts, ghost start: Impacts,
      changedId: string, dependents: seq<string>, j: nat, ghost waiting: seq<string>, queue: seq<string>)
      returns (requeued: seq<string>)
      requires Valid() && NoSelfDependency(g) && Limit(g, owners, seeds, c)
      requires forall b :: b in dependents ==> b in g && DependsOn(g, b, changedId)
      requires j < |dependents| && Serving(g, seeds, c, start, View, changedId, dependents, j, waiting, queue)
      modifies Repr
      ensures Valid() && fresh(Repr - old(Repr))
      ensures Serving(g, seeds, c, start, View, changedId, dependents, j + 1, waiting, requeued)
    {
      DeliveryKeepsServing(g, owners, seeds, c, start, View, changedId, dependents, j, waiting, queue);
      var changed := Deliver(g, owners, changedId, dependents[j]);
      requeued := if changed then queue + [dependents[j]] else queue;
    }

    /** Deliver to every dependent of one domain; those that changed are queued. */
    method DeliverAll(
      g: Domains, owners: Owners, ghost seeds: Impacts, ghost c: Impacts,
      changedId: string, dependents: seq<string>, waiting: seq<string>) returns (queue: seq<string>)
      requires Valid() && NoSelfDependency(g) && Limit(g, owners, seeds, c)
      requires forall b :: b in dependents <==> b in g && DependsOn(g, b, changedId)
      requires Round(g, seeds, c, View, changedId, [], waiting)
      modifies Repr
      ensures Valid() && fresh(Repr - old(Repr))
      ensures Waiting(g, seeds, c, View, queue)
      ensures Progress(c, old(View), View, waiting, queue)
    {
      queue := waiting;
      ghost var start := View;
      for j := 0 to |dependents|
        invariant Valid() && fresh(Repr - old(Repr))
        invariant Serving(g, seeds, c, start, View, changedId, dependents, j, waiting, queue)
      {
        queue := Offer(g, owners, seeds, c, start, changedId, dependents, j, waiting, queue);
      }
      ServingEnds(g, seeds, c, start, View, changedId, dependents, waiting, queue);
    }

    /** Take the domain at place `k` from the queue and deliver to its dependents. */
    method Serve(
      g: Domains, owners: Owners, ghost seeds: Impacts, ghost c: Impacts,
      dependents: map<string, set<string>>, queue: seq<string>, k: nat) returns (rest: seq<string>)
      requires Valid() && NoSelfDependency(g) && Limit(g, owners, seeds, c)
      requires forall d :: Listing(dependents, d) == DependentsOf(g, d)
      requires k < |queue| && Waiting(g, seeds, c, View, queue)
      modifies Repr
      ensures Valid() && fresh(Repr - old(Repr))
      ensures Waiting(g, seeds, c, View, rest)
      ensures Progress(c, old(View), View, queue[..k] + queue[k + 1..], rest)
    {
      RoundStarts(g, seeds, c, View, queue, k);
      var changedId := queue[k];
      var toServe := Sorted(Listing(dependents, changedId));
      assert forall b :: b in toServe <==> b in DependentsOf(g, changedId);
      rest := DeliverAll(g, owners, seeds, c, changedId, toServe, queue[..k] + queue[k + 1..]);
    }

    /**
     * The worklist loop: terminates because every delivery finds facts of the closure or shortens the
     * queue. The program takes the first domain of the queue; taking any of them gives the same table.
     */
    method Drain(
      g: Domains, owners: Owners, ghost seeds: Impacts, ghost c: Impacts,
      dependents: map<string, set<string>>, waiting: seq<string>)
      requires Valid() && NoSelfDependency(g) && Limit(g, owners, seeds, c)
      requires forall d :: Listing(dependents, d) == DependentsOf(g, d)
      requires Waiting(g, seeds, c, View, waiting)
      modifies Repr
      ensures Valid() && fresh(Repr - old(Repr))
      ensures Waiting(g, seeds, c, View, [])
    {
      var queue := waiting;
      while queue != []
        invariant Valid() && fresh(Repr - old(Repr))
        invariant Waiting(g, seeds, c, View, queue)
        decreases Facts(c) - Facts(View), |queue|
      {
        var k: nat :| k < |queue|;
        queue := Serve(g, owners, seeds, c, dependents, queue, k);
      }
    }

    /** Spread the direct impacts until nothing is left to pass on. */
    method PropagateDependencies(g: Domains, owners: Owners)
      requires Valid() && NoSelfDependency(g) && Seeds(g, View)
      modifies Repr
      ensures Valid() && fresh(Repr - old(Repr))
      ensures View == Closure(g, owners, old(View))
    {
      ghost var seeds := View;
      var dependents := CollectDependents(g);
      var queue := Sorted(impacts.Keys);
      ghost var c := WorkBegins(g, owners, seeds, queue);
      Drain(g, owners, seeds, c, dependents, queue);
    }
  }

  /** `analyze_domain_impact`: from changed evidence to every affected domain. */
  method AnalyzeDomainImpact(g: Domains, owners: Owners, c: Change, bindings: seq<Binding>)
    returns (table: ImpactTable, matchedIds: set<string>, matchedDigests: set<string>)
    requires NoSelfDependency(g) && AllBound(g, bindings)
    ensures fresh(table) && table.Valid()
    ensures table.View == Closure(g, owners, Direct(g, owners, c, bindings))
    ensures matchedIds == MatchedIds(c, bindings) && matchedDigests == MatchedDigests(c, bindings)
  {
    table := new ImpactTable();
    matchedIds, matchedDigests := table.CollectDirect(g, owners, c, bindings);
    DirectIsSeed(g, owners, c, bindings);
    table.PropagateDependencies(g, owners);
  }
}
