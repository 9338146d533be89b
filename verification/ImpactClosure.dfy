/** What an evidence change reaches: impact carried along domain dependencies, as a least fixpoint. */
module ImpactClosure {
  import opened DomainGraph
  import opened JsonPointer

  datatype Impact = Impact(
    direct: bool,
    upstream: set<string>,
    evidence: set<string>,
    candidates: set<string>,
    capabilities: set<string>,
    axes: set<string>)

  type Domains = map<string, Domain>
  type Impacts = map<string, Impact>

  // ---------- Axes ----------

  const PREFIX := "dependency:"

  /** `axis.removeprefix("dependency:")` */
  function Bare(axis: string): string {
    if StartsWith(axis, PREFIX) then axis[|PREFIX|..] else axis
  }

  /** The name an axis gets in a dependent domain. */
  function Inherited(axis: string): string {
    PREFIX + Bare(axis)
  }

  lemma InheritedTwice(axis: string)
    ensures Inherited(Inherited(axis)) == Inherited(axis)
  {
    var once := Inherited(axis);
    assert once[..|PREFIX|] == PREFIX && once[|PREFIX|..] == Bare(axis);
  }

  function InheritedAxes(axes: set<string>): set<string> {
    set x | x in axes :: Inherited(x)
  }

  // ---------- Paths ----------

  predicate DependsOn(g: Domains, d: string, e: string) {
    d in g && e in g[d].dependencies
  }

  /** From a domain through one or more dependents. */
  predicate Path(g: Domains, p: seq<string>) {
    && |p| >= 2
    && (forall i :: 0 <= i < |p| ==> p[i] in g)
    && forall i :: 0 <= i < |p| - 1 ==> DependsOn(g, p[i + 1], p[i])
  }

  ghost predicate Leads(g: Domains, a: string, b: string) {
    exists p :: Path(g, p) && p[0] == a && p[|p| - 1] == b
  }

  lemma EdgeLeads(g: Domains, a: string, b: string)
    requires a in g && DependsOn(g, b, a)
    ensures Leads(g, a, b)
  {
    assert Path(g, [a, b]);
  }

  lemma LeadsOn(g: Domains, a: string, b: string, c: string)
    requires Leads(g, a, b) && DependsOn(g, c, b)
    ensures Leads(g, a, c)
  {
    var p :| Path(g, p) && p[0] == a && p[|p| - 1] == b;
    var longer := p + [c];
    assert Path(g, longer) && longer[0] == a && longer[|longer| - 1] == c;
  }

  // ---------- The closure ----------

  predicate Above(small: Impact, large: Impact) {
    && small.upstream <= large.upstream
    && small.evidence <= large.evidence
    && small.axes <= large.axes
  }

  predicate AllAbove(small: Impacts, large: Impacts) {
    && small.Keys <= large.Keys
    && forall d :: d in small ==> Above(small[d], large[d])
  }

  /** What the impact `a` of domain `id` passes to a dependent is contained in `b`. */
  predicate Flows(id: string, a: Impact, b: Impact) {
    && a.upstream + {id} <= b.upstream
    && a.evidence <= b.evidence
    && InheritedAxes(a.axes) <= b.axes
  }

  /** Nothing is left to pass on. */
  predicate Closed(g: Domains, m: Impacts) {
    forall a, b :: a in m && b in g && DependsOn(g, b, a) ==> b in m && Flows(a, m[a], m[b])
  }

  ghost predicate Reached(g: Domains, seeds: Impacts, d: string) {
    d in seeds || exists s :: s in seeds && Leads(g, s, d)
  }

  /** The fields fixed when a domain's impact is created. */
  function Fresh(g: Domains, owners: map<string, set<string>>, d: string): Impact
    requires d in g
  {
    var candidates := Members(g[d].candidates);
    Impact(false, {}, {}, candidates, CapabilitiesOf(owners, candidates), {})
  }

  function CapabilitiesOf(owners: map<string, set<string>>, candidates: set<string>): set<string> {
    set c, k | c in candidates && c in owners && k in owners[c] :: k
  }

  function Base(g: Domains, owners: map<string, set<string>>, seeds: Impacts, d: string): Impact
    requires d in g
  {
    if d in seeds then seeds[d] else Fresh(g, owners, d)
  }

  ghost function UpstreamOf(g: Domains, seeds: Impacts, d: string): set<string> {
    set a | a in g && Reached(g, seeds, a) && Leads(g, a, d)
  }

  ghost function EvidenceFrom(g: Domains, seeds: Impacts, d: string): set<string> {
    set s, e | s in seeds && Leads(g, s, d) && e in seeds[s].evidence :: e
  }

  ghost function AxesFrom(g: Domains, seeds: Impacts, d: string): set<string> {
    set s, x | s in seeds && Leads(g, s, d) && x in seeds[s].axes :: Inherited(x)
  }

  ghost function ReachedImpact(g: Domains, owners: map<string, set<string>>, seeds: Impacts, d: string): Impact
    requires d in g
  {
    var own := Base(g, owners, seeds, d);
    own.(
      upstream := UpstreamOf(g, seeds, d),
      evidence := own.evidence + EvidenceFrom(g, seeds, d),
      axes := own.axes + AxesFrom(g, seeds, d))
  }

  /**
   * Every domain reachable from a directly impacted one, with all impacted ancestors, the evidence of
   * all directly impacted ancestors and their axes under the inherited name.
   */
  ghost function Closure(g: Domains, owners: map<string, set<string>>, seeds: Impacts): (m: Impacts)
    ensures m.Keys <= g.Keys
  {
    map d | d in g && Reached(g, seeds, d) :: ReachedImpact(g, owners, seeds, d)
  }

  /** Directly impacted domains, before anything is propagated. */
  predicate Seeds(g: Domains, seeds: Impacts) {
    seeds.Keys <= g.Keys && forall d :: d in seeds ==> seeds[d].upstream == {}
  }

  lemma ReachedOn(g: Domains, seeds: Impacts, a: string, b: string)
    requires Reached(g, seeds, a) && a in g && DependsOn(g, b, a)
    ensures Reached(g, seeds, b)
  {
    if a in seeds {
      EdgeLeads(g, a, b);
    } else {
      var s :| s in seeds && Leads(g, s, a);
      LeadsOn(g, s, a, b);
    }
  }

  lemma UpstreamFlows(g: Domains, seeds: Impacts, a: string, b: string)
    requires a in g && Reached(g, seeds, a) && DependsOn(g, b, a)
    ensures UpstreamOf(g, seeds, a) + {a} <= UpstreamOf(g, seeds, b)
  {
    EdgeLeads(g, a, b);
    forall u | u in UpstreamOf(g, seeds, a) ensures u in UpstreamOf(g, seeds, b) {
      LeadsOn(g, u, a, b);
    }
  }

  lemma EvidenceFlows(g: Domains, owners: map<string, set<string>>, seeds: Impacts, a: string, b: string)
    requires a in g && DependsOn(g, b, a)
    ensures Base(g, owners, seeds, a).evidence + EvidenceFrom(g, seeds, a) <= EvidenceFrom(g, seeds, b)
  {
    EdgeLeads(g, a, b);
    forall e | e in EvidenceFrom(g, seeds, a) ensures e in EvidenceFrom(g, seeds, b) {
      var s :| s in seeds && Leads(g, s, a) && e in seeds[s].evidence;
      LeadsOn(g, s, a, b);
    }
  }

  lemma AxesFlow(g: Domains, owners: map<string, set<string>>, seeds: Impacts, a: string, b: string)
    requires a in g && DependsOn(g, b, a)
    ensures InheritedAxes(Base(g, owners, seeds, a).axes + AxesFrom(g, seeds, a)) <= AxesFrom(g, seeds, b)
  {
    EdgeLeads(g, a, b);
    forall x | x in AxesFrom(g, seeds, a) ensures Inherited(x) in AxesFrom(g, seeds, b) {
      var s, y :| s in seeds && Leads(g, s, a) && y in seeds[s].axes && x == Inherited(y);
      LeadsOn(g, s, a, b);
      InheritedTwice(y);
    }
  }

  lemma ClosureIsClosed(g: Domains, owners: map<string, set<string>>, seeds: Impacts)
    ensures Closed(g, Closure(g, owners, seeds))
  {
    var m := Closure(g, owners, seeds);
    forall a, b | a in m && DependsOn(g, b, a) ensures b in m && Flows(a, m[a], m[b]) {
      ReachedOn(g, seeds, a, b);
      UpstreamFlows(g, seeds, a, b);
      EvidenceFlows(g, owners, seeds, a, b);
      AxesFlow(g, owners, seeds, a, b);
    }
  }

  lemma SeedsInClosure(g: Domains, owners: map<string, set<string>>, seeds: Impacts)
    requires Seeds(g, seeds)
    ensures AllAbove(seeds, Closure(g, owners, seeds))
  {
  }

  /** Everything a closed map holds at the start of a path it also holds at the end. */
  lemma {:induction false} FlowsAlong(g: Domains, m: Impacts, p: seq<string>)
    requires Closed(g, m) && Path(g, p) && p[0] in m
    ensures p[|p| - 1] in m && Flows(p[0], m[p[0]], m[p[|p| - 1]])
  {
    var last := |p| - 1;
    assert DependsOn(g, p[last], p[last - 1]);
    if last <= 1 {
    } else {
      FlowsAlong(g, m, p[..last]);
      FlowsCompose(p[0], m[p[0]], p[last - 1], m[p[last - 1]], m[p[last]]);
    }
  }

  lemma FlowsCompose(id: string, a: Impact, middle: string, b: Impact, c: Impact)
    requires Flows(id, a, b) && Flows(middle, b, c)
    ensures Flows(id, a, c)
  {
    forall x | x in a.axes ensures Inherited(x) in c.axes {
      assert Inherited(x) in InheritedAxes(a.axes);
      InheritedTwice(x);
      assert Inherited(Inherited(x)) in InheritedAxes(b.axes);
    }
  }

  /** The closure is the least closed map above the direct impacts. */
  lemma ClosureIsLeast(g: Domains, owners: map<string, set<string>>, seeds: Impacts, m: Impacts)
    requires Seeds(g, seeds) && Closed(g, m) && AllAbove(seeds, m)
    ensures AllAbove(Closure(g, owners, seeds), m)
  {
    forall d | d in Closure(g, owners, seeds)
      ensures d in m && Above(Closure(g, owners, seeds)[d], m[d])
    {
      ReachedIn(g, seeds, m, d);
      LeastAt(g, owners, seeds, m, d);
    }
  }

  lemma ReachedIn(g: Domains, seeds: Impacts, m: Impacts, d: string)
    requires Closed(g, m) && AllAbove(seeds, m) && Reached(g, seeds, d)
    ensures d in m
  {
    if d !in seeds {
      var s :| s in seeds && Leads(g, s, d);
      var p :| Path(g, p) && p[0] == s && p[|p| - 1] == d;
      FlowsAlong(g, m, p);
    }
  }

  lemma LeadsFlows(g: Domains, m: Impacts, a: string, d: string)
    requires Closed(g, m) && a in m && Leads(g, a, d)
    ensures d in m && Flows(a, m[a], m[d])
  {
    var p :| Path(g, p) && p[0] == a && p[|p| - 1] == d;
    FlowsAlong(g, m, p);
  }

  lemma LeastAt(g: Domains, owners: map<string, set<string>>, seeds: Impacts, m: Impacts, d: string)
    requires Seeds(g, seeds) && Closed(g, m) && AllAbove(seeds, m) && d in g && d in m
    ensures Above(ReachedImpact(g, owners, seeds, d), m[d])
  {
    forall a | a in UpstreamOf(g, seeds, d) ensures a in m[d].upstream {
      ReachedIn(g, seeds, m, a);
      LeadsFlows(g, m, a, d);
    }
    forall e | e in EvidenceFrom(g, seeds, d) ensures e in m[d].evidence {
      var s :| s in seeds && Leads(g, s, d) && e in seeds[s].evidence;
      LeadsFlows(g, m, s, d);
    }
    forall x | x in AxesFrom(g, seeds, d) ensures x in m[d].axes {
      var s, y :| s in seeds && Leads(g, s, d) && y in seeds[s].axes && x == Inherited(y);
      LeadsFlows(g, m, s, d);
      assert Inherited(y) in InheritedAxes(m[s].axes);
    }
  }
}
