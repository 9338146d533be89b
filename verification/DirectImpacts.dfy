/** Which evidence bindings a change touches, and the impact they have on their own domains. */
module DirectImpacts {
  import opened Ordering
  import opened DomainGraph
  import opened ImpactClosure

  datatype Binding = Binding(
    evidence: string,
    domain: string,
    candidate: Option<string>,
    capability: Option<string>,
    axis: Option<string>,
    security: bool,
    digests: set<string>)

  datatype Delta = Delta(oldDigest: Option<string>, newDigest: Option<string>)

  /** Evidence changed by reference, by digest, or by a structured before/after pair. */
  datatype Change = Change(ids: set<string>, digests: set<string>, deltas: map<string, Delta>)

  function Optional(o: Option<string>): set<string> {
    if o.Some? then {o.value} else {}
  }

  function DeltaDigests(c: Change, evidence: string): set<string> {
    if evidence in c.deltas
    then Optional(c.deltas[evidence].oldDigest) + Optional(c.deltas[evidence].newDigest)
    else {}
  }

  predicate MatchesById(c: Change, b: Binding) {
    b.evidence in c.ids || b.digests * DeltaDigests(c, b.evidence) != {}
  }

  predicate Matches(c: Change, b: Binding) {
    MatchesById(c, b) || b.digests * c.digests != {}
  }

  /** The candidates one binding affects: its own, or all candidates of its domain. */
  function CandidatesOf(g: Domains, b: Binding): set<string>
    requires b.domain in g
  {
    if b.candidate.None? then Members(g[b.domain].candidates) else {b.candidate.value}
  }

  function SecurityAxis(b: Binding): set<string> {
    if b.security then Optional(b.axis) else {}
  }

  const UNTOUCHED := Impact(true, {}, {}, {}, {}, {})

  function Added(g: Domains, impact: Impact, b: Binding): Impact
    requires b.domain in g
  {
    impact.(
      evidence := impact.evidence + {b.evidence},
      candidates := impact.candidates + CandidatesOf(g, b),
      capabilities := impact.capabilities + Optional(b.capability),
      axes := impact.axes + SecurityAxis(b))
  }

  predicate AllBound(g: Domains, bindings: seq<Binding>) {
    forall b :: b in bindings ==> b.domain in g
  }

  /** The first loop of `_direct_impacts` after some bindings. */
  function Recorded(g: Domains, c: Change, bindings: seq<Binding>): (m: Impacts)
    requires AllBound(g, bindings)
    ensures m.Keys <= g.Keys
  {
    if bindings == [] then map[]
    else
      var init, b := bindings[..|bindings| - 1], bindings[|bindings| - 1];
      var m := Recorded(g, c, init);
      if Matches(c, b) then m[b.domain := Added(g, if b.domain in m then m[b.domain] else UNTOUCHED, b)] else m
  }

  /** The second loop: the capabilities accepted for the affected candidates. */
  function WithCapabilities(owners: map<string, set<string>>, impact: Impact): Impact {
    impact.(capabilities := impact.capabilities + CapabilitiesOf(owners, impact.candidates))
  }

  function Direct(g: Domains, owners: map<string, set<string>>, c: Change, bindings: seq<Binding>): (m: Impacts)
    requires AllBound(g, bindings)
    ensures m.Keys <= g.Keys
  {
    var recorded := Recorded(g, c, bindings);
    map d | d in recorded :: WithCapabilities(owners, recorded[d])
  }

  function MatchedIds(c: Change, bindings: seq<Binding>): set<string> {
    set b | b in bindings && Matches(c, b) :: b.evidence
  }

  function MatchedDigests(c: Change, bindings: seq<Binding>): set<string> {
    set b, x | b in bindings && x in b.digests && x in c.digests :: x
  }

  lemma OneMoreBinding(g: Domains, c: Change, bindings: seq<Binding>, i: nat)
    requires AllBound(g, bindings) && i < |bindings|
    ensures var b, m := bindings[i], Recorded(g, c, bindings[..i]);
      && MatchedIds(c, bindings[..i + 1]) == MatchedIds(c, bindings[..i]) + (if Matches(c, b) then {b.evidence} else {})
      && MatchedDigests(c, bindings[..i + 1]) == MatchedDigests(c, bindings[..i]) + b.digests * c.digests
      && Recorded(g, c, bindings[..i + 1])
        == if Matches(c, b) then m[b.domain := Added(g, if b.domain in m then m[b.domain] else UNTOUCHED, b)] else m
  {
    assert bindings[..i + 1] == bindings[..i] + [bindings[i]];
    assert bindings[..i + 1][..i] == bindings[..i];
    assert forall b :: b in bindings[..i + 1] <==> b in bindings[..i] || b == bindings[i];
  }

  // ---------- What was recorded ----------

  /** A matching binding of the domain. */
  predicate Touches(c: Change, b: Binding, d: string) {
    Matches(c, b) && b.domain == d
  }

  lemma {:induction false} RecordedExactly(g: Domains, c: Change, bindings: seq<Binding>, d: string)
    requires AllBound(g, bindings)
    ensures d in Recorded(g, c, bindings) <==> exists b :: b in bindings && Touches(c, b, d)
    ensures d in Recorded(g, c, bindings) ==>
      var impact := Recorded(g, c, bindings)[d];
      && impact.direct
      && impact.upstream == {}
      && (forall e :: e in impact.evidence <==> exists b :: b in bindings && Touches(c, b, d) && b.evidence == e)
      && (forall x :: x in impact.axes <==> exists b :: b in bindings && Touches(c, b, d) && x in SecurityAxis(b))
      && (forall k :: k in impact.candidates <==>
           exists b :: b in bindings && Touches(c, b, d) && k in CandidatesOf(g, b))
  {
    if bindings == [] {
    } else {
      var init, b := bindings[..|bindings| - 1], bindings[|bindings| - 1];
      assert bindings == init + [b];
      assert forall x :: x in bindings <==> x in init || x == b;
      RecordedExactly(g, c, init, d);
      if Touches(c, b, d) {
        assert b in bindings;
      } else {
        assert d in Recorded(g, c, bindings) <==> d in Recorded(g, c, init);
        assert d in Recorded(g, c, init) ==> Recorded(g, c, bindings)[d] == Recorded(g, c, init)[d];
      }
    }
  }

  lemma DirectIsSeed(g: Domains, owners: map<string, set<string>>, c: Change, bindings: seq<Binding>)
    requires AllBound(g, bindings)
    ensures Seeds(g, Direct(g, owners, c, bindings))
  {
    forall d | d in Direct(g, owners, c, bindings) ensures Direct(g, owners, c, bindings)[d].upstream == {} {
      RecordedExactly(g, c, bindings, d);
    }
  }

  // ---------- Tracing an impact back to its evidence ----------

  /** The change matches a binding of `d` itself or of a domain that leads to `d`. */
  ghost predicate Touched(g: Domains, c: Change, b: Binding, d: string) {
    Matches(c, b) && (b.domain == d || Leads(g, b.domain, d))
  }

  /** A domain is affected exactly when some matching binding lies in it or upstream of it. */
  lemma AffectedExactly(g: Domains, owners: map<string, set<string>>, c: Change, bindings: seq<Binding>, d: string)
    requires AllBound(g, bindings) && d in g
    ensures d in Closure(g, owners, Direct(g, owners, c, bindings))
      <==> exists b :: b in bindings && Touched(g, c, b, d)
  {
    var seeds := Direct(g, owners, c, bindings);
    if Reached(g, seeds, d) {
      var s := if d in seeds then d else var s :| s in seeds && Leads(g, s, d); s;
      RecordedExactly(g, c, bindings, s);
      var b :| b in bindings && Touches(c, b, s);
      assert Touched(g, c, b, d);
    }
    if b :| b in bindings && Touched(g, c, b, d) {
      RecordedExactly(g, c, bindings, b.domain);
      assert Touches(c, b, b.domain);
      assert b.domain in seeds;
    }
  }

  /** Its evidence is exactly the evidence of those bindings. */
  lemma EvidenceExactly(
    g: Domains, owners: map<string, set<string>>, c: Change, bindings: seq<Binding>, d: string, e: string)
    requires AllBound(g, bindings) && d in Closure(g, owners, Direct(g, owners, c, bindings))
    ensures e in Closure(g, owners, Direct(g, owners, c, bindings))[d].evidence
      <==> exists b :: b in bindings && Touched(g, c, b, d) && b.evidence == e
  {
    var seeds := Direct(g, owners, c, bindings);
    RecordedExactly(g, c, bindings, d);
    if e in EvidenceFrom(g, seeds, d) {
      var s :| s in seeds && Leads(g, s, d) && e in seeds[s].evidence;
      RecordedExactly(g, c, bindings, s);
      var b :| b in bindings && Touches(c, b, s) && b.evidence == e;
      assert Touched(g, c, b, d);
    }
    if b :| b in bindings && Touched(g, c, b, d) && b.evidence == e {
      RecordedExactly(g, c, bindings, b.domain);
      assert Touches(c, b, b.domain);
      assert b.domain in seeds && e in seeds[b.domain].evidence;
    }
  }

  lemma AxisHasBinding(
    g: Domains, owners: map<string, set<string>>, c: Change, bindings: seq<Binding>, d: string, x: string)
    returns (b: Binding)
    requires AllBound(g, bindings) && d in Closure(g, owners, Direct(g, owners, c, bindings))
    requires x in Closure(g, owners, Direct(g, owners, c, bindings))[d].axes
    ensures b in bindings && Touched(g, c, b, d) && SecurityAxis(b) != {}
  {
    var seeds := Direct(g, owners, c, bindings);
    if d in seeds && x in seeds[d].axes {
      RecordedExactly(g, c, bindings, d);
      b :| b in bindings && Touches(c, b, d) && x in SecurityAxis(b);
    } else {
      var s, y :| s in seeds && Leads(g, s, d) && y in seeds[s].axes && x == Inherited(y);
      RecordedExactly(g, c, bindings, s);
      b :| b in bindings && Touches(c, b, s) && y in SecurityAxis(b);
    }
  }

  lemma BindingHasAxis(
    g: Domains, owners: map<string, set<string>>, c: Change, bindings: seq<Binding>, d: string, b: Binding)
    returns (x: string)
    requires AllBound(g, bindings) && d in Closure(g, owners, Direct(g, owners, c, bindings))
    requires b in bindings && Touched(g, c, b, d) && SecurityAxis(b) != {}
    ensures x in Closure(g, owners, Direct(g, owners, c, bindings))[d].axes
    ensures x == b.axis.value || x == Inherited(b.axis.value)
  {
    var seeds := Direct(g, owners, c, bindings);
    RecordedExactly(g, c, bindings, b.domain);
    assert Touches(c, b, b.domain) && b.axis.value in SecurityAxis(b);
    assert b.domain in seeds && b.axis.value in seeds[b.domain].axes;
    x := if b.domain == d then b.axis.value else Inherited(b.axis.value);
    assert b.domain != d ==> Inherited(b.axis.value) in AxesFrom(g, seeds, d);
  }

  /** `impact_class`: security relevant exactly when one of those bindings is, and names its axis. */
  lemma SecurityRelevantExactly(
    g: Domains, owners: map<string, set<string>>, c: Change, bindings: seq<Binding>, d: string)
    requires AllBound(g, bindings) && d in Closure(g, owners, Direct(g, owners, c, bindings))
    ensures Closure(g, owners, Direct(g, owners, c, bindings))[d].axes != {}
      <==> exists b :: b in bindings && Touched(g, c, b, d) && SecurityAxis(b) != {}
  {
    var axes := Closure(g, owners, Direct(g, owners, c, bindings))[d].axes;
    if axes != {} {
      var x :| x in axes;
      var b := AxisHasBinding(g, owners, c, bindings, d, x);
    }
    if b :| b in bindings && Touched(g, c, b, d) && SecurityAxis(b) != {} {
      var x := BindingHasAxis(g, owners, c, bindings, d, b);
    }
  }
}
