/** The Action proof and the scope checker together: a mutating call depends on the prepared snapshot only. */
module SealedInputs {
  import opened Ordering
  import opened JsonValues
  import opened Workflow
  import opened WorkflowRuns
  import opened MutationCounts

  // ---------- Call sites ----------

  datatype Container = InParallel | InForeach

  datatype CallSite = CallSite(operation: string, arguments: map<string, Json>, containers: seq<Container>)

  function StepSites(step: Step, containers: seq<Container>): seq<CallSite>
    decreases step
  {
    match step.action
    case Call(operation, arguments) => [CallSite(operation, arguments, containers)]
    case Branch(_, thenSteps, elseSteps) => CallSites(thenSteps, containers) + CallSites(elseSteps, containers)
    case Parallel(children) => CallSites(children, containers + [InParallel])
    case Foreach(_, _, body) => CallSites(body, containers + [InForeach])
    case _ => []
  }

  /** `_call_sites`. */
  function CallSites(steps: seq<Step>, containers: seq<Container>): seq<CallSite>
    decreases steps
  {
    if steps == [] then [] else StepSites(steps[0], containers) + CallSites(steps[1..], containers)
  }

  /** The loop of `_call_sites`. */
  method CollectSites(steps: seq<Step>, containers: seq<Container>) returns (sites: seq<CallSite>)
    ensures sites == CallSites(steps, containers)
    decreases steps
  {
    sites := [];
    for i := 0 to |steps|
      invariant sites + CallSites(steps[i..], containers) == CallSites(steps, containers)
    {
      assert steps[i..][0] == steps[i] && steps[i..][1..] == steps[i + 1..];
      var found := CollectStepSites(steps[i], containers);
      sites := sites + found;
    }
  }

  method CollectStepSites(step: Step, containers: seq<Container>) returns (sites: seq<CallSite>)
    ensures sites == StepSites(step, containers)
    decreases step
  {
    match step.action {
      case Call(operation, arguments) => sites := [CallSite(operation, arguments, containers)];
      case Branch(_, thenSteps, elseSteps) =>
        var first := CollectSites(thenSteps, containers);
        var second := CollectSites(elseSteps, containers);
        sites := first + second;
      case Parallel(children) => sites := CollectSites(children, containers + [InParallel]);
      case Foreach(_, _, body) => sites := CollectSites(body, containers + [InForeach]);
      case _ => sites := [];
    }
  }

  // ---------- The commit half of the Action proof ----------

  /** A mutating call stands in no parallel or foreach and mentions neither live input nor fresh results. */
  predicate SealedSite(site: CallSite) {
    && InParallel !in site.containers && InForeach !in site.containers
    && forall s :: s in Strings(Obj(site.arguments)) ==>
         match ParseReference(s)
         case Some(InputRef(_)) => false
         case Some(StepRef(_, _)) => false
         case _ => true
  }

  /** What `prove_action_capability` demands of a commit workflow in execution mode `single`. */
  predicate ProvesCommit(steps: seq<Step>, actions: set<string>) {
    && Counts(steps, actions) == {1}
    && forall site :: site in CallSites(steps, []) && site.operation in actions ==> SealedSite(site)
  }

  // ---------- Evaluating arguments ----------

  /** A reference's path leads through objects only. */
  function FieldAt(value: Json, path: seq<string>): Option<Json>
    decreases |path|
  {
    if path == [] then Some(value)
    else if Has(value, path[0]) then FieldAt(Get(value, path[0]), path[1..])
    else None
  }

  function FromRoot(root: Option<Json>, path: seq<string>): Option<Json> {
    match root
    case None => None
    case Some(value) => FieldAt(value, path)
  }

  /** `_resolve_value` on a text: `None` where it raises. */
  function EvaluateText(text: string, st: State): Option<Json> {
    match ParseReference(text)
    case None => if LooksDynamic(text) then None else Some(Str(text))
    case Some(InputRef(path)) => FromRoot(st.input, path)
    case Some(ItemRef(path)) => FromRoot(st.item, path)
    case Some(PreparedRef(path)) => FromRoot(st.prepared, path)
    case Some(StepRef(id, path)) => FromRoot(if id in st.steps then Some(st.steps[id]) else None, path)
  }

  /** A value with its references replaced, or nothing when one of them finds no value. */
  function Evaluate(value: Json, st: State): Option<Json> {
    match value
    case Str(s) => EvaluateText(s, st)
    case Arr(items) =>
      if forall i | 0 <= i < |items| :: Evaluate(items[i], st).Some?
      then Some(Arr(seq(|items|, i requires 0 <= i < |items| => Evaluate(items[i], st).value)))
      else None
    case Obj(fields) =>
      if forall k | k in fields :: Evaluate(fields[k], st).Some?
      then Some(Obj(map k | k in fields :: Evaluate(fields[k], st).value))
      else None
    case _ => Some(value)
  }

  /** A text that is no reference, or a reference to the prepared snapshot. */
  predicate PreparedOnly(text: string) {
    match ParseReference(text)
    case None => true
    case Some(reference) => reference.PreparedRef?
  }

  lemma ItemsEvaluate(items: seq<Json>, st: State)
    ensures var all := Evaluate(Arr(items), st);
      if forall i :: 0 <= i < |items| ==> Evaluate(items[i], st).Some?
      then
        && all.Some? && all.value.Arr? && |all.value.items| == |items|
        && forall i :: 0 <= i < |items| ==> all.value.items[i] == Evaluate(items[i], st).value
      else all == None
  {
  }

  lemma ItemsEvaluateAlike(items: seq<Json>, a: State, b: State)
    requires forall i :: 0 <= i < |items| ==> Evaluate(items[i], a) == Evaluate(items[i], b)
    ensures Evaluate(Arr(items), a) == Evaluate(Arr(items), b)
  {
    ItemsEvaluate(items, a);
    ItemsEvaluate(items, b);
    if forall i :: 0 <= i < |items| ==> Evaluate(items[i], a).Some? {
      assert Evaluate(Arr(items), a).value.items == Evaluate(Arr(items), b).value.items;
    }
  }

  lemma FieldsEvaluate(fields: map<string, Json>, st: State)
    ensures var all := Evaluate(Obj(fields), st);
      if forall k :: k in fields ==> Evaluate(fields[k], st).Some?
      then
        && all.Some? && all.value.Obj? && all.value.fields.Keys == fields.Keys
        && forall k :: k in fields ==> all.value.fields[k] == Evaluate(fields[k], st).value
      else all == None
  {
  }

  lemma FieldsEvaluateAlike(fields: map<string, Json>, a: State, b: State)
    requires forall k :: k in fields ==> Evaluate(fields[k], a) == Evaluate(fields[k], b)
    ensures Evaluate(Obj(fields), a) == Evaluate(Obj(fields), b)
  {
    FieldsEvaluate(fields, a);
    FieldsEvaluate(fields, b);
    if forall k :: k in fields ==> Evaluate(fields[k], a).Some? {
      assert Evaluate(Obj(fields), a).value.fields == Evaluate(Obj(fields), b).value.fields;
    }
  }

  lemma {:induction false} PreparedOnlyIsSealed(value: Json, a: State, b: State)
    requires forall s :: s in Strings(value) ==> PreparedOnly(s)
    requires a.prepared == b.prepared
    ensures Evaluate(value, a) == Evaluate(value, b)
  {
    match value
    case Str(s) => assert s in Strings(value);
    case Arr(items) =>
      StringsOfList(items);
      forall i | 0 <= i < |items| ensures Evaluate(items[i], a) == Evaluate(items[i], b) {
        assert forall s :: s in Strings(items[i]) ==> s in Strings(value);
        PreparedOnlyIsSealed(items[i], a, b);
      }
      ItemsEvaluateAlike(items, a, b);
    case Obj(fields) =>
      StringsOfFields(fields);
      forall k | k in fields ensures Evaluate(fields[k], a) == Evaluate(fields[k], b) {
        assert forall s :: s in Strings(fields[k]) ==> s in Strings(value);
        PreparedOnlyIsSealed(fields[k], a, b);
      }
      FieldsEvaluateAlike(fields, a, b);
    case _ =>
  }

  // ---------- Sites the scope checker has seen ----------

  predicate AllowedIn(text: string, phase: Phase) {
    match ParseReference(text)
    case Some(InputRef(_)) => phase.allowInput
    case Some(ItemRef(_)) => phase.allowItem
    case Some(PreparedRef(_)) => phase.allowPrepared
    case _ => true
  }

  ghost predicate SiteAllowed(site: CallSite, phase: Phase) {
    InForeach in site.containers || forall s :: s in Strings(Obj(site.arguments)) ==> AllowedIn(s, phase)
  }

  lemma {:induction false} StepSitesAllowed(
    step: Step, containers: seq<Container>, available: set<string>, seen: set<string>, catalog: Catalog,
    phase: Phase)
    requires CheckStep(step, available, seen, catalog, phase).codes == {}
    ensures forall site :: site in StepSites(step, containers) ==>
      SiteAllowed(site, phase) && containers <= site.containers
    decreases step
  {
    var registered := Register(step.id, seen);
    match step.action
    case Call(_, arguments) =>
      forall s | s in Strings(Obj(arguments)) ensures AllowedIn(s, phase) {
        var codes := CheckValue(Obj(arguments), available, phase);
        assert forall code :: code in CheckReference(s, available, phase, false) ==> code in codes;
      }
    case Branch(_, thenSteps, elseSteps) =>
      SitesAllowed(thenSteps, containers, available, registered.seen, catalog, phase);
      SitesAllowed(elseSteps, containers, available,
        CheckSteps(thenSteps, available, registered.seen, catalog, phase).seen, catalog, phase);
    case Parallel(children) =>
      ChildSitesAllowed(children, containers + [InParallel], available, registered.seen, catalog, phase);
    case Foreach(_, _, body) =>
      SitesAllowed(body, containers + [InForeach], available, registered.seen, catalog, phase.(allowItem := true));
      forall site | site in StepSites(step, containers)
        ensures SiteAllowed(site, phase) && containers <= site.containers
      {
        assert (containers + [InForeach])[|containers|] == InForeach;
        assert site.containers[|containers|] == InForeach;
      }
    case _ =>
  }

  lemma {:induction false} SitesAllowed(
    steps: seq<Step>, containers: seq<Container>, available: set<string>, seen: set<string>, catalog: Catalog,
    phase: Phase)
    requires CheckSteps(steps, available, seen, catalog, phase).codes == {}
    ensures forall site :: site in CallSites(steps, containers) ==>
      SiteAllowed(site, phase) && containers <= site.containers
    decreases steps
  {
    if steps == [] {
    } else {
      StepSitesAllowed(steps[0], containers, available, seen, catalog, phase);
      SitesAllowed(steps[1..], containers, WithId(steps[0].id, available),
                   CheckStep(steps[0], available, seen, catalog, phase).seen, catalog, phase);
    }
  }

  lemma {:induction false} ChildSitesAllowed(
    children: seq<Step>, containers: seq<Container>, available: set<string>, seen: set<string>, catalog: Catalog,
    phase: Phase)
    requires CheckChildren(children, available, seen, catalog, phase).codes == {}
    ensures forall site :: site in CallSites(children, containers) ==>
      SiteAllowed(site, phase) && containers <= site.containers
    decreases children
  {
    if children == [] {
    } else {
      StepSitesAllowed(children[0], containers, available, seen, catalog, phase);
      ChildSitesAllowed(children[1..], containers, available,
                        CheckStep(children[0], available, seen, catalog, phase).seen, catalog, phase);
    }
  }

  // ---------- Mutating calls on a run ----------

  /** The arguments of the mutating calls one run makes, in order. */
  function StepCalls(step: Step, run: StepRun, actions: set<string>): seq<map<string, Json>>
    requires Matches(step, run)
    decreases step
  {
    match step.action
    case Call(operation, arguments) => if operation in actions then [arguments] else []
    case Branch(_, thenSteps, elseSteps) =>
      if run.takesThen then Calls(thenSteps, run.body, actions) else Calls(elseSteps, run.body, actions)
    case Parallel(children) => Calls(children, run.children, actions)
    case Foreach(_, _, body) => RoundCalls(body, run.rounds, actions)
    case _ => []
  }

  function Calls(steps: seq<Step>, runs: seq<StepRun>, actions: set<string>): seq<map<string, Json>>
    requires MatchesAll(steps, runs)
    decreases steps, 0
  {
    if steps == [] then []
    else StepCalls(steps[0], runs[0], actions) + Calls(steps[1..], runs[1..], actions)
  }

  function RoundCalls(body: seq<Step>, rounds: seq<Round>, actions: set<string>): seq<map<string, Json>>
    requires forall i | 0 <= i < |rounds| :: MatchesAll(body, rounds[i].body)
    decreases body, 1, |rounds|
  {
    if rounds == [] then []
    else Calls(body, rounds[0].body, actions) + RoundCalls(body, rounds[1..], actions)
  }

  ghost predicate ComesFrom(arguments: map<string, Json>, sites: seq<CallSite>, actions: set<string>) {
    exists site :: site in sites && site.operation in actions && site.arguments == arguments
  }

  /** A run makes as many mutating calls as it counts mutations, each at some call site. */
  lemma {:induction false} StepCallsHaveSites(
    step: Step, run: StepRun, containers: seq<Container>, actions: set<string>)
    requires Matches(step, run)
    ensures |StepCalls(step, run, actions)| == Mutations(step, run, actions)
    ensures forall a :: a in StepCalls(step, run, actions) ==> ComesFrom(a, StepSites(step, containers), actions)
    decreases step, 2
  {
    match step.action
    case Call(_, _) => assert StepSites(step, containers)[0] in StepSites(step, containers);
    case Branch(_, thenSteps, elseSteps) =>
      if run.takesThen {
        CallsHaveSites(thenSteps, run.body, containers, actions);
        SitesInclude(CallSites(thenSteps, containers), [], CallSites(elseSteps, containers), actions);
      } else {
        CallsHaveSites(elseSteps, run.body, containers, actions);
        SitesInclude(CallSites(elseSteps, containers), CallSites(thenSteps, containers), [], actions);
      }
    case Parallel(children) => CallsHaveSites(children, run.children, containers + [InParallel], actions);
    case Foreach(_, _, body) => RoundCallsHaveSites(body, run.rounds, containers + [InForeach], actions);
    case _ =>
  }

  lemma SitesInclude(sites: seq<CallSite>, before: seq<CallSite>, after: seq<CallSite>, actions: set<string>)
    ensures forall a :: ComesFrom(a, sites, actions) ==> ComesFrom(a, before + sites + after, actions)
    ensures before == [] ==> before + sites + after == sites + after
    ensures after == [] ==> before + sites + after == before + sites
  {
  }

  lemma {:induction false} CallsHaveSites(
    steps: seq<Step>, runs: seq<StepRun>, containers: seq<Container>, actions: set<string>)
    requires MatchesAll(steps, runs)
    ensures |Calls(steps, runs, actions)| == AllMutations(steps, runs, actions)
    ensures forall a :: a in Calls(steps, runs, actions) ==> ComesFrom(a, CallSites(steps, containers), actions)
    decreases steps, 0
  {
    if steps == [] {
    } else {
      StepCallsHaveSites(steps[0], runs[0], containers, actions);
      CallsHaveSites(steps[1..], runs[1..], containers, actions);
      SitesInclude(StepSites(steps[0], containers), [], CallSites(steps[1..], containers), actions);
      SitesInclude(CallSites(steps[1..], containers), StepSites(steps[0], containers), [], actions);
    }
  }

  lemma {:induction false} RoundCallsHaveSites(
    body: seq<Step>, rounds: seq<Round>, containers: seq<Container>, actions: set<string>)
    requires forall i | 0 <= i < |rounds| :: MatchesAll(body, rounds[i].body)
    ensures |RoundCalls(body, rounds, actions)| == RoundMutations(body, rounds, actions)
    ensures forall a :: a in RoundCalls(body, rounds, actions) ==> ComesFrom(a, CallSites(body, containers), actions)
    decreases body, 1, |rounds|
  {
    if rounds == [] {
    } else {
      CallsHaveSites(body, rounds[0].body, containers, actions);
      RoundCallsHaveSites(body, rounds[1..], containers, actions);
    }
  }

  /** The arguments of a mutating call of an accepted commit workflow mention prepared state only. */
  lemma SealedSiteIsPreparedOnly(steps: seq<Step>, catalog: Catalog, actions: set<string>, site: CallSite)
    requires Accepted(steps, catalog, COMMIT) && ProvesCommit(steps, actions)
    requires site in CallSites(steps, []) && site.operation in actions
    ensures forall s :: s in Strings(Obj(site.arguments)) ==> PreparedOnly(s)
  {
    SitesAllowed(steps, [], {}, {}, catalog, COMMIT);
    forall s | s in Strings(Obj(site.arguments)) ensures PreparedOnly(s) {
      assert SealedSite(site) && AllowedIn(s, COMMIT);
    }
  }

  /**
   * When the Action proof and the commit-phase check both accept, every run makes exactly one
   * mutating call, and its arguments evaluate alike in any two states with one prepared snapshot.
   */
  lemma MutationIsSealed(
    steps: seq<Step>, runs: seq<StepRun>, catalog: Catalog, actions: set<string>, a: State, b: State)
    requires Accepted(steps, catalog, COMMIT) && ProvesCommit(steps, actions)
    requires MatchesAll(steps, runs) && a.prepared == b.prepared
    ensures |Calls(steps, runs, actions)| == 1
    ensures Evaluate(Obj(Calls(steps, runs, actions)[0]), a) == Evaluate(Obj(Calls(steps, runs, actions)[0]), b)
  {
    var lo, hi := RunWithin(steps, runs, actions);
    CallsHaveSites(steps, runs, [], actions);
    var arguments := Calls(steps, runs, actions)[0];
    assert arguments in Calls(steps, runs, actions);
    var site :| site in CallSites(steps, []) && site.operation in actions && site.arguments == arguments;
    SealedSiteIsPreparedOnly(steps, catalog, actions, site);
    PreparedOnlyIsSealed(Obj(arguments), a, b);
  }
}
