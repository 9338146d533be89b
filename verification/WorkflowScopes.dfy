/** The checker reports nothing in vain: a blocking diagnostic means that some run raises. */
module WorkflowScopes {
  import opened Ordering
  import opened JsonValues
  import opened Workflow
  import opened WorkflowRuns

  /** `max_items` is at least one, as the model declares it. */
  predicate WellFormedStep(step: Step)
    decreases step
  {
    match step.action
    case Branch(_, thenSteps, elseSteps) => WellFormed(thenSteps) && WellFormed(elseSteps)
    case Parallel(children) => WellFormed(children)
    case Foreach(_, maxItems, body) => maxItems >= 1 && WellFormed(body)
    case _ => true
  }

  predicate WellFormed(steps: seq<Step>)
    decreases steps
  {
    steps == [] || (WellFormedStep(steps[0]) && WellFormed(steps[1..]))
  }

  // ---------- A shortest run ----------

  /** Every loop body runs no round, every mapping sees one element. */
  function ShortRun(step: Step): (run: StepRun)
    ensures Matches(step, run)
    decreases step
  {
    match step.action
    case Map(_, _) => Mapped([Null], Null)
    case Filter(_, _) => Mapped([Null], Null)
    case Branch(_, thenSteps, _) => Branched(true, ShortRuns(thenSteps), Null)
    case Parallel(children) => Forked(ShortRuns(children), Null)
    case Foreach(_, _, _) => Looped([], Null)
    case _ => Leaf(Null)
  }

  function ShortRuns(steps: seq<Step>): (runs: seq<StepRun>)
    ensures MatchesAll(steps, runs)
    decreases steps
  {
    if steps == [] then [] else [ShortRun(steps[0])] + ShortRuns(steps[1..])
  }

  // ---------- From a diagnostic to a stuck run ----------

  /** The run's scope holds exactly what the checker thinks is there. */
  predicate Exact(st: State, available: set<string>, phase: Phase) {
    && st.steps.Keys == available
    && (st.item.Some? <==> phase.allowItem)
    && (st.input.Some? <==> phase.allowInput)
    && (st.prepared.Some? <==> phase.allowPrepared)
  }

  predicate Blocked(codes: set<Code>) {
    exists code :: code in codes && code in BLOCKING
  }

  lemma UnreadableText(text: string, required: bool, st: State, available: set<string>, phase: Phase)
    requires Exact(st, available, phase)
    requires Blocked(CheckReference(text, available, phase, required))
    ensures !TextReads(text, required, st)
  {
  }

  lemma UnreadableValue(value: Json, st: State, available: set<string>, phase: Phase)
    requires Exact(st, available, phase)
    requires Blocked(CheckValue(value, available, phase))
    ensures !ValueReads(value, st)
  {
    var code :| code in CheckValue(value, available, phase) && code in BLOCKING;
    var s :| s in Strings(value) && code in CheckReference(s, available, phase, false);
    UnreadableText(s, false, st, available, phase);
  }

  lemma UnreadableOperand(operand: Operand, st: State, available: set<string>, phase: Phase)
    requires Exact(st, available, phase)
    requires Blocked(CheckOperand(operand, available, phase))
    ensures !OperandReads(operand, st)
  {
    if operand.Dynamic? { UnreadableText(operand.text, true, st, available, phase); }
  }

  lemma {:induction false} UnreadableCondition(condition: Condition, st: State, available: set<string>, phase: Phase)
    requires Exact(st, available, phase)
    requires Blocked(CheckCondition(condition, available, phase))
    ensures !ConditionReads(condition, st)
  {
    var code :| code in CheckCondition(condition, available, phase) && code in BLOCKING;
    match condition
    case Eq(left, right) =>
      if code in CheckOperand(left, available, phase) { UnreadableOperand(left, st, available, phase); }
      else { UnreadableOperand(right, st, available, phase); }
    case In(item, values) =>
      if code in CheckOperand(item, available, phase) { UnreadableOperand(item, st, available, phase); }
      else { UnreadableOperand(values, st, available, phase); }
    case All(cs) =>
      var i :| 0 <= i < |cs| && code in CheckCondition(cs[i], available, phase);
      UnreadableCondition(cs[i], st, available, phase);
    case Any(cs) =>
      var i :| 0 <= i < |cs| && code in CheckCondition(cs[i], available, phase);
      UnreadableCondition(cs[i], st, available, phase);
    case Not(c) => UnreadableCondition(c, st, available, phase);
  }

  lemma UnreadablePerItem(text: string, elements: seq<Json>, st: State, available: set<string>, phase: Phase)
    requires Exact(st, available, phase) && elements != []
    requires Blocked(CheckReference(text, available, phase.(allowItem := true), true))
    ensures !PerItemReads(text, elements, st)
  {
    UnreadableText(text, true, st.(item := Some(elements[0])), available, phase.(allowItem := true));
  }

  lemma UnreadableItems(
    items: Json, text: string, elements: seq<Json>, st: State, available: set<string>, phase: Phase)
    requires Exact(st, available, phase) && elements != []
    requires Blocked(
      CheckValue(items, available, phase) + CheckReference(text, available, phase.(allowItem := true), true))
    ensures !(ValueReads(items, st) && PerItemReads(text, elements, st))
  {
    if Blocked(CheckValue(items, available, phase)) {
      UnreadableValue(items, st, available, phase);
    } else {
      UnreadablePerItem(text, elements, st, available, phase);
    }
  }

  lemma UnreadableOwn(step: Step, run: StepRun, st: State, available: set<string>, catalog: Catalog, phase: Phase)
    requires Matches(step, run) && Exact(st, available, phase)
    requires run.Mapped? ==> run.elements != []
    requires st.operations == catalog.operations
    requires Blocked(CheckOwn(step.action, catalog, available, phase))
    ensures !OwnRuns(step, run, st)
  {
    match step.action
    case Call(operation, arguments) =>
      if operation in catalog.operations {
        assert Blocked(CheckValue(Obj(arguments), available, phase));
        UnreadableValue(Obj(arguments), st, available, phase);
      }
    case Pick(value) => UnreadableValue(value, st, available, phase);
    case Map(items, expression) => UnreadableItems(items, expression, run.elements, st, available, phase);
    case Filter(items, test) => UnreadableItems(items, test, run.elements, st, available, phase);
    case Assert(test) => UnreadableText(test, true, st, available, phase);
    case Redact(value) => UnreadableValue(value, st, available, phase);
    case Branch(guard, _, _) =>
      match guard {
        case Text(text) => UnreadableText(text, true, st, available, phase);
        case Tree(condition) => UnreadableCondition(condition, st, available, phase);
      }
    case Parallel(_) =>
    case Foreach(items, _, _) => UnreadableValue(items, st, available, phase);
    case Emit(value) => UnreadableValue(value, st, available, phase);
  }

  /** A step with a blocking diagnostic has a run that gets stuck in it. */
  lemma {:induction false} StuckStep(
    step: Step, st: State, available: set<string>, seen: set<string>, catalog: Catalog, phase: Phase)
    returns (run: StepRun)
    requires WellFormedStep(step) && Exact(st, available, phase) && st.operations == catalog.operations
    requires Blocked(CheckStep(step, available, seen, catalog, phase).codes)
    ensures Matches(step, run) && ExecuteStep(step, run, st).None?
    decreases step, 1
  {
    run := ShortRun(step);
    if Blocked(CheckOwn(step.action, catalog, available, phase)) {
      UnreadableOwn(step, run, st, available, catalog, phase);
    } else {
      run := StuckInside(step, st, available, seen, catalog, phase);
    }
  }

  /** A step that is stuck for no reason of its own has a nested workflow with a stuck run. */
  lemma {:induction false} StuckInside(
    step: Step, st: State, available: set<string>, seen: set<string>, catalog: Catalog, phase: Phase)
    returns (run: StepRun)
    requires WellFormedStep(step) && Exact(st, available, phase) && st.operations == catalog.operations
    requires Blocked(CheckStep(step, available, seen, catalog, phase).codes)
    requires !Blocked(CheckOwn(step.action, catalog, available, phase))
    ensures Matches(step, run) && !NestedRuns(step, run, st)
    decreases step, 0
  {
    var registered := Register(step.id, seen);
    match step.action
    case Branch(_, thenSteps, elseSteps) =>
      var first := CheckSteps(thenSteps, available, registered.seen, catalog, phase);
      if Blocked(first.codes) {
        var body := StuckSteps(thenSteps, st, available, registered.seen, catalog, phase);
        run := Branched(true, body, Null);
      } else {
        var body := StuckSteps(elseSteps, st, available, first.seen, catalog, phase);
        run := Branched(false, body, Null);
      }
    case Parallel(children) =>
      var bodies := StuckChildren(children, st, available, registered.seen, catalog, phase);
      run := Forked(bodies, Null);
    case Foreach(_, _, body) =>
      var inner := StuckSteps(
        body, st.(item := Some(Null)), available, registered.seen, catalog, phase.(allowItem := true));
      run := Looped([Round(Null, inner)], Null);
      assert run.rounds[0].body == inner;
    case _ => run := ShortRun(step);
  }

  lemma {:induction false} StuckSteps(
    steps: seq<Step>, st: State, available: set<string>, seen: set<string>, catalog: Catalog, phase: Phase)
    returns (runs: seq<StepRun>)
    requires WellFormed(steps) && Exact(st, available, phase) && st.operations == catalog.operations
    requires Blocked(CheckSteps(steps, available, seen, catalog, phase).codes)
    ensures MatchesAll(steps, runs) && Execute(steps, runs, st).None?
    decreases steps
  {
    var first := CheckStep(steps[0], available, seen, catalog, phase);
    if Blocked(first.codes) {
      var run := StuckStep(steps[0], st, available, seen, catalog, phase);
      runs := [run] + ShortRuns(steps[1..]);
    } else {
      var run := ShortRun(steps[0]);
      match ExecuteStep(steps[0], run, st)
      case None => runs := [run] + ShortRuns(steps[1..]);
      case Some(after) =>
        var rest := StuckSteps(steps[1..], after, WithId(steps[0].id, available), first.seen, catalog, phase);
        runs := [run] + rest;
    }
  }

  lemma {:induction false} StuckChildren(
    children: seq<Step>, st: State, available: set<string>, seen: set<string>, catalog: Catalog, phase: Phase)
    returns (runs: seq<StepRun>)
    requires WellFormed(children) && Exact(st, available, phase) && st.operations == catalog.operations
    requires Blocked(CheckChildren(children, available, seen, catalog, phase).codes)
    ensures MatchesAll(children, runs) && !EachRuns(children, runs, st)
    decreases children
  {
    var first := CheckStep(children[0], available, seen, catalog, phase);
    if Blocked(first.codes) {
      var run := StuckStep(children[0], st, available, seen, catalog, phase);
      runs := [run] + ShortRuns(children[1..]);
    } else {
      var rest := StuckChildren(children[1..], st, available, first.seen, catalog, phase);
      runs := [ShortRun(children[0])] + rest;
    }
  }

  /** The empty scope of a phase. */
  function BareState(catalog: Catalog, phase: Phase): State {
    State(
      catalog.operations,
      if phase.allowInput then Some(Null) else None,
      if phase.allowPrepared then Some(Null) else None,
      if phase.allowItem then Some(Null) else None,
      map[])
  }

  /** No run of the workflow gets stuck. */
  ghost predicate NoRunIsStuck(steps: seq<Step>, catalog: Catalog, phase: Phase) {
    forall runs :: MatchesAll(steps, runs) ==> Execute(steps, runs, BareState(catalog, phase)).Some?
  }

  /** Some run gets stuck exactly when the checker reports a blocking diagnostic. */
  lemma StuckExactly(steps: seq<Step>, catalog: Catalog, phase: Phase)
    requires WellFormed(steps)
    ensures NoRunIsStuck(steps, catalog, phase) <==> !Blocked(CheckSteps(steps, {}, {}, catalog, phase).codes)
  {
    var st := BareState(catalog, phase);
    if Blocked(CheckSteps(steps, {}, {}, catalog, phase).codes) {
      var runs := StuckSteps(steps, st, {}, {}, catalog, phase);
    } else {
      forall runs | MatchesAll(steps, runs) ensures Execute(steps, runs, st).Some? {
        StepsAreSafe(steps, runs, st, {}, {}, catalog, phase);
      }
    }
  }

  /** Diagnostics that stop no run: the executor overwrites a second result, and injected inputs are not its concern. */
  const QUIET: set<Code> := {StepIdDuplicate, BindingOverride}

  lemma BlockingOrQuiet(code: Code)
    ensures code in BLOCKING || code in QUIET
  {
    match code
    case _ =>
  }

  /** The checker accepts exactly the workflows no run of which gets stuck and which have no other diagnostic. */
  lemma AcceptedExactlyWhenNoRunIsStuck(steps: seq<Step>, catalog: Catalog, phase: Phase)
    requires WellFormed(steps)
    ensures Accepted(steps, catalog, phase)
      <==> NoRunIsStuck(steps, catalog, phase) && CheckSteps(steps, {}, {}, catalog, phase).codes !! QUIET
  {
    var codes := CheckSteps(steps, {}, {}, catalog, phase).codes;
    StuckExactly(steps, catalog, phase);
    forall code | code in codes ensures code in BLOCKING || code in QUIET { BlockingOrQuiet(code); }
  }
}
