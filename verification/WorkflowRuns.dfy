/**
 * Runs of a workflow as the executor makes them, and the promise of the checker: on no run does an
 * accepted workflow read a step that has not completed or an item outside an item scope, meet a text
 * that is no reference, call an unknown operation, or overwrite a step's result.
 */
module WorkflowRuns {
  import opened Ordering
  import opened JsonValues
  import opened Workflow

  // ---------- What happens on one run ----------

  /** The choices one step makes: which branch, which items, what its result is. */
  datatype StepRun =
    | Leaf(result: Json)
    | Mapped(elements: seq<Json>, result: Json)
    | Branched(takesThen: bool, body: seq<StepRun>, result: Json)
    | Forked(children: seq<StepRun>, result: Json)
    | Looped(rounds: seq<Round>, result: Json)

  datatype Round = Round(item: Json, body: seq<StepRun>)

  /** The run has the step's shape: one arm, every child, at most `maxItems` rounds. */
  predicate Matches(step: Step, run: StepRun)
    decreases step
  {
    match step.action
    case Map(_, _) => run.Mapped?
    case Filter(_, _) => run.Mapped?
    case Branch(_, thenSteps, elseSteps) =>
      run.Branched? && (if run.takesThen then MatchesAll(thenSteps, run.body) else MatchesAll(elseSteps, run.body))
    case Parallel(children) => run.Forked? && MatchesAll(children, run.children)
    case Foreach(_, maxItems, body) =>
      run.Looped? && |run.rounds| <= maxItems
      && forall i | 0 <= i < |run.rounds| :: MatchesAll(body, run.rounds[i].body)
    case _ => run.Leaf?
  }

  predicate MatchesAll(steps: seq<Step>, runs: seq<StepRun>)
    decreases steps
  {
    |steps| == |runs| && (steps == [] || (Matches(steps[0], runs[0]) && MatchesAll(steps[1..], runs[1..])))
  }

  // ---------- What a step can read ----------

  /** The operations of the compiled project, the roots in scope, and the results of the steps completed in it. */
  datatype State = State(
    operations: set<string>,
    input: Option<Json>,
    prepared: Option<Json>,
    item: Option<Json>,
    steps: map<string, Json>)

  predicate Readable(reference: Reference, st: State) {
    match reference
    case InputRef(_) => st.input.Some?
    case ItemRef(_) => st.item.Some?
    case PreparedRef(_) => st.prepared.Some?
    case StepRef(id, _) => id in st.steps
  }

  /** A text that is a reference can be read; one that must be a reference, or looks like one, is one. */
  predicate TextReads(text: string, required: bool, st: State) {
    match ParseReference(text)
    case None => !required && !LooksDynamic(text)
    case Some(reference) => Readable(reference, st)
  }

  predicate ValueReads(value: Json, st: State) {
    forall s :: s in Strings(value) ==> TextReads(s, false, st)
  }

  predicate OperandReads(operand: Operand, st: State) {
    operand.Literal? || TextReads(operand.text, true, st)
  }

  predicate ConditionReads(condition: Condition, st: State) {
    match condition
    case Eq(left, right) => OperandReads(left, st) && OperandReads(right, st)
    case In(item, values) => OperandReads(item, st) && OperandReads(values, st)
    case All(cs) => forall i | 0 <= i < |cs| :: ConditionReads(cs[i], st)
    case Any(cs) => forall i | 0 <= i < |cs| :: ConditionReads(cs[i], st)
    case Not(c) => ConditionReads(c, st)
  }

  predicate GuardReads(guard: Guard, st: State) {
    match guard
    case Text(text) => TextReads(text, true, st)
    case Tree(condition) => ConditionReads(condition, st)
  }

  predicate PerItemReads(text: string, elements: seq<Json>, st: State) {
    forall i :: 0 <= i < |elements| ==> TextReads(text, true, st.(item := Some(elements[i])))
  }

  /** The operation the step calls is there, and every expression it evaluates itself on this run can be read. */
  predicate OwnRuns(step: Step, run: StepRun, st: State)
    requires Matches(step, run)
  {
    match step.action
    case Call(operation, arguments) => operation in st.operations && ValueReads(Obj(arguments), st)
    case Pick(value) => ValueReads(value, st)
    case Map(items, expression) => ValueReads(items, st) && PerItemReads(expression, run.elements, st)
    case Filter(items, test) => ValueReads(items, st) && PerItemReads(test, run.elements, st)
    case Assert(test) => TextReads(test, true, st)
    case Redact(value) => ValueReads(value, st)
    case Branch(guard, _, _) => GuardReads(guard, st)
    case Parallel(_) => true
    case Foreach(items, _, _) => ValueReads(items, st)
    case Emit(value) => ValueReads(value, st)
  }

  // ---------- Execution ----------

  /** Bind a result in the current scope; a second binding of one id overwrites the first. */
  function Bind(id: Option<string>, result: Json, st: State): State {
    if id.None? then st else st.(steps := st.steps[id.value := result])
  }

  /** The nested workflows of a step run to their end; their scopes are dropped. */
  predicate NestedRuns(step: Step, run: StepRun, st: State)
    requires Matches(step, run)
    decreases step, 0
  {
    match step.action
    case Branch(_, thenSteps, elseSteps) =>
      if run.takesThen then Execute(thenSteps, run.body, st).Some? else Execute(elseSteps, run.body, st).Some?
    case Parallel(children) => EachRuns(children, run.children, st)
    case Foreach(_, _, body) =>
      forall i | 0 <= i < |run.rounds| ::
        Execute(body, run.rounds[i].body, st.(item := Some(run.rounds[i].item))).Some?
    case _ => true
  }

  /** The children of a parallel step all start from the scope around it. */
  predicate EachRuns(children: seq<Step>, runs: seq<StepRun>, st: State)
    requires MatchesAll(children, runs)
    decreases children
  {
    children == [] || (ExecuteStep(children[0], runs[0], st).Some? && EachRuns(children[1..], runs[1..], st))
  }

  /** One step of a run: `None` when it raises. */
  function ExecuteStep(step: Step, run: StepRun, st: State): Option<State>
    requires Matches(step, run)
    decreases step, 1
  {
    if OwnRuns(step, run, st) && NestedRuns(step, run, st) then Some(Bind(step.id, run.result, st)) else None
  }

  function Execute(steps: seq<Step>, runs: seq<StepRun>, st: State): Option<State>
    requires MatchesAll(steps, runs)
    decreases steps
  {
    if steps == [] then Some(st)
    else
      match ExecuteStep(steps[0], runs[0], st)
      case None => None
      case Some(after) => Execute(steps[1..], runs[1..], after)
  }

  // ---------- The checker is sound ----------

  /** Diagnostics about reading a root or a step result that is not there. */
  const SCOPE: set<Code> := {ItemOutsideLoop, InputUnavailable, PreparedUnavailable, StepNotPrior}

  /** Diagnostics a run cannot get past: a read out of scope, a text that is no reference, an unknown operation. */
  const BLOCKING: set<Code> := SCOPE + {ReferenceInvalid, OperationNotFound}

  /** The run's scope holds at least what the checker thinks is there. */
  predicate Fits(st: State, available: set<string>, phase: Phase) {
    && available <= st.steps.Keys
    && (phase.allowItem ==> st.item.Some?)
    && (phase.allowInput ==> st.input.Some?)
    && (phase.allowPrepared ==> st.prepared.Some?)
  }

  lemma TextIsSafe(text: string, required: bool, st: State, available: set<string>, phase: Phase)
    requires Fits(st, available, phase)
    requires CheckReference(text, available, phase, required) !! BLOCKING
    ensures TextReads(text, required, st)
  {
    assert CheckReference(text, available, phase, required) * BLOCKING == {};
  }

  lemma ValueIsSafe(value: Json, st: State, available: set<string>, phase: Phase)
    requires Fits(st, available, phase)
    requires CheckValue(value, available, phase) !! BLOCKING
    ensures ValueReads(value, st)
  {
    forall s | s in Strings(value) ensures TextReads(s, false, st) {
      assert CheckReference(s, available, phase, false) <= CheckValue(value, available, phase);
      TextIsSafe(s, false, st, available, phase);
    }
  }

  lemma OperandIsSafe(operand: Operand, st: State, available: set<string>, phase: Phase)
    requires Fits(st, available, phase)
    requires CheckOperand(operand, available, phase) !! BLOCKING
    ensures OperandReads(operand, st)
  {
    if operand.Dynamic? { TextIsSafe(operand.text, true, st, available, phase); }
  }

  lemma {:induction false} ConditionIsSafe(condition: Condition, st: State, available: set<string>, phase: Phase)
    requires Fits(st, available, phase)
    requires CheckCondition(condition, available, phase) !! BLOCKING
    ensures ConditionReads(condition, st)
  {
    match condition
    case Eq(left, right) =>
      OperandIsSafe(left, st, available, phase);
      OperandIsSafe(right, st, available, phase);
    case In(item, values) =>
      OperandIsSafe(item, st, available, phase);
      OperandIsSafe(values, st, available, phase);
    case All(cs) =>
      forall i | 0 <= i < |cs| ensures ConditionReads(cs[i], st) {
        assert CheckCondition(cs[i], available, phase) <= CheckCondition(condition, available, phase);
        ConditionIsSafe(cs[i], st, available, phase);
      }
    case Any(cs) =>
      forall i | 0 <= i < |cs| ensures ConditionReads(cs[i], st) {
        assert CheckCondition(cs[i], available, phase) <= CheckCondition(condition, available, phase);
        ConditionIsSafe(cs[i], st, available, phase);
      }
    case Not(c) => ConditionIsSafe(c, st, available, phase);
  }

  lemma PerItemIsSafe(text: string, elements: seq<Json>, st: State, available: set<string>, phase: Phase)
    requires Fits(st, available, phase)
    requires CheckReference(text, available, phase.(allowItem := true), true) !! BLOCKING
    ensures PerItemReads(text, elements, st)
  {
    forall i | 0 <= i < |elements| ensures TextReads(text, true, st.(item := Some(elements[i]))) {
      TextIsSafe(text, true, st.(item := Some(elements[i])), available, phase.(allowItem := true));
    }
  }

  lemma OwnIsSafe(step: Step, run: StepRun, st: State, available: set<string>, catalog: Catalog, phase: Phase)
    requires Matches(step, run) && Fits(st, available, phase) && catalog.operations <= st.operations
    requires CheckOwn(step.action, catalog, available, phase) !! BLOCKING
    ensures OwnRuns(step, run, st)
  {
    match step.action
    case Call(operation, arguments) =>
      assert OperationNotFound !in CheckOwn(step.action, catalog, available, phase);
      assert CheckValue(Obj(arguments), available, phase) <= CheckOwn(step.action, catalog, available, phase);
      ValueIsSafe(Obj(arguments), st, available, phase);
    case Pick(value) => ValueIsSafe(value, st, available, phase);
    case Map(items, expression) =>
      ValueIsSafe(items, st, available, phase);
      PerItemIsSafe(expression, run.elements, st, available, phase);
    case Filter(items, test) =>
      ValueIsSafe(items, st, available, phase);
      PerItemIsSafe(test, run.elements, st, available, phase);
    case Assert(test) => TextIsSafe(test, true, st, available, phase);
    case Redact(value) => ValueIsSafe(value, st, available, phase);
    case Branch(guard, _, _) =>
      match guard {
        case Text(text) => TextIsSafe(text, true, st, available, phase);
        case Tree(condition) => ConditionIsSafe(condition, st, available, phase);
      }
    case Parallel(_) =>
    case Foreach(items, _, _) => ValueIsSafe(items, st, available, phase);
    case Emit(value) => ValueIsSafe(value, st, available, phase);
  }

  /** A step without blocking diagnostics completes on every run and binds its own id. */
  lemma {:induction false} StepIsSafe(
    step: Step, run: StepRun, st: State, available: set<string>, seen: set<string>, catalog: Catalog, phase: Phase)
    requires Matches(step, run) && Fits(st, available, phase) && catalog.operations <= st.operations
    requires CheckStep(step, available, seen, catalog, phase).codes !! BLOCKING
    ensures ExecuteStep(step, run, st).Some?
    ensures var after := ExecuteStep(step, run, st).value;
      && Fits(after, WithId(step.id, available), phase) && after.operations == st.operations
      && after.steps.Keys == WithId(step.id, st.steps.Keys)
    decreases step, 1
  {
    OwnIsSafe(step, run, st, available, catalog, phase);
    NestedIsSafe(step, run, st, available, seen, catalog, phase);
  }

  lemma {:induction false} NestedIsSafe(
    step: Step, run: StepRun, st: State, available: set<string>, seen: set<string>, catalog: Catalog, phase: Phase)
    requires Matches(step, run) && Fits(st, available, phase) && catalog.operations <= st.operations
    requires CheckStep(step, available, seen, catalog, phase).codes !! BLOCKING
    ensures NestedRuns(step, run, st)
    decreases step, 0
  {
    var registered := Register(step.id, seen);
    match step.action
    case Branch(_, thenSteps, elseSteps) =>
      var first := CheckSteps(thenSteps, available, registered.seen, catalog, phase);
      if run.takesThen {
        StepsAreSafe(thenSteps, run.body, st, available, registered.seen, catalog, phase);
      } else {
        StepsAreSafe(elseSteps, run.body, st, available, first.seen, catalog, phase);
      }
    case Parallel(children) => ChildrenAreSafe(children, run.children, st, available, registered.seen, catalog, phase);
    case Foreach(_, _, body) =>
      forall i | 0 <= i < |run.rounds|
        ensures Execute(body, run.rounds[i].body, st.(item := Some(run.rounds[i].item))).Some?
      {
        StepsAreSafe(body, run.rounds[i].body, st.(item := Some(run.rounds[i].item)),
                     available, registered.seen, catalog, phase.(allowItem := true));
      }
    case _ =>
  }

  lemma {:induction false} StepsAreSafe(
    steps: seq<Step>, runs: seq<StepRun>, st: State, available: set<string>, seen: set<string>,
    catalog: Catalog, phase: Phase)
    requires MatchesAll(steps, runs) && Fits(st, available, phase) && catalog.operations <= st.operations
    requires CheckSteps(steps, available, seen, catalog, phase).codes !! BLOCKING
    ensures Execute(steps, runs, st).Some?
    decreases steps
  {
    if steps == [] {
    } else {
      StepIsSafe(steps[0], runs[0], st, available, seen, catalog, phase);
      var first := CheckStep(steps[0], available, seen, catalog, phase);
      StepsAreSafe(steps[1..], runs[1..], ExecuteStep(steps[0], runs[0], st).value,
                   WithId(steps[0].id, available), first.seen, catalog, phase);
    }
  }

  lemma {:induction false} ChildrenAreSafe(
    children: seq<Step>, runs: seq<StepRun>, st: State, available: set<string>, seen: set<string>,
    catalog: Catalog, phase: Phase)
    requires MatchesAll(children, runs) && Fits(st, available, phase) && catalog.operations <= st.operations
    requires CheckChildren(children, available, seen, catalog, phase).codes !! BLOCKING
    ensures EachRuns(children, runs, st)
    decreases children
  {
    if children == [] {
    } else {
      StepIsSafe(children[0], runs[0], st, available, seen, catalog, phase);
      ChildrenAreSafe(children[1..], runs[1..], st, available,
                      CheckStep(children[0], available, seen, catalog, phase).seen, catalog, phase);
    }
  }

  // ---------- Unique ids rebind nothing ----------

  /** Some step has an id its scope already holds, given the ids bound so far. */
  predicate RebindsStep(step: Step, bound: set<string>)
    decreases step
  {
    || (step.id.Some? && step.id.value in bound)
    || match step.action
       case Branch(_, thenSteps, elseSteps) => Rebinds(thenSteps, bound) || Rebinds(elseSteps, bound)
       case Parallel(children) => OneRebinds(children, bound)
       case Foreach(_, _, body) => Rebinds(body, bound)
       case _ => false
  }

  predicate Rebinds(steps: seq<Step>, bound: set<string>)
    decreases steps
  {
    steps != [] && (RebindsStep(steps[0], bound) || Rebinds(steps[1..], WithId(steps[0].id, bound)))
  }

  predicate OneRebinds(children: seq<Step>, bound: set<string>)
    decreases children
  {
    children != [] && (RebindsStep(children[0], bound) || OneRebinds(children[1..], bound))
  }

  lemma {:induction false} SeenGrows(
    step: Step, available: set<string>, seen: set<string>, catalog: Catalog, phase: Phase)
    ensures seen <= CheckStep(step, available, seen, catalog, phase).seen
    ensures step.id.Some? ==> step.id.value in CheckStep(step, available, seen, catalog, phase).seen
    decreases step
  {
    var registered := Register(step.id, seen);
    match step.action
    case Branch(_, thenSteps, elseSteps) =>
      var first := CheckSteps(thenSteps, available, registered.seen, catalog, phase);
      SeenGrowsAll(thenSteps, available, registered.seen, catalog, phase);
      SeenGrowsAll(elseSteps, available, first.seen, catalog, phase);
    case Parallel(children) => SeenGrowsEach(children, available, registered.seen, catalog, phase);
    case Foreach(_, _, body) => SeenGrowsAll(body, available, registered.seen, catalog, phase.(allowItem := true));
    case _ =>
  }

  lemma {:induction false} SeenGrowsAll(
    steps: seq<Step>, available: set<string>, seen: set<string>, catalog: Catalog, phase: Phase)
    ensures seen <= CheckSteps(steps, available, seen, catalog, phase).seen
    decreases steps
  {
    if steps == [] {
    } else {
      SeenGrows(steps[0], available, seen, catalog, phase);
      var first := CheckStep(steps[0], available, seen, catalog, phase);
      SeenGrowsAll(steps[1..], WithId(steps[0].id, available), first.seen, catalog, phase);
    }
  }

  lemma {:induction false} SeenGrowsEach(
    children: seq<Step>, available: set<string>, seen: set<string>, catalog: Catalog, phase: Phase)
    ensures seen <= CheckChildren(children, available, seen, catalog, phase).seen
    decreases children
  {
    if children == [] {
    } else {
      var first := CheckStep(children[0], available, seen, catalog, phase);
      SeenGrows(children[0], available, seen, catalog, phase);
      SeenGrowsEach(children[1..], available, first.seen, catalog, phase);
    }
  }

  lemma {:induction false} UniqueStep(
    step: Step, bound: set<string>, available: set<string>, seen: set<string>, catalog: Catalog, phase: Phase)
    requires bound <= seen && StepIdDuplicate !in CheckStep(step, available, seen, catalog, phase).codes
    ensures !RebindsStep(step, bound)
    decreases step
  {
    var registered := Register(step.id, seen);
    assert StepIdDuplicate !in registered.codes;
    match step.action
    case Branch(_, thenSteps, elseSteps) =>
      var first := CheckSteps(thenSteps, available, registered.seen, catalog, phase);
      UniqueSteps(thenSteps, bound, available, registered.seen, catalog, phase);
      SeenGrowsAll(thenSteps, available, registered.seen, catalog, phase);
      UniqueSteps(elseSteps, bound, available, first.seen, catalog, phase);
    case Parallel(children) => UniqueChildren(children, bound, available, registered.seen, catalog, phase);
    case Foreach(_, _, body) =>
      UniqueSteps(body, bound, available, registered.seen, catalog, phase.(allowItem := true));
    case _ =>
  }

  lemma {:induction false} UniqueSteps(
    steps: seq<Step>, bound: set<string>, available: set<string>, seen: set<string>, catalog: Catalog, phase: Phase)
    requires bound <= seen && StepIdDuplicate !in CheckSteps(steps, available, seen, catalog, phase).codes
    ensures !Rebinds(steps, bound)
    decreases steps
  {
    if steps == [] {
    } else {
      var first := CheckStep(steps[0], available, seen, catalog, phase);
      UniqueStep(steps[0], bound, available, seen, catalog, phase);
      SeenGrows(steps[0], available, seen, catalog, phase);
      UniqueSteps(steps[1..], WithId(steps[0].id, bound), WithId(steps[0].id, available), first.seen, catalog, phase);
    }
  }

  lemma {:induction false} UniqueChildren(
    children: seq<Step>, bound: set<string>, available: set<string>, seen: set<string>, catalog: Catalog, phase: Phase)
    requires bound <= seen && StepIdDuplicate !in CheckChildren(children, available, seen, catalog, phase).codes
    ensures !OneRebinds(children, bound)
    decreases children
  {
    if children == [] {
    } else {
      UniqueStep(children[0], bound, available, seen, catalog, phase);
      SeenGrows(children[0], available, seen, catalog, phase);
      UniqueChildren(
        children[1..], bound, available, CheckStep(children[0], available, seen, catalog, phase).seen, catalog, phase);
    }
  }

  /** The scope a workflow starts in offers what its phase allows, and no step results. */
  predicate Starts(st: State, phase: Phase) {
    Fits(st, {}, phase) && st.steps == map[]
  }

  /** Every run of an accepted workflow completes: all reads succeed, every called operation is there. */
  lemma AcceptedWorkflowsRunSafely(steps: seq<Step>, runs: seq<StepRun>, st: State, catalog: Catalog, phase: Phase)
    requires Accepted(steps, catalog, phase) && MatchesAll(steps, runs)
    requires Starts(st, phase) && catalog.operations <= st.operations
    ensures Execute(steps, runs, st).Some?
  {
    StepsAreSafe(steps, runs, st, {}, {}, catalog, phase);
  }

  // ---------- No result is overwritten ----------

  /** On this run the step and its nested workflows bind only ids their scope does not hold yet. */
  predicate StepBindsOnce(step: Step, run: StepRun, st: State)
    requires Matches(step, run)
    decreases step, 1
  {
    (step.id.Some? ==> step.id.value !in st.steps) && NestedBindOnce(step, run, st)
  }

  predicate NestedBindOnce(step: Step, run: StepRun, st: State)
    requires Matches(step, run)
    decreases step, 0
  {
    match step.action
    case Branch(_, thenSteps, elseSteps) =>
      if run.takesThen then BindOnce(thenSteps, run.body, st) else BindOnce(elseSteps, run.body, st)
    case Parallel(children) => EachBindsOnce(children, run.children, st)
    case Foreach(_, _, body) =>
      forall i | 0 <= i < |run.rounds| :: BindOnce(body, run.rounds[i].body, st.(item := Some(run.rounds[i].item)))
    case _ => true
  }

  predicate BindOnce(steps: seq<Step>, runs: seq<StepRun>, st: State)
    requires MatchesAll(steps, runs)
    decreases steps
  {
    steps == [] ||
      (StepBindsOnce(steps[0], runs[0], st)
       && match ExecuteStep(steps[0], runs[0], st)
          case None => true
          case Some(after) => BindOnce(steps[1..], runs[1..], after))
  }

  predicate EachBindsOnce(children: seq<Step>, runs: seq<StepRun>, st: State)
    requires MatchesAll(children, runs)
    decreases children
  {
    children == [] || (StepBindsOnce(children[0], runs[0], st) && EachBindsOnce(children[1..], runs[1..], st))
  }

  lemma {:induction false} NoRebindingStep(step: Step, run: StepRun, st: State)
    requires Matches(step, run) && !RebindsStep(step, st.steps.Keys)
    ensures StepBindsOnce(step, run, st)
    decreases step
  {
    match step.action
    case Branch(_, thenSteps, elseSteps) =>
      if run.takesThen { NoRebinding(thenSteps, run.body, st); } else { NoRebinding(elseSteps, run.body, st); }
    case Parallel(children) => NoRebindingEach(children, run.children, st);
    case Foreach(_, _, body) =>
      forall i | 0 <= i < |run.rounds|
        ensures BindOnce(body, run.rounds[i].body, st.(item := Some(run.rounds[i].item)))
      {
        NoRebinding(body, run.rounds[i].body, st.(item := Some(run.rounds[i].item)));
      }
    case _ =>
  }

  lemma {:induction false} NoRebinding(steps: seq<Step>, runs: seq<StepRun>, st: State)
    requires MatchesAll(steps, runs) && !Rebinds(steps, st.steps.Keys)
    ensures BindOnce(steps, runs, st)
    decreases steps
  {
    if steps == [] {
    } else {
      NoRebindingStep(steps[0], runs[0], st);
      match ExecuteStep(steps[0], runs[0], st)
      case None =>
      case Some(after) =>
        assert after.steps.Keys == WithId(steps[0].id, st.steps.Keys);
        NoRebinding(steps[1..], runs[1..], after);
    }
  }

  lemma {:induction false} NoRebindingEach(children: seq<Step>, runs: seq<StepRun>, st: State)
    requires MatchesAll(children, runs) && !OneRebinds(children, st.steps.Keys)
    ensures EachBindsOnce(children, runs, st)
    decreases children
  {
    if children == [] {
    } else {
      NoRebindingStep(children[0], runs[0], st);
      NoRebindingEach(children[1..], runs[1..], st);
    }
  }

  /** No run of an accepted workflow overwrites a result, although the executor would let it. */
  lemma AcceptedWorkflowsBindOnce(steps: seq<Step>, runs: seq<StepRun>, st: State, catalog: Catalog, phase: Phase)
    requires Accepted(steps, catalog, phase) && MatchesAll(steps, runs) && st.steps == map[]
    ensures !Rebinds(steps, {}) && BindOnce(steps, runs, st)
  {
    UniqueSteps(steps, {}, {}, {}, catalog, phase);
    assert st.steps.Keys == {};
    NoRebinding(steps, runs, st);
  }
}
