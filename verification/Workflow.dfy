/** Workflow steps, their references, and what the compiler reports about them. */
module Workflow {
  import opened Ordering
  import opened JsonPointer
  import opened JsonValues

  // ---------- Steps ----------

  datatype Operand = Literal(value: Json) | Dynamic(text: string)

  datatype Condition =
    | Eq(left: Operand, right: Operand)
    | In(item: Operand, values: Operand)
    | All(conditions: seq<Condition>)
    | Any(conditions: seq<Condition>)
    | Not(condition: Condition)

  /** A branch condition: one reference, or a condition tree. */
  datatype Guard = Text(text: string) | Tree(condition: Condition)

  datatype Step = Step(id: Option<string>, action: Action)

  datatype Action =
    | Call(operation: string, arguments: map<string, Json>)
    | Pick(value: Json)
    | Map(items: Json, expression: string)
    | Filter(items: Json, test: string)
    | Assert(test: string)
    | Redact(value: Json)
    | Branch(guard: Guard, thenSteps: seq<Step>, elseSteps: seq<Step>)
    | Parallel(children: seq<Step>)
    | Foreach(items: Json, maxItems: nat, body: seq<Step>)
    | Emit(value: Json)

  // ---------- References ----------

  datatype Reference =
    | InputRef(path: seq<string>)
    | ItemRef(path: seq<string>)
    | PreparedRef(path: seq<string>)
    | StepRef(id: string, path: seq<string>)

  /** `[A-Za-z_][A-Za-z0-9_-]*`. */
  predicate IsSegment(s: string) {
    && s != ""
    && (IsLetter(s[0]) || s[0] == '_')
    && forall i :: 0 <= i < |s| ==> IsLetter(s[i]) || '0' <= s[i] <= '9' || s[i] == '_' || s[i] == '-'
  }

  predicate IsLetter(c: char) {
    'a' <= c <= 'z' || 'A' <= c <= 'Z'
  }

  /** `_REFERENCE_PATTERN.fullmatch`. */
  function ParseReference(text: string): Option<Reference> {
    if !StartsWith(text, "$.") then None
    else
      var parts := Split(text[2..], '.');
      if exists i | 1 <= i < |parts| :: !IsSegment(parts[i]) then None
      else if parts[0] == "input" then Some(InputRef(parts[1..]))
      else if parts[0] == "item" then Some(ItemRef(parts[1..]))
      else if parts[0] == "prepared" then Some(PreparedRef(parts[1..]))
      else if parts[0] == "steps" && |parts| >= 2 then Some(StepRef(parts[1], parts[2..]))
      else None
  }

  predicate Contains(text: string, part: string) {
    exists i :: 0 <= i <= |text| && part <= text[i..]
  }

  predicate LooksDynamic(text: string) {
    StartsWith(text, "$") || Contains(text, "$.") || Contains(text, "${")
  }

  // ---------- What is reported ----------

  datatype Code =
    | ReferenceInvalid
    | ItemOutsideLoop
    | InputUnavailable
    | PreparedUnavailable
    | StepNotPrior
    | StepIdDuplicate
    | OperationNotFound
    | BindingOverride

  /** Which roots an expression may use. */
  datatype Phase = Phase(allowItem: bool, allowInput: bool, allowPrepared: bool)

  /** Declared operations, and the inputs the Runtime owns for each. */
  datatype Catalog = Catalog(operations: set<string>, bindings: map<string, set<string>>)

  /** `_validate_reference`. */
  function CheckReference(text: string, available: set<string>, phase: Phase, required: bool): set<Code> {
    match ParseReference(text)
    case None => if required || LooksDynamic(text) then {ReferenceInvalid} else {}
    case Some(ItemRef(_)) => if phase.allowItem then {} else {ItemOutsideLoop}
    case Some(InputRef(_)) => if phase.allowInput then {} else {InputUnavailable}
    case Some(PreparedRef(_)) => if phase.allowPrepared then {} else {PreparedUnavailable}
    case Some(StepRef(id, _)) => if id in available then {} else {StepNotPrior}
  }

  function CheckStrings(texts: set<string>, available: set<string>, phase: Phase): set<Code> {
    set s, code | s in texts && code in CheckReference(s, available, phase, false) :: code
  }

  /** `_validate_value` without `require_reference`: every string inside is checked. */
  function CheckValue(value: Json, available: set<string>, phase: Phase): set<Code> {
    CheckStrings(Strings(value), available, phase)
  }

  function CheckOperand(operand: Operand, available: set<string>, phase: Phase): set<Code> {
    match operand
    case Literal(_) => {}
    case Dynamic(text) => CheckReference(text, available, phase, true)
  }

  /** `_validate_condition` on a condition tree. */
  function CheckCondition(condition: Condition, available: set<string>, phase: Phase): set<Code> {
    match condition
    case Eq(left, right) => CheckOperand(left, available, phase) + CheckOperand(right, available, phase)
    case In(item, values) => CheckOperand(item, available, phase) + CheckOperand(values, available, phase)
    case All(cs) => set i, code | 0 <= i < |cs| && code in CheckCondition(cs[i], available, phase) :: code
    case Any(cs) => set i, code | 0 <= i < |cs| && code in CheckCondition(cs[i], available, phase) :: code
    case Not(c) => CheckCondition(c, available, phase)
  }

  function CheckGuard(guard: Guard, available: set<string>, phase: Phase): set<Code> {
    match guard
    case Text(text) => CheckReference(text, available, phase, true)
    case Tree(condition) => CheckCondition(condition, available, phase)
  }

  function CheckCall(action: Action, catalog: Catalog, available: set<string>, phase: Phase): set<Code>
    requires action.Call?
  {
    var owned := if action.operation in catalog.bindings then catalog.bindings[action.operation] else {};
    (if action.operation in catalog.operations then {} else {OperationNotFound})
    + (if action.arguments.Keys * owned == {} then {} else {BindingOverride})
    + CheckValue(Obj(action.arguments), available, phase)
  }

  /** The expressions a step evaluates itself, nested workflows aside. */
  function CheckOwn(action: Action, catalog: Catalog, available: set<string>, phase: Phase): set<Code> {
    match action
    case Call(_, _) => CheckCall(action, catalog, available, phase)
    case Pick(value) => CheckValue(value, available, phase)
    case Map(items, expression) =>
      CheckValue(items, available, phase)
      + CheckReference(expression, available, phase.(allowItem := true), true)
    case Filter(items, test) =>
      CheckValue(items, available, phase)
      + CheckReference(test, available, phase.(allowItem := true), true)
    case Assert(test) => CheckReference(test, available, phase, true)
    case Redact(value) => CheckValue(value, available, phase)
    case Branch(guard, _, _) => CheckGuard(guard, available, phase)
    case Parallel(_) => {}
    case Foreach(items, _, _) => CheckValue(items, available, phase)
    case Emit(value) => CheckValue(value, available, phase)
  }

  /** Diagnostics and the step ids seen so far. */
  datatype Checked = Checked(codes: set<Code>, seen: set<string>)

  function Register(id: Option<string>, seen: set<string>): Checked {
    if id.None? then Checked({}, seen)
    else if id.value in seen then Checked({StepIdDuplicate}, seen)
    else Checked({}, seen + {id.value})
  }

  /** `_validate_step`. */
  function CheckStep(step: Step, available: set<string>, seen: set<string>, catalog: Catalog, phase: Phase): Checked
    decreases step
  {
    var registered := Register(step.id, seen);
    var own := CheckOwn(step.action, catalog, available, phase);
    var nested :=
      match step.action
      case Branch(_, thenSteps, elseSteps) =>
        var first := CheckSteps(thenSteps, available, registered.seen, catalog, phase);
        var second := CheckSteps(elseSteps, available, first.seen, catalog, phase);
        Checked(first.codes + second.codes, second.seen)
      case Parallel(children) => CheckChildren(children, available, registered.seen, catalog, phase)
      case Foreach(_, _, body) => CheckSteps(body, available, registered.seen, catalog, phase.(allowItem := true))
      case _ => Checked({}, registered.seen);
    Checked(registered.codes + own + nested.codes, nested.seen)
  }

  function WithId(id: Option<string>, available: set<string>): set<string> {
    if id.Some? then available + {id.value} else available
  }

  /** `_validate_workflow`: each step's id becomes available to the steps after it. */
  function CheckSteps(
    steps: seq<Step>, available: set<string>, seen: set<string>, catalog: Catalog, phase: Phase): Checked
    decreases steps
  {
    if steps == [] then Checked({}, seen)
    else
      var first := CheckStep(steps[0], available, seen, catalog, phase);
      var rest := CheckSteps(steps[1..], WithId(steps[0].id, available), first.seen, catalog, phase);
      Checked(first.codes + rest.codes, rest.seen)
  }

  /** The children of a parallel step see the scope around it and not each other. */
  function CheckChildren(
    children: seq<Step>, available: set<string>, seen: set<string>, catalog: Catalog, phase: Phase): Checked
    decreases children
  {
    if children == [] then Checked({}, seen)
    else
      var first := CheckStep(children[0], available, seen, catalog, phase);
      var rest := CheckChildren(children[1..], available, first.seen, catalog, phase);
      Checked(first.codes + rest.codes, rest.seen)
  }

  /** A workflow the compiler accepts from an empty scope. */
  predicate Accepted(steps: seq<Step>, catalog: Catalog, phase: Phase) {
    CheckSteps(steps, {}, {}, catalog, phase).codes == {}
  }

  /** The commit phase of an Action. */
  const COMMIT := Phase(false, false, true)

  /** Operations a step calls, nested workflows included. */
  function CalledByStep(step: Step): set<string>
    decreases step
  {
    match step.action
    case Call(operation, _) => {operation}
    case Branch(_, thenSteps, elseSteps) => CalledBy(thenSteps) + CalledBy(elseSteps)
    case Parallel(children) => CalledBy(children)
    case Foreach(_, _, body) => CalledBy(body)
    case _ => {}
  }

  function CalledBy(steps: seq<Step>): set<string>
    decreases steps
  {
    if steps == [] then {} else CalledByStep(steps[0]) + CalledBy(steps[1..])
  }
}
