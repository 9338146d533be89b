/** The validation passes as the source runs them: one diagnostics collection and shared id sets, updated in place. */
module WorkflowValidator {
  import opened Ordering
  import opened JsonValues
  import opened Workflow

  class Validator {
    const catalog: Catalog
    var seen: set<string>
    var dependencies: set<string>
    var diagnostics: set<Code>

    constructor (catalog: Catalog)
      ensures this.catalog == catalog && seen == {} && dependencies == {} && diagnostics == {}
    {
      this.catalog := catalog;
      seen, dependencies, diagnostics := {}, {}, {};
    }

    /** `_validate_value`. */
    method ValidateValue(value: Json, available: set<string>, phase: Phase)
      modifies `diagnostics
      ensures diagnostics == old(diagnostics) + CheckValue(value, available, phase)
      decreases value, 1
    {
      match value {
        case Str(s) =>
          assert Strings(value) == {s};
          diagnostics := diagnostics + CheckReference(s, available, phase, false);
        case Arr(items) => ValidateItems(items, value, available, phase);
        case Obj(fields) =>
          var items := FieldValues(fields);
          ValidateItems(items, value, available, phase);
        case _ => assert Strings(value) == {};
      }
    }

    /** The loop over the parts of a list or an object. */
    method ValidateItems(items: seq<Json>, ghost whole: Json, available: set<string>, phase: Phase)
      requires forall i :: 0 <= i < |items| ==> items[i] < whole
      modifies `diagnostics
      ensures diagnostics == old(diagnostics) + CheckValue(Arr(items), available, phase)
      decreases whole, 0
    {
      for i := 0 to |items|
        invariant diagnostics == old(diagnostics) + CheckStrings(ItemStrings(items, i), available, phase)
      {
        ValidateValue(items[i], available, phase);
        assert ItemStrings(items, i + 1) == ItemStrings(items, i) + Strings(items[i]);
        CheckStringsUnion(ItemStrings(items, i), Strings(items[i]), available, phase);
      }
      StringsOfList(items);
      assert ItemStrings(items, |items|) == Strings(Arr(items));
    }

    /** `_register_step_id`. */
    method RegisterStepId(id: Option<string>)
      modifies `seen, `diagnostics
      ensures diagnostics == old(diagnostics) + Register(id, old(seen)).codes
      ensures seen == Register(id, old(seen)).seen
    {
      if id.None? {
        return;
      }
      if id.value in seen {
        diagnostics := diagnostics + {StepIdDuplicate};
        return;
      }
      seen := seen + {id.value};
    }

    /** The expressions of `_validate_step` itself, and the operation it depends on. */
    method ValidateOwn(action: Action, available: set<string>, phase: Phase)
      modifies `diagnostics, `dependencies
      ensures diagnostics == old(diagnostics) + CheckOwn(action, catalog, available, phase)
      ensures dependencies == old(dependencies) + (if action.Call? then {action.operation} else {})
    {
      match action {
        case Call(operation, arguments) =>
          dependencies := dependencies + {operation};
          if operation !in catalog.operations {
            diagnostics := diagnostics + {OperationNotFound};
          }
          var owned := if operation in catalog.bindings then catalog.bindings[operation] else {};
          if arguments.Keys * owned != {} {
            diagnostics := diagnostics + {BindingOverride};
          }
          ValidateValue(Obj(arguments), available, phase);
        case Pick(value) => ValidateValue(value, available, phase);
        case Map(items, expression) =>
          ValidateValue(items, available, phase);
          diagnostics := diagnostics + CheckReference(expression, available, phase.(allowItem := true), true);
        case Filter(items, test) =>
          ValidateValue(items, available, phase);
          diagnostics := diagnostics + CheckReference(test, available, phase.(allowItem := true), true);
        case Assert(test) => diagnostics := diagnostics + CheckReference(test, available, phase, true);
        case Redact(value) => ValidateValue(value, available, phase);
        case Branch(guard, _, _) => diagnostics := diagnostics + CheckGuard(guard, available, phase);
        case Parallel(_) =>
        case Foreach(items, _, _) => ValidateValue(items, available, phase);
        case Emit(value) => ValidateValue(value, available, phase);
      }
    }

    /** `_validate_step`. */
    method ValidateStep(step: Step, available: set<string>, phase: Phase)
      modifies this
      ensures var checked := CheckStep(step, available, old(seen), catalog, phase);
        diagnostics == old(diagnostics) + checked.codes && seen == checked.seen
      ensures dependencies == old(dependencies) + CalledByStep(step)
      decreases step
    {
      RegisterStepId(step.id);
      ValidateOwn(step.action, available, phase);
      match step.action {
        case Branch(_, thenSteps, elseSteps) =>
          ValidateWorkflow(thenSteps, available, phase);
          ValidateWorkflow(elseSteps, available, phase);
        case Parallel(children) => ValidateChildren(children, available, phase);
        case Foreach(_, _, body) => ValidateWorkflow(body, available, phase.(allowItem := true));
        case _ =>
      }
    }

    /** `_validate_workflow`; `available` starts from the scope around it and grows step by step. */
    method ValidateWorkflow(steps: seq<Step>, around: set<string>, phase: Phase)
      modifies this
      ensures var checked := CheckSteps(steps, around, old(seen), catalog, phase);
        diagnostics == old(diagnostics) + checked.codes && seen == checked.seen
      ensures dependencies == old(dependencies) + CalledBy(steps)
      decreases steps
    {
      var available := around;
      for i := 0 to |steps|
        invariant
          var whole := CheckSteps(steps, around, old(seen), catalog, phase);
          var left := CheckSteps(steps[i..], available, seen, catalog, phase);
          old(diagnostics) + whole.codes == diagnostics + left.codes && whole.seen == left.seen
        invariant old(dependencies) + CalledBy(steps) == dependencies + CalledBy(steps[i..])
      {
        assert steps[i..][1..] == steps[i + 1..];
        ValidateStep(steps[i], available, phase);
        if steps[i].id.Some? {
          available := available + {steps[i].id.value};
        }
      }
    }

    /** The loop over the children of a parallel step. */
    method ValidateChildren(children: seq<Step>, available: set<string>, phase: Phase)
      modifies this
      ensures var checked := CheckChildren(children, available, old(seen), catalog, phase);
        diagnostics == old(diagnostics) + checked.codes && seen == checked.seen
      ensures dependencies == old(dependencies) + CalledBy(children)
      decreases children
    {
      for i := 0 to |children|
        invariant
          var whole := CheckChildren(children, available, old(seen), catalog, phase);
          var left := CheckChildren(children[i..], available, seen, catalog, phase);
          old(diagnostics) + whole.codes == diagnostics + left.codes && whole.seen == left.seen
        invariant old(dependencies) + CalledBy(children) == dependencies + CalledBy(children[i..])
      {
        assert children[i..][1..] == children[i + 1..];
        ValidateStep(children[i], available, phase);
      }
    }
  }

  /** Strings in the first `n` items. */
  function ItemStrings(items: seq<Json>, n: nat): set<string>
    requires n <= |items|
  {
    set i, s | 0 <= i < n && s in Strings(items[i]) :: s
  }

  /** The values of an object, in the order of their names. */
  method FieldValues(fields: map<string, Json>) returns (items: seq<Json>)
    ensures forall i :: 0 <= i < |items| ==> items[i] < Obj(fields)
    ensures Strings(Arr(items)) == Strings(Obj(fields))
  {
    var keys := Sorted(fields.Keys);
    items := seq(|keys|, i requires 0 <= i < |keys| => assert keys[i] in keys; fields[keys[i]]);
    FieldsAsItems(fields, keys);
  }

  lemma FieldsAsItems(fields: map<string, Json>, keys: seq<string>)
    requires forall k :: k in keys <==> k in fields
    requires forall i :: 0 <= i < |keys| ==> keys[i] in fields
    ensures Strings(Arr(seq(|keys|, i requires 0 <= i < |keys| => fields[keys[i]]))) == Strings(Obj(fields))
  {
    var items := seq(|keys|, i requires 0 <= i < |keys| => fields[keys[i]]);
    StringsOfList(items);
    StringsOfFields(fields);
    forall s | s in Strings(Obj(fields)) ensures s in Strings(Arr(items)) {
      var k :| k in fields && s in Strings(fields[k]);
      var i :| 0 <= i < |keys| && keys[i] == k;
      assert s in Strings(items[i]);
    }
  }

  lemma CheckStringsUnion(a: set<string>, b: set<string>, available: set<string>, phase: Phase)
    ensures CheckStrings(a + b, available, phase)
      == CheckStrings(a, available, phase) + CheckStrings(b, available, phase)
  {
  }
}
