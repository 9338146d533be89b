/** How many mutations a workflow performs: the abstract count set against the counts of its runs. */
module MutationCounts {
  import opened JsonValues
  import opened Workflow
  import opened WorkflowRuns
  import opened WorkflowScopes

  // ---------- The abstract interpretation ----------

  /** `_sum_counts`. */
  function SumCounts(left: set<nat>, right: set<nat>): set<nat> {
    set a, b | a in left && b in right :: a + b
  }

  /** Counts of one step; `actions` are the operations that mutate. */
  function StepCounts(step: Step, actions: set<string>): set<nat>
    decreases step
  {
    match step.action
    case Call(operation, _) => if operation in actions then {1} else {0}
    case Branch(_, thenSteps, elseSteps) => Counts(thenSteps, actions) + Counts(elseSteps, actions)
    case Parallel(children) => Counts(children, actions)
    case Foreach(_, maxItems, body) =>
      var items := Counts(body, actions);
      {0} + items + set c | c in items :: c * maxItems
    case _ => {0}
  }

  /** `_mutation_path_counts`. */
  function Counts(steps: seq<Step>, actions: set<string>): (counts: set<nat>)
    ensures counts != {}
    decreases steps
  {
    if steps == [] then {0}
    else
      var head, tail := StepCounts(steps[0], actions), Counts(steps[1..], actions);
      var h :| h in head;
      var t :| t in tail;
      assert h + t in SumCounts(head, tail);
      SumCounts(head, tail)
  }

  lemma SumAssociates(a: set<nat>, b: set<nat>, d: set<nat>)
    ensures SumCounts(a, SumCounts(b, d)) == SumCounts(SumCounts(a, b), d)
  {
    forall n ensures n in SumCounts(a, SumCounts(b, d)) <==> n in SumCounts(SumCounts(a, b), d) {
      if n in SumCounts(a, SumCounts(b, d)) {
        var x, yz :| x in a && yz in SumCounts(b, d) && n == x + yz;
        var y, z :| y in b && z in d && yz == y + z;
        assert x + y in SumCounts(a, b) && n == (x + y) + z;
      }
      if n in SumCounts(SumCounts(a, b), d) {
        var xy, z :| xy in SumCounts(a, b) && z in d && n == xy + z;
        var x, y :| x in a && y in b && xy == x + y;
        assert y + z in SumCounts(b, d) && n == x + (y + z);
      }
    }
  }

  lemma SumZero(a: set<nat>)
    ensures SumCounts(a, {0}) == a && SumCounts({0}, a) == a
  {
    forall n ensures n in SumCounts(a, {0}) <==> n in a {
      ZeroAfter(a, n);
    }
    forall n ensures n in SumCounts({0}, a) <==> n in a {
      ZeroBefore(a, n);
    }
  }

  lemma ZeroAfter(a: set<nat>, n: nat)
    ensures n in SumCounts(a, {0}) <==> n in a
  {
    if n in a { assert n + 0 in SumCounts(a, {0}); }
  }

  lemma ZeroBefore(a: set<nat>, n: nat)
    ensures n in SumCounts({0}, a) <==> n in a
  {
    if n in a { assert 0 + n in SumCounts({0}, a); }
  }

  /** `_mutation_path_counts`, the loop over steps. */
  method MutationPathCounts(steps: seq<Step>, actions: set<string>) returns (counts: set<nat>)
    ensures counts == Counts(steps, actions)
    decreases steps
  {
    counts := {0};
    FirstCount(steps, actions);
    for i := 0 to |steps|
      invariant Remaining(counts, steps, i, actions) == Counts(steps, actions)
    {
      var stepCounts := CountStep(steps[i], actions);
      NextCount(counts, steps, i, actions);
      counts := SumCounts(counts, stepCounts);
    }
    LastCount(counts, steps, actions);
  }

  /** What is counted so far together with what the steps from `i` on will add. */
  function Remaining(counts: set<nat>, steps: seq<Step>, i: nat, actions: set<string>): set<nat>
    requires i <= |steps|
  {
    SumCounts(counts, Counts(steps[i..], actions))
  }

  lemma FirstCount(steps: seq<Step>, actions: set<string>)
    ensures Remaining({0}, steps, 0, actions) == Counts(steps, actions)
  {
    assert steps[0..] == steps;
    SumZero(Counts(steps, actions));
  }

  lemma LastCount(counts: set<nat>, steps: seq<Step>, actions: set<string>)
    ensures Remaining(counts, steps, |steps|, actions) == counts
  {
    var none: seq<Step> := [];
    assert steps[|steps|..] == none && Counts(none, actions) == {0};
    SumZero(counts);
  }

  lemma NextCount(counts: set<nat>, steps: seq<Step>, i: nat, actions: set<string>)
    requires i < |steps|
    ensures Remaining(SumCounts(counts, StepCounts(steps[i], actions)), steps, i + 1, actions)
         == Remaining(counts, steps, i, actions)
  {
    assert steps[i..][0] == steps[i] && steps[i..][1..] == steps[i + 1..];
    SumAssociates(counts, StepCounts(steps[i], actions), Counts(steps[i + 1..], actions));
  }

  /** The body of that loop; the children of a parallel step are summed like steps in sequence. */
  method CountStep(step: Step, actions: set<string>) returns (counts: set<nat>)
    ensures counts == StepCounts(step, actions)
    decreases step
  {
    counts := {0};
    match step.action {
      case Call(operation, _) => counts := if operation in actions then {1} else {0};
      case Branch(_, thenSteps, elseSteps) =>
        var thenCounts := MutationPathCounts(thenSteps, actions);
        var elseCounts := MutationPathCounts(elseSteps, actions);
        counts := thenCounts + elseCounts;
      case Parallel(children) => counts := MutationPathCounts(children, actions);
      case Foreach(_, maxItems, body) =>
        var items := MutationPathCounts(body, actions);
        counts := {0} + items + set c | c in items :: c * maxItems;
      case _ =>
    }
  }

  // ---------- Counts of runs ----------

  /** Mutating calls one run of a step performs. */
  function Mutations(step: Step, run: StepRun, actions: set<string>): nat
    requires Matches(step, run)
    decreases step
  {
    match step.action
    case Call(operation, _) => if operation in actions then 1 else 0
    case Branch(_, thenSteps, elseSteps) =>
      if run.takesThen then AllMutations(thenSteps, run.body, actions) else AllMutations(elseSteps, run.body, actions)
    case Parallel(children) => AllMutations(children, run.children, actions)
    case Foreach(_, _, body) => RoundMutations(body, run.rounds, actions)
    case _ => 0
  }

  function AllMutations(steps: seq<Step>, runs: seq<StepRun>, actions: set<string>): nat
    requires MatchesAll(steps, runs)
    decreases steps, 0
  {
    if steps == [] then 0
    else Mutations(steps[0], runs[0], actions) + AllMutations(steps[1..], runs[1..], actions)
  }

  function RoundMutations(body: seq<Step>, rounds: seq<Round>, actions: set<string>): nat
    requires forall i | 0 <= i < |rounds| :: MatchesAll(body, rounds[i].body)
    decreases body, 1, |rounds|
  {
    if rounds == [] then 0
    else AllMutations(body, rounds[0].body, actions) + RoundMutations(body, rounds[1..], actions)
  }

  // ---------- Every count in the set is some run's count ----------

  function Repeat(count: nat, body: seq<StepRun>): seq<Round> {
    seq(count, _ => Round(Null, body))
  }

  lemma {:induction false} RepeatMutations(body: seq<Step>, runs: seq<StepRun>, count: nat, actions: set<string>)
    requires MatchesAll(body, runs)
    ensures RoundMutations(body, Repeat(count, runs), actions) == count * AllMutations(body, runs, actions)
  {
    if count == 0 {
    } else {
      RepeatMutations(body, runs, count - 1, actions);
      assert Repeat(count, runs)[1..] == Repeat(count - 1, runs);
    }
  }

  lemma {:induction false} StepCountRealised(step: Step, actions: set<string>, count: nat) returns (run: StepRun)
    requires WellFormedStep(step) && count in StepCounts(step, actions)
    ensures Matches(step, run) && Mutations(step, run, actions) == count
    decreases step
  {
    match step.action
    case Branch(_, thenSteps, elseSteps) =>
      if count in Counts(thenSteps, actions) {
        var body := CountRealised(thenSteps, actions, count);
        run := Branched(true, body, Null);
      } else {
        var body := CountRealised(elseSteps, actions, count);
        run := Branched(false, body, Null);
      }
    case Parallel(children) =>
      var bodies := CountRealised(children, actions, count);
      run := Forked(bodies, Null);
    case Foreach(_, maxItems, body) =>
      if count == 0 {
        run := Looped([], Null);
      } else {
        var rounds, each := RoundsFor(maxItems, body, actions, count);
        var inner := CountRealised(body, actions, each);
        RepeatMutations(body, inner, rounds, actions);
        run := Looped(Repeat(rounds, inner), Null);
      }
    case _ => run := ShortRun(step);
  }

  /** A loop's count is reached by one round, or by the greatest number of rounds. */
  lemma RoundsFor(maxItems: nat, body: seq<Step>, actions: set<string>, count: nat) returns (rounds: nat, each: nat)
    requires maxItems >= 1
    requires count in Counts(body, actions) || exists c :: c in Counts(body, actions) && count == c * maxItems
    ensures rounds <= maxItems && each in Counts(body, actions) && rounds * each == count
  {
    rounds, each := 1, count;
    if count !in Counts(body, actions) {
      var c :| c in Counts(body, actions) && count == c * maxItems;
      rounds, each := maxItems, c;
    }
  }

  lemma {:induction false} CountRealised(
    steps: seq<Step>, actions: set<string>, count: nat)
    returns (runs: seq<StepRun>)
    requires WellFormed(steps) && count in Counts(steps, actions)
    ensures MatchesAll(steps, runs) && AllMutations(steps, runs, actions) == count
    decreases steps
  {
    if steps == [] {
      runs := [];
    } else {
      var a, b :| a in StepCounts(steps[0], actions) && b in Counts(steps[1..], actions) && count == a + b;
      var first := StepCountRealised(steps[0], actions, a);
      var rest := CountRealised(steps[1..], actions, b);
      runs := [first] + rest;
    }
  }

  // ---------- Every run's count lies within the set ----------

  lemma {:induction false} StepRunWithin(step: Step, run: StepRun, actions: set<string>) returns (lo: nat, hi: nat)
    requires Matches(step, run)
    ensures lo in StepCounts(step, actions) && hi in StepCounts(step, actions)
    ensures lo <= Mutations(step, run, actions) <= hi
    decreases step, 2
  {
    match step.action
    case Call(operation, _) => lo, hi := Mutations(step, run, actions), Mutations(step, run, actions);
    case Branch(_, thenSteps, elseSteps) =>
      if run.takesThen {
        lo, hi := RunWithin(thenSteps, run.body, actions);
      } else {
        lo, hi := RunWithin(elseSteps, run.body, actions);
      }
    case Parallel(children) => lo, hi := RunWithin(children, run.children, actions);
    case Foreach(_, maxItems, body) =>
      var most := RoundsWithin(body, run.rounds, actions);
      lo, hi := 0, most * maxItems;
      MulAtMost(|run.rounds|, maxItems, most);
      assert most * maxItems in set c | c in Counts(body, actions) :: c * maxItems;
    case _ => lo, hi := 0, 0;
  }

  lemma MulAtMost(a: nat, b: nat, c: nat)
    requires a <= b
    ensures a * c <= c * b
  {
    assert c * b == a * c + (b - a) * c;
  }

  /** The busiest round bounds them all. */
  lemma {:induction false} RoundsWithin(body: seq<Step>, rounds: seq<Round>, actions: set<string>) returns (most: nat)
    requires forall i | 0 <= i < |rounds| :: MatchesAll(body, rounds[i].body)
    ensures most in Counts(body, actions)
    ensures RoundMutations(body, rounds, actions) <= |rounds| * most
    decreases body, 1, |rounds|
  {
    if rounds == [] {
      most :| most in Counts(body, actions);
    } else {
      var _, first := RunWithin(body, rounds[0].body, actions);
      var rest := RoundsWithin(body, rounds[1..], actions);
      most := if first < rest then rest else first;
      BusiestBounds(|rounds|, first, rest, most);
    }
  }

  lemma BusiestBounds(rounds: nat, first: nat, rest: nat, most: nat)
    requires rounds > 0 && first <= most && rest <= most
    ensures first + (rounds - 1) * rest <= rounds * most
  {
    MulAtMost(rest, most, rounds - 1);
    assert rounds * most == most + (rounds - 1) * most;
  }

  lemma {:induction false} RunWithin(
    steps: seq<Step>, runs: seq<StepRun>, actions: set<string>)
    returns (lo: nat, hi: nat)
    requires MatchesAll(steps, runs)
    ensures lo in Counts(steps, actions) && hi in Counts(steps, actions)
    ensures lo <= AllMutations(steps, runs, actions) <= hi
    decreases steps, 0
  {
    if steps == [] {
      lo, hi := 0, 0;
    } else {
      var a, b := StepRunWithin(steps[0], runs[0], actions);
      var x, y := RunWithin(steps[1..], runs[1..], actions);
      lo, hi := a + x, b + y;
    }
  }

  ghost predicate AlwaysOnce(steps: seq<Step>, actions: set<string>) {
    forall runs :: MatchesAll(steps, runs) ==> AllMutations(steps, runs, actions) == 1
  }

  /** The check `counts == {1}` holds exactly when every run mutates exactly once. */
  lemma SingleMutationExactly(steps: seq<Step>, actions: set<string>)
    requires WellFormed(steps)
    ensures Counts(steps, actions) == {1} <==> AlwaysOnce(steps, actions)
  {
    var counts := Counts(steps, actions);
    if counts == {1} {
      forall runs | MatchesAll(steps, runs) ensures AllMutations(steps, runs, actions) == 1 {
        var lo, hi := RunWithin(steps, runs, actions);
      }
    }
    if AlwaysOnce(steps, actions) {
      forall count | count in counts ensures count == 1 {
        var runs := CountRealised(steps, actions, count);
      }
      var some :| some in counts;
      assert some == 1;
    }
  }

  // ---------- No mutation inside foreach ----------

  ghost predicate Singleton(counts: set<nat>) {
    forall a, b :: a in counts && b in counts ==> a == b
  }

  /** Mutating calls a run performs inside foreach bodies. */
  function LoopMutations(step: Step, run: StepRun, actions: set<string>): nat
    requires Matches(step, run)
    decreases step
  {
    match step.action
    case Branch(_, thenSteps, elseSteps) =>
      if run.takesThen then AllLoopMutations(thenSteps, run.body, actions)
      else AllLoopMutations(elseSteps, run.body, actions)
    case Parallel(children) => AllLoopMutations(children, run.children, actions)
    case Foreach(_, _, body) => RoundMutations(body, run.rounds, actions)
    case _ => 0
  }

  function AllLoopMutations(steps: seq<Step>, runs: seq<StepRun>, actions: set<string>): nat
    requires MatchesAll(steps, runs)
    decreases steps
  {
    if steps == [] then 0
    else LoopMutations(steps[0], runs[0], actions) + AllLoopMutations(steps[1..], runs[1..], actions)
  }

  lemma {:induction false} FixedStepLoopsNothing(step: Step, run: StepRun, actions: set<string>)
    requires Matches(step, run) && Singleton(StepCounts(step, actions))
    ensures LoopMutations(step, run, actions) == 0
    decreases step
  {
    match step.action
    case Branch(_, thenSteps, elseSteps) =>
      if run.takesThen { FixedCountLoopsNothing(thenSteps, run.body, actions); }
      else { FixedCountLoopsNothing(elseSteps, run.body, actions); }
    case Parallel(children) => FixedCountLoopsNothing(children, run.children, actions);
    case Foreach(_, maxItems, body) =>
      var most := RoundsWithin(body, run.rounds, actions);
      assert 0 in StepCounts(step, actions) && most in StepCounts(step, actions);
      assert |run.rounds| * 0 == 0;
    case _ =>
  }

  /** A workflow whose count never varies mutates inside no foreach, on no run. */
  lemma {:induction false} FixedCountLoopsNothing(steps: seq<Step>, runs: seq<StepRun>, actions: set<string>)
    requires MatchesAll(steps, runs) && Singleton(Counts(steps, actions))
    ensures AllLoopMutations(steps, runs, actions) == 0
    decreases steps
  {
    if steps == [] {
    } else {
      SumSingleton(StepCounts(steps[0], actions), Counts(steps[1..], actions));
      FixedStepLoopsNothing(steps[0], runs[0], actions);
      FixedCountLoopsNothing(steps[1..], runs[1..], actions);
    }
  }

  lemma SumSingleton(a: set<nat>, b: set<nat>)
    requires a != {} && b != {} && Singleton(SumCounts(a, b))
    ensures Singleton(a) && Singleton(b)
  {
    forall x, y | x in a && y in a ensures x == y {
      var z :| z in b;
      assert x + z in SumCounts(a, b) && y + z in SumCounts(a, b);
    }
    forall x, y | x in b && y in b ensures x == y {
      var z :| z in a;
      assert z + x in SumCounts(a, b) && z + y in SumCounts(a, b);
    }
  }
}
