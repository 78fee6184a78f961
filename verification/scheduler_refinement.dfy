// The sequential loop, and the refinement of it by every interleaving of workers.
module SchedulerRefinement {
  import opened Sequences
  import opened Packages
  import opened TaskPlans
  import opened Scheduler
  import opened SchedulerSafety
  import opened SchedulerWorkers
  import opened SchedulerRuns

  /** What group i returns whenever it is executed. */
  type Outcome = nat -> seq<Record>

  // ------------------------------------------------- which groups execute

  ghost predicate RunsWithin(plans: seq<TaskGroupPlan>, exec: Outcome, i: nat, depth: nat)
    decreases depth
  {
    && depth > 0 && i < |plans|
    && forall s: nat :: Edge(plans, s, i) ==> !HasFailure(exec(s)) && RunsWithin(plans, exec, s, depth - 1)
  }

  /** All ancestors of group i run and succeed; no group on or behind a cycle does. */
  ghost predicate Runs(plans: seq<TaskGroupPlan>, exec: Outcome, i: nat) {
    exists depth: nat :: RunsWithin(plans, exec, i, depth)
  }

  /** Group i runs when groups are visited once, in index order. */
  ghost predicate RunsInOrder(plans: seq<TaskGroupPlan>, exec: Outcome, i: nat)
    decreases i
  {
    && i < |plans|
    && forall s: nat :: Edge(plans, s, i) ==> s < i && !HasFailure(exec(s)) && RunsInOrder(plans, exec, s)
  }

  /** The records of the groups below n that run, in index order. */
  ghost function RecordsOf(runs: nat -> bool, exec: Outcome, n: nat): seq<Record> {
    if n == 0 then [] else RecordsOf(runs, exec, n - 1) + (if runs(n - 1) then exec(n - 1) else [])
  }

  ghost function ParallelRuns(plans: seq<TaskGroupPlan>, exec: Outcome): nat -> bool {
    (i: nat) => Runs(plans, exec, i)
  }

  ghost function ParallelRecords(plans: seq<TaskGroupPlan>, exec: Outcome): seq<Record> {
    RecordsOf(ParallelRuns(plans, exec), exec, |plans|)
  }

  /** Under stopOnFirstFailure the loop leaves after the first group that failed. */
  ghost predicate Visited(plans: seq<TaskGroupPlan>, exec: Outcome, stopOnFirstFailure: bool, i: nat) {
    stopOnFirstFailure ==> forall s: nat :: s < i && RunsInOrder(plans, exec, s) ==> !HasFailure(exec(s))
  }

  ghost function SequentialRuns(plans: seq<TaskGroupPlan>, exec: Outcome, stopOnFirstFailure: bool): nat -> bool {
    (i: nat) => RunsInOrder(plans, exec, i) && Visited(plans, exec, stopOnFirstFailure, i)
  }

  ghost function SequentialRecords(plans: seq<TaskGroupPlan>, exec: Outcome, stopOnFirstFailure: bool): seq<Record> {
    RecordsOf(SequentialRuns(plans, exec, stopOnFirstFailure), exec, |plans|)
  }

  lemma {:induction false} RunsWithinGrows(plans: seq<TaskGroupPlan>, exec: Outcome, i: nat, depth: nat, more: nat)
    requires RunsWithin(plans, exec, i, depth) && depth <= more
    ensures RunsWithin(plans, exec, i, more)
    decreases depth
  {
    forall s: nat | Edge(plans, s, i) ensures RunsWithin(plans, exec, s, more - 1) {
      RunsWithinGrows(plans, exec, s, depth - 1, more - 1);
    }
  }

  lemma {:induction false} InOrderRuns(plans: seq<TaskGroupPlan>, exec: Outcome, i: nat)
    requires RunsInOrder(plans, exec, i)
    ensures RunsWithin(plans, exec, i, i + 1)
    decreases i
  {
    forall s: nat | Edge(plans, s, i) ensures RunsWithin(plans, exec, s, i) {
      InOrderRuns(plans, exec, s);
      RunsWithinGrows(plans, exec, s, s + 1, i);
    }
  }

  /** The edges into the groups that run all go forward. */
  ghost predicate RunsForward(plans: seq<TaskGroupPlan>, exec: Outcome) {
    forall s: nat, i: nat :: Edge(plans, s, i) && Runs(plans, exec, i) ==> s < i
  }

  lemma {:induction false} RunsAreInOrder(plans: seq<TaskGroupPlan>, exec: Outcome, i: nat, depth: nat)
    requires RunsForward(plans, exec) && RunsWithin(plans, exec, i, depth)
    ensures RunsInOrder(plans, exec, i)
    decreases depth
  {
    forall s: nat | Edge(plans, s, i) ensures s < i && RunsInOrder(plans, exec, s) {
      assert Runs(plans, exec, i);
      RunsAreInOrder(plans, exec, s, depth - 1);
    }
  }

  lemma {:induction false} RecordsSame(f: nat -> bool, g: nat -> bool, exec: Outcome, n: nat)
    requires forall i: nat :: i < n ==> f(i) == g(i)
    ensures RecordsOf(f, exec, n) == RecordsOf(g, exec, n)
  {
    if n > 0 {
      RecordsSame(f, g, exec, n - 1);
    }
  }

  lemma {:induction false} RecordsFewer(f: nat -> bool, g: nat -> bool, exec: Outcome, n: nat, i: nat)
    requires i < n && !f(i) && g(i) && exec(i) != []
    requires forall j: nat :: j < n && f(j) ==> g(j)
    ensures |RecordsOf(f, exec, n)| < |RecordsOf(g, exec, n)|
  {
    RecordsNoMore(f, g, exec, n - 1);
    if i < n - 1 {
      RecordsFewer(f, g, exec, n - 1, i);
    }
  }

  lemma {:induction false} RecordsNoMore(f: nat -> bool, g: nat -> bool, exec: Outcome, n: nat)
    requires forall j: nat :: j < n && f(j) ==> g(j)
    ensures |RecordsOf(f, exec, n)| <= |RecordsOf(g, exec, n)|
  {
    if n > 0 {
      RecordsNoMore(f, g, exec, n - 1);
    }
  }

  /** The two schedulers return the same records exactly when no group that runs has an edge from
      a later one; groups are assumed to return at least one record. */
  lemma SequentialMatchesParallel(plans: seq<TaskGroupPlan>, exec: Outcome)
    requires forall i: nat :: i < |plans| ==> exec(i) != []
    ensures SequentialRecords(plans, exec, false) == ParallelRecords(plans, exec) <==> RunsForward(plans, exec)
  {
    var f := SequentialRuns(plans, exec, false);
    var g := ParallelRuns(plans, exec);
    forall i: nat | f(i) ensures g(i) {
      InOrderRuns(plans, exec, i);
    }
    if RunsForward(plans, exec) {
      ForwardMatches(plans, exec);
    } else {
      var s: nat, i: nat :| Edge(plans, s, i) && Runs(plans, exec, i) && s >= i;
      assert !RunsInOrder(plans, exec, i);
      RecordsFewer(f, g, exec, |plans|, i);
    }
  }

  /** Every group succeeds. */
  function AllSucceed(): Outcome {
    (i: nat) => [Record("", "", INSTALL, "", "", "success", "")]
  }

  /** A group that runs also runs when every group succeeds. */
  lemma {:induction false} RunsIfAllSucceed(plans: seq<TaskGroupPlan>, exec: Outcome, i: nat, depth: nat)
    requires RunsWithin(plans, exec, i, depth)
    ensures RunsWithin(plans, AllSucceed(), i, depth)
    decreases depth
  {
    forall s: nat | Edge(plans, s, i) ensures RunsWithin(plans, AllSucceed(), s, depth - 1) {
      RunsIfAllSucceed(plans, exec, s, depth - 1);
    }
  }

  /** Whatever the groups return, the two schedulers return the same records: this holds of a plan exactly if the
      edges into its groups that are not on or behind a cycle all go forward. */
  lemma PlanMatchesAlways(plans: seq<TaskGroupPlan>)
    ensures (forall exec: Outcome :: SequentialRecords(plans, exec, false) == ParallelRecords(plans, exec)) <==>
            RunsForward(plans, AllSucceed())
  {
    if RunsForward(plans, AllSucceed()) {
      forall exec: Outcome ensures SequentialRecords(plans, exec, false) == ParallelRecords(plans, exec) {
        forall s: nat, i: nat | Edge(plans, s, i) && Runs(plans, exec, i) ensures s < i {
          var depth: nat :| RunsWithin(plans, exec, i, depth);
          RunsIfAllSucceed(plans, exec, i, depth);
        }
        ForwardMatches(plans, exec);
      }
    } else {
      SequentialMatchesParallel(plans, AllSucceed());
    }
  }

  lemma ForwardMatches(plans: seq<TaskGroupPlan>, exec: Outcome)
    requires RunsForward(plans, exec)
    ensures SequentialRecords(plans, exec, false) == ParallelRecords(plans, exec)
  {
    var f := SequentialRuns(plans, exec, false);
    var g := ParallelRuns(plans, exec);
    forall i: nat | i < |plans| ensures f(i) == g(i) {
      if f(i) {
        InOrderRuns(plans, exec, i);
      }
      if g(i) {
        var depth: nat :| RunsWithin(plans, exec, i, depth);
        RunsAreInOrder(plans, exec, i, depth);
      }
    }
    RecordsSame(f, g, exec, |plans|);
  }

  // ------------------------------------------- what a parallel run returns

  /** Executing group i returned exec(i), whenever and wherever it was executed. */
  ghost predicate Follows(exec: Outcome, s: State, step: Step) {
    step.Finish? && step.w < |s.workers| && s.workers[step.w].Running? ==> step.records == exec(s.workers[step.w].group)
  }

  ghost predicate OutcomeInv(plans: seq<TaskGroupPlan>, exec: Outcome, sh: Shared) {
    && Sized(plans, sh)
    && (forall i: nat :: i < |plans| && sh.completed[i] ==> sh.slots[i] == exec(i))
    && (forall i: nat :: i < |plans| && sh.started[i] ==> RunsWithin(plans, exec, i, multiset(sh.started)[true]))
  }

  lemma TakeKeepsOutcome(plans: seq<TaskGroupPlan>, exec: Outcome, sh: Shared, after: Shared, i: nat)
    requires Takes(plans, sh, after, i) && OutcomeInv(plans, exec, sh)
    requires Ordered(plans, sh) && Ordered(plans, after)
    ensures OutcomeInv(plans, exec, after)
  {
    var depth := multiset(sh.started)[true];
    UpdateOccurrences(sh.started, i, true, true);
    forall j: nat | j < |plans| && after.started[j] ensures RunsWithin(plans, exec, j, depth + 1) {
      if j == i {
        forall s: nat | Edge(plans, s, i) ensures !HasFailure(exec(s)) && RunsWithin(plans, exec, s, depth) {
          assert after.completed[s] && !Bad(after, s);
          assert sh.started[s];
        }
      } else {
        RunsWithinGrows(plans, exec, j, depth, depth + 1);
      }
    }
  }

  lemma SeekKeepsOutcome(plans: seq<TaskGroupPlan>, stopOnFirstFailure: bool, exec: Outcome, sh: Shared)
    requires SharedInv(plans, stopOnFirstFailure, sh) && OutcomeInv(plans, exec, sh)
    ensures OutcomeInv(plans, exec, Pick(plans, sh).1)
  {
    PickShape(plans, sh);
    PickKeepsShared(plans, stopOnFirstFailure, sh);
    var (verdict, after) := Pick(plans, sh);
    assert Ordered(plans, sh) && Ordered(plans, after);
    hide Pick, SharedInv, FirstFree, OutcomeInv, Ordered;
    if verdict.Take? {
      TakeKeepsOutcome(plans, exec, sh, after, verdict.group);
    }
  }

  lemma FinishKeepsOutcome(plans: seq<TaskGroupPlan>, stopOnFirstFailure: bool, exec: Outcome, sh: Shared, i: nat, records: seq<Record>)
    requires WellFormed(plans) && OutcomeInv(plans, exec, sh) && i < |plans| && InFlight(sh, i) && records == exec(i)
    ensures OutcomeInv(plans, exec, Complete(plans, stopOnFirstFailure, sh, i, records))
  {
    SuccessorsInRange(plans, i);
    CompleteShape(plans, stopOnFirstFailure, sh, i, records);
    hide Complete, WellFormed;
  }

  lemma StepKeepsOutcome(plans: seq<TaskGroupPlan>, stopOnFirstFailure: bool, exec: Outcome, s: State, step: Step)
    requires WellFormed(plans) && Inv(plans, stopOnFirstFailure, s) && OutcomeInv(plans, exec, s.shared)
    requires Enabled(plans, s, step) && Follows(exec, s, step)
    ensures OutcomeInv(plans, exec, Next(plans, stopOnFirstFailure, s, step).shared)
  {
    hide OutcomeInv, SharedInv, WellFormed, Pick, Complete;
    match step
    case Seek(w) => SeekKeepsOutcome(plans, stopOnFirstFailure, exec, s.shared);
    case Finish(w, records) =>
      assert InFlight(s.shared, s.workers[w].group);
      FinishKeepsOutcome(plans, stopOnFirstFailure, exec, s.shared, s.workers[w].group, records);
    case Announce(w) =>
    case Wake(w) =>
  }

  ghost predicate Good(plans: seq<TaskGroupPlan>, stopOnFirstFailure: bool, exec: Outcome, s: State) {
    Inv(plans, stopOnFirstFailure, s) && OutcomeInv(plans, exec, s.shared)
  }

  lemma StartGood(plans: seq<TaskGroupPlan>, stopOnFirstFailure: bool, workerCount: nat, exec: Outcome)
    requires WellFormed(plans)
    ensures Good(plans, stopOnFirstFailure, exec, Start(plans, workerCount))
  {
    StartInv(plans, stopOnFirstFailure, workerCount);
    hide Inv, WellFormed;
  }

  lemma StepGood(plans: seq<TaskGroupPlan>, stopOnFirstFailure: bool, exec: Outcome, s: State, step: Step)
    requires WellFormed(plans) && Good(plans, stopOnFirstFailure, exec, s)
    requires Enabled(plans, s, step) && Follows(exec, s, step)
    ensures var after := Next(plans, stopOnFirstFailure, s, step);
            && Good(plans, stopOnFirstFailure, exec, after)
            && (if step.Wake? then Measure(after) == Measure(s) + 1 else Measure(after) < Measure(s))
  {
    hide Inv, OutcomeInv, WellFormed, Measure, Pick, Complete;
    StepKeepsInv(plans, stopOnFirstFailure, s, step);
    StepKeepsOutcome(plans, stopOnFirstFailure, exec, s, step);
    StepDecreases(plans, stopOnFirstFailure, s, step);
  }

  lemma SomeoneMoves(plans: seq<TaskGroupPlan>, stopOnFirstFailure: bool, exec: Outcome, s: State, w: nat)
    requires Good(plans, stopOnFirstFailure, exec, s) && w < |s.workers| && !s.workers[w].Exited?
    ensures exists v :: 0 <= v < |s.workers| && !s.workers[v].Exited? && !s.workers[v].Waiting?
  {
    NoDeadlock(plans, stopOnFirstFailure, s, w);
    hide Inv;
    var step: Step :| !step.Wake? && Enabled(plans, s, step);
    assert !s.workers[step.w].Exited? && !s.workers[step.w].Waiting?;
  }

  lemma GoodGroups(plans: seq<TaskGroupPlan>, stopOnFirstFailure: bool, exec: Outcome, s: State)
    requires Good(plans, stopOnFirstFailure, exec, s)
    ensures Sized(plans, s.shared)
    ensures forall w :: 0 <= w < |s.workers| && s.workers[w].Running? ==> s.workers[w].group < |plans|
  {
    forall w | 0 <= w < |s.workers| && s.workers[w].Running? ensures s.workers[w].group < |plans| {
      assert InFlight(s.shared, s.workers[w].group);
    }
  }

  lemma {:induction false} RunIsGood(plans: seq<TaskGroupPlan>, stopOnFirstFailure: bool, workerCount: nat, exec: Outcome, run: Run, k: nat)
    requires WellFormed(plans) && IsRun(plans, stopOnFirstFailure, workerCount, run) && k < |run.states|
    requires forall j :: 0 <= j < |run.steps| ==> Follows(exec, run.states[j], run.steps[j])
    ensures Good(plans, stopOnFirstFailure, exec, run.states[k])
  {
    hide Good, WellFormed, Follows, Measure;
    if k == 0 {
      StartGood(plans, stopOnFirstFailure, workerCount, exec);
    } else {
      RunIsGood(plans, stopOnFirstFailure, workerCount, exec, run, k - 1);
      assert StepOf(plans, stopOnFirstFailure, run.states[k - 1], run.steps[k - 1], run.states[k]);
      StepGood(plans, stopOnFirstFailure, exec, run.states[k - 1], run.steps[k - 1]);
    }
  }

  ghost predicate AllExited(s: State) {
    |s.workers| > 0 && forall w :: 0 <= w < |s.workers| ==> s.workers[w].Exited?
  }

  /** Nothing in flight, nothing startable. */
  ghost predicate Settled(plans: seq<TaskGroupPlan>, sh: Shared) {
    && Sized(plans, sh) && sh.ready == []
    && forall i: nat :: i < |plans| && sh.started[i] ==> sh.completed[i]
  }

  lemma ExitedIsSettled(plans: seq<TaskGroupPlan>, stopOnFirstFailure: bool, s: State)
    requires Inv(plans, stopOnFirstFailure, s) && AllExited(s)
    ensures forall i: nat :: i < |plans| && s.shared.started[i] ==> s.shared.completed[i]
    ensures s.shared.stop || Settled(plans, s.shared)
  {
    assert s.workers[0] == Exited;
    assert forall i: nat :: InFlight(s.shared, i) ==> Running(i) in s.workers;
    forall i: nat | i < |plans| && s.shared.started[i] ensures s.shared.completed[i] {
      assert !InFlight(s.shared, i);
    }
  }

  lemma {:induction false} SettledRanAll(plans: seq<TaskGroupPlan>, stopOnFirstFailure: bool, exec: Outcome, sh: Shared, i: nat, depth: nat)
    requires SharedInv(plans, stopOnFirstFailure, sh) && Settled(plans, sh) && OutcomeInv(plans, exec, sh)
    requires RunsWithin(plans, exec, i, depth)
    ensures sh.started[i]
    decreases depth
  {
    forall s: nat | Edge(plans, s, i) ensures s < |plans| && sh.completed[s] && !Bad(sh, s) {
      SettledRanAll(plans, stopOnFirstFailure, exec, sh, s, depth - 1);
    }
    NonePending(plans, Done(sh), sh.pending, i);
    assert i in sh.ready <==> Startable(sh, i);
    hide Counts, BusyExact, QueueExact, Done, Active;
    assert sh.failed[i] ==> Bad(sh, i);
  }

  lemma {:induction false} FlattenedSlots(runs: nat -> bool, exec: Outcome, slots: seq<seq<Record>>, n: nat)
    requires n <= |slots| && forall i: nat :: i < n ==> slots[i] == if runs(i) then exec(i) else []
    ensures Flatten(slots[..n]) == RecordsOf(runs, exec, n)
  {
    if n > 0 {
      FlattenedSlots(runs, exec, slots, n - 1);
      assert slots[..n][..n - 1] == slots[..n - 1];
    }
  }

  lemma {:induction false} FailureAmong(slots: seq<seq<Record>>, i: nat)
    requires i < |slots| && HasFailure(slots[i])
    ensures HasFailure(Flatten(slots))
  {
    var n := |slots| - 1;
    if i == n {
      var k :| 0 <= k < |slots[n]| && slots[n][k].status == "failed";
      assert Flatten(slots)[|Flatten(slots[..n])| + k].status == "failed";
    } else {
      FailureAmong(slots[..n], i);
      var k :| 0 <= k < |Flatten(slots[..n])| && Flatten(slots[..n])[k].status == "failed";
      assert Flatten(slots)[k].status == "failed";
    }
  }

  /** The groups started, as a predicate on indices. */
  ghost function Ran(sh: Shared): nat -> bool {
    (i: nat) => i < |sh.started| && sh.started[i]
  }

  /** When all workers have left, only groups whose ancestors all ran and succeeded were executed, and
      the slots hold what they returned; all such groups were, unless a failure stopped the launches. */
  lemma FinalState(plans: seq<TaskGroupPlan>, stopOnFirstFailure: bool, exec: Outcome, s: State)
    requires Good(plans, stopOnFirstFailure, exec, s) && AllExited(s)
    ensures forall i: nat :: Ran(s.shared)(i) ==> Runs(plans, exec, i)
    ensures Flatten(s.shared.slots) == RecordsOf(Ran(s.shared), exec, |plans|)
    ensures s.shared.stop ==> stopOnFirstFailure && HasFailure(Flatten(s.shared.slots))
    ensures !s.shared.stop ==> forall i: nat :: Runs(plans, exec, i) ==> Ran(s.shared)(i)
    ensures !s.shared.stop ==> Flatten(s.shared.slots) == ParallelRecords(plans, exec)
  {
    ExitedIsSettled(plans, stopOnFirstFailure, s);
    var sh := s.shared;
    var stopped := sh.stop;
    if stopped {
      var i: nat :| Bad(sh, i);
      FailureAmong(sh.slots, i);
    }
    forall i: nat | i < |plans| ensures sh.slots[i] == if Ran(sh)(i) then exec(i) else [] {
    }
    forall i: nat | Runs(plans, exec, i) ensures !stopped ==> Ran(sh)(i) {
      var depth: nat :| RunsWithin(plans, exec, i, depth);
      if !stopped {
        SettledRanAll(plans, stopOnFirstFailure, exec, sh, i, depth);
      }
    }
    hide Inv, Settled, HasFailure;
    FlattenedSlots(Ran(sh), exec, sh.slots, |plans|);
    assert sh.slots[..|plans|] == sh.slots;
    if !stopped {
      RecordsSame(Ran(sh), ParallelRuns(plans, exec), exec, |plans|);
    }
  }

  /** Every interleaving that has run to its end, on any well-formed plan. */
  lemma ParallelResult(plans: seq<TaskGroupPlan>, stopOnFirstFailure: bool, workerCount: nat, exec: Outcome, run: Run)
    requires WellFormed(plans) && IsRun(plans, stopOnFirstFailure, workerCount, run)
    requires forall j :: 0 <= j < |run.steps| ==> Follows(exec, run.states[j], run.steps[j])
    requires AllExited(run.states[|run.steps|])
    ensures var final := run.states[|run.steps|].shared;
            && (forall i: nat :: Ran(final)(i) ==> Runs(plans, exec, i))
            && Flatten(final.slots) == RecordsOf(Ran(final), exec, |plans|)
            && (final.stop ==> stopOnFirstFailure && HasFailure(Flatten(final.slots)))
            && (!final.stop ==> forall i: nat :: Runs(plans, exec, i) ==> Ran(final)(i))
            && (!final.stop ==> Flatten(final.slots) == ParallelRecords(plans, exec))
  {
    RunIsGood(plans, stopOnFirstFailure, workerCount, exec, run, |run.steps|);
    hide Good, WellFormed;
    FinalState(plans, stopOnFirstFailure, exec, run.states[|run.steps|]);
  }

  /** Refinement: on an index-topological plan every interleaving returns exactly the record list
      of the sequential loop. */
  lemma ParallelRefinesSequential(plans: seq<TaskGroupPlan>, workerCount: nat, exec: Outcome, run: Run)
    requires WellFormed(plans) && Forward(plans) && IsRun(plans, false, workerCount, run)
    requires forall j :: 0 <= j < |run.steps| ==> Follows(exec, run.states[j], run.steps[j])
    requires AllExited(run.states[|run.steps|])
    ensures Flatten(run.states[|run.steps|].shared.slots) == SequentialRecords(plans, exec, false)
  {
    ParallelResult(plans, false, workerCount, exec, run);
    ForwardMatches(plans, exec);
  }
}
