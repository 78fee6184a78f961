// The order in which groups are started: which groups a run of the workers leaves
// out, and what stopOnFirstFailure makes of a failure.
module SchedulerLaunches {
  import opened Sequences
  import opened TaskPlans
  import opened Scheduler
  import opened SchedulerSafety
  import opened SchedulerWorkers
  import opened SchedulerRuns
  import opened SchedulerRefinement

  ghost predicate ListsStarted(sh: Shared, order: seq<nat>) {
    Distinct(order) && forall i: nat :: i in order <==> i < |sh.started| && sh.started[i]
  }

  /** Group i was executed, and did not stop the launches. */
  ghost predicate DidNotStop(stopOnFirstFailure: bool, sh: Shared, i: nat) {
    i < |sh.completed| && sh.completed[i] && !(stopOnFirstFailure && Bad(sh, i))
  }

  /** order lists the started groups as they were started: predecessors first, and of two groups of one system
      the first was completed, without stopping the launches, before the second was started. */
  ghost predicate LaunchOrder(plans: seq<TaskGroupPlan>, stopOnFirstFailure: bool, sh: Shared, order: seq<nat>) {
    && ListsStarted(sh, order)
    && (forall s: nat, k: nat :: k < |order| && Edge(plans, s, order[k]) ==> s in order[..k])
    && (forall j, k :: 0 <= j < k < |order| && SystemOf(plans, order[j]) == SystemOf(plans, order[k]) ==>
          DidNotStop(stopOnFirstFailure, sh, order[j]))
  }

  /** The group a step starts. */
  function Launched(plans: seq<TaskGroupPlan>, s: State, step: Step): seq<nat> {
    if step.Seek? && Enabled(plans, s, step) && Pick(plans, s.shared).0.Take? then [Pick(plans, s.shared).0.group] else []
  }

  lemma StartLaunches(plans: seq<TaskGroupPlan>, stopOnFirstFailure: bool, workerCount: nat)
    ensures LaunchOrder(plans, stopOnFirstFailure, Start(plans, workerCount).shared, [])
  {
  }

  lemma TakenAfterOthers(plans: seq<TaskGroupPlan>, stopOnFirstFailure: bool, sh: Shared, after: Shared, i: nat, j: nat)
    requires SharedInv(plans, stopOnFirstFailure, sh) && Takes(plans, sh, after, i) && !sh.stop
    requires j < |plans| && sh.started[j] && SystemOf(plans, j) == SystemOf(plans, i)
    ensures DidNotStop(stopOnFirstFailure, sh, j)
  {
    assert !InFlight(sh, j);
    hide QueueExact, FailedExact, Counts, Startable;
  }

  lemma TakenAfterPredecessors(plans: seq<TaskGroupPlan>, sh: Shared, after: Shared, i: nat, s: nat)
    requires Takes(plans, sh, after, i) && Ordered(plans, sh) && Ordered(plans, after) && Edge(plans, s, i)
    ensures s < |plans| && sh.started[s]
  {
    assert after.completed[s];
  }

  lemma TakeStarts(sh: Shared, after: Shared, i: nat, order: seq<nat>)
    requires ListsStarted(sh, order) && i < |sh.started| && !sh.started[i] && after.started == sh.started[i := true]
    ensures ListsStarted(after, order + [i])
  {
    DistinctConcat(order, [i]);
  }

  lemma TakeKeepsDone(plans: seq<TaskGroupPlan>, stopOnFirstFailure: bool, sh: Shared, after: Shared, i: nat, j: nat)
    requires Takes(plans, sh, after, i)
    ensures DidNotStop(stopOnFirstFailure, after, j) <==> DidNotStop(stopOnFirstFailure, sh, j)
  {
  }

  lemma TakeKeepsLaunches(plans: seq<TaskGroupPlan>, stopOnFirstFailure: bool, sh: Shared, after: Shared, i: nat, order: seq<nat>)
    requires SharedInv(plans, stopOnFirstFailure, sh) && Takes(plans, sh, after, i) && !sh.stop && Ordered(plans, after)
    requires LaunchOrder(plans, stopOnFirstFailure, sh, order)
    ensures LaunchOrder(plans, stopOnFirstFailure, after, order + [i])
  {
    TakeStarts(sh, after, i, order);
    assert Ordered(plans, sh) && Sized(plans, sh);
    var longer := order + [i];
    forall s: nat, k: nat | k < |longer| && Edge(plans, s, longer[k]) ensures s in longer[..k] {
      if k < |order| {
        assert longer[..k] == order[..k];
      } else {
        TakenAfterPredecessors(plans, sh, after, i, s);
        assert longer[..k] == order;
      }
    }
    forall j, k | 0 <= j < k < |longer| && SystemOf(plans, longer[j]) == SystemOf(plans, longer[k])
      ensures DidNotStop(stopOnFirstFailure, after, longer[j])
    {
      assert longer[j] in order;
      if k == |order| {
        TakenAfterOthers(plans, stopOnFirstFailure, sh, after, i, longer[j]);
      }
      TakeKeepsDone(plans, stopOnFirstFailure, sh, after, i, longer[j]);
    }
  }

  lemma FinishKeepsLaunches(plans: seq<TaskGroupPlan>, stopOnFirstFailure: bool, sh: Shared, after: Shared, i: nat, records: seq<Record>, order: seq<nat>)
    requires Finishes(plans, sh, after, i, records) && LaunchOrder(plans, stopOnFirstFailure, sh, order)
    ensures LaunchOrder(plans, stopOnFirstFailure, after, order)
  {
    hide HasFailure, Edge, SystemOf, Decremented, Distinct;
    forall j | DidNotStop(stopOnFirstFailure, sh, j) ensures DidNotStop(stopOnFirstFailure, after, j) {
      assert j != i;
    }
    hide DidNotStop;
  }

  lemma StepKeepsLaunches(plans: seq<TaskGroupPlan>, stopOnFirstFailure: bool, s: State, step: Step, order: seq<nat>)
    requires WellFormed(plans) && Inv(plans, stopOnFirstFailure, s) && Enabled(plans, s, step)
    requires LaunchOrder(plans, stopOnFirstFailure, s.shared, order)
    ensures LaunchOrder(plans, stopOnFirstFailure, Next(plans, stopOnFirstFailure, s, step).shared, order + Launched(plans, s, step))
  {
    assert order + [] == order;
    match step
    case Seek(w) => SeekKeepsLaunches(plans, stopOnFirstFailure, s, w, order);
    case Finish(w, records) =>
      var i := s.workers[w].group;
      assert InFlight(s.shared, i);
      SuccessorsInRange(plans, i);
      CompleteShape(plans, stopOnFirstFailure, s.shared, i, records);
      hide LaunchOrder, Complete, SharedInv, WellFormed;
      FinishKeepsLaunches(plans, stopOnFirstFailure, s.shared, Complete(plans, stopOnFirstFailure, s.shared, i, records), i, records, order);
    case Announce(w) =>
    case Wake(w) =>
  }

  lemma SeekKeepsLaunches(plans: seq<TaskGroupPlan>, stopOnFirstFailure: bool, s: State, w: nat, order: seq<nat>)
    requires Inv(plans, stopOnFirstFailure, s) && Enabled(plans, s, Seek(w))
    requires LaunchOrder(plans, stopOnFirstFailure, s.shared, order)
    ensures LaunchOrder(plans, stopOnFirstFailure, Pick(plans, s.shared).1, order + Launched(plans, s, Seek(w)))
  {
    PickShape(plans, s.shared);
    PickKeepsShared(plans, stopOnFirstFailure, s.shared);
    assert order + [] == order;
    var (verdict, after) := Pick(plans, s.shared);
    assert Ordered(plans, after);
    assert verdict.Take? ==> !s.shared.stop;
    hide Pick, LaunchOrder, SharedInv, WorkersInv, FirstFree;
    if verdict.Take? {
      TakeKeepsLaunches(plans, stopOnFirstFailure, s.shared, after, verdict.group, order);
    }
  }

  /** The groups a run has started before its step n. */
  function Launches(plans: seq<TaskGroupPlan>, run: Run, n: nat): seq<nat>
    requires n <= |run.steps| <= |run.states|
  {
    if n == 0 then [] else Launches(plans, run, n - 1) + Launched(plans, run.states[n - 1], run.steps[n - 1])
  }

  /** Over every interleaving. */
  lemma {:induction false} RunKeepsLaunches(plans: seq<TaskGroupPlan>, stopOnFirstFailure: bool, workerCount: nat, run: Run, n: nat)
    requires WellFormed(plans) && IsRun(plans, stopOnFirstFailure, workerCount, run) && n <= |run.steps|
    ensures LaunchOrder(plans, stopOnFirstFailure, run.states[n].shared, Launches(plans, run, n))
  {
    hide LaunchOrder, WellFormed, Launched, Inv;
    if n == 0 {
      StartLaunches(plans, stopOnFirstFailure, workerCount);
    } else {
      RunKeepsLaunches(plans, stopOnFirstFailure, workerCount, run, n - 1);
      RunKeepsInv(plans, stopOnFirstFailure, workerCount, run, n - 1);
      assert StepOf(plans, stopOnFirstFailure, run.states[n - 1], run.steps[n - 1], run.states[n]);
      StepKeepsLaunches(plans, stopOnFirstFailure, run.states[n - 1], run.steps[n - 1], Launches(plans, run, n - 1));
    }
  }

  // --------------------------------------------------- what a run executes

  predicate Among(order: seq<nat>, i: nat) {
    i in order
  }

  ghost function MembersOf(order: seq<nat>): nat -> bool {
    (i: nat) => Among(order, i)
  }

  /** One of the listed groups fails. */
  ghost predicate SomeFails(exec: Outcome, order: seq<nat>) {
    exists i :: i in order && HasFailure(exec(i))
  }

  /** Groups are started only after all their predecessors, each of which succeeded. */
  ghost predicate AfterSuccess(plans: seq<TaskGroupPlan>, exec: Outcome, order: seq<nat>) {
    forall s: nat, k: nat :: k < |order| && Edge(plans, s, order[k]) ==> s in order[..k] && !HasFailure(exec(s))
  }

  /** What workers execute, in the order in which they start it: each group once and after the success of its
      predecessors; all groups that may run, unless one of them stops the launches; and then no group of the
      system of a failed one is started after it. */
  ghost predicate Executes(plans: seq<TaskGroupPlan>, exec: Outcome, stopOnFirstFailure: bool, order: seq<nat>) {
    && Distinct(order) && (forall i :: i in order ==> i < |plans|)
    && AfterSuccess(plans, exec, order)
    && (!(stopOnFirstFailure && SomeFails(exec, order)) ==> forall i: nat :: Runs(plans, exec, i) ==> i in order)
    && (stopOnFirstFailure ==> forall j, k :: 0 <= j < k < |order| && SystemOf(plans, order[j]) == SystemOf(plans, order[k]) ==>
          !HasFailure(exec(order[j])))
  }

  lemma StartedAreDone(plans: seq<TaskGroupPlan>, stopOnFirstFailure: bool, exec: Outcome, s: State, order: seq<nat>)
    requires Good(plans, stopOnFirstFailure, exec, s) && AllExited(s) && ListsStarted(s.shared, order)
    ensures forall i :: i in order ==> i < |plans| && (HasFailure(exec(i)) <==> Bad(s.shared, i))
    ensures forall i: nat :: Among(order, i) <==> Ran(s.shared)(i)
  {
    ExitedIsSettled(plans, stopOnFirstFailure, s);
    hide HasFailure, SharedInv, WorkersInv, AllExited, Settled, RunsWithin;
  }

  lemma FinalOrder(plans: seq<TaskGroupPlan>, stopOnFirstFailure: bool, exec: Outcome, sh: Shared, order: seq<nat>)
    requires Sized(plans, sh) && Ordered(plans, sh) && LaunchOrder(plans, stopOnFirstFailure, sh, order)
    requires forall i :: i in order ==> i < |plans| && (HasFailure(exec(i)) <==> Bad(sh, i))
    ensures AfterSuccess(plans, exec, order)
    ensures stopOnFirstFailure ==> forall j, k :: 0 <= j < k < |order| && SystemOf(plans, order[j]) == SystemOf(plans, order[k]) ==>
              !HasFailure(exec(order[j]))
  {
    hide HasFailure, Bad, SystemOf;
    forall s: nat, k: nat | k < |order| && Edge(plans, s, order[k]) ensures s in order[..k] && !HasFailure(exec(s)) {
      assert order[k] in order && s in order;
    }
    forall j, k | stopOnFirstFailure && 0 <= j < k < |order| && SystemOf(plans, order[j]) == SystemOf(plans, order[k])
      ensures !HasFailure(exec(order[j]))
    {
      assert order[j] in order;
    }
  }

  /** When all workers have left, the groups executed and the records returned. */
  lemma FinalLaunches(plans: seq<TaskGroupPlan>, stopOnFirstFailure: bool, exec: Outcome, s: State, order: seq<nat>)
    requires Good(plans, stopOnFirstFailure, exec, s) && AllExited(s) && LaunchOrder(plans, stopOnFirstFailure, s.shared, order)
    ensures Executes(plans, exec, stopOnFirstFailure, order)
    ensures Flatten(s.shared.slots) == RecordsOf(MembersOf(order), exec, |plans|)
  {
    FinalState(plans, stopOnFirstFailure, exec, s);
    StartedAreDone(plans, stopOnFirstFailure, exec, s, order);
    var sh := s.shared;
    assert Sized(plans, sh) && Ordered(plans, sh);
    assert sh.stop ==> stopOnFirstFailure && SomeFails(exec, order) by {
      if sh.stop {
        var i: nat :| Bad(sh, i);
        assert Ran(sh)(i);
        assert Among(order, i);
      }
    }
    hide Good, AllExited, HasFailure, SomeFails, Runs;
    FinalOrder(plans, stopOnFirstFailure, exec, sh, order);
    RecordsSame(MembersOf(order), Ran(sh), exec, |plans|);
    assert Distinct(order);
    hide LaunchOrder, Ordered, AfterSuccess, SystemOf;
    forall i: nat | Runs(plans, exec, i) && !sh.stop ensures i in order {
      assert Ran(sh)(i);
      assert Among(order, i);
    }
  }

  /** Every interleaving that has run to its end returns the records of the groups it started, and those are as
      Executes says. */
  lemma RunExecutes(plans: seq<TaskGroupPlan>, stopOnFirstFailure: bool, workerCount: nat, exec: Outcome, run: Run)
    requires WellFormed(plans) && IsRun(plans, stopOnFirstFailure, workerCount, run)
    requires forall j :: 0 <= j < |run.steps| ==> Follows(exec, run.states[j], run.steps[j])
    requires AllExited(run.states[|run.steps|])
    ensures Executes(plans, exec, stopOnFirstFailure, Launches(plans, run, |run.steps|))
    ensures Flatten(run.states[|run.steps|].shared.slots) == RecordsOf(MembersOf(Launches(plans, run, |run.steps|)), exec, |plans|)
  {
    RunIsGood(plans, stopOnFirstFailure, workerCount, exec, run, |run.steps|);
    RunKeepsLaunches(plans, stopOnFirstFailure, workerCount, run, |run.steps|);
    hide Good, LaunchOrder, WellFormed, Follows, AllExited;
    FinalLaunches(plans, stopOnFirstFailure, exec, run.states[|run.steps|], Launches(plans, run, |run.steps|));
  }

  /** Groups that are started in such an order may all run. */
  lemma {:induction false} ExecutedMayRun(plans: seq<TaskGroupPlan>, exec: Outcome, order: seq<nat>, k: nat)
    requires AfterSuccess(plans, exec, order) && k < |order| && forall i :: i in order ==> i < |plans|
    ensures RunsWithin(plans, exec, order[k], k + 1)
  {
    assert order[k] in order;
    forall s: nat | Edge(plans, s, order[k]) ensures !HasFailure(exec(s)) && RunsWithin(plans, exec, s, k) {
      assert k < |order| && Edge(plans, s, order[k]);
      assert !HasFailure(exec(s)) && s in order[..k];
      var j :| 0 <= j < k && order[j] == s;
      ExecutedMayRun(plans, exec, order, j);
      RunsWithinGrows(plans, exec, s, j + 1, k);
    }
  }

  /** Without a failure that stops the launches, exactly the groups that may run are executed. */
  lemma ExecutesAll(plans: seq<TaskGroupPlan>, exec: Outcome, stopOnFirstFailure: bool, order: seq<nat>)
    requires Executes(plans, exec, stopOnFirstFailure, order) && !(stopOnFirstFailure && SomeFails(exec, order))
    ensures forall i: nat :: i in order <==> Runs(plans, exec, i)
    ensures RecordsOf(MembersOf(order), exec, |plans|) == ParallelRecords(plans, exec)
  {
    hide SomeFails, HasFailure;
    forall i: nat | i in order ensures Runs(plans, exec, i) {
      var k :| 0 <= k < |order| && order[k] == i;
      ExecutedMayRun(plans, exec, order, k);
    }
    hide Runs;
    forall i: nat ensures MembersOf(order)(i) == ParallelRuns(plans, exec)(i) {
      assert Among(order, i) <==> Runs(plans, exec, i);
    }
    RecordsSame(MembersOf(order), ParallelRuns(plans, exec), exec, |plans|);
  }
}
