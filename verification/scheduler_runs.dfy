// What holds over whole runs: no group twice, no two groups of one system at a
// time, nothing after a failure, and a bound on the length of every run.
module SchedulerRuns {
  import opened Sequences
  import opened TaskPlans
  import opened Scheduler
  import opened SchedulerSafety
  import opened SchedulerWorkers

  /** An interleaving of worker steps with the states it passes through. */
  datatype Run = Run(states: seq<State>, steps: seq<Step>)

  ghost predicate StepOf(plans: seq<TaskGroupPlan>, stopOnFirstFailure: bool, s: State, step: Step, s': State) {
    Enabled(plans, s, step) && s' == Next(plans, stopOnFirstFailure, s, step)
  }

  ghost predicate IsRun(plans: seq<TaskGroupPlan>, stopOnFirstFailure: bool, workerCount: nat, run: Run) {
    && |run.states| == |run.steps| + 1
    && run.states[0] == Start(plans, workerCount)
    && forall k :: 0 <= k < |run.steps| ==>
         StepOf(plans, stopOnFirstFailure, run.states[k], run.steps[k], run.states[k + 1])
  }

  lemma {:induction false} RunKeepsInv(plans: seq<TaskGroupPlan>, stopOnFirstFailure: bool, workerCount: nat, run: Run, k: nat)
    requires WellFormed(plans) && IsRun(plans, stopOnFirstFailure, workerCount, run) && k < |run.states|
    ensures Inv(plans, stopOnFirstFailure, run.states[k]) && |run.states[k].workers| == workerCount
  {
    hide Inv, WellFormed;
    if k == 0 {
      StartInv(plans, stopOnFirstFailure, workerCount);
    } else {
      RunKeepsInv(plans, stopOnFirstFailure, workerCount, run, k - 1);
      assert StepOf(plans, stopOnFirstFailure, run.states[k - 1], run.steps[k - 1], run.states[k]);
      StepKeepsInv(plans, stopOnFirstFailure, run.states[k - 1], run.steps[k - 1]);
    }
  }

  // ----------------------------------------------------------------- safety

  /** The step takes group i out of the queue and starts it. */
  predicate Starts(plans: seq<TaskGroupPlan>, s: State, step: Step, i: nat) {
    step.Seek? && Enabled(plans, s, step) && Pick(plans, s.shared).0 == Take(i)
  }

  predicate Started(s: State, i: nat) {
    i < |s.shared.started| && s.shared.started[i]
  }

  lemma StepKeepsStarted(plans: seq<TaskGroupPlan>, stopOnFirstFailure: bool, s: State, step: Step, i: nat)
    requires Enabled(plans, s, step) && Started(s, i)
    ensures Started(Next(plans, stopOnFirstFailure, s, step), i)
  {
    match step
    case Seek(w) =>
      var k := FirstFree(plans, s.shared, s.shared.ready);
      assert k < |s.shared.ready| ==> s.shared.ready[k] in s.shared.ready;
    case Finish(w, records) =>
    case Announce(w) =>
    case Wake(w) =>
  }

  lemma {:induction false} StartedStays(plans: seq<TaskGroupPlan>, stopOnFirstFailure: bool, workerCount: nat, run: Run, p: nat, q: nat, i: nat)
    requires IsRun(plans, stopOnFirstFailure, workerCount, run) && p <= q < |run.states| && Started(run.states[p], i)
    ensures Started(run.states[q], i)
  {
    if p < q {
      StartedStays(plans, stopOnFirstFailure, workerCount, run, p, q - 1, i);
      assert StepOf(plans, stopOnFirstFailure, run.states[q - 1], run.steps[q - 1], run.states[q]);
      StepKeepsStarted(plans, stopOnFirstFailure, run.states[q - 1], run.steps[q - 1], i);
    }
  }

  lemma StartsOnlyUnstarted(plans: seq<TaskGroupPlan>, stopOnFirstFailure: bool, s: State, step: Step, i: nat)
    requires Inv(plans, stopOnFirstFailure, s) && Starts(plans, s, step, i)
    ensures !Started(s, i) && Started(Next(plans, stopOnFirstFailure, s, step), i)
  {
    PickShape(plans, s.shared);
  }

  /** No group runs twice. */
  lemma NoGroupRunsTwice(plans: seq<TaskGroupPlan>, stopOnFirstFailure: bool, workerCount: nat, run: Run, p: nat, q: nat, i: nat)
    requires WellFormed(plans) && IsRun(plans, stopOnFirstFailure, workerCount, run) && p < q < |run.steps|
    requires Starts(plans, run.states[p], run.steps[p], i)
    ensures !Starts(plans, run.states[q], run.steps[q], i)
  {
    RunKeepsInv(plans, stopOnFirstFailure, workerCount, run, p);
    RunKeepsInv(plans, stopOnFirstFailure, workerCount, run, q);
    hide Inv, WellFormed, Starts;
    StartsOnlyUnstarted(plans, stopOnFirstFailure, run.states[p], run.steps[p], i);
    assert StepOf(plans, stopOnFirstFailure, run.states[p], run.steps[p], run.states[p + 1]);
    StartedStays(plans, stopOnFirstFailure, workerCount, run, p + 1, q, i);
    if Starts(plans, run.states[q], run.steps[q], i) {
      StartsOnlyUnstarted(plans, stopOnFirstFailure, run.states[q], run.steps[q], i);
    }
  }

  /** Two groups of one system never run at the same time. */
  lemma NoSystemOverlap(plans: seq<TaskGroupPlan>, stopOnFirstFailure: bool, workerCount: nat, run: Run, k: nat, v: nat, w: nat)
    requires WellFormed(plans) && IsRun(plans, stopOnFirstFailure, workerCount, run) && k < |run.states|
    requires v < w < |run.states[k].workers| && run.states[k].workers[v].Running? && run.states[k].workers[w].Running?
    ensures SystemOf(plans, run.states[k].workers[v].group) != SystemOf(plans, run.states[k].workers[w].group)
  {
    RunKeepsInv(plans, stopOnFirstFailure, workerCount, run, k);
    hide WellFormed, FailedExact, Counts, QueueExact, Ordered;
    assert BusyExact(plans, run.states[k].shared);
  }

  /** path follows plan edges. */
  ghost predicate Path(plans: seq<TaskGroupPlan>, path: seq<nat>) {
    |path| > 0 && forall k :: 0 <= k < |path| - 1 ==> Edge(plans, path[k], path[k + 1])
  }

  lemma {:induction false} AncestorsSucceeded(plans: seq<TaskGroupPlan>, sh: Shared, path: seq<nat>)
    requires Sized(plans, sh) && Ordered(plans, sh) && Path(plans, path) && |path| > 1
    requires path[|path| - 1] < |plans| && sh.started[path[|path| - 1]]
    ensures path[0] < |plans| && sh.completed[path[0]] && !Bad(sh, path[0])
  {
    var n := |path|;
    assert Edge(plans, path[n - 2], path[n - 1]);
    if n > 2 {
      AncestorsSucceeded(plans, sh, path[..n - 1]);
    }
  }

  /** No descendant of a failed group is ever started. */
  lemma NothingAfterFailure(plans: seq<TaskGroupPlan>, stopOnFirstFailure: bool, workerCount: nat, run: Run, k: nat, path: seq<nat>)
    requires WellFormed(plans) && IsRun(plans, stopOnFirstFailure, workerCount, run) && k < |run.states|
    requires Path(plans, path) && |path| > 1 && Bad(run.states[k].shared, path[0])
    ensures !Started(run.states[k], path[|path| - 1])
  {
    RunKeepsInv(plans, stopOnFirstFailure, workerCount, run, k);
    var sh := run.states[k].shared;
    assert Sized(plans, sh) && Ordered(plans, sh);
    hide Inv, WellFormed, Ordered, Path;
    if Started(run.states[k], path[|path| - 1]) {
      AncestorsSucceeded(plans, sh, path);
    }
  }

  // ----------------------------------------------------- stopOnFirstFailure

  lemma StepKeepsStop(plans: seq<TaskGroupPlan>, stopOnFirstFailure: bool, s: State, step: Step)
    requires Enabled(plans, s, step) && s.shared.stop
    ensures Next(plans, stopOnFirstFailure, s, step).shared.stop
  {
    hide FirstFree, Live, Filter, HasFailure;
  }

  lemma {:induction false} StopStays(plans: seq<TaskGroupPlan>, stopOnFirstFailure: bool, workerCount: nat, run: Run, p: nat, q: nat)
    requires IsRun(plans, stopOnFirstFailure, workerCount, run) && p <= q < |run.states| && run.states[p].shared.stop
    ensures run.states[q].shared.stop
  {
    if p < q {
      StopStays(plans, stopOnFirstFailure, workerCount, run, p, q - 1);
      assert StepOf(plans, stopOnFirstFailure, run.states[q - 1], run.steps[q - 1], run.states[q]);
      StepKeepsStop(plans, stopOnFirstFailure, run.states[q - 1], run.steps[q - 1]);
    }
  }

  lemma StoppedStartsNothing(plans: seq<TaskGroupPlan>, s: State, step: Step, i: nat)
    requires s.shared.stop
    ensures !Starts(plans, s, step, i)
  {
  }

  /** Under stopOnFirstFailure no step after the completion of a failed group starts a group. */
  lemma NothingStartsAfterFailure(plans: seq<TaskGroupPlan>, workerCount: nat, run: Run, p: nat, q: nat, i: nat)
    requires IsRun(plans, true, workerCount, run) && p < q < |run.steps|
    requires run.steps[p].Finish? && HasFailure(run.steps[p].records)
    ensures !Starts(plans, run.states[q], run.steps[q], i)
  {
    assert StepOf(plans, true, run.states[p], run.steps[p], run.states[p + 1]);
    assert run.states[p + 1].shared.stop by {
      hide Filter, HasFailure, Marked, Decremented, Wakes;
    }
    hide Starts, StepOf, HasFailure;
    StopStays(plans, true, workerCount, run, p + 1, q);
    StoppedStartsNothing(plans, run.states[q], run.steps[q], i);
  }

  // ------------------------------------------------------------ termination

  ghost function GroupWork(sh: Shared): nat {
    3 * multiset(sh.started)[false] + 2 * sh.running
  }

  ghost function Work(s: State): nat {
    GroupWork(s.shared) + multiset(s.workers)[Announcing]
  }

  /** Drops with every step that is not a spurious wake-up. */
  ghost function Measure(s: State): nat {
    Work(s) * (|s.workers| + 1) + multiset(s.workers)[Seeking]
  }

  lemma OccurrencesBounded<T>(s: seq<T>, x: T)
    ensures multiset(s)[x] <= |s|
  {
    assert multiset(s)[x] <= |multiset(s)|;
  }

  lemma {:induction false} SameOccurrences<T>(a: seq<T>, b: seq<T>, x: T)
    requires |a| == |b| && forall k :: 0 <= k < |a| ==> (a[k] == x <==> b[k] == x)
    ensures multiset(a)[x] == multiset(b)[x]
  {
    if a != [] {
      var n := |a| - 1;
      SameOccurrences(a[..n], b[..n], x);
      assert a == a[..n] + [a[n]] && b == b[..n] + [b[n]];
    }
  }

  lemma LessWork(before: State, after: State)
    requires Work(after) < Work(before) && |after.workers| == |before.workers|
    ensures Measure(after) < Measure(before)
  {
    OccurrencesBounded(after.workers, Seeking);
    LessProduct(Work(after), Work(before), |before.workers| + 1);
    hide Work;
  }

  lemma LessProduct(a: nat, b: nat, w: nat)
    requires a < b
    ensures a * w + w <= b * w
  {
    assert (a + 1) * w <= b * w;
  }

  lemma UpdateOccurrences<T>(s: seq<T>, w: nat, y: T, x: T)
    requires w < |s|
    ensures multiset(s[w := y])[x] == multiset(s)[x] - (if s[w] == x then 1 else 0) + (if y == x then 1 else 0)
  {
  }

  lemma PickWork(plans: seq<TaskGroupPlan>, sh: Shared)
    requires Sized(plans, sh) && QueueExact(plans, sh) && BusyExact(plans, sh) && sh.running == |Active(sh)|
    ensures var (verdict, after) := Pick(plans, sh);
            GroupWork(after) == if verdict.Take? then GroupWork(sh) - 1 else GroupWork(sh)
  {
    PickShape(plans, sh);
    var (verdict, after) := Pick(plans, sh);
    hide Pick, FirstFree, QueueExact, BusyExact, Active;
    if verdict.Take? {
      UpdateOccurrences(sh.started, verdict.group, true, false);
    }
  }

  lemma SeatedDecreases(s: State, w: nat, sh: Shared, y: Worker)
    requires w < |s.workers| && s.workers[w].Seeking? && !y.Seeking? && !y.Announcing?
    requires GroupWork(sh) <= GroupWork(s.shared)
    ensures Measure(State(sh, s.workers[w := y])) < Measure(s)
  {
    UpdateOccurrences(s.workers, w, y, Seeking);
    UpdateOccurrences(s.workers, w, y, Announcing);
    hide GroupWork;
    var after := State(sh, s.workers[w := y]);
    if GroupWork(sh) < GroupWork(s.shared) {
      LessWork(s, after);
    }
  }

  lemma SeekDecreases(plans: seq<TaskGroupPlan>, stopOnFirstFailure: bool, s: State, w: nat)
    requires Inv(plans, stopOnFirstFailure, s) && Enabled(plans, s, Seek(w))
    ensures Measure(Next(plans, stopOnFirstFailure, s, Seek(w))) < Measure(s)
  {
    PickWork(plans, s.shared);
    hide Pick, Inv, Measure, GroupWork;
    SeatedDecreases(s, w, Pick(plans, s.shared).1, Seated(Pick(plans, s.shared).0));
  }

  lemma FinishDecreases(plans: seq<TaskGroupPlan>, stopOnFirstFailure: bool, s: State, w: nat, records: seq<Record>)
    requires Inv(plans, stopOnFirstFailure, s) && Enabled(plans, s, Finish(w, records))
    ensures Measure(Next(plans, stopOnFirstFailure, s, Finish(w, records))) < Measure(s)
  {
    var i := s.workers[w].group;
    assert s.shared.running > 0 by {
      assert InFlight(s.shared, i);
      assert i in Active(s.shared);
    }
    hide Inv;
    LessWork(s, Next(plans, stopOnFirstFailure, s, Finish(w, records)));
  }

  lemma AnnounceDecreases(plans: seq<TaskGroupPlan>, stopOnFirstFailure: bool, s: State, w: nat)
    requires Enabled(plans, s, Announce(w))
    ensures Measure(Next(plans, stopOnFirstFailure, s, Announce(w))) < Measure(s)
  {
    var after := Next(plans, stopOnFirstFailure, s, Announce(w));
    SameOccurrences(s.workers[w := Seeking], after.workers, Announcing);
    assert multiset(s.workers[w := Seeking])[Announcing] == multiset(s.workers)[Announcing] - 1;
    LessWork(s, after);
  }

  lemma StepDecreases(plans: seq<TaskGroupPlan>, stopOnFirstFailure: bool, s: State, step: Step)
    requires Inv(plans, stopOnFirstFailure, s) && Enabled(plans, s, step)
    ensures !step.Wake? ==> Measure(Next(plans, stopOnFirstFailure, s, step)) < Measure(s)
    ensures step.Wake? ==> Measure(Next(plans, stopOnFirstFailure, s, step)) == Measure(s) + 1
  {
    hide Inv;
    match step
    case Seek(w) => SeekDecreases(plans, stopOnFirstFailure, s, w);
    case Finish(w, records) => FinishDecreases(plans, stopOnFirstFailure, s, w, records);
    case Announce(w) => AnnounceDecreases(plans, stopOnFirstFailure, s, w);
    case Wake(w) =>
  }

  function WakeUps(steps: seq<Step>): nat {
    if steps == [] then 0 else WakeUps(steps[..|steps| - 1]) + (if steps[|steps| - 1].Wake? then 1 else 0)
  }

  lemma {:induction false} RunIsBounded(plans: seq<TaskGroupPlan>, stopOnFirstFailure: bool, workerCount: nat, run: Run, k: nat)
    requires WellFormed(plans) && IsRun(plans, stopOnFirstFailure, workerCount, run) && k <= |run.steps|
    ensures k + Measure(run.states[k]) <= Measure(Start(plans, workerCount)) + 2 * WakeUps(run.steps[..k])
  {
    hide Inv, WellFormed, Measure;
    if k > 0 {
      RunIsBounded(plans, stopOnFirstFailure, workerCount, run, k - 1);
      RunKeepsInv(plans, stopOnFirstFailure, workerCount, run, k - 1);
      assert StepOf(plans, stopOnFirstFailure, run.states[k - 1], run.steps[k - 1], run.states[k]);
      StepDecreases(plans, stopOnFirstFailure, run.states[k - 1], run.steps[k - 1]);
      assert run.steps[..k][..k - 1] == run.steps[..k - 1];
    }
  }

  /** Every run ends: its length is bounded by the plan, the workers and the spurious wake-ups. */
  lemma EveryRunTerminates(plans: seq<TaskGroupPlan>, stopOnFirstFailure: bool, workerCount: nat, run: Run)
    requires WellFormed(plans) && IsRun(plans, stopOnFirstFailure, workerCount, run)
    ensures |run.steps| <= 3 * |plans| * (workerCount + 1) + workerCount + 2 * WakeUps(run.steps)
  {
    RunIsBounded(plans, stopOnFirstFailure, workerCount, run, |run.steps|);
    assert run.steps[..|run.steps|] == run.steps;
    StartMeasure(plans, workerCount);
  }

  lemma StartMeasure(plans: seq<TaskGroupPlan>, workerCount: nat)
    ensures Measure(Start(plans, workerCount)) <= 3 * |plans| * (workerCount + 1) + workerCount
  {
    var start := Start(plans, workerCount);
    OccurrencesBounded(start.shared.started, false);
    OccurrencesBounded(start.workers, Seeking);
    assert multiset(start.workers)[Announcing] == 0;
    assert Work(start) <= 3 * |plans|;
    assert Work(start) * (workerCount + 1) <= 3 * |plans| * (workerCount + 1);
  }
}
