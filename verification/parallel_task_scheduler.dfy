// The scheduler in its own form: the state under the mutex is an object that the
// critical sections update in place, and the two ways of running a plan are loops.
module ParallelTaskScheduler {
  import opened Sequences
  import opened TaskPlans
  import opened Scheduler
  import opened SchedulerSafety
  import opened SchedulerWorkers
  import opened SchedulerRuns
  import opened SchedulerRefinement
  import opened SchedulerLaunches
  import opened TaskRunner
  import opened ExecutorTransactions
  import opened TransactionStore

  class ParallelExecutionState {
    const plans: seq<TaskGroupPlan>
    const stopOnFirstFailure: bool
    var readyIndices: seq<nat>
    var busySystems: set<string>
    var pendingDependencies: seq<nat>
    var started: seq<bool>
    var completed: seq<bool>
    var failed: seq<bool>
    var stopLaunching: bool
    var runningWorkers: nat
    var resultSlots: seq<seq<Record>>

    ghost function Value(): Shared
      reads this
    {
      Shared(readyIndices, busySystems, pendingDependencies, started, completed, failed, stopLaunching,
             runningWorkers, resultSlots)
    }

    constructor (plans: seq<TaskGroupPlan>, stopOnFirstFailure: bool)
      ensures this.plans == plans && this.stopOnFirstFailure == stopOnFirstFailure
      ensures Value() == Initial(plans)
    {
      this.plans := plans;
      this.stopOnFirstFailure := stopOnFirstFailure;
      busySystems := {};
      started := Fill(|plans|, false);
      completed := Fill(|plans|, false);
      failed := Fill(|plans|, false);
      stopLaunching := false;
      runningWorkers := 0;
      resultSlots := Fill(|plans|, []);
      pendingDependencies := [];
      readyIndices := [];
      new;
      FillCounters();
      FillQueue();
    }

    method FillCounters()
      requires pendingDependencies == []
      modifies `pendingDependencies
      ensures pendingDependencies == InitialPending(plans)
    {
      for index := 0 to |plans|
        invariant pendingDependencies == InitialPending(plans)[..index]
      {
        pendingDependencies := pendingDependencies + [plans[index].pendingDependencies];
      }
    }

    method FillQueue()
      requires pendingDependencies == InitialPending(plans) && readyIndices == []
      modifies `readyIndices
      ensures readyIndices == Initial(plans).ready
    {
      ghost var n := |plans|;
      ghost var keep := (i: nat) => i < n && plans[i].pendingDependencies == 0;
      for index := 0 to |plans|
        invariant readyIndices == Filter(keep, Indices(|plans|)[..index])
      {
        assert Indices(|plans|)[..index + 1][..index] == Indices(|plans|)[..index];
        if pendingDependencies[index] == 0 {
          readyIndices := readyIndices + [index];
        }
      }
      assert Indices(|plans|)[..|plans|] == Indices(|plans|);
    }

    /** A worker looking for work while it holds the lock (the body of the inner endless loop). */
    method TryPick() returns (verdict: Verdict)
      requires Sized(plans, Value())
      modifies this
      ensures (verdict, Value()) == Pick(plans, old(Value()))
    {
      if stopLaunching || (readyIndices == [] && runningWorkers == 0) {
        return Leave;
      }
      ghost var before := Value();
      NothingAttempted();
      hide Attempted, Sized, Pick;
      var readyCount := |readyIndices|;
      for attempt := 0 to readyCount
        invariant Attempted(before, attempt)
      {
        var taken := TryCandidate(before, attempt);
        if taken.Some? {
          return Take(taken.value);
        }
      }
      AllAttempted(before);
      verdict := if runningWorkers == 0 then Leave else Sleep;
    }

    /** The first entries of the queue were met, and none of them could be launched. */
    ghost predicate Attempted(before: Shared, attempt: nat)
      reads this
    {
      && attempt <= |before.ready| && Value() == before.(ready := Rotated(before, before.ready, attempt))
      && forall j :: 0 <= j < attempt ==> Blocked(plans, before, before.ready[j])
    }

    lemma NothingAttempted()
      ensures Attempted(Value(), 0)
    {
      NothingRotated(Value(), readyIndices);
      hide Rotated, Blocked;
    }

    lemma AllAttempted(before: Shared)
      requires Sized(plans, before) && !before.stop && !(before.ready == [] && before.running == 0)
      requires Attempted(before, |before.ready|)
      ensures Pick(plans, before) == (if runningWorkers == 0 then Leave else Sleep, Value())
    {
      PickNone(plans, before);
      hide Pick, Rotated, Blocked;
    }

    /** One attempt: the candidate at the front is dropped, sent behind the others, or launched. */
    method TryCandidate(ghost before: Shared, ghost attempt: nat) returns (taken: Option<nat>)
      requires Sized(plans, before) && !before.stop && attempt < |before.ready| && Attempted(before, attempt)
      modifies this
      ensures taken.None? ==> Attempted(before, attempt + 1)
      ensures taken.Some? ==> (Take(taken.value), Value()) == Pick(plans, before)
    {
      hide Pick, Live, FirstFree, Rotated;
      RotateOnce(before, before.ready, attempt);
      var candidate := readyIndices[0];
      assert candidate == before.ready[attempt] && candidate in before.ready;
      readyIndices := readyIndices[1..];
      if started[candidate] || failed[candidate] || pendingDependencies[candidate] != 0 {
        return None;
      }
      var system := plans[candidate].taskGroup.system;
      if system in busySystems {
        readyIndices := readyIndices + [candidate];
        return None;
      }
      PickAt(plans, before, attempt);
      Launch(candidate, system);
      return Some(candidate);
    }

    method Launch(candidate: nat, system: string)
      requires candidate < |started|
      modifies `started, `busySystems, `runningWorkers
      ensures started == old(started)[candidate := true] && busySystems == old(busySystems) + {system}
      ensures runningWorkers == old(runningWorkers) + 1
    {
      started := started[candidate := true];
      busySystems := busySystems + {system};
      runningWorkers := runningWorkers + 1;
    }

    /** A worker reporting the records of the group it executed, under the lock. */
    method CompleteGroup(index: nat, groupRecords: seq<Record>)
      requires Sized(plans, Value()) && index < |plans| && WellFormed(plans)
      modifies this
      ensures Value() == Complete(plans, stopOnFirstFailure, old(Value()), index, groupRecords)
    {
      var bad := HasFailure(groupRecords);
      var next := plans[index].successors;
      SuccessorsInRange(plans, index);
      assert Distinct(next);
      ghost var before := Value();
      CompleteIs(plans, stopOnFirstFailure, before, index, groupRecords);
      hide WellFormed, HasFailure, Wakes, Decremented, Marked, Filter, Distinct, Complete, Sized;
      StoreResult(index, groupRecords);
      SettleSuccessors(index, next, bad);
      Release(bad);
    }

    /** resultSlots, completed and busySystems of a completion. */
    method StoreResult(index: nat, groupRecords: seq<Record>)
      requires index < |resultSlots| == |completed| == |plans|
      modifies `resultSlots, `completed, `busySystems
      ensures resultSlots == old(resultSlots)[index := groupRecords] && completed == old(completed)[index := true]
      ensures busySystems == old(busySystems) - {plans[index].taskGroup.system}
    {
      resultSlots := resultSlots[index := groupRecords];
      completed := completed[index := true];
      busySystems := busySystems - {plans[index].taskGroup.system};
    }

    /** stopLaunching and runningWorkers of a completion. */
    method Release(bad: bool)
      modifies `stopLaunching, `runningWorkers
      ensures stopLaunching == (old(stopLaunching) || (bad && stopOnFirstFailure))
      ensures runningWorkers == if old(runningWorkers) > 0 then old(runningWorkers) - 1 else 0
    {
      if bad && stopOnFirstFailure {
        stopLaunching := true;
      }
      if runningWorkers > 0 {
        runningWorkers := runningWorkers - 1;
      }
    }

    /** The visit of one successor. */
    method SettleSuccessor(successor: nat, bad: bool)
      requires successor < |failed| == |pendingDependencies| == |started| == |completed|
      modifies `failed, `pendingDependencies, `readyIndices
      ensures pendingDependencies ==
              old(pendingDependencies)[successor := if old(pendingDependencies)[successor] > 0 then old(pendingDependencies)[successor] - 1 else 0]
      ensures failed == old(failed)[successor := old(failed)[successor] || bad]
      ensures readyIndices == old(readyIndices) +
              if pendingDependencies[successor] == 0 && !started[successor] && !completed[successor] && !failed[successor] then [successor] else []
    {
      if pendingDependencies[successor] > 0 {
        pendingDependencies := pendingDependencies[successor := pendingDependencies[successor] - 1];
      }
      if bad {
        failed := failed[successor := true];
      }
      if pendingDependencies[successor] == 0 && !started[successor] && !completed[successor] && !failed[successor] {
        readyIndices := readyIndices + [successor];
      }
    }

    /** The completed group and the first k of its successors have been settled. */
    ghost predicate SettledTo(pending0: seq<nat>, failed0: seq<bool>, ready0: seq<nat>, next: seq<nat>, k: nat, index: nat, bad: bool)
      reads this
    {
      && |pendingDependencies| == |started| == |completed| == |failed| == |failed0| == |pending0| && k <= |next|
      && pendingDependencies == Decremented(pending0, next[..k]) && failed == Marked(failed0, next[..k], index, bad)
      && readyIndices == ready0 + Filter(Wakes(Decremented(pending0, next), started, completed, Marked(failed0, next, index, bad)), next[..k])
    }

    method SettleNext(ghost pending0: seq<nat>, ghost failed0: seq<bool>, ghost ready0: seq<nat>, next: seq<nat>, k: nat, index: nat, bad: bool)
      requires SettledTo(pending0, failed0, ready0, next, k, index, bad) && k < |next|
      requires Distinct(next) && next[k] < |failed| && next[k] != index
      modifies `failed, `pendingDependencies, `readyIndices
      ensures SettledTo(pending0, failed0, ready0, next, k + 1, index, bad)
    {
      hide Wakes, Decremented, Marked, Distinct, Filter;
      SettleStep(pending0, failed0, started, completed, next, k, index, bad);
      SettleSuccessor(next[k], bad);
    }

    /** failed[index] and the loop over the successors of the completed group. */
    method SettleSuccessors(index: nat, next: seq<nat>, bad: bool)
      requires |pendingDependencies| == |started| == |completed| == |failed| && index < |failed|
      requires Distinct(next) && forall t :: t in next ==> t < |failed| && t != index
      modifies `failed, `pendingDependencies, `readyIndices
      ensures pendingDependencies == Decremented(old(pendingDependencies), next)
      ensures failed == Marked(old(failed), next, index, bad)
      ensures readyIndices == old(readyIndices) + Filter(Wakes(pendingDependencies, started, completed, failed), next)
    {
      ghost var pending0, failed0, ready0 := pendingDependencies, failed, readyIndices;
      NothingSettled(pending0, failed0, index, bad);
      FilterNothing(Wakes(Decremented(pending0, next), started, completed, Marked(failed0, next, index, bad)), next);
      hide Wakes, Decremented, Marked, Distinct, Filter;
      failed := failed[index := bad];
      assert next[..0] == [];
      for k := 0 to |next|
        invariant |failed| == |failed0| && SettledTo(pending0, failed0, ready0, next, k, index, bad)
      {
        hide SettledTo;
        assert next[k] in next;
        SettleNext(pending0, failed0, ready0, next, k, index, bad);
        assert |failed| == |failed0| by { SettledLength(pending0, failed0, ready0, next, k + 1, index, bad); }
      }
      assert next[..|next|] == next;
    }

    lemma SettledLength(pending0: seq<nat>, failed0: seq<bool>, ready0: seq<nat>, next: seq<nat>, k: nat, index: nat, bad: bool)
      requires SettledTo(pending0, failed0, ready0, next, k, index, bad)
      ensures |failed| == |failed0|
    {
    }
  }

  lemma CompleteIs(plans: seq<TaskGroupPlan>, stopOnFirstFailure: bool, sh: Shared, i: nat, records: seq<Record>)
    requires Sized(plans, sh) && i < |plans|
    ensures var bad, next := HasFailure(records), plans[i].successors;
            var pending, completed, failed := Decremented(sh.pending, next), sh.completed[i := true], Marked(sh.failed, next, i, bad);
            Complete(plans, stopOnFirstFailure, sh, i, records) ==
            Shared(sh.ready + Filter(Wakes(pending, sh.started, completed, failed), next), sh.busy - {plans[i].taskGroup.system}, pending,
                   sh.started, completed, failed, sh.stop || (bad && stopOnFirstFailure), if sh.running > 0 then sh.running - 1 else 0,
                   sh.slots[i := records])
  {
    hide HasFailure, Decremented, Marked, Filter, Wakes;
  }

  lemma FilterNothing(keep: nat -> bool, next: seq<nat>)
    ensures Filter(keep, next[..0]) == []
  {
  }

  lemma NothingSettled(pending: seq<nat>, failed: seq<bool>, index: nat, bad: bool)
    requires index < |failed|
    ensures Decremented(pending, []) == pending && Marked(failed, [], index, bad) == failed[index := bad]
  {
  }

  /** One successor more: what its visit changes, and that later visits leave it alone. */
  lemma SettleStep(pending: seq<nat>, failed: seq<bool>, started: seq<bool>, completed: seq<bool>, next: seq<nat>, k: nat, index: nat, bad: bool)
    requires k < |next| && Distinct(next) && next[k] < |pending| == |failed| == |started| == |completed| && next[k] != index
    ensures var s, before, after := next[k], Decremented(pending, next[..k]), Decremented(pending, next[..k + 1]);
            && after == before[s := if before[s] > 0 then before[s] - 1 else 0] && after[s] == Decremented(pending, next)[s]
    ensures var s, before, after := next[k], Marked(failed, next[..k], index, bad), Marked(failed, next[..k + 1], index, bad);
            && after == before[s := before[s] || bad] && after[s] == Marked(failed, next, index, bad)[s]
    ensures var keep := Wakes(Decremented(pending, next), started, completed, Marked(failed, next, index, bad));
            var s, p, f := next[k], Decremented(pending, next[..k + 1]), Marked(failed, next[..k + 1], index, bad);
            && Filter(keep, next[..k + 1]) == Filter(keep, next[..k]) + (if keep(s) then [s] else [])
            && (keep(s) <==> p[s] == 0 && !started[s] && !completed[s] && !f[s])
  {
    assert next[..k + 1] == next[..k] + [next[k]];
    assert next[..k + 1][..k] == next[..k];
    assert next[k] in next && next[k] !in next[..k];
    hide Distinct;
  }

  /** The queue after its first k entries have been met and none of them taken. */
  ghost function Rotated(sh: Shared, queue: seq<nat>, k: nat): seq<nat>
    requires k <= |queue|
  {
    queue[k..] + Live(sh, queue[..k])
  }

  lemma NothingRotated(sh: Shared, queue: seq<nat>)
    ensures Rotated(sh, queue, 0) == queue
  {
  }

  lemma RotateOnce(sh: Shared, queue: seq<nat>, k: nat)
    requires k < |queue|
    ensures Rotated(sh, queue, k) != [] && Rotated(sh, queue, k)[0] == queue[k]
    ensures Rotated(sh, queue, k)[1..] == queue[k + 1..] + Live(sh, queue[..k])
    ensures Rotated(sh, queue, k + 1) == Rotated(sh, queue, k)[1..] + (if Stale(sh, queue[k]) then [] else [queue[k]])
  {
    assert queue[..k + 1][..k] == queue[..k];
  }

  lemma PickAt(plans: seq<TaskGroupPlan>, sh: Shared, k: nat)
    requires Sized(plans, sh) && !sh.stop && k < |sh.ready| && !Blocked(plans, sh, sh.ready[k])
    requires forall j :: 0 <= j < k ==> Blocked(plans, sh, sh.ready[j])
    ensures sh.ready[k] < |plans|
    ensures Pick(plans, sh) ==
            (Take(sh.ready[k]), sh.(ready := Rotated(sh, sh.ready, k)[1..], started := sh.started[sh.ready[k] := true],
                                    busy := sh.busy + {SystemOf(plans, sh.ready[k])}, running := sh.running + 1))
  {
    FirstFreeIs(plans, sh, sh.ready, k);
    RotateOnce(sh, sh.ready, k);
    assert sh.ready[k] in sh.ready;
    hide Live, FirstFree;
  }

  lemma PickNone(plans: seq<TaskGroupPlan>, sh: Shared)
    requires Sized(plans, sh) && !sh.stop && !(sh.ready == [] && sh.running == 0)
    requires forall j :: 0 <= j < |sh.ready| ==> Blocked(plans, sh, sh.ready[j])
    ensures Pick(plans, sh) == (if sh.running == 0 then Leave else Sleep, sh.(ready := Rotated(sh, sh.ready, |sh.ready|)))
  {
    FirstFreeIs(plans, sh, sh.ready, |sh.ready|);
    assert sh.ready[..|sh.ready|] == sh.ready;
    assert Rotated(sh, sh.ready, |sh.ready|) == Live(sh, sh.ready);
    hide Live, FirstFree;
  }

  lemma {:induction false} FirstFreeIs(plans: seq<TaskGroupPlan>, sh: Shared, queue: seq<nat>, k: nat)
    requires k <= |queue| && forall j :: 0 <= j < k ==> Blocked(plans, sh, queue[j])
    requires k < |queue| ==> !Blocked(plans, sh, queue[k])
    ensures FirstFree(plans, sh, queue) == k
  {
    if k > 0 {
      FirstFreeIs(plans, sh, queue[1..], k - 1);
    }
  }

  // ------------------------------------------------------- sequential loop

  /** The groups below n that ran, in the sequential loop. */
  ghost function RanBelow(plans: seq<TaskGroupPlan>, exec: Outcome, n: nat): set<nat> {
    set s | s in Below(n) && RunsInOrder(plans, exec, s)
  }

  /** Among the groups below n that ran, a predecessor of i failed. */
  ghost predicate BlockedAt(plans: seq<TaskGroupPlan>, exec: Outcome, n: nat, i: nat) {
    exists s: nat :: s < n && RunsInOrder(plans, exec, s) && Edge(plans, s, i) && HasFailure(exec(s))
  }

  ghost predicate BlockedExact(plans: seq<TaskGroupPlan>, exec: Outcome, n: nat, blocked: seq<bool>) {
    && |blocked| == |plans|
    && forall i :: 0 <= i < |plans| ==> (blocked[i] <==> BlockedAt(plans, exec, n, i))
  }

  lemma ReadyIsInOrder(plans: seq<TaskGroupPlan>, exec: Outcome, i: nat, pending: seq<nat>, blocked: seq<bool>)
    requires i < |plans| && Counts(plans, RanBelow(plans, exec, i), pending) && BlockedExact(plans, exec, i, blocked)
    ensures !blocked[i] && pending[i] == 0 <==> RunsInOrder(plans, exec, i)
  {
    NonePending(plans, RanBelow(plans, exec, i), pending, i);
    hide Counts;
  }

  lemma SkipKeepsRan(plans: seq<TaskGroupPlan>, exec: Outcome, i: nat)
    ensures RunsInOrder(plans, exec, i) ==> RanBelow(plans, exec, i + 1) == RanBelow(plans, exec, i) + {i} && i !in RanBelow(plans, exec, i)
    ensures !RunsInOrder(plans, exec, i) ==> RanBelow(plans, exec, i + 1) == RanBelow(plans, exec, i)
  {
  }

  lemma {:induction false} RecordsCutOff(runs: nat -> bool, exec: Outcome, m: nat, n: nat)
    requires m <= n && forall i: nat :: m <= i < n ==> !runs(i)
    ensures RecordsOf(runs, exec, n) == RecordsOf(runs, exec, m)
  {
    if m < n {
      RecordsCutOff(runs, exec, m, n - 1);
    }
  }

  lemma NoRecords(runs: nat -> bool, exec: Outcome)
    ensures RecordsOf(runs, exec, 0) == []
  {
  }

  lemma RecordsStep(runs: nat -> bool, exec: Outcome, n: nat)
    ensures RecordsOf(runs, exec, n + 1) == RecordsOf(runs, exec, n) + if runs(n) then exec(n) else []
  {
  }

  /** The state of the sequential loop before it visits group n. */
  ghost predicate LoopInv(plans: seq<TaskGroupPlan>, exec: Outcome, stopOnFirstFailure: bool, n: nat, pending: seq<nat>, blocked: seq<bool>) {
    && Counts(plans, RanBelow(plans, exec, n), pending)
    && BlockedExact(plans, exec, n, blocked)
    && Visited(plans, exec, stopOnFirstFailure, n)
  }

  lemma LoopStart(plans: seq<TaskGroupPlan>, exec: Outcome, stopOnFirstFailure: bool)
    requires WellFormed(plans)
    ensures LoopInv(plans, exec, stopOnFirstFailure, 0, InitialPending(plans), Fill(|plans|, false))
  {
    CountsInitially(plans);
    assert RanBelow(plans, exec, 0) == {};
    hide Counts, WellFormed;
  }

  lemma VisitedRuns(plans: seq<TaskGroupPlan>, exec: Outcome, stopOnFirstFailure: bool, n: nat)
    requires Visited(plans, exec, stopOnFirstFailure, n)
    ensures SequentialRuns(plans, exec, stopOnFirstFailure)(n) <==> RunsInOrder(plans, exec, n)
  {
    hide Visited;
  }

  lemma LoopSkip(plans: seq<TaskGroupPlan>, exec: Outcome, stopOnFirstFailure: bool, n: nat, pending: seq<nat>, blocked: seq<bool>)
    requires n < |plans| && LoopInv(plans, exec, stopOnFirstFailure, n, pending, blocked)
    ensures !blocked[n] && pending[n] == 0 <==> RunsInOrder(plans, exec, n)
    ensures SequentialRuns(plans, exec, stopOnFirstFailure)(n) <==> RunsInOrder(plans, exec, n)
    ensures !RunsInOrder(plans, exec, n) ==> LoopInv(plans, exec, stopOnFirstFailure, n + 1, pending, blocked)
  {
    ReadyIsInOrder(plans, exec, n, pending, blocked);
    SkipKeepsRan(plans, exec, n);
    VisitedRuns(plans, exec, stopOnFirstFailure, n);
    hide Counts, RanBelow, SequentialRuns, BlockedExact;
    if !RunsInOrder(plans, exec, n) {
      SkippedBlocks(plans, exec, n, blocked);
    }
  }

  lemma LoopVisit(plans: seq<TaskGroupPlan>, exec: Outcome, stopOnFirstFailure: bool, n: nat, pending: seq<nat>, blocked: seq<bool>, blocked': seq<bool>)
    requires WellFormed(plans) && n < |plans| && LoopInv(plans, exec, stopOnFirstFailure, n, pending, blocked)
    requires RunsInOrder(plans, exec, n) && |blocked'| == |blocked|
    requires forall t :: 0 <= t < |blocked| ==> blocked'[t] == (blocked[t] || (t in plans[n].successors && HasFailure(exec(n))))
    ensures !(stopOnFirstFailure && HasFailure(exec(n))) ==>
              LoopInv(plans, exec, stopOnFirstFailure, n + 1, Decremented(pending, plans[n].successors), blocked')
    ensures stopOnFirstFailure && HasFailure(exec(n)) ==>
              forall i: nat :: n < i ==> !SequentialRuns(plans, exec, stopOnFirstFailure)(i)
  {
    SkipKeepsRan(plans, exec, n);
    hide RanBelow;
    CountsStep(plans, RanBelow(plans, exec, n), pending, n);
    hide Counts, WellFormed;
    RanBlocks(plans, exec, n, blocked, blocked');
    hide BlockedExact;
    if stopOnFirstFailure && HasFailure(exec(n)) {
      forall i: nat | n < i ensures !SequentialRuns(plans, exec, stopOnFirstFailure)(i) {
        assert n < i && RunsInOrder(plans, exec, n);
      }
    }
  }

  /** order lists the groups below n that run, in index order. */
  ghost predicate ListsBelow(runs: nat -> bool, n: nat, order: seq<nat>) {
    && (forall j, k :: 0 <= j < k < |order| ==> order[j] < order[k])
    && (forall i: nat :: i in order <==> i < n && runs(i))
  }

  lemma ListsMore(runs: nat -> bool, n: nat, order: seq<nat>)
    requires ListsBelow(runs, n, order)
    ensures ListsBelow(runs, n + 1, if runs(n) then order + [n] else order)
  {
    forall k | 0 <= k < |order| ensures order[k] < n {
      assert order[k] in order;
    }
  }

  lemma ListsCutOff(runs: nat -> bool, m: nat, n: nat, order: seq<nat>)
    requires ListsBelow(runs, m, order) && m <= n && forall i: nat :: m <= i ==> !runs(i)
    ensures ListsBelow(runs, n, order)
  {
  }

  /** One group of the loop: it is executed, and its successors are visited. */
  method VisitGroup(runner: Runner, plans: seq<TaskGroupPlan>, stopOnFirstFailure: bool, ghost store: Store, ghost order: seq<nat>, index: nat,
                    pending: seq<nat>, blocked: seq<bool>)
    returns (groupRecords: seq<Record>, bad: bool, pending': seq<nat>, blocked': seq<bool>)
    requires WellFormed(plans) && runner.Valid() && index < |plans| == |pending| == |blocked|
    requires LoopInv(plans, OutcomeIn(runner.Context(), store, plans), stopOnFirstFailure, index, pending, blocked)
    requires RunsInOrder(plans, OutcomeIn(runner.Context(), store, plans), index)
    requires Executed(runner.Context(), plans, store, runner.db.store, order)
    modifies runner.db
    ensures runner.Valid() && (SafeSoFar(runner.db) <==> old(SafeSoFar(runner.db)))
    ensures old(StockedSoFar(runner.stock, runner.db)) ==> StockedSoFar(runner.stock, runner.db)
    ensures Executed(runner.Context(), plans, store, runner.db.store, order + [index])
    ensures |pending'| == |blocked'| == |plans|
    ensures var exec := OutcomeIn(runner.Context(), store, plans);
            && groupRecords == exec(index) && bad == HasFailure(exec(index))
            && (!(stopOnFirstFailure && bad) ==> LoopInv(plans, exec, stopOnFirstFailure, index + 1, pending', blocked'))
            && (stopOnFirstFailure && bad ==> forall i: nat :: index < i ==> !SequentialRuns(plans, exec, stopOnFirstFailure)(i))
  {
    SuccessorsInRange(plans, index);
    assert Distinct(plans[index].successors);
    hide LoopInv, Visited, RunsInOrder, SequentialRuns, RecordsOf, Sound, SafeSoFar, StockedSoFar, Executed, ListsBelow, StatusesGiven, OutcomeIn,
         WellFormed, HasFailure, Distinct;
    groupRecords := runner.ExecutePlanned(plans, store, order, index, plans[index].taskGroup);
    bad := HasFailure(groupRecords);
    pending', blocked' := VisitSuccessors(plans[index].successors, pending, blocked, bad);
    LoopVisit(plans, OutcomeIn(runner.Context(), store, plans), stopOnFirstFailure, index, pending, blocked, blocked');
  }

  /** The loop over the groups in index order. */
  method RunSequential(runner: Runner, plans: seq<TaskGroupPlan>, stopOnFirstFailure: bool) returns (records: seq<Record>, ghost order: seq<nat>)
    requires WellFormed(plans) && runner.Valid()
    modifies runner.db
    ensures runner.Valid() && (SafeSoFar(runner.db) <==> old(SafeSoFar(runner.db)))
    ensures old(StockedSoFar(runner.stock, runner.db)) ==> StockedSoFar(runner.stock, runner.db)
    ensures var exec := OutcomeIn(runner.Context(), old(runner.db.store), plans);
            records == SequentialRecords(plans, exec, stopOnFirstFailure) && ListsBelow(SequentialRuns(plans, exec, stopOnFirstFailure), |plans|, order)
    ensures Executed(runner.Context(), plans, old(runner.db.store), runner.db.store, order)
  {
    hide LoopInv, Visited, RunsInOrder, SequentialRuns, RecordsOf, Sound, SafeSoFar, StockedSoFar, Executed, ListsBelow, StatusesGiven, OutcomeIn,
         HasFailure;
    ghost var store := runner.db.store;
    ghost var exec := OutcomeIn(runner.Context(), store, plans);
    records, order := [], [];
    var pending := InitialPending(plans);
    var blocked := Fill(|plans|, false);
    LoopStart(plans, exec, stopOnFirstFailure);
    ghost var runs := SequentialRuns(plans, exec, stopOnFirstFailure);
    var index := 0;
    NothingListed(runs);
    NothingExecuted(runner.Context(), plans, store);
    assert RecordsOf(runs, exec, 0) == [] by { NoRecords(runs, exec); }
    hide WellFormed;
    while index < |plans|
      invariant 0 <= index <= |plans| == |pending| == |blocked|
      invariant runner.Valid() && (SafeSoFar(runner.db) <==> old(SafeSoFar(runner.db)))
      invariant old(StockedSoFar(runner.stock, runner.db)) ==> StockedSoFar(runner.stock, runner.db)
      invariant LoopInv(plans, exec, stopOnFirstFailure, index, pending, blocked)
      invariant records == RecordsOf(runs, exec, index)
      invariant ListsBelow(runs, index, order) && Executed(runner.Context(), plans, store, runner.db.store, order)
    {
      LoopSkip(plans, exec, stopOnFirstFailure, index, pending, blocked);
      RecordsStep(runs, exec, index);
      ListsMore(runs, index, order);
      if blocked[index] || pending[index] != 0 {
        index := index + 1;
        continue;
      }
      var groupRecords, bad;
      groupRecords, bad, pending, blocked := VisitGroup(runner, plans, stopOnFirstFailure, store, order, index, pending, blocked);
      records, order := records + groupRecords, order + [index];
      index := index + 1;
      if bad && stopOnFirstFailure {
        RecordsCutOff(runs, exec, index, |plans|);
        ListsCutOff(runs, index, |plans|, order);
        return;
      }
    }
  }

  lemma NothingListed(runs: nat -> bool)
    ensures ListsBelow(runs, 0, [])
  {
  }

  lemma BlockedMore(plans: seq<TaskGroupPlan>, exec: Outcome, n: nat, i: nat)
    ensures BlockedAt(plans, exec, n + 1, i) <==>
            BlockedAt(plans, exec, n, i) || (RunsInOrder(plans, exec, n) && Edge(plans, n, i) && HasFailure(exec(n)))
  {
    hide RunsInOrder, Edge, HasFailure;
  }

  lemma SkippedBlocks(plans: seq<TaskGroupPlan>, exec: Outcome, i: nat, blocked: seq<bool>)
    requires BlockedExact(plans, exec, i, blocked) && !RunsInOrder(plans, exec, i)
    ensures BlockedExact(plans, exec, i + 1, blocked)
  {
    hide RunsInOrder, BlockedAt;
    forall t | 0 <= t < |plans| ensures blocked[t] <==> BlockedAt(plans, exec, i + 1, t) {
      BlockedMore(plans, exec, i, t);
    }
  }

  lemma RanBlocks(plans: seq<TaskGroupPlan>, exec: Outcome, i: nat, before: seq<bool>, after: seq<bool>)
    requires BlockedExact(plans, exec, i, before) && RunsInOrder(plans, exec, i) && |after| == |before| && i < |plans|
    requires forall t :: 0 <= t < |before| ==> after[t] == (before[t] || (t in plans[i].successors && HasFailure(exec(i))))
    ensures BlockedExact(plans, exec, i + 1, after)
  {
    hide RunsInOrder, BlockedAt, HasFailure;
    forall t | 0 <= t < |plans| ensures after[t] <==> BlockedAt(plans, exec, i + 1, t) {
      BlockedMore(plans, exec, i, t);
    }
  }

  method VisitSuccessors(next: seq<nat>, pending: seq<nat>, blocked: seq<bool>, bad: bool)
    returns (pending': seq<nat>, blocked': seq<bool>)
    requires Distinct(next) && |pending| == |blocked| && forall t :: t in next ==> t < |pending|
    ensures pending' == Decremented(pending, next)
    ensures |blocked'| == |blocked| && forall t :: 0 <= t < |blocked| ==> blocked'[t] == (blocked[t] || (t in next && bad))
  {
    pending', blocked' := pending, blocked;
    var k := 0;
    while k < |next|
      invariant 0 <= k <= |next| && |pending'| == |pending| && |blocked'| == |blocked|
      invariant forall t :: 0 <= t < |pending| ==>
        pending'[t] == if t in next[..k] && pending[t] > 0 then pending[t] - 1 else pending[t]
      invariant forall t :: 0 <= t < |blocked| ==> blocked'[t] == (blocked[t] || (t in next[..k] && bad))
    {
      var successor := next[k];
      assert next[..k + 1] == next[..k] + [successor];
      assert successor in next && successor !in next[..k];
      if pending'[successor] > 0 {
        pending' := pending'[successor := pending'[successor] - 1];
      }
      if bad {
        blocked' := blocked'[successor := true];
      }
      k := k + 1;
    }
    assert next[..k] == next;
  }

  // ---------------------------------------------------------- worker threads

  /** The workers under way: the groups started so far, and those of them that were executed. */
  ghost predicate Working(x: Execution, plans: seq<TaskGroupPlan>, stopOnFirstFailure: bool, before: Store, after: Store, s: State,
                          order: seq<nat>, done: seq<nat>) {
    && Good(plans, stopOnFirstFailure, OutcomeIn(x, before, plans), s)
    && LaunchOrder(plans, stopOnFirstFailure, s.shared, order)
    && Executed(x, plans, before, after, done)
    && CompletedAre(s.shared, done)
  }

  ghost predicate CompletedAre(sh: Shared, done: seq<nat>) {
    forall i: nat :: i in done <==> i < |sh.completed| && sh.completed[i]
  }

  lemma StartWorks(x: Execution, plans: seq<TaskGroupPlan>, stopOnFirstFailure: bool, s: Store, workerCount: nat)
    requires WellFormed(plans)
    ensures Working(x, plans, stopOnFirstFailure, s, s, Start(plans, workerCount), [], [])
  {
    StartGood(plans, stopOnFirstFailure, workerCount, OutcomeIn(x, s, plans));
    StartLaunches(plans, stopOnFirstFailure, workerCount);
    NothingExecuted(x, plans, s);
    hide Good, LaunchOrder, Executed, WellFormed;
  }

  lemma StepCompletes(plans: seq<TaskGroupPlan>, stopOnFirstFailure: bool, s: State, step: Step, done: seq<nat>)
    requires Enabled(plans, s, step) && CompletedAre(s.shared, done)
    ensures CompletedAre(Next(plans, stopOnFirstFailure, s, step).shared, if step.Finish? then done + [s.workers[step.w].group] else done)
  {
    hide FirstFree, Live, Filter, HasFailure, Decremented, Marked, Wakes, Notified;
  }

  lemma StepWorks(x: Execution, plans: seq<TaskGroupPlan>, stopOnFirstFailure: bool, before: Store, middle: Store, after: Store, s: State,
                  order: seq<nat>, done: seq<nat>, step: Step)
    requires WellFormed(plans) && Working(x, plans, stopOnFirstFailure, before, middle, s, order, done) && Enabled(plans, s, step)
    requires step.Finish? ==> step.records == OutcomeIn(x, before, plans)(s.workers[step.w].group)
                              && Executed(x, plans, before, after, done + [s.workers[step.w].group])
    requires !step.Finish? ==> after == middle
    ensures Working(x, plans, stopOnFirstFailure, before, after, Next(plans, stopOnFirstFailure, s, step), order + Launched(plans, s, step),
                    if step.Finish? then done + [s.workers[step.w].group] else done)
    ensures var next := Next(plans, stopOnFirstFailure, s, step);
            if step.Wake? then Measure(next) == Measure(s) + 1 else Measure(next) < Measure(s)
  {
    assert Follows(OutcomeIn(x, before, plans), s, step);
    assert Inv(plans, stopOnFirstFailure, s);
    hide Inv, OutcomeInv, LaunchOrder, Executed, WellFormed, Measure, Pick, Complete, OutcomeIn, Launched, CompletedAre, Follows;
    StepGood(plans, stopOnFirstFailure, OutcomeIn(x, before, plans), s, step);
    StepKeepsLaunches(plans, stopOnFirstFailure, s, step, order);
    StepCompletes(plans, stopOnFirstFailure, s, step, done);
    hide Good;
  }

  /** What is left when all workers have gone. */
  lemma WorkDone(x: Execution, plans: seq<TaskGroupPlan>, stopOnFirstFailure: bool, before: Store, after: Store, s: State,
                 order: seq<nat>, done: seq<nat>)
    requires Working(x, plans, stopOnFirstFailure, before, after, s, order, done) && AllExited(s)
    ensures Executes(plans, OutcomeIn(x, before, plans), stopOnFirstFailure, order)
    ensures Flatten(s.shared.slots) == RecordsOf(MembersOf(order), OutcomeIn(x, before, plans), |plans|)
    ensures Executed(x, plans, before, after, order)
  {
    FinalLaunches(plans, stopOnFirstFailure, OutcomeIn(x, before, plans), s, order);
    StartedIsCompleted(plans, stopOnFirstFailure, OutcomeIn(x, before, plans), s, order, done);
    hide Good, LaunchOrder, Executed, Executes, CompletedAre, AllExited, MembersOf, RecordsOf;
    ExecutedSame(x, plans, before, after, done, order);
  }

  lemma StartedIsCompleted(plans: seq<TaskGroupPlan>, stopOnFirstFailure: bool, exec: Outcome, s: State, order: seq<nat>, done: seq<nat>)
    requires Good(plans, stopOnFirstFailure, exec, s) && AllExited(s) && LaunchOrder(plans, stopOnFirstFailure, s.shared, order)
    requires CompletedAre(s.shared, done)
    ensures forall i :: i in done <==> i in order
  {
    ExitedIsSettled(plans, stopOnFirstFailure, s);
    assert Ordered(plans, s.shared) && Sized(plans, s.shared) && ListsStarted(s.shared, order);
    hide Good, LaunchOrder, AllExited, Settled, Distinct;
  }

  /** A worker that can move, the waiting ones only by a spurious wake-up. */
  lemma WorkersMove(x: Execution, plans: seq<TaskGroupPlan>, stopOnFirstFailure: bool, before: Store, after: Store, s: State,
                    order: seq<nat>, done: seq<nat>, someone: nat)
    requires Working(x, plans, stopOnFirstFailure, before, after, s, order, done) && someone < |s.workers| && !s.workers[someone].Exited?
    ensures exists v :: 0 <= v < |s.workers| && !s.workers[v].Exited? && !s.workers[v].Waiting?
    ensures Sized(plans, s.shared) && forall w :: 0 <= w < |s.workers| && s.workers[w].Running? ==> s.workers[w].group < |plans|
    ensures Executed(x, plans, before, after, done)
  {
    SomeoneMoves(plans, stopOnFirstFailure, OutcomeIn(x, before, plans), s, someone);
    GoodGroups(plans, stopOnFirstFailure, OutcomeIn(x, before, plans), s);
    hide Good, LaunchOrder, Executed, Sized;
  }

  /** Worker threads over one shared state, interleaved in any order, with any finite number of spurious wake-ups;
      order lists the groups as they were started. */
  method RunWorkers(runner: Runner, plans: seq<TaskGroupPlan>, stopOnFirstFailure: bool, workerCount: nat)
    returns (records: seq<Record>, ghost order: seq<nat>)
    requires WellFormed(plans) && workerCount > 0 && runner.Valid()
    modifies runner.db
    ensures runner.Valid() && (SafeSoFar(runner.db) <==> old(SafeSoFar(runner.db)))
    ensures old(StockedSoFar(runner.stock, runner.db)) ==> StockedSoFar(runner.stock, runner.db)
    ensures var exec := OutcomeIn(runner.Context(), old(runner.db.store), plans);
            Executes(plans, exec, stopOnFirstFailure, order) && records == RecordsOf(MembersOf(order), exec, |plans|)
    ensures Executed(runner.Context(), plans, old(runner.db.store), runner.db.store, order)
  {
    hide Working, WellFormed, Measure, Pick, Complete, Initial, Executed, Executes, MembersOf, RecordsOf, OutcomeIn, Sound, SafeSoFar, StockedSoFar,
         StatusesGiven, LaunchOrder;
    ghost var x, store := runner.Context(), runner.db.store;
    var state := new ParallelExecutionState(plans, stopOnFirstFailure);
    var workers := Fill(workerCount, Seeking);
    var wakeUps: nat := *;
    order := [];
    ghost var done: seq<nat> := [];
    StartWorks(x, plans, stopOnFirstFailure, store, workerCount);
    while exists w :: 0 <= w < |workers| && !workers[w].Exited?
      invariant |workers| == workerCount && state.plans == plans && state.stopOnFirstFailure == stopOnFirstFailure
      invariant runner.Valid() && (SafeSoFar(runner.db) <==> old(SafeSoFar(runner.db)))
      invariant old(StockedSoFar(runner.stock, runner.db)) ==> StockedSoFar(runner.stock, runner.db)
      invariant Working(x, plans, stopOnFirstFailure, store, runner.db.store, State(state.Value(), workers), order, done)
      decreases Measure(State(state.Value(), workers)) + 2 * wakeUps
    {
      ghost var before, middle := State(state.Value(), workers), runner.db.store;
      var someone :| 0 <= someone < |workers| && !workers[someone].Exited?;
      WorkersMove(x, plans, stopOnFirstFailure, store, middle, before, order, done, someone);
      var w :| 0 <= w < |workers| && !workers[w].Exited? && (workers[w].Waiting? ==> wakeUps > 0);
      match workers[w]
      case Seeking =>
        StepWorks(x, plans, stopOnFirstFailure, store, middle, middle, before, order, done, Seek(w));
        order := order + Launched(plans, before, Seek(w));
        var verdict := state.TryPick();
        workers := workers[w := Seated(verdict)];
      case Running(i) =>
        var groupRecords := runner.ExecutePlanned(plans, store, done, i, plans[i].taskGroup);
        StepWorks(x, plans, stopOnFirstFailure, store, middle, runner.db.store, before, order, done, Finish(w, groupRecords));
        assert order + [] == order;
        done := done + [i];
        state.CompleteGroup(i, groupRecords);
        workers := workers[w := Announcing];
      case Announcing =>
        StepWorks(x, plans, stopOnFirstFailure, store, middle, middle, before, order, done, Announce(w));
        assert order + [] == order;
        workers := Notified(workers, w);
      case Waiting =>
        StepWorks(x, plans, stopOnFirstFailure, store, middle, middle, before, order, done, Wake(w));
        assert order + [] == order;
        workers := workers[w := Seeking];
        wakeUps := wakeUps - 1;
      case Exited =>
    }
    WorkDone(x, plans, stopOnFirstFailure, store, runner.db.store, State(state.Value(), workers), order, done);
    records := Concatenate(state.resultSlots);
  }

  method Concatenate(slots: seq<seq<Record>>) returns (records: seq<Record>)
    ensures records == Flatten(slots)
  {
    records := [];
    for k := 0 to |slots|
      invariant records == Flatten(slots[..k])
    {
      assert slots[..k + 1][..k] == slots[..k];
      records := records + slots[k];
    }
    assert slots[..|slots|] == slots;
  }

  /** Where the workers stop for no failure and every edge goes forward, they and the loop run the same groups. */
  lemma WorkersMatchLoop(plans: seq<TaskGroupPlan>, exec: Outcome, order: seq<nat>)
    requires Executes(plans, exec, false, order) && Forward(plans)
    ensures RecordsOf(MembersOf(order), exec, |plans|) == SequentialRecords(plans, exec, false)
  {
    ExecutesAll(plans, exec, false, order);
    hide Executes;
    ForwardMatches(plans, exec);
  }

  predicate RunsSequentially(plans: seq<TaskGroupPlan>, hasGraph: bool, jobs: nat) {
    !hasGraph || jobs <= 1 || |plans| <= 1
  }

  /** The groups started and the records returned: the sequential loop, or the workers. */
  ghost predicate RunsAs(plans: seq<TaskGroupPlan>, exec: Outcome, hasGraph: bool, jobs: nat, stopOnFirstFailure: bool,
                         started: seq<nat>, records: seq<Record>) {
    && records == RecordsOf(MembersOf(started), exec, |plans|)
    && if RunsSequentially(plans, hasGraph, jobs) then ListsBelow(SequentialRuns(plans, exec, stopOnFirstFailure), |plans|, started)
       else Executes(plans, exec, stopOnFirstFailure, started)
  }

  lemma ListedRecords(runs: nat -> bool, exec: Outcome, n: nat, order: seq<nat>)
    requires ListsBelow(runs, n, order)
    ensures RecordsOf(MembersOf(order), exec, n) == RecordsOf(runs, exec, n)
  {
    forall i: nat | i < n ensures MembersOf(order)(i) == runs(i) {
      assert Among(order, i) <==> i in order;
    }
    RecordsSame(MembersOf(order), runs, exec, n);
  }

  /** ParallelTaskScheduler::run over plans that createPlans has built: the groups executed, in the order in which
      they are started, the records they return, and the items they mark. */
  method Run(runner: Runner, plans: seq<TaskGroupPlan>, hasGraph: bool, jobs: nat, stopOnFirstFailure: bool)
    returns (records: seq<Record>, ghost order: seq<nat>)
    requires WellFormed(plans) && runner.Valid()
    modifies runner.db
    ensures runner.Valid() && (SafeSoFar(runner.db) <==> old(SafeSoFar(runner.db)))
    ensures old(StockedSoFar(runner.stock, runner.db)) ==> StockedSoFar(runner.stock, runner.db)
    ensures var exec := OutcomeIn(runner.Context(), old(runner.db.store), plans);
            && RunsAs(plans, exec, hasGraph, jobs, stopOnFirstFailure, order, records)
            && (!stopOnFirstFailure && Forward(plans) ==> records == SequentialRecords(plans, exec, false))
    ensures Executed(runner.Context(), plans, old(runner.db.store), runner.db.store, order)
  {
    hide WellFormed, OutcomeIn, Executes, RecordsOf, MembersOf, ListsBelow, SequentialRuns, Forward, Executed, Sound, SafeSoFar, StockedSoFar, StatusesGiven;
    ghost var exec := OutcomeIn(runner.Context(), runner.db.store, plans);
    if !hasGraph || jobs <= 1 || |plans| <= 1 {
      records, order := RunSequential(runner, plans, stopOnFirstFailure);
      ListedRecords(SequentialRuns(plans, exec, stopOnFirstFailure), exec, |plans|, order);
    } else {
      var workerCount := if jobs < |plans| then jobs else |plans|;
      records, order := RunWorkers(runner, plans, stopOnFirstFailure, workerCount);
      if !stopOnFirstFailure && Forward(plans) {
        WorkersMatchLoop(plans, exec, order);
      }
    }
  }
}
