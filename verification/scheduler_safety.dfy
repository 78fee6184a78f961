// Every step of every worker keeps the scheduler invariant.
module SchedulerSafety {
  import opened Sequences
  import opened TaskPlans
  import opened Scheduler

  lemma StartQueue(plans: seq<TaskGroupPlan>)
    requires WellFormed(plans)
    ensures Sized(plans, Initial(plans)) && QueueExact(plans, Initial(plans))
  {
    var n := |plans|;
    FilterMembers((i: nat) => i < n && plans[i].pendingDependencies == 0, Indices(n));
    forall i: nat | i < n ensures i in Indices(n) {
      assert Indices(n)[i] == i;
    }
  }

  lemma NothingStarted(plans: seq<TaskGroupPlan>, sh: Shared)
    requires Sized(plans, sh) && sh.busy == {} && sh.running == 0
    requires forall i :: 0 <= i < |plans| ==> !sh.started[i] && !sh.completed[i] && !sh.failed[i] && sh.slots[i] == []
    ensures Done(sh) == {} && Active(sh) == {}
    ensures BusyExact(plans, sh) && FailedExact(plans, sh) && Ordered(plans, sh)
    ensures forall i: nat :: !Bad(sh, i)
  {
  }

  lemma StartCounts(plans: seq<TaskGroupPlan>)
    requires WellFormed(plans)
    ensures Counts(plans, Done(Initial(plans)), Initial(plans).pending)
  {
    CountsInitially(plans);
    assert Done(Initial(plans)) == {};
  }

  lemma StartShared(plans: seq<TaskGroupPlan>, stopOnFirstFailure: bool)
    requires WellFormed(plans)
    ensures SharedInv(plans, stopOnFirstFailure, Initial(plans))
  {
    hide BusyExact, FailedExact, Ordered, QueueExact, Counts, Active, Done;
    StartQueue(plans);
    StartCounts(plans);
    NothingStarted(plans, Initial(plans));
  }

  lemma SeekersOnly(s: State)
    requires forall w :: 0 <= w < |s.workers| ==> s.workers[w].Seeking?
    requires forall i: nat :: i < |s.shared.started| ==> !s.shared.started[i]
    ensures WorkersInv(s)
  {
  }

  lemma StartInv(plans: seq<TaskGroupPlan>, stopOnFirstFailure: bool, workerCount: nat)
    requires WellFormed(plans)
    ensures Inv(plans, stopOnFirstFailure, Start(plans, workerCount))
  {
    StartShared(plans, stopOnFirstFailure);
    SeekersOnly(Start(plans, workerCount));
    hide SharedInv, WorkersInv;
  }

  lemma QueueIsLive(plans: seq<TaskGroupPlan>, sh: Shared, queue: seq<nat>)
    requires Sized(plans, sh) && QueueExact(plans, sh)
    requires forall i :: i in queue ==> i in sh.ready
    ensures Live(sh, queue) == queue
  {
    forall i | i in queue ensures !Stale(sh, i) {
      assert i in sh.ready;
    }
    FilterAll((i: nat) => !Stale(sh, i), queue);
  }

  /** What taking group i from the queue changes. */
  ghost predicate Takes(plans: seq<TaskGroupPlan>, sh: Shared, after: Shared, i: nat) {
    && Sized(plans, sh) && Sized(plans, after) && i < |plans|
    && Startable(sh, i) && SystemOf(plans, i) !in sh.busy
    && after.started == sh.started[i := true] && after.completed == sh.completed && after.failed == sh.failed
    && after.slots == sh.slots && after.pending == sh.pending && after.stop == sh.stop
    && after.busy == sh.busy + {SystemOf(plans, i)} && after.running == sh.running + 1
  }

  /** Under the invariant a look for work is a rotation of the queue up to its first entry of an
      idle system, and the defensive exit with a non-empty queue is never taken. */
  lemma PickShape(plans: seq<TaskGroupPlan>, sh: Shared)
    requires Sized(plans, sh) && QueueExact(plans, sh) && BusyExact(plans, sh) && sh.running == |Active(sh)|
    ensures var (verdict, after) := Pick(plans, sh);
            var k := FirstFree(plans, sh, sh.ready);
            match verdict
            case Leave => after == sh && (sh.stop || (sh.ready == [] && sh.running == 0))
            case Sleep => after == sh && sh.running > 0 && k == |sh.ready|
            case Take(i) =>
              && k < |sh.ready| && i == sh.ready[k]
              && after.ready == sh.ready[k + 1..] + sh.ready[..k]
              && Takes(plans, sh, after, i)
  {
    hide FirstFree, QueueExact, BusyExact, Active, Live, Blocked;
    if !sh.stop && !(sh.ready == [] && sh.running == 0) {
      var k := FirstFree(plans, sh, sh.ready);
      if k < |sh.ready| {
        PickTakes(plans, sh, k);
      } else {
        QueueIsLive(plans, sh, sh.ready);
        if sh.ready != [] {
          assert sh.ready[0] in sh.ready;
          BlockedBySomeone(plans, sh, sh.ready[0]);
        }
      }
    }
  }

  lemma PickTakes(plans: seq<TaskGroupPlan>, sh: Shared, k: nat)
    requires Sized(plans, sh) && QueueExact(plans, sh) && !sh.stop
    requires k == FirstFree(plans, sh, sh.ready) < |sh.ready|
    ensures var (verdict, after) := Pick(plans, sh);
            verdict == Take(sh.ready[k]) && after.ready == sh.ready[k + 1..] + sh.ready[..k] && Takes(plans, sh, after, sh.ready[k])
  {
    QueueIsLive(plans, sh, sh.ready[..k]);
    var i := sh.ready[k];
    assert i in sh.ready;
    assert !Blocked(plans, sh, i) && Startable(sh, i) && SystemOf(plans, i) !in sh.busy;
    RotationStays(sh.ready, k);
    hide FirstFree, Live, QueueExact, Blocked, Startable, SystemOf;
    var (verdict, after) := Pick(plans, sh);
    assert verdict == Take(i);
    assert after == sh.(ready := sh.ready[k + 1..] + Live(sh, sh.ready[..k]), started := sh.started[i := true],
                        busy := sh.busy + {SystemOf(plans, i)}, running := sh.running + 1);
    assert after.ready == sh.ready[k + 1..] + sh.ready[..k];
    assert Sized(plans, after);
  }

  lemma RotationStays(queue: seq<nat>, k: nat)
    requires k < |queue|
    ensures forall i :: i in queue[k + 1..] + queue[..k] ==> i in queue
  {
  }

  lemma BlockedBySomeone(plans: seq<TaskGroupPlan>, sh: Shared, i: nat)
    requires Sized(plans, sh) && QueueExact(plans, sh) && BusyExact(plans, sh)
    requires i in sh.ready && Blocked(plans, sh, i)
    ensures |Active(sh)| > 0
  {
    assert SystemOf(plans, i) in sh.busy;
    var j: nat :| InFlight(sh, j) && SystemOf(plans, j) == SystemOf(plans, i);
    assert j in Active(sh);
  }

  lemma RotationMembers(queue: seq<nat>, k: nat)
    requires k < |queue| && Distinct(queue)
    ensures Distinct(queue[k + 1..] + queue[..k])
    ensures forall i :: i in queue[k + 1..] + queue[..k] <==> i in queue && i != queue[k]
  {
    var r := queue[k + 1..] + queue[..k];
    forall i | i in queue && i != queue[k] ensures i in r {
      var j :| 0 <= j < |queue| && queue[j] == i;
      if j < k { assert r[|queue| - k - 1 + j] == i; } else { assert r[j - k - 1] == i; }
    }
  }

  lemma TakeKeepsOrder(plans: seq<TaskGroupPlan>, sh: Shared, after: Shared, i: nat)
    requires Takes(plans, sh, after, i)
    requires forall s: nat :: Edge(plans, s, i) ==> s < |sh.completed| && sh.completed[s]
    requires FailedExact(plans, sh) && Ordered(plans, sh)
    ensures !sh.completed[i] && Done(after) == Done(sh)
    ensures Ordered(plans, after)
  {
    assert !sh.failed[i];
    forall s: nat, j: nat | Edge(plans, s, j) && j < |plans| && after.started[j] ensures after.completed[s] && !Bad(after, s) {
      assert Bad(after, s) <==> Bad(sh, s);
    }
  }

  lemma TakeKeepsFailed(plans: seq<TaskGroupPlan>, sh: Shared, after: Shared)
    requires Sized(plans, sh) && Sized(plans, after) && FailedExact(plans, sh)
    requires after.failed == sh.failed && after.completed == sh.completed && after.slots == sh.slots
    ensures FailedExact(plans, after)
  {
    assert forall j: nat :: Bad(after, j) <==> Bad(sh, j);
  }

  lemma TakeKeepsBusy(plans: seq<TaskGroupPlan>, sh: Shared, after: Shared, i: nat)
    requires Takes(plans, sh, after, i) && BusyExact(plans, sh) && !sh.completed[i]
    ensures BusyExact(plans, after) && Active(after) == Active(sh) + {i} && i !in Active(sh)
  {
    assert InFlight(after, i);
    assert forall j: nat :: InFlight(after, j) <==> InFlight(sh, j) || j == i;
  }

  lemma TakeKeepsQueue(plans: seq<TaskGroupPlan>, sh: Shared, after: Shared, k: nat)
    requires k < |sh.ready| && Takes(plans, sh, after, sh.ready[k]) && QueueExact(plans, sh)
    requires after.ready == sh.ready[k + 1..] + sh.ready[..k]
    ensures QueueExact(plans, after)
  {
    RotationMembers(sh.ready, k);
    assert forall i :: i in after.ready <==> i in sh.ready && i != sh.ready[k];
  }

  lemma TakeKeepsStop(sh: Shared, after: Shared)
    requires after.completed == sh.completed && after.slots == sh.slots
    ensures (exists j: nat :: Bad(after, j)) <==> exists j: nat :: Bad(sh, j)
  {
    assert forall j: nat :: Bad(after, j) <==> Bad(sh, j);
  }

  lemma TakenHasNoPending(plans: seq<TaskGroupPlan>, sh: Shared, after: Shared, i: nat)
    requires Takes(plans, sh, after, i) && Counts(plans, Done(sh), sh.pending)
    ensures forall s: nat :: Edge(plans, s, i) ==> s < |sh.completed| && sh.completed[s]
  {
    NonePending(plans, Done(sh), sh.pending, i);
    hide Counts;
  }

  lemma TakeKeepsShared(plans: seq<TaskGroupPlan>, stopOnFirstFailure: bool, sh: Shared, after: Shared, k: nat)
    requires SharedInv(plans, stopOnFirstFailure, sh)
    requires k < |sh.ready| && Takes(plans, sh, after, sh.ready[k])
    requires after.ready == sh.ready[k + 1..] + sh.ready[..k]
    ensures SharedInv(plans, stopOnFirstFailure, after) && Active(after) == Active(sh) + {sh.ready[k]}
  {
    hide BusyExact, FailedExact, Ordered, QueueExact, Bad, Counts, Active, SystemOf;
    TakenHasNoPending(plans, sh, after, sh.ready[k]);
    TakeKeepsOrder(plans, sh, after, sh.ready[k]);
    TakeKeepsFailed(plans, sh, after);
    TakeKeepsBusy(plans, sh, after, sh.ready[k]);
    TakeKeepsQueue(plans, sh, after, k);
    TakeKeepsStop(sh, after);
  }

  lemma PickKeepsShared(plans: seq<TaskGroupPlan>, stopOnFirstFailure: bool, sh: Shared)
    requires SharedInv(plans, stopOnFirstFailure, sh)
    ensures SharedInv(plans, stopOnFirstFailure, Pick(plans, sh).1)
    ensures Pick(plans, sh).0.Take? ==> Active(Pick(plans, sh).1) == Active(sh) + {Pick(plans, sh).0.group}
    ensures !Pick(plans, sh).0.Take? ==> Pick(plans, sh).1 == sh
  {
    PickShape(plans, sh);
    hide Pick, FirstFree, Takes, SharedInv;
    var (verdict, after) := Pick(plans, sh);
    if verdict.Take? {
      TakeKeepsShared(plans, stopOnFirstFailure, sh, after, FirstFree(plans, sh, sh.ready));
    }
  }

  // ------------------------------------------------------------- completion

  /** What the second critical section changes when group i, in flight, returned its records. */
  ghost predicate Finishes(plans: seq<TaskGroupPlan>, sh: Shared, after: Shared, i: nat, records: seq<Record>) {
    && Sized(plans, sh) && Sized(plans, after) && i < |plans| && InFlight(sh, i)
    && after.slots == sh.slots[i := records] && after.completed == sh.completed[i := true] && after.started == sh.started
    && after.busy == sh.busy - {SystemOf(plans, i)}
    && after.pending == Decremented(sh.pending, plans[i].successors)
    && (forall t :: 0 <= t < |plans| ==>
          after.failed[t] == (if t in plans[i].successors then sh.failed[t] || HasFailure(records)
                              else if t == i then HasFailure(records) else sh.failed[t]))
  }

  lemma FinishKeepsBusy(plans: seq<TaskGroupPlan>, sh: Shared, after: Shared, i: nat, records: seq<Record>)
    requires Finishes(plans, sh, after, i, records) && BusyExact(plans, sh)
    ensures BusyExact(plans, after) && Active(after) == Active(sh) - {i} && i in Active(sh)
  {
    assert forall j: nat :: InFlight(after, j) <==> InFlight(sh, j) && j != i;
  }

  lemma FinishDone(sh: Shared, after: Shared, i: nat)
    requires i < |sh.completed| && !sh.completed[i] && after.completed == sh.completed[i := true]
    ensures Done(after) == Done(sh) + {i} && i !in Done(sh)
  {
  }

  lemma FinishKeepsCounts(plans: seq<TaskGroupPlan>, sh: Shared, after: Shared, i: nat, records: seq<Record>)
    requires WellFormed(plans) && Finishes(plans, sh, after, i, records) && Counts(plans, Done(sh), sh.pending)
    ensures Counts(plans, Done(after), after.pending)
    ensures forall t :: t in plans[i].successors ==> t < |plans| && t != i && sh.pending[t] > 0
  {
    FinishDone(sh, after, i);
    hide Done;
    CountsStep(plans, Done(sh), sh.pending, i);
    SuccessorsInRange(plans, i);
  }

  lemma FinishKeepsFailed(plans: seq<TaskGroupPlan>, sh: Shared, after: Shared, i: nat, records: seq<Record>)
    requires Finishes(plans, sh, after, i, records) && FailedExact(plans, sh) && Ordered(plans, sh)
    requires i !in plans[i].successors
    ensures FailedExact(plans, after)
  {
    assert forall j: nat :: j != i ==> (Bad(after, j) <==> Bad(sh, j));
    assert Bad(after, i) <==> HasFailure(records);
    assert !Bad(sh, i);
    forall t: nat | t < |plans|
      ensures after.failed[t] <==> Bad(after, t) || exists s: nat :: Edge(plans, s, t) && Bad(after, s)
    {
      if t in plans[i].successors {
        assert Edge(plans, i, t);
      }
      if s: nat :| Edge(plans, s, t) && Bad(sh, s) {
        assert Bad(after, s);
      }
    }
  }

  lemma FinishKeepsOrder(plans: seq<TaskGroupPlan>, sh: Shared, after: Shared, i: nat, records: seq<Record>)
    requires Finishes(plans, sh, after, i, records) && Ordered(plans, sh)
    ensures Ordered(plans, after)
  {
    forall s: nat, t: nat | Edge(plans, s, t) && t < |plans| && after.started[t] ensures after.completed[s] && !Bad(after, s) {
      assert sh.completed[s] && !Bad(sh, s);
      assert Bad(after, s) <==> Bad(sh, s);
    }
  }

  lemma FinishKeepsQueue(plans: seq<TaskGroupPlan>, sh: Shared, after: Shared, i: nat, records: seq<Record>)
    requires Finishes(plans, sh, after, i, records) && QueueExact(plans, sh)
    requires forall t :: 0 <= t < |plans| && sh.completed[t] ==> sh.started[t]
    requires Distinct(plans[i].successors)
    requires forall t :: t in plans[i].successors ==> t < |plans| && t != i && sh.pending[t] > 0
    requires after.ready == sh.ready + Filter(Wakes(after.pending, after.started, after.completed, after.failed), plans[i].successors)
    ensures QueueExact(plans, after)
  {
    var keep := Wakes(after.pending, after.started, after.completed, after.failed);
    FilterMembers(keep, plans[i].successors);
    var woken := Filter(keep, plans[i].successors);
    forall t | t in woken ensures t !in sh.ready {
      assert !Startable(sh, t);
    }
    DistinctConcat(sh.ready, woken);
    forall t: nat | t < |plans| ensures t in after.ready <==> Startable(after, t) {
      assert t in after.ready <==> t in sh.ready || t in woken;
      if t in plans[i].successors {
        assert !Startable(sh, t);
        assert Startable(after, t) ==> keep(t);
      } else {
        assert Startable(after, t) <==> Startable(sh, t);
      }
    }
  }

  lemma FinishKeepsStop(sh: Shared, after: Shared, i: nat, records: seq<Record>)
    requires i < |sh.completed| == |sh.slots| && !sh.completed[i]
    requires after.completed == sh.completed[i := true] && after.slots == sh.slots[i := records]
    ensures (exists j: nat :: Bad(after, j)) <==> HasFailure(records) || exists j: nat :: Bad(sh, j)
  {
    hide HasFailure;
    assert Bad(after, i) <==> HasFailure(records);
    assert forall j: nat :: j != i ==> (Bad(after, j) <==> Bad(sh, j));
    assert !Bad(sh, i);
  }

  /** The complete effect of the second critical section. */
  ghost predicate Completes(plans: seq<TaskGroupPlan>, stopOnFirstFailure: bool, sh: Shared, after: Shared, i: nat, records: seq<Record>) {
    && Finishes(plans, sh, after, i, records)
    && after.running == (if sh.running > 0 then sh.running - 1 else 0)
    && after.stop == (sh.stop || (HasFailure(records) && stopOnFirstFailure))
    && after.ready == sh.ready + Filter(Wakes(after.pending, after.started, after.completed, after.failed), plans[i].successors)
  }

  lemma CompleteShape(plans: seq<TaskGroupPlan>, stopOnFirstFailure: bool, sh: Shared, i: nat, records: seq<Record>)
    requires Sized(plans, sh) && i < |plans| && InFlight(sh, i)
    requires forall t :: t in plans[i].successors ==> t < |plans|
    ensures Completes(plans, stopOnFirstFailure, sh, Complete(plans, stopOnFirstFailure, sh, i, records), i, records)
  {
    var after := Complete(plans, stopOnFirstFailure, sh, i, records);
    FilterMembers(Wakes(after.pending, after.started, after.completed, after.failed), plans[i].successors);
    hide HasFailure, SystemOf;
  }

  lemma CompletesKeepsShared(plans: seq<TaskGroupPlan>, stopOnFirstFailure: bool, sh: Shared, after: Shared, i: nat, records: seq<Record>)
    requires WellFormed(plans) && SharedInv(plans, stopOnFirstFailure, sh)
    requires Completes(plans, stopOnFirstFailure, sh, after, i, records)
    ensures SharedInv(plans, stopOnFirstFailure, after) && Active(after) == Active(sh) - {i} && i in Active(sh)
  {
    assert forall t :: 0 <= t < |plans| && sh.completed[t] ==> sh.started[t];
    hide BusyExact, FailedExact, Ordered, QueueExact, Counts, Done, Active, SystemOf, Bad;
    FinishKeepsCounts(plans, sh, after, i, records);
    FinishKeepsQueue(plans, sh, after, i, records);
    FinishKeepsBusy(plans, sh, after, i, records);
    FinishKeepsFailed(plans, sh, after, i, records);
    FinishKeepsOrder(plans, sh, after, i, records);
    FinishKeepsStop(sh, after, i, records);
  }

  lemma FinishKeepsShared(plans: seq<TaskGroupPlan>, stopOnFirstFailure: bool, sh: Shared, i: nat, records: seq<Record>)
    requires WellFormed(plans) && SharedInv(plans, stopOnFirstFailure, sh) && i < |plans| && InFlight(sh, i)
    ensures var after := Complete(plans, stopOnFirstFailure, sh, i, records);
            SharedInv(plans, stopOnFirstFailure, after) && Active(after) == Active(sh) - {i} && i in Active(sh)
  {
    SuccessorsInRange(plans, i);
    CompleteShape(plans, stopOnFirstFailure, sh, i, records);
    CompletesKeepsShared(plans, stopOnFirstFailure, sh, Complete(plans, stopOnFirstFailure, sh, i, records), i, records);
  }
}
