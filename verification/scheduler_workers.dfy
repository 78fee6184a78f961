// The worker side of the invariant, freedom from deadlock, and the bound on the
// number of steps a run can take.
module SchedulerWorkers {
  import opened Sequences
  import opened TaskPlans
  import opened Scheduler
  import opened SchedulerSafety

  lemma UpdateMembers(workers: seq<Worker>, w: nat, y: Worker)
    requires w < |workers|
    ensures y in workers[w := y]
    ensures forall x :: x in workers && x != workers[w] ==> x in workers[w := y]
    ensures forall x :: x in workers[w := y] ==> x == y || x in workers
  {
    var after := workers[w := y];
    assert after[w] == y;
    forall x | x in workers && x != workers[w] ensures x in after {
      var v :| 0 <= v < |workers| && workers[v] == x;
      assert after[v] == x;
    }
  }

  /** One worker moves on its own while the groups in flight stay the same. */
  lemma MoveKeepsWorkers(s: State, w: nat, y: Worker)
    requires WorkersInv(s) && w < |s.workers| && s.workers[w].Seeking? && (y.Exited? || y.Waiting?)
    requires y.Exited? ==> s.shared.stop || (s.shared.ready == [] && s.shared.running == 0)
    requires y.Waiting? ==> s.shared.running > 0
    ensures WorkersInv(State(s.shared, s.workers[w := y]))
  {
    UpdateMembers(s.workers, w, y);
  }

  lemma TakeKeepsWorkers(s: State, w: nat, after: State, i: nat)
    requires WorkersInv(s) && w < |s.workers| && s.workers[w].Seeking?
    requires s.shared.ready != [] && !s.shared.stop && !InFlight(s.shared, i)
    requires after.workers == s.workers[w := Running(i)] && after.shared.running > 0
    requires forall j: nat :: InFlight(after.shared, j) <==> InFlight(s.shared, j) || j == i
    ensures WorkersInv(after)
  {
    UpdateMembers(s.workers, w, Running(i));
  }

  lemma FinishKeepsWorkers(s: State, w: nat, after: State, i: nat)
    requires WorkersInv(s) && w < |s.workers| && s.workers[w] == Running(i)
    requires s.shared.running > 0 && (!after.shared.stop ==> !s.shared.stop)
    requires after.workers == s.workers[w := Announcing]
    requires forall j: nat :: InFlight(after.shared, j) <==> InFlight(s.shared, j) && j != i
    ensures WorkersInv(after)
  {
    UpdateMembers(s.workers, w, Announcing);
    forall v | 0 <= v < |s.workers| && after.workers[v].Running? ensures after.workers[v].group != i {
      assert after.workers[v] == s.workers[v];
    }
  }

  lemma AnnounceKeepsWorkers(s: State, w: nat, after: State)
    requires WorkersInv(s) && w < |s.workers| && s.workers[w].Announcing? && after.shared == s.shared
    requires |after.workers| == |s.workers|
    requires forall v :: 0 <= v < |s.workers| ==>
               after.workers[v] == if v == w || s.workers[v].Waiting? then Seeking else s.workers[v]
    ensures WorkersInv(after)
  {
    forall i: nat | InFlight(s.shared, i) ensures Running(i) in after.workers {
      var v :| 0 <= v < |s.workers| && s.workers[v] == Running(i);
      assert after.workers[v] == Running(i);
    }
    assert Waiting !in after.workers;
    if Exited in after.workers {
      var v :| 0 <= v < |s.workers| && after.workers[v].Exited?;
      assert s.workers[v].Exited?;
    }
  }

  lemma WakeKeepsWorkers(s: State, w: nat)
    requires WorkersInv(s) && w < |s.workers| && s.workers[w].Waiting?
    ensures WorkersInv(State(s.shared, s.workers[w := Seeking]))
  {
    UpdateMembers(s.workers, w, Seeking);
  }

  lemma ActiveIsInFlight(before: Shared, after: Shared, i: nat)
    requires |before.started| == |before.completed| == |after.started| == |after.completed|
    ensures Active(after) == Active(before) + {i} ==>
              forall j: nat :: InFlight(after, j) <==> InFlight(before, j) || j == i
    ensures Active(after) == Active(before) - {i} ==>
              forall j: nat :: InFlight(after, j) <==> InFlight(before, j) && j != i
  {
    assert forall j: nat :: InFlight(after, j) <==> j in Active(after);
    assert forall j: nat :: InFlight(before, j) <==> j in Active(before);
  }

  lemma SeekKeepsInv(plans: seq<TaskGroupPlan>, stopOnFirstFailure: bool, s: State, w: nat)
    requires Inv(plans, stopOnFirstFailure, s) && Enabled(plans, s, Seek(w))
    ensures Inv(plans, stopOnFirstFailure, Next(plans, stopOnFirstFailure, s, Seek(w)))
  {
    PickShape(plans, s.shared);
    PickKeepsShared(plans, stopOnFirstFailure, s.shared);
    var (verdict, sh) := Pick(plans, s.shared);
    assert |sh.started| == |sh.completed| == |s.shared.started| == |s.shared.completed|;
    hide Pick, SharedInv, WorkersInv;
    if verdict.Take? {
      ActiveIsInFlight(s.shared, sh, verdict.group);
      TakeKeepsWorkers(s, w, State(sh, s.workers[w := Running(verdict.group)]), verdict.group);
    } else {
      MoveKeepsWorkers(s, w, Seated(verdict));
    }
  }

  lemma FinishKeepsInv(plans: seq<TaskGroupPlan>, stopOnFirstFailure: bool, s: State, w: nat, records: seq<Record>)
    requires WellFormed(plans) && Inv(plans, stopOnFirstFailure, s) && Enabled(plans, s, Finish(w, records))
    ensures Inv(plans, stopOnFirstFailure, Next(plans, stopOnFirstFailure, s, Finish(w, records)))
  {
    var i := s.workers[w].group;
    assert InFlight(s.shared, i) && s.shared.running == |Active(s.shared)|;
    FinishKeepsShared(plans, stopOnFirstFailure, s.shared, i, records);
    var sh := Complete(plans, stopOnFirstFailure, s.shared, i, records);
    ActiveIsInFlight(s.shared, sh, i);
    hide SharedInv, WorkersInv, Active;
    FinishKeepsWorkers(s, w, State(sh, s.workers[w := Announcing]), i);
  }

  /** Every step of every worker keeps the invariant. */
  lemma StepKeepsInv(plans: seq<TaskGroupPlan>, stopOnFirstFailure: bool, s: State, step: Step)
    requires WellFormed(plans) && Inv(plans, stopOnFirstFailure, s) && Enabled(plans, s, step)
    ensures Inv(plans, stopOnFirstFailure, Next(plans, stopOnFirstFailure, s, step))
  {
    hide SharedInv, WorkersInv, WellFormed;
    match step
    case Seek(w) => SeekKeepsInv(plans, stopOnFirstFailure, s, w);
    case Finish(w, records) => FinishKeepsInv(plans, stopOnFirstFailure, s, w, records);
    case Announce(w) => AnnounceKeepsWorkers(s, w, Next(plans, stopOnFirstFailure, s, step));
    case Wake(w) => WakeKeepsWorkers(s, w);
  }

  /** A worker waits only while another one is executing a group, and leaves only when launches are
      stopped or nothing is ready and nothing is running. */
  lemma WaitsForOthersOnly(plans: seq<TaskGroupPlan>, stopOnFirstFailure: bool, s: State, w: nat)
    requires Inv(plans, stopOnFirstFailure, s) && Enabled(plans, s, Seek(w))
    ensures var worker := Next(plans, stopOnFirstFailure, s, Seek(w)).workers[w];
            && (worker.Waiting? ==> exists v :: 0 <= v < |s.workers| && v != w && s.workers[v].Running?)
            && (worker.Exited? ==> s.shared.stop || (s.shared.ready == [] && s.shared.running == 0))
  {
    PickShape(plans, s.shared);
    hide Pick, QueueExact, BusyExact, FailedExact, Ordered, Counts;
    if Pick(plans, s.shared).0.Sleep? {
      var i :| i in Active(s.shared);
      assert InFlight(s.shared, i);
      var v :| 0 <= v < |s.workers| && s.workers[v] == Running(i);
      assert v != w && s.workers[v].Running?;
    }
  }

  /** No deadlock and no lost wake-up: while a worker has not left, some worker can move
      without a spurious wake-up. */
  lemma NoDeadlock(plans: seq<TaskGroupPlan>, stopOnFirstFailure: bool, s: State, w: nat)
    requires Inv(plans, stopOnFirstFailure, s) && w < |s.workers| && !s.workers[w].Exited?
    ensures exists step: Step :: !step.Wake? && Enabled(plans, s, step)
  {
    var v := w;
    if s.workers[w].Waiting? {
      if s.shared.running > 0 {
        var i :| i in Active(s.shared);
        assert InFlight(s.shared, i);
        v :| 0 <= v < |s.workers| && s.workers[v] == Running(i);
      } else {
        v :| 0 <= v < |s.workers| && s.workers[v].Announcing?;
      }
    }
    var step := if s.workers[v].Seeking? then Seek(v) else if s.workers[v].Running? then Finish(v, []) else Announce(v);
    assert Enabled(plans, s, step);
  }
}
