// The plan a scheduler works from: task groups, the groups that follow each of
// them, and the number of groups each of them waits for.
module TaskPlans {
  import opened Sequences
  import opened Packages

  datatype TaskGroup = TaskGroup(action: Action, system: string, packages: seq<Package>, flags: seq<string>,
                                 localPath: string, usesLocalTarget: bool, nixSoftSkipConsumers: seq<string>)

  datatype TaskGroupPlan = TaskGroupPlan(taskGroup: TaskGroup, successors: seq<nat>, pendingDependencies: nat)

  datatype Record = Record(runId: string, system: string, action: Action, packageName: string,
                           packageVersion: string, status: string, errorMessage: string)

  predicate HasFailure(records: seq<Record>) {
    exists k :: 0 <= k < |records| && records[k].status == "failed"
  }

  ghost predicate Edge(plans: seq<TaskGroupPlan>, s: nat, t: nat) {
    s < |plans| && t in plans[s].successors
  }

  ghost function Predecessors(plans: seq<TaskGroupPlan>, t: nat): set<nat> {
    set s: nat | s in Below(|plans|) && t in plans[s].successors
  }

  lemma PredecessorsAre(plans: seq<TaskGroupPlan>, t: nat)
    ensures forall s: nat :: s in Predecessors(plans, t) <==> Edge(plans, s, t)
  {
  }

  /** What createPlans promises: in-range, duplicate-free successor lists without
      self edges, and counters that count the lists a group appears in. */
  ghost predicate WellFormed(plans: seq<TaskGroupPlan>) {
    && (forall s: nat, t: nat :: Edge(plans, s, t) ==> t < |plans| && t != s)
    && (forall s :: 0 <= s < |plans| ==> Distinct(plans[s].successors))
    && (forall t :: 0 <= t < |plans| ==> plans[t].pendingDependencies == |Predecessors(plans, t)|)
  }

  lemma SuccessorsInRange(plans: seq<TaskGroupPlan>, s: nat)
    requires WellFormed(plans) && s < |plans|
    ensures forall t :: t in plans[s].successors ==> t < |plans| && t != s
  {
    forall t | t in plans[s].successors ensures t < |plans| && t != s {
      assert Edge(plans, s, t);
    }
  }

  /** Every edge goes from a lower to a higher index. */
  ghost predicate Forward(plans: seq<TaskGroupPlan>) {
    forall s: nat, t: nat :: Edge(plans, s, t) ==> s < t
  }

  /** pending[t] is the number of predecessors of t outside done. */
  ghost predicate Counts(plans: seq<TaskGroupPlan>, done: set<nat>, pending: seq<nat>) {
    && |pending| == |plans|
    && forall t :: 0 <= t < |plans| ==> pending[t] == |Predecessors(plans, t) - done|
  }

  lemma NonePending(plans: seq<TaskGroupPlan>, done: set<nat>, pending: seq<nat>, t: nat)
    requires Counts(plans, done, pending) && t < |plans|
    ensures pending[t] == 0 <==> forall s: nat :: Edge(plans, s, t) ==> s in done
  {
    var left := Predecessors(plans, t) - done;
    if pending[t] == 0 {
      assert left == {};
      forall s: nat | Edge(plans, s, t) ensures s in done {
        assert s in Predecessors(plans, t);
      }
    } else {
      var s :| s in left;
      assert Edge(plans, s, t);
    }
  }

  /** One decrement, floored at zero, for each listed successor. */
  function Decremented(pending: seq<nat>, successors: seq<nat>): (r: seq<nat>)
    ensures |r| == |pending|
    ensures forall t :: 0 <= t < |pending| ==>
              r[t] == if t in successors && pending[t] > 0 then pending[t] - 1 else pending[t]
  {
    seq(|pending|, t requires 0 <= t < |pending| =>
      if t in successors && pending[t] > 0 then pending[t] - 1 else pending[t])
  }

  function InitialPending(plans: seq<TaskGroupPlan>): (r: seq<nat>)
    ensures |r| == |plans|
    ensures forall i :: 0 <= i < |plans| ==> r[i] == plans[i].pendingDependencies
  {
    seq(|plans|, i requires 0 <= i < |plans| => plans[i].pendingDependencies)
  }

  lemma CountsInitially(plans: seq<TaskGroupPlan>)
    requires WellFormed(plans)
    ensures Counts(plans, {}, InitialPending(plans))
  {
    forall t | 0 <= t < |plans| ensures Predecessors(plans, t) - {} == Predecessors(plans, t) {}
  }

  lemma CountsStepAt(plans: seq<TaskGroupPlan>, done: set<nat>, s: nat, t: nat)
    requires s < |plans| && s !in done && t < |plans|
    ensures t in plans[s].successors ==>
              |Predecessors(plans, t) - (done + {s})| == |Predecessors(plans, t) - done| - 1
    ensures t !in plans[s].successors ==> Predecessors(plans, t) - (done + {s}) == Predecessors(plans, t) - done
  {
    PredecessorsAre(plans, t);
    assert Edge(plans, s, t) <==> t in plans[s].successors;
    hide Predecessors, Edge;
    var before := Predecessors(plans, t) - done;
    assert Predecessors(plans, t) - (done + {s}) == before - {s};
    if t in plans[s].successors {
      assert s in before;
    } else {
      assert before - {s} == before;
    }
  }

  lemma CountsStep(plans: seq<TaskGroupPlan>, done: set<nat>, pending: seq<nat>, s: nat)
    requires WellFormed(plans) && Counts(plans, done, pending) && s < |plans| && s !in done
    ensures Counts(plans, done + {s}, Decremented(pending, plans[s].successors))
    ensures forall t :: t in plans[s].successors ==> t < |plans| && pending[t] > 0
  {
    var after := Decremented(pending, plans[s].successors);
    forall t: nat | t < |plans|
      ensures after[t] == |Predecessors(plans, t) - (done + {s})|
      ensures t in plans[s].successors ==> pending[t] > 0
    {
      CountsStepAt(plans, done, s, t);
    }
    SuccessorsInRange(plans, s);
  }
}
