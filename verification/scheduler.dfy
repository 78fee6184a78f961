// ParallelTaskScheduler as a state machine: the state under the mutex, the two
// critical sections of a worker, and the interleaved steps of all workers.
module Scheduler {
  import opened Sequences
  import opened TaskPlans

  /** ParallelExecutionState together with the result slots. */
  datatype Shared = Shared(ready: seq<nat>, busy: set<string>, pending: seq<nat>, started: seq<bool>,
                           completed: seq<bool>, failed: seq<bool>, stop: bool, running: nat,
                           slots: seq<seq<Record>>)

  /** What a worker does when it gives up the lock it looked for work under. */
  datatype Verdict = Leave | Sleep | Take(group: nat)

  predicate Sized(plans: seq<TaskGroupPlan>, sh: Shared) {
    && |sh.pending| == |sh.started| == |sh.completed| == |sh.failed| == |sh.slots| == |plans|
    && forall i :: i in sh.ready ==> i < |plans|
  }

  function Initial(plans: seq<TaskGroupPlan>): Shared {
    var n := |plans|;
    Shared(Filter((i: nat) => i < n && plans[i].pendingDependencies == 0, Indices(n)), {}, InitialPending(plans),
           Fill(n, false), Fill(n, false), Fill(n, false), false, 0, Fill(n, []))
  }

  /** A queue entry that is dropped when it is met. */
  predicate Stale(sh: Shared, i: nat) {
    i < |sh.started| && i < |sh.failed| && i < |sh.pending| &&
    (sh.started[i] || sh.failed[i] || sh.pending[i] != 0)
  }

  predicate Startable(sh: Shared, i: nat) {
    i < |sh.started| && i < |sh.failed| && i < |sh.pending| &&
    !sh.started[i] && !sh.failed[i] && sh.pending[i] == 0
  }

  function Live(sh: Shared, queue: seq<nat>): seq<nat> {
    Filter((i: nat) => !Stale(sh, i), queue)
  }

  function SystemOf(plans: seq<TaskGroupPlan>, i: nat): string {
    if i < |plans| then plans[i].taskGroup.system else ""
  }

  predicate Blocked(plans: seq<TaskGroupPlan>, sh: Shared, i: nat) {
    Stale(sh, i) || SystemOf(plans, i) in sh.busy
  }

  /** Position of the first entry that may start now; the queue length if there is none. */
  function FirstFree(plans: seq<TaskGroupPlan>, sh: Shared, queue: seq<nat>): (k: nat)
    ensures k <= |queue|
    ensures forall j :: 0 <= j < k ==> Blocked(plans, sh, queue[j])
    ensures k < |queue| ==> !Blocked(plans, sh, queue[k])
  {
    if queue == [] then 0
    else if !Blocked(plans, sh, queue[0]) then 0
    else 1 + FirstFree(plans, sh, queue[1..])
  }

  /** One look for work under the lock: entries met before the first free one move behind
      the rest of the queue, and stale ones vanish. */
  function Pick(plans: seq<TaskGroupPlan>, sh: Shared): (Verdict, Shared)
    requires Sized(plans, sh)
  {
    if sh.stop || (sh.ready == [] && sh.running == 0) then (Leave, sh)
    else
      var k := FirstFree(plans, sh, sh.ready);
      if k < |sh.ready| then
        var i := sh.ready[k];
        assert i in sh.ready;
        (Take(i), sh.(ready := sh.ready[k + 1..] + Live(sh, sh.ready[..k]), started := sh.started[i := true],
                      busy := sh.busy + {SystemOf(plans, i)}, running := sh.running + 1))
      else
        (if sh.running == 0 then Leave else Sleep, sh.(ready := Live(sh, sh.ready)))
  }

  /** Group i is marked with its own outcome and its successors with a failure. */
  function Marked(failed: seq<bool>, successors: seq<nat>, i: nat, bad: bool): (r: seq<bool>)
    ensures |r| == |failed|
    ensures forall t :: 0 <= t < |failed| ==>
              r[t] == if t in successors then failed[t] || bad else if t == i then bad else failed[t]
  {
    seq(|failed|, t requires 0 <= t < |failed| =>
      if t in successors then failed[t] || bad else if t == i then bad else failed[t])
  }

  /** The successors a completion puts into the queue. */
  function Wakes(pending: seq<nat>, started: seq<bool>, completed: seq<bool>, failed: seq<bool>): nat -> bool {
    (t: nat) => t < |pending| && t < |started| && t < |completed| && t < |failed| &&
                pending[t] == 0 && !started[t] && !completed[t] && !failed[t]
  }

  /** The second critical section of a worker, after group i returned its records. */
  function Complete(plans: seq<TaskGroupPlan>, stopOnFirstFailure: bool, sh: Shared, i: nat, records: seq<Record>): Shared
    requires Sized(plans, sh) && i < |plans|
  {
    var bad := HasFailure(records);
    var next := plans[i].successors;
    var settled := sh.(
      slots := sh.slots[i := records],
      completed := sh.completed[i := true],
      busy := sh.busy - {SystemOf(plans, i)},
      pending := Decremented(sh.pending, next),
      failed := Marked(sh.failed, next, i, bad),
      stop := sh.stop || (bad && stopOnFirstFailure),
      running := if sh.running > 0 then sh.running - 1 else 0);
    settled.(ready := sh.ready + Filter(Wakes(settled.pending, settled.started, settled.completed, settled.failed), next))
  }

  // ---------------------------------------------------------------- workers

  /** Seeking: about to take the lock; Announcing: between releasing the lock and notify_all. */
  datatype Worker = Seeking | Running(group: nat) | Announcing | Waiting | Exited

  datatype State = State(shared: Shared, workers: seq<Worker>)

  /** Wake is a spurious wake-up of one waiting worker. */
  datatype Step = Seek(w: nat) | Finish(w: nat, records: seq<Record>) | Announce(w: nat) | Wake(w: nat)

  predicate Enabled(plans: seq<TaskGroupPlan>, s: State, step: Step) {
    && Sized(plans, s.shared) && step.w < |s.workers|
    && match step
       case Seek(w) => s.workers[w].Seeking?
       case Finish(w, _) => s.workers[w].Running? && s.workers[w].group < |plans|
       case Announce(w) => s.workers[w].Announcing?
       case Wake(w) => s.workers[w].Waiting?
  }

  function Seated(verdict: Verdict): Worker {
    match verdict
    case Leave => Exited
    case Sleep => Waiting
    case Take(i) => Running(i)
  }

  /** notify_all by worker w, which then looks for work again itself. */
  function Notified(workers: seq<Worker>, w: nat): (r: seq<Worker>)
    ensures |r| == |workers|
    ensures forall v :: 0 <= v < |workers| ==> r[v] == if v == w || workers[v].Waiting? then Seeking else workers[v]
  {
    seq(|workers|, v requires 0 <= v < |workers| => if v == w || workers[v].Waiting? then Seeking else workers[v])
  }

  function Next(plans: seq<TaskGroupPlan>, stopOnFirstFailure: bool, s: State, step: Step): State
    requires Enabled(plans, s, step)
  {
    match step
    case Seek(w) =>
      var (verdict, sh) := Pick(plans, s.shared);
      State(sh, s.workers[w := Seated(verdict)])
    case Finish(w, records) =>
      State(Complete(plans, stopOnFirstFailure, s.shared, s.workers[w].group, records), s.workers[w := Announcing])
    case Announce(w) =>
      s.(workers := Notified(s.workers, w))
    case Wake(w) =>
      s.(workers := s.workers[w := Seeking])
  }

  function Start(plans: seq<TaskGroupPlan>, workerCount: nat): State {
    State(Initial(plans), Fill(workerCount, Seeking))
  }

  // -------------------------------------------------------------- invariant

  ghost function Done(sh: Shared): set<nat> {
    set i | i in Below(|sh.completed|) && sh.completed[i]
  }

  /** Group i is being executed. */
  ghost predicate InFlight(sh: Shared, i: nat) {
    i < |sh.started| && i < |sh.completed| && sh.started[i] && !sh.completed[i]
  }

  ghost function Active(sh: Shared): set<nat> {
    set i | i in Below(|sh.started|) && InFlight(sh, i)
  }

  ghost predicate Bad(sh: Shared, i: nat) {
    i < |sh.completed| && i < |sh.slots| && sh.completed[i] && HasFailure(sh.slots[i])
  }

  /** The queue is exactly the startable groups, each once. */
  ghost predicate QueueExact(plans: seq<TaskGroupPlan>, sh: Shared)
    requires Sized(plans, sh)
  {
    && Distinct(sh.ready)
    && forall i :: 0 <= i < |plans| ==> (i in sh.ready <==> Startable(sh, i))
  }

  /** busySystems is exactly the systems of the groups in flight, which are pairwise distinct. */
  ghost predicate BusyExact(plans: seq<TaskGroupPlan>, sh: Shared) {
    && (forall i: nat :: InFlight(sh, i) ==> SystemOf(plans, i) in sh.busy)
    && (forall name {:trigger name in sh.busy} :: name in sh.busy ==> exists i: nat :: InFlight(sh, i) && SystemOf(plans, i) == name)
    && (forall i: nat, j: nat :: InFlight(sh, i) && InFlight(sh, j) && i != j ==> SystemOf(plans, i) != SystemOf(plans, j))
  }

  /** A group is marked failed exactly by its own failure or that of a predecessor. */
  ghost predicate FailedExact(plans: seq<TaskGroupPlan>, sh: Shared)
    requires Sized(plans, sh)
  {
    forall i: nat {:trigger sh.failed[i]} :: i < |plans| ==> (sh.failed[i] <==> Bad(sh, i) || exists s: nat :: Edge(plans, s, i) && Bad(sh, s))
  }

  ghost predicate Ordered(plans: seq<TaskGroupPlan>, sh: Shared)
    requires Sized(plans, sh)
  {
    && (forall i :: 0 <= i < |plans| && sh.completed[i] ==> sh.started[i])
    && (forall i :: 0 <= i < |plans| && !sh.completed[i] ==> sh.slots[i] == [])
    && (forall s: nat, i: nat :: Edge(plans, s, i) && i < |plans| && sh.started[i] ==> sh.completed[s] && !Bad(sh, s))
  }

  ghost predicate SharedInv(plans: seq<TaskGroupPlan>, stopOnFirstFailure: bool, sh: Shared) {
    && Sized(plans, sh)
    && Counts(plans, Done(sh), sh.pending)
    && QueueExact(plans, sh)
    && sh.running == |Active(sh)|
    && BusyExact(plans, sh)
    && FailedExact(plans, sh)
    && Ordered(plans, sh)
    && (sh.stop <==> stopOnFirstFailure && exists i: nat :: Bad(sh, i))
  }

  /** Running workers and active groups correspond one to one; a waiting worker always has
      someone left to wake it; a worker leaves only when nothing can start any more. */
  ghost predicate WorkersInv(s: State) {
    && (forall w :: 0 <= w < |s.workers| && s.workers[w].Running? ==> InFlight(s.shared, s.workers[w].group))
    && (forall i: nat :: InFlight(s.shared, i) ==> Running(i) in s.workers)
    && (forall v, w :: 0 <= v < w < |s.workers| && s.workers[v].Running? ==> s.workers[v] != s.workers[w])
    && (Waiting in s.workers ==> s.shared.running > 0 || Announcing in s.workers)
    && (Exited in s.workers && !s.shared.stop ==> s.shared.ready == [] && s.shared.running == 0)
  }

  ghost predicate Inv(plans: seq<TaskGroupPlan>, stopOnFirstFailure: bool, s: State) {
    && SharedInv(plans, stopOnFirstFailure, s.shared)
    && WorkersInv(s)
  }
}
