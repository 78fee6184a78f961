// Executer::executeTaskGroup under a run: a group that is handed to its plugin is
// first marked as running in the transaction database.
module TaskRunner {
  import opened Sequences
  import opened Packages
  import opened TaskPlans
  import opened TransactionCodec
  import opened TransactionStore
  import opened TransactionDatabase
  import opened ExecutorTransactions

  // ----------------------------------------------------------- transactions

  /** What a transaction other than createRun and markRunCommitted means for the history. */
  lemma PlainOp(db: Database, stock: Stock, op: Op)
    requires Sound(db) && LegalOp(op) && !op.CreateRun? && !op.Commit?
    ensures LegalLog(db.itemId, db.origin, db.log + [op])
    ensures SafeCommits(db.itemId, db.origin, db.log + [op]) <==> SafeSoFar(db)
    ensures StockedSoFar(stock, db) ==> StockedLog(stock, db.origin, db.log + [op])
  {
    LegalMore(db.itemId, db.origin, db.log, op);
    SafetySame(db.itemId, db.origin, db.log, op);
    assert StockedOp(stock, op);
    hide LegalLog, SafeCommits, StockedLog, LegalOp, StockedOp;
    if StockedSoFar(stock, db) {
      StockedMore(stock, db.origin, db.log, op);
    }
  }

  lemma PlainUpdate(runId: string, packages: seq<Package>, status: string, errorMessage: string, now: string)
    requires status != "" && now != ""
    ensures LegalOp(UpdateItems(runId, packages, status, errorMessage, now))
  {
  }

  /** An update of items that neither begins nor ends a run. */
  method Update(db: Database, ghost stock: Stock, runId: string, packages: seq<Package>, status: string, errorMessage: string, now: string)
    returns (ok: bool)
    requires Sound(db) && now != "" && status != ""
    modifies db
    ensures Sound(db) && (SafeSoFar(db) <==> old(SafeSoFar(db))) && (old(StockedSoFar(stock, db)) ==> StockedSoFar(stock, db))
    ensures SameRuns(old(db.store), db.store)
    ensures db.store == Apply(db.itemId, old(db.store), UpdateItems(runId, packages, status, errorMessage, now))
    ensures ok == CanUpdate(db.itemId, old(db.store), runId, packages, status)
  {
    ghost var op := UpdateItems(runId, packages, status, errorMessage, now);
    PlainUpdate(runId, packages, status, errorMessage, now);
    PlainOp(db, stock, op);
    hide LegalLog, SafeCommits, StockedLog, LegalOp, CanUpdate, KeysMatch;
    UpdateKeepsRuns(db.itemId, db.store, runId, packages, status, errorMessage, now);
    ok := db.UpdateItemsStatus(runId, packages, status, errorMessage, now);
  }

  // ------------------------------------------------------------- executions

  /** Item ids, plugins, and the run under which groups are executed, if any. */
  datatype Execution = Execution(itemId: ItemIds, host: Host, runId: string)

  /** The group goes through the transaction database. */
  predicate Tracked(x: Execution, group: TaskGroup) {
    x.runId != "" && group.packages != [] && !group.usesLocalTarget && x.host.dispatched(group)
  }

  /** What executing the group returns when the store is s. */
  function GroupRecords(x: Execution, s: Store, group: TaskGroup): seq<Record> {
    if group.packages == [] && !group.usesLocalTarget then []
    else if Tracked(x, group) && !CanUpdate(x.itemId, s, x.runId, group.packages, "running") then
      UpdateFailures(group, x.runId, group.packages)
    else x.host.run(group)
  }

  function OutcomeIn(x: Execution, s: Store, plans: seq<TaskGroupPlan>): nat -> seq<Record> {
    (i: nat) => if i < |plans| then GroupRecords(x, s, plans[i].taskGroup) else []
  }

  /** Executing the group marks the item of that id as running. */
  ghost predicate MarksItem(x: Execution, s: Store, group: TaskGroup, id: string) {
    Tracked(x, group) && CanUpdate(x.itemId, s, x.runId, group.packages, "running") && Listed(x.itemId, group.packages, id)
  }

  ghost predicate MarkedBy(x: Execution, plans: seq<TaskGroupPlan>, s: Store, done: seq<nat>, id: string) {
    exists i :: i in done && i < |plans| && MarksItem(x, s, plans[i].taskGroup, id)
  }

  function RunningItem(item: ItemRecord): ItemRecord {
    item.(status := "running", errorMessage := "")
  }

  /** The groups were executed: their items are running, and nothing else has changed. */
  ghost predicate Executed(x: Execution, plans: seq<TaskGroupPlan>, before: Store, after: Store, done: seq<nat>) {
    && SameRuns(before, after) && (x.runId == "" ==> after == before)
    && forall key :: key in before.items ==>
         after.items[key] ==
         if key.0 == x.runId && MarkedBy(x, plans, before, done, key.1) then RunningItem(before.items[key]) else before.items[key]
  }

  lemma NothingExecuted(x: Execution, plans: seq<TaskGroupPlan>, s: Store)
    ensures Executed(x, plans, s, s, [])
  {
  }

  lemma ExecutedSame(x: Execution, plans: seq<TaskGroupPlan>, before: Store, after: Store, done: seq<nat>, same: seq<nat>)
    requires Executed(x, plans, before, after, done) && forall i :: i in done <==> i in same
    ensures Executed(x, plans, before, after, same)
  {
    hide MarksItem, SameRuns;
    assert forall id :: MarkedBy(x, plans, before, done, id) <==> MarkedBy(x, plans, before, same, id);
    hide MarkedBy;
  }

  /** Marking items changes nothing about which groups can be marked. */
  lemma ExecutedKeepsUpdates(x: Execution, plans: seq<TaskGroupPlan>, before: Store, after: Store, done: seq<nat>, packages: seq<Package>)
    requires Executed(x, plans, before, after, done)
    ensures CanUpdate(x.itemId, after, x.runId, packages, "running") <==> CanUpdate(x.itemId, before, x.runId, packages, "running")
  {
    forall id ensures Readable(after, x.runId, id) <==> Readable(before, x.runId, id) {
      MarkedIsReadable(x, plans, before, done, id);
      assert (x.runId, id) in before.items.Keys <==> (x.runId, id) in after.items.Keys;
      hide MarkedBy;
    }
    hide Executed, Readable;
  }

  lemma MarkedIsReadable(x: Execution, plans: seq<TaskGroupPlan>, s: Store, done: seq<nat>, id: string)
    ensures MarkedBy(x, plans, s, done, id) ==> Readable(s, x.runId, id)
  {
    if MarkedBy(x, plans, s, done, id) {
      var i :| i in done && i < |plans| && MarksItem(x, s, plans[i].taskGroup, id);
      var k :| 0 <= k < |plans[i].taskGroup.packages| && x.itemId(plans[i].taskGroup.packages[k]) == id;
    }
  }

  lemma MarkedMore(x: Execution, plans: seq<TaskGroupPlan>, s: Store, done: seq<nat>, i: nat, id: string)
    requires i < |plans|
    ensures MarkedBy(x, plans, s, done + [i], id) <==> MarkedBy(x, plans, s, done, id) || MarksItem(x, s, plans[i].taskGroup, id)
  {
    hide MarksItem;
    assert i in done + [i];
  }

  /** What one transaction of an execution changes. */
  ghost predicate Marking(x: Execution, s: Store, group: TaskGroup, middle: Store, after: Store) {
    && SameRuns(middle, after) && (x.runId == "" ==> after == middle)
    && forall key :: key in middle.items ==>
         after.items[key] ==
         if key.0 == x.runId && MarksItem(x, s, group, key.1) then RunningItem(middle.items[key]) else middle.items[key]
  }

  lemma MarkingIs(x: Execution, s: Store, group: TaskGroup, middle: Store, now: string)
    requires Tracked(x, group)
    requires CanUpdate(x.itemId, middle, x.runId, group.packages, "running") <==> CanUpdate(x.itemId, s, x.runId, group.packages, "running")
    ensures Marking(x, s, group, middle, Apply(x.itemId, middle, UpdateItems(x.runId, group.packages, "running", "", now)))
  {
    UpdateKeepsRuns(x.itemId, middle, x.runId, group.packages, "running", "", now);
    UpdateIsAllOrNothing(x.itemId, middle, x.runId, group.packages, "running", "", now);
    assert x.runId != "";
    hide CanUpdate, Listed, Apply, Tracked, SameRuns;
  }

  lemma MarkingNothing(x: Execution, s: Store, group: TaskGroup, middle: Store)
    requires !Tracked(x, group)
    ensures Marking(x, s, group, middle, middle)
  {
    hide Tracked;
  }

  lemma SameRunsTransitive(a: Store, b: Store, c: Store)
    requires SameRuns(a, b) && SameRuns(b, c)
    ensures SameRuns(a, c)
  {
  }

  lemma ExecutedAndMarked(x: Execution, plans: seq<TaskGroupPlan>, before: Store, middle: Store, after: Store, done: seq<nat>, i: nat)
    requires Executed(x, plans, before, middle, done) && i < |plans| && Marking(x, before, plans[i].taskGroup, middle, after)
    ensures Executed(x, plans, before, after, done + [i])
  {
    SameRunsTransitive(before, middle, after);
    assert before.items.Keys == middle.items.Keys;
    hide SameRuns, MarkedBy, MarksItem;
    forall key | key in before.items
      ensures after.items[key] ==
              if key.0 == x.runId && MarkedBy(x, plans, before, done + [i], key.1) then RunningItem(before.items[key]) else before.items[key]
    {
      assert key in middle.items;
      MarkedMore(x, plans, before, done, i, key.1);
    }
  }

  lemma ExecutedOneMore(x: Execution, plans: seq<TaskGroupPlan>, before: Store, middle: Store, after: Store, done: seq<nat>, i: nat, now: string)
    requires Executed(x, plans, before, middle, done) && i < |plans|
    requires var group := plans[i].taskGroup;
             after == if Tracked(x, group) then Apply(x.itemId, middle, UpdateItems(x.runId, group.packages, "running", "", now)) else middle
    ensures Executed(x, plans, before, after, done + [i])
    ensures GroupRecords(x, middle, plans[i].taskGroup) == GroupRecords(x, before, plans[i].taskGroup)
  {
    var group := plans[i].taskGroup;
    ExecutedKeepsUpdates(x, plans, before, middle, done, group.packages);
    hide Executed, CanUpdate, Apply, Tracked, Marking;
    if Tracked(x, group) {
      MarkingIs(x, before, group, middle, now);
    } else {
      MarkingNothing(x, before, group, middle);
    }
    ExecutedAndMarked(x, plans, before, middle, after, done, i);
  }

  /** A group that cannot be marked fails with each of its packages. */
  lemma {:induction false} UpdateFailuresAre(group: TaskGroup, runId: string, packages: seq<Package>)
    ensures |UpdateFailures(group, runId, packages)| == |packages|
    ensures forall k :: 0 <= k < |packages| ==>
              UpdateFailures(group, runId, packages)[k] ==
              Record(runId, group.system, group.action, packages[k].name, packages[k].version, "failed", "transaction update failed")
  {
    if packages != [] {
      UpdateFailuresAre(group, runId, packages[..|packages| - 1]);
    }
  }

  class Runner {
    const db: Database
    const host: Host
    const runId: string
    const now: string
    ghost const stock: Stock

    constructor (db: Database, host: Host, runId: string, now: string, ghost stock: Stock)
      ensures this.db == db && this.host == host && this.runId == runId && this.now == now && this.stock == stock
    {
      this.db, this.host, this.runId, this.now, this.stock := db, host, runId, now, stock;
    }

    ghost predicate Valid()
      reads db
    {
      Sound(db) && now != "" && forall group :: StatusesGiven(host.run(group))
    }

    ghost function Context(): Execution {
      Execution(db.itemId, host, runId)
    }

    /** executeTaskGroup. */
    method ExecuteTaskGroup(group: TaskGroup) returns (records: seq<Record>)
      requires Valid()
      modifies db
      ensures Valid() && (SafeSoFar(db) <==> old(SafeSoFar(db))) && (old(StockedSoFar(stock, db)) ==> StockedSoFar(stock, db))
      ensures records == GroupRecords(Context(), old(db.store), group)
      ensures db.store == if Tracked(Context(), group) then Apply(db.itemId, old(db.store), UpdateItems(runId, group.packages, "running", "", now))
                          else old(db.store)
    {
      hide Sound, SafeSoFar, StockedSoFar, SameRuns, CanUpdate, Apply, StatusesGiven;
      if group.packages == [] && !group.usesLocalTarget {
        return [];
      }
      if runId == "" || group.usesLocalTarget || !host.dispatched(group) {
        return host.run(group);
      }
      var updated := Update(db, stock, runId, group.packages, "running", "", now);
      records := if updated then host.run(group) else UpdateFailures(group, runId, group.packages);
    }

    /** One group of a plan more. */
    method ExecutePlanned(ghost plans: seq<TaskGroupPlan>, ghost before: Store, ghost done: seq<nat>, i: nat, group: TaskGroup)
      returns (records: seq<Record>)
      requires Valid() && i < |plans| && group == plans[i].taskGroup && Executed(Context(), plans, before, db.store, done)
      modifies db
      ensures Valid() && (SafeSoFar(db) <==> old(SafeSoFar(db))) && (old(StockedSoFar(stock, db)) ==> StockedSoFar(stock, db))
      ensures records == OutcomeIn(Context(), before, plans)(i)
      ensures Executed(Context(), plans, before, db.store, done + [i])
    {
      hide Sound, SafeSoFar, StockedSoFar, Executed, GroupRecords, Apply, StatusesGiven, Tracked;
      ghost var middle := db.store;
      records := ExecuteTaskGroup(group);
      ExecutedOneMore(Context(), plans, before, middle, db.store, done, i, now);
    }
  }

  /** Every group has records with a status. */
  lemma OutcomeGiven(x: Execution, s: Store, plans: seq<TaskGroupPlan>, i: nat)
    requires forall group :: StatusesGiven(x.host.run(group))
    ensures StatusesGiven(OutcomeIn(x, s, plans)(i))
  {
    if i < |plans| {
      var group := plans[i].taskGroup;
      UpdateFailuresAre(group, x.runId, group.packages);
      assert StatusesGiven(x.host.run(group));
    }
  }
}
