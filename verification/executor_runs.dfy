// A run of the executer as a whole: its groups are executed, their records written
// to its items, and the run completed.
module ExecutorRuns {
  import opened Sequences
  import opened Packages
  import opened TaskPlans
  import opened TaskGroups
  import opened TransactionCodec
  import opened TransactionStore
  import opened SchedulerRefinement
  import opened SchedulerLaunches
  import opened ParallelTaskScheduler
  import opened ExecutorTransactions
  import opened ExecutorOutcomes
  import opened TaskRunner
  import opened TaskGraphBuilder

  /** Registry::resolvePluginName, the platform, and the execution part of the configuration. */
  datatype Settings = Settings(resolve: string -> string, windows: bool, jobs: nat, stopOnFirstFailure: bool, deleteCommitted: bool)

  function PolicyOf(s: Settings): Policy {
    Policy(s.windows, s.resolve)
  }

  function NewRun(taskGroups: seq<TaskGroup>, now: string): Op {
    Op.CreateRun(AllPackages(taskGroups), if taskGroups == [] then [] else taskGroups[0].flags, now)
  }

  // ------------------------------------------------------------- completion

  ghost predicate WrittenTo(itemId: ItemIds, before: Store, after: Store, runId: string, records: seq<Record>) {
    exists items :: ReadsItems(before, runId, items) && ResultsWritten(itemId, before, after, runId, items, records)
  }

  lemma WrittenKeepsActive(itemId: ItemIds, before: Store, after: Store, runId: string, records: seq<Record>)
    requires WrittenTo(itemId, before, after, runId, records)
    ensures after.active == before.active
  {
  }

  /** Results written to a run without items that are alike reach each of its items. */
  lemma WrittenReachesEach(itemId: ItemIds, before: Store, after: Store, runId: string, records: seq<Record>)
    requires DatabaseInv(itemId, before) && WrittenTo(itemId, before, after, runId, records)
    requires Recognized(itemId, before, runId, records) && NoneAlike(before, runId)
    ensures EachGetsOutcome(before, after, runId, records)
  {
    hide Recognized, NoneAlike, EachGetsOutcome, ReadsItems, ResultsWritten, KeysMatch, ActiveExact, AllReadable, OutcomesReach;
    var items :| ReadsItems(before, runId, items) && ResultsWritten(itemId, before, after, runId, items, records);
    RecordsReachItems(itemId, before, after, runId, items, records);
    EachIsReached(itemId, before, after, runId, items, records);
  }

  /** The run closed if all its items succeeded, otherwise only its state changed to failed. */
  ghost function Finished(itemId: ItemIds, deleteCommitted: bool, written: Store, runId: string, now: string): Store {
    if AllDone(written, runId) then Closed(itemId, deleteCommitted, written, runId, now)
    else Apply(itemId, written, MarkState(runId, "failed", now))
  }

  /** The records were written to the items of the run, and the run was finished. */
  ghost predicate CompletedAs(itemId: ItemIds, deleteCommitted: bool, before: Store, after: Store, runId: string, records: seq<Record>, now: string) {
    exists written :: WrittenTo(itemId, before, written, runId, records) && after == Finished(itemId, deleteCommitted, written, runId, now)
  }

  /** The run is over, committed or deleted, and none is active; or it is active and failed. */
  ghost predicate EndsOrStays(idle: bool, after: Store, runId: string) {
    if idle then after.active == None && (runId in after.runs ==> after.runs[runId].state == "committed")
    else after.active == Some(runId) && runId in after.runs && after.runs[runId].state == "failed"
  }

  // --------------------------------------------------------------- whole runs

  /** From a store with the active run x.runId: groups of the plans were started, their items marked, the run
      completed with their records and some more. */
  ghost predicate RunCompleted(s: Settings, x: Execution, plans: seq<TaskGroupPlan>, hasGraph: bool, before: Store, after: Store,
                               extra: seq<Record>, now: string) {
    exists started, records, executed ::
      && RunsAs(plans, OutcomeIn(x, before, plans), hasGraph, s.jobs, s.stopOnFirstFailure, started, records)
      && Executed(x, plans, before, executed, started) && DatabaseInv(x.itemId, executed)
      && CompletedAs(x.itemId, s.deleteCommitted, executed, after, x.runId, records + extra, now)
  }

  /** The group has a package of that name and version, and the action and system. */
  predicate InGroup(group: TaskGroup, p: Package) {
    group.action == p.action && group.system == p.system && exists q :: q in group.packages && q.name == p.name && q.version == p.version
  }

  ghost predicate InPlans(plans: seq<TaskGroupPlan>, p: Package) {
    exists plan :: plan in plans && InGroup(plan.taskGroup, p)
  }

  /** A success record for a package of the group. */
  predicate SuccessOf(group: TaskGroup, p: Package, record: Record) {
    && record.status == "success" && record.action == group.action && record.system == group.system
    && record.packageName == p.name && record.packageVersion == p.version
  }

  /** One success record for each package of the group. */
  ghost predicate SuccessFor(group: TaskGroup, records: seq<Record>) {
    |records| == |group.packages| && forall k :: 0 <= k < |records| ==> SuccessOf(group, group.packages[k], records[k])
  }

  ghost predicate AllSucceedOn(host: Host, plans: seq<TaskGroupPlan>) {
    forall plan :: plan in plans ==> SuccessFor(plan.taskGroup, host.run(plan.taskGroup))
  }

  /** The items of every group of the plans can be marked. */
  ghost predicate Updatable(x: Execution, s: Store, plans: seq<TaskGroupPlan>) {
    forall plan :: plan in plans ==> CanUpdate(x.itemId, s, x.runId, plan.taskGroup.packages, "running")
  }

  /** Every package of the plans is, by what records tell of it, an item of the run. */
  ghost predicate PlansAreItems(s: Store, runId: string, plans: seq<TaskGroupPlan>) {
    forall p: Package :: InPlans(plans, p) ==> exists key :: key in s.items && key.0 == runId && Alike(s.items[key].package, p)
  }

  /** Every item of the run is a package of the plans, or it is done and no group marks it. */
  ghost predicate ItemsAreCovered(x: Execution, s: Store, plans: seq<TaskGroupPlan>) {
    forall key :: key in s.items && key.0 == x.runId ==>
      InPlans(plans, s.items[key].package) || (Done(s.items[key].status) && !MarkedBy(x, plans, s, Indices(|plans|), key.1))
  }

  /** Further records about items of the run are successes, and the others name none of its items. */
  ghost predicate Harmless(itemId: ItemIds, s: Store, runId: string, extra: seq<Record>) {
    && Recognized(itemId, s, runId, extra)
    && forall record, key :: record in extra && key in s.items && key.0 == runId && About(record, s.items[key].package) ==> Done(record.status)
  }

  lemma SuccessHasNoFailure(x: Execution, s: Store, plans: seq<TaskGroupPlan>, i: nat)
    requires i < |plans| && AllSucceedOn(x.host, plans) && Updatable(x, s, plans)
    ensures !HasFailure(OutcomeIn(x, s, plans)(i))
    ensures SuccessFor(plans[i].taskGroup, OutcomeIn(x, s, plans)(i))
  {
    assert plans[i] in plans;
    hide CanUpdate;
    var group := plans[i].taskGroup;
    if group.packages == [] && !group.usesLocalTarget {
      assert OutcomeIn(x, s, plans)(i) == [];
    } else {
      assert SuccessFor(group, x.host.run(group));
    }
  }

  lemma {:induction false} ForwardRuns(plans: seq<TaskGroupPlan>, exec: Outcome, i: nat)
    requires i < |plans| && Forward(plans) && forall j: nat :: j < |plans| ==> !HasFailure(exec(j))
    ensures RunsInOrder(plans, exec, i)
    decreases i
  {
    hide HasFailure;
    forall s: nat | Edge(plans, s, i) ensures s < i && !HasFailure(exec(s)) && RunsInOrder(plans, exec, s) {
      ForwardRuns(plans, exec, s);
    }
  }

  /** On an index-topological plan every group is started if none fails. */
  lemma AllStarted(plans: seq<TaskGroupPlan>, exec: Outcome, hasGraph: bool, jobs: nat, stopOnFirstFailure: bool, started: seq<nat>, records: seq<Record>)
    requires RunsAs(plans, exec, hasGraph, jobs, stopOnFirstFailure, started, records)
    requires Forward(plans) && forall j: nat :: j < |plans| ==> !HasFailure(exec(j))
    ensures forall i: nat :: i in started <==> i < |plans|
  {
    hide HasFailure, RecordsOf, Forward, RunsInOrder;
    forall i: nat | i < |plans| ensures i in started {
      ForwardRuns(plans, exec, i);
      if RunsSequentially(plans, hasGraph, jobs) {
        assert Visited(plans, exec, stopOnFirstFailure, i) by { InOrderBelow(plans, exec); }
        assert SequentialRuns(plans, exec, stopOnFirstFailure)(i);
      } else {
        InOrderRuns(plans, exec, i);
        assert Runs(plans, exec, i);
        assert !SomeFails(exec, started);
      }
    }
  }

  lemma InOrderBelow(plans: seq<TaskGroupPlan>, exec: Outcome)
    ensures forall i: nat :: RunsInOrder(plans, exec, i) ==> i < |plans|
  {
  }

  lemma {:induction false} RecordsAre(runs: nat -> bool, exec: Outcome, n: nat, record: Record)
    ensures record in RecordsOf(runs, exec, n) <==> exists i: nat :: i < n && runs(i) && record in exec(i)
  {
    if n > 0 {
      RecordsAre(runs, exec, n - 1, record);
    }
  }

  lemma {:induction false} LastExists(records: seq<Record>, p: Package)
    requires ReportedOn(records, p)
    ensures exists k: nat :: LastAbout(records, p, k)
  {
    var n := |records| - 1;
    var rest := records[..n];
    assert records == rest + [records[n]];
    if About(records[n], p) {
      assert LastAbout(records, p, n);
    } else {
      LastExists(rest, p);
      var k: nat :| LastAbout(rest, p, k);
      assert LastAbout(records, p, k);
    }
  }

  /** An item ends as done if all records about it are successes, and there is one or it was done before. */
  lemma EndsDone(records: seq<Record>, item: ItemRecord, after: ItemRecord)
    requires GetsOutcome(records, item, after)
    requires forall record :: record in records && About(record, item.package) ==> Done(record.status)
    requires ReportedOn(records, item.package) || Done(item.status)
    ensures Done(after.status)
  {
    hide About, Done;
    if ReportedOn(records, item.package) {
      LastExists(records, item.package);
      var k: nat :| LastAbout(records, item.package, k);
      assert records[k] in records;
    }
  }

  /** Where all records about items of a run are successes and each item has one or was done, the run is all done exactly
      if every item that is alike an earlier one was done before: the records only reach the first of those. */
  lemma TwinsDecide(before: Store, after: Store, runId: string, items: seq<ItemRecord>, records: seq<Record>)
    requires OutcomesReach(before, after, runId, items, records) && before.items.Keys == after.items.Keys
    requires forall record, key :: record in records && key in before.items && key.0 == runId && About(record, before.items[key].package) ==>
               Done(record.status)
    requires forall key :: key in before.items && key.0 == runId ==> ReportedOn(records, before.items[key].package) || Done(before.items[key].status)
    ensures AllDone(after, runId) <==>
            forall key :: key in before.items && key.0 == runId ==> Leads(items, before.items[key]) || Done(before.items[key].status)
  {
    hide Leads, About, Done, GetsOutcome, ReportedOn;
    forall key | key in before.items && key.0 == runId
      ensures key in after.items && (Done(after.items[key].status) <==> Leads(items, before.items[key]) || Done(before.items[key].status))
    {
      if Leads(items, before.items[key]) {
        EndsDone(records, before.items[key], after.items[key]);
      }
    }
    assert forall key :: key in after.items ==> key in before.items.Keys;
    hide OutcomesReach;
  }

  ghost predicate ReportedOn(records: seq<Record>, p: Package) {
    exists record :: record in records && About(record, p)
  }

  /** What the records of a fully successful execution are about. */
  ghost predicate SuccessRecords(plans: seq<TaskGroupPlan>, records: seq<Record>) {
    && (forall record :: record in records ==> record.status == "success" && InPlans(plans, Bare(record)))
    && (forall p: Package :: InPlans(plans, p) ==> ReportedOn(records, p))
  }

  lemma GroupSucceeds(plan: TaskGroupPlan, plans: seq<TaskGroupPlan>, records: seq<Record>, record: Record)
    requires plan in plans && SuccessFor(plan.taskGroup, records) && record in records
    ensures record.status == "success" && InPlans(plans, Bare(record))
  {
    var k :| 0 <= k < |records| && records[k] == record;
    assert SuccessOf(plan.taskGroup, plan.taskGroup.packages[k], records[k]);
    assert plan.taskGroup.packages[k] in plan.taskGroup.packages;
    assert InGroup(plan.taskGroup, Bare(record));
  }

  lemma GroupReports(group: TaskGroup, records: seq<Record>, p: Package) returns (record: Record)
    requires SuccessFor(group, records) && InGroup(group, p)
    ensures record in records && About(record, p)
  {
    var q :| q in group.packages && q.name == p.name && q.version == p.version;
    var k :| 0 <= k < |group.packages| && group.packages[k] == q;
    record := records[k];
    assert SuccessOf(group, q, record);
  }

  lemma {:induction false} PlansReport(plans: seq<TaskGroupPlan>, exec: Outcome, started: seq<nat>, p: Package)
    requires forall i: nat :: i < |plans| ==> SuccessFor(plans[i].taskGroup, exec(i))
    requires (forall i: nat :: i in started <==> i < |plans|) && InPlans(plans, p)
    ensures ReportedOn(RecordsOf(MembersOf(started), exec, |plans|), p)
  {
    hide RecordsOf, InGroup, InPlans, SuccessFor, About;
    var i := PlanOf(plans, p);
    var record := GroupReports(plans[i].taskGroup, exec(i), p);
    RecordsAre(MembersOf(started), exec, |plans|, record);
    assert Among(started, i);
  }

  lemma {:induction false} RecordsSucceed(plans: seq<TaskGroupPlan>, exec: Outcome, started: seq<nat>)
    requires forall i: nat :: i < |plans| ==> SuccessFor(plans[i].taskGroup, exec(i))
    requires forall i: nat :: i in started <==> i < |plans|
    ensures SuccessRecords(plans, RecordsOf(MembersOf(started), exec, |plans|))
  {
    hide RecordsOf, InGroup, InPlans, SuccessFor, About, Bare;
    var records := RecordsOf(MembersOf(started), exec, |plans|);
    forall record | record in records ensures record.status == "success" && InPlans(plans, Bare(record)) {
      RecordsAre(MembersOf(started), exec, |plans|, record);
      var i: nat :| i < |plans| && MembersOf(started)(i) && record in exec(i);
      GroupSucceeds(plans[i], plans, exec(i), record);
    }
    forall p: Package | InPlans(plans, p) ensures ReportedOn(records, p) {
      PlansReport(plans, exec, started, p);
    }
  }

  lemma PlanOf(plans: seq<TaskGroupPlan>, p: Package) returns (i: nat)
    requires InPlans(plans, p)
    ensures i < |plans| && InGroup(plans[i].taskGroup, p)
  {
    hide InGroup;
    var plan :| plan in plans && InGroup(plan.taskGroup, p);
    i :| 0 <= i < |plans| && plans[i] == plan;
  }

  /** On an index-topological plan, groups that all succeed are all executed. */
  lemma ExecutionSucceeds(x: Execution, s: Store, plans: seq<TaskGroupPlan>, hasGraph: bool, jobs: nat, stopOnFirstFailure: bool,
                          started: seq<nat>, records: seq<Record>)
    requires RunsAs(plans, OutcomeIn(x, s, plans), hasGraph, jobs, stopOnFirstFailure, started, records)
    requires Forward(plans) && AllSucceedOn(x.host, plans) && Updatable(x, s, plans)
    ensures forall i: nat :: i in started <==> i < |plans|
    ensures SuccessRecords(plans, records)
  {
    var exec := OutcomeIn(x, s, plans);
    forall i: nat | i < |plans|
      ensures !HasFailure(exec(i)) && SuccessFor(plans[i].taskGroup, exec(i))
    {
      SuccessHasNoFailure(x, s, plans, i);
    }
    assert records == RecordsOf(MembersOf(started), exec, |plans|);
    hide RunsAs, Forward, AllSucceedOn, Updatable, OutcomeIn, RecordsOf, HasFailure, SuccessFor, SuccessRecords;
    AllStarted(plans, exec, hasGraph, jobs, stopOnFirstFailure, started, records);
    RecordsSucceed(plans, exec, started);
  }

  /** The store in which the results are written has the items it had before the execution, with their packages. */
  lemma ExecutedKeepsItems(x: Execution, plans: seq<TaskGroupPlan>, before: Store, after: Store, done: seq<nat>)
    requires Executed(x, plans, before, after, done)
    ensures forall key :: key in before.items <==> key in after.items
    ensures forall key :: key in before.items ==> after.items[key].package == before.items[key].package
    ensures forall key :: key in before.items && !MarkedBy(x, plans, before, done, key.1) ==> after.items[key] == before.items[key]
  {
    assert before.items.Keys == after.items.Keys;
    hide MarkedBy;
  }

  /** What is about to be written to the items is all success. */
  lemma SuccessIsHarmless(itemId: ItemIds, s: Store, runId: string, plans: seq<TaskGroupPlan>, records: seq<Record>, extra: seq<Record>)
    requires SuccessRecords(plans, records) && PlansAreItems(s, runId, plans) && Harmless(itemId, s, runId, extra)
    ensures Harmless(itemId, s, runId, records + extra)
  {
    hide InPlans, ReportedOn;
    forall record | record in records + extra
      ensures AboutSome(s, runId, record) || (runId, itemId(Bare(record))) !in s.items
    {
      if record in records {
        var key :| key in s.items && key.0 == runId && Alike(s.items[key].package, Bare(record));
        assert About(record, s.items[key].package);
      }
    }
    hide Bare, About;
    assert Done("success");
  }

  lemma AllEndDone(x: Execution, plans: seq<TaskGroupPlan>, before: Store, executed: Store, written: Store, done: seq<nat>, records: seq<Record>, extra: seq<Record>)
    requires Executed(x, plans, before, executed, done) && (forall i: nat :: i in done <==> i < |plans|) && ItemsAreCovered(x, before, plans)
    requires SuccessRecords(plans, records) && Harmless(x.itemId, executed, x.runId, records + extra)
    requires EachGetsOutcome(executed, written, x.runId, records + extra) && executed.items.Keys == written.items.Keys
    ensures AllDone(written, x.runId)
  {
    var all := Indices(|plans|);
    forall i: nat ensures i in all <==> i < |plans| {
      assert i < |plans| ==> all[i] == i;
    }
    ExecutedSame(x, plans, before, executed, done, all);
    ExecutedKeepsItems(x, plans, before, executed, all);
    hide Executed, InPlans, About, Bare, Recognized, MarkedBy, GetsOutcome, Done, Indices;
    forall key | key in written.items && key.0 == x.runId ensures Done(written.items[key].status) {
      assert key in executed.items.Keys;
      var item := executed.items[key];
      if InPlans(plans, before.items[key].package) {
        assert ReportedOn(records, item.package);
        ReportedMore(records, extra, item.package);
      }
      EndsDone(records + extra, item, written.items[key]);
    }
  }

  lemma ReportedMore(records: seq<Record>, extra: seq<Record>, p: Package)
    requires ReportedOn(records, p)
    ensures ReportedOn(records + extra, p)
  {
    hide About;
    var record :| record in records && About(record, p);
    assert record in records + extra;
  }

  /** If every group of an index-topological plan succeeds, the run ends: it is committed, or deleted if so configured,
      and none is active. */
  lemma SucceededRunEnds(s: Settings, x: Execution, plans: seq<TaskGroupPlan>, hasGraph: bool, before: Store, after: Store,
                         extra: seq<Record>, now: string)
    requires RunCompleted(s, x, plans, hasGraph, before, after, extra, now) && DatabaseInv(x.itemId, before) && before.active == Some(x.runId)
    requires Forward(plans) && AllSucceedOn(x.host, plans) && Updatable(x, before, plans)
    requires PlansAreItems(before, x.runId, plans) && ItemsAreCovered(x, before, plans) && NoneAlike(before, x.runId)
    requires Harmless(x.itemId, before, x.runId, extra)
    ensures EndsOrStays(true, after, x.runId) && (x.runId in after.runs <==> !s.deleteCommitted)
  {
    hide RunsAs, Executed, Forward, AllSucceedOn, Updatable, PlansAreItems, ItemsAreCovered, NoneAlike, Harmless, DatabaseInv, WrittenTo, OutcomeIn,
         SuccessRecords, Closed, AllDone, Recognized, EachGetsOutcome, Finished;
    var started, records, executed :|
      && RunsAs(plans, OutcomeIn(x, before, plans), hasGraph, s.jobs, s.stopOnFirstFailure, started, records)
      && Executed(x, plans, before, executed, started) && DatabaseInv(x.itemId, executed)
      && CompletedAs(x.itemId, s.deleteCommitted, executed, after, x.runId, records + extra, now);
    var written :| WrittenTo(x.itemId, executed, written, x.runId, records + extra)
                   && after == Finished(x.itemId, s.deleteCommitted, written, x.runId, now);
    ExecutionSucceeds(x, before, plans, hasGraph, s.jobs, s.stopOnFirstFailure, started, records);
    ExecutedCarriesOver(x, plans, before, executed, started, extra);
    SuccessIsHarmless(x.itemId, executed, x.runId, plans, records, extra);
    assert Recognized(x.itemId, executed, x.runId, records + extra) by { HarmlessIsRecognized(x.itemId, executed, x.runId, records + extra); }
    WrittenReachesEach(x.itemId, executed, written, x.runId, records + extra);
    WrittenKeepsActive(x.itemId, executed, written, x.runId, records + extra);
    WrittenKeepsKeys(x.itemId, executed, written, x.runId, records + extra);
    AllEndDone(x, plans, before, executed, written, started, records, extra);
    FinishedEnds(x.itemId, s.deleteCommitted, written, x.runId, now);
  }

  lemma HarmlessIsRecognized(itemId: ItemIds, s: Store, runId: string, records: seq<Record>)
    requires Harmless(itemId, s, runId, records)
    ensures Recognized(itemId, s, runId, records)
  {
  }

  lemma WrittenKeepsKeys(itemId: ItemIds, before: Store, after: Store, runId: string, records: seq<Record>)
    requires WrittenTo(itemId, before, after, runId, records)
    ensures after.items.Keys == before.items.Keys
  {
    hide LastFor, WithRecord;
  }

  lemma FinishedEnds(itemId: ItemIds, deleteCommitted: bool, written: Store, runId: string, now: string)
    requires AllDone(written, runId) && written.active == Some(runId)
    ensures var after := Finished(itemId, deleteCommitted, written, runId, now);
            EndsOrStays(true, after, runId) && (runId in after.runs <==> !deleteCommitted)
  {
    ClosedEnds(itemId, deleteCommitted, written, runId, now);
    hide Closed, AllDone;
  }

  /** What the store before the execution says about the packages of its items still holds after it. */
  lemma ExecutedCarriesOver(x: Execution, plans: seq<TaskGroupPlan>, before: Store, after: Store, done: seq<nat>, extra: seq<Record>)
    requires Executed(x, plans, before, after, done)
    ensures after.active == before.active
    ensures PlansAreItems(before, x.runId, plans) ==> PlansAreItems(after, x.runId, plans)
    ensures NoneAlike(before, x.runId) ==> NoneAlike(after, x.runId)
    ensures Harmless(x.itemId, before, x.runId, extra) ==> Harmless(x.itemId, after, x.runId, extra)
  {
    assert after.active == before.active;
    ExecutedKeepsItems(x, plans, before, after, done);
    hide Executed;
    SamePackagesSameAnswers(x.itemId, before, after, x.runId, plans, extra);
  }

  lemma SamePackagesSameAnswers(itemId: ItemIds, before: Store, after: Store, runId: string, plans: seq<TaskGroupPlan>, extra: seq<Record>)
    requires forall key :: key in before.items <==> key in after.items
    requires forall key :: key in before.items ==> after.items[key].package == before.items[key].package
    ensures PlansAreItems(before, runId, plans) ==> PlansAreItems(after, runId, plans)
    ensures NoneAlike(before, runId) ==> NoneAlike(after, runId)
    ensures Harmless(itemId, before, runId, extra) ==> Harmless(itemId, after, runId, extra)
  {
    hide InPlans, About, Bare, Done, Alike;
    forall p: Package | InPlans(plans, p) && PlansAreItems(before, runId, plans)
      ensures exists key :: key in after.items && key.0 == runId && Alike(after.items[key].package, p)
    {
      var key :| key in before.items && key.0 == runId && Alike(before.items[key].package, p);
      assert key in after.items;
    }
    forall record ensures AboutSome(before, runId, record) ==> AboutSome(after, runId, record) {
      if AboutSome(before, runId, record) {
        var key :| key in before.items && key.0 == runId && About(record, before.items[key].package);
        assert key in after.items;
      }
    }
    hide AboutSome;
  }

  // ---------------------------------------------------------------- a new run

  /** The packages of a group have its action and system. */
  ghost predicate Uniform(groups: seq<TaskGroup>) {
    forall group, p :: group in groups && p in group.packages ==> p.action == group.action && p.system == group.system
  }

  /** Further records about one of the packages are successes, and the others have the id of none. */
  ghost predicate HarmlessTo(itemId: ItemIds, packages: seq<Package>, extra: seq<Record>) {
    forall record, p :: record in extra && p in packages ==>
      if AboutAny(record, packages) then About(record, p) ==> Done(record.status) else itemId(Bare(record)) != itemId(p)
  }

  predicate AboutAny(record: Record, packages: seq<Package>) {
    exists p :: p in packages && About(record, p)
  }

  ghost predicate NoTwoAlike(packages: seq<Package>) {
    forall j, k :: 0 <= j < k < |packages| ==> !Alike(packages[j], packages[k])
  }

  /** The run id is new, ids and records tell the packages apart, and no further record says otherwise of one. */
  ghost predicate CleanRun(itemId: ItemIds, before: Store, groups: seq<TaskGroup>, extra: seq<Record>, now: string) {
    && NewRunId(AllPackages(groups), now) !in before.runs && DistinctIds(itemId, AllPackages(groups)) && NoTwoAlike(AllPackages(groups))
    && Uniform(groups) && HarmlessTo(itemId, AllPackages(groups), extra)
  }

  /** The plans are for the groups. */
  ghost predicate PlansFor(groups: seq<TaskGroup>, plans: seq<TaskGroupPlan>) {
    && |plans| == |groups|
    && forall i :: 0 <= i < |plans| ==>
         && plans[i].taskGroup.packages == groups[i].packages
         && plans[i].taskGroup.action == groups[i].action && plans[i].taskGroup.system == groups[i].system
  }

  lemma {:induction false} PackagesAre(groups: seq<TaskGroup>, p: Package)
    ensures p in AllPackages(groups) <==> exists group :: group in groups && p in group.packages
  {
    if groups != [] {
      var rest, last := groups[..|groups| - 1], groups[|groups| - 1];
      PackagesAre(rest, p);
      assert groups == rest + [last];
    }
  }

  lemma PlanIsGroup(groups: seq<TaskGroup>, plans: seq<TaskGroupPlan>, plan: TaskGroupPlan)
    requires PlansFor(groups, plans) && plan in plans
    ensures exists group :: group in groups && group.packages == plan.taskGroup.packages && group.action == plan.taskGroup.action &&
                            group.system == plan.taskGroup.system
  {
    var i :| 0 <= i < |plans| && plans[i] == plan;
    assert groups[i] in groups;
  }

  /** By what records tell, the packages of the plans are those of the groups. */
  lemma PlannedAre(groups: seq<TaskGroup>, plans: seq<TaskGroupPlan>, p: Package)
    requires PlansFor(groups, plans) && Uniform(groups)
    ensures InPlans(plans, p) <==> exists q :: q in AllPackages(groups) && Alike(q, p)
  {
    hide AllPackages;
    if InPlans(plans, p) {
      var plan :| plan in plans && InGroup(plan.taskGroup, p);
      PlanIsGroup(groups, plans, plan);
      var q :| q in plan.taskGroup.packages && q.name == p.name && q.version == p.version;
      PackagesAre(groups, q);
      assert Alike(q, p);
    }
    if q :| q in AllPackages(groups) && Alike(q, p) {
      PackagesAre(groups, q);
      var group :| group in groups && q in group.packages;
      var i :| 0 <= i < |groups| && groups[i] == group;
      assert plans[i] in plans && InGroup(plans[i].taskGroup, p);
    }
  }

  lemma NewRunUpdatable(x: Execution, s: Store, groups: seq<TaskGroup>, plans: seq<TaskGroupPlan>)
    requires HoldsPackages(x.itemId, s, x.runId, AllPackages(groups)) && AllReadable(s) && PlansFor(groups, plans)
    ensures Updatable(x, s, plans)
  {
    hide AllPackages;
    forall plan | plan in plans ensures CanUpdate(x.itemId, s, x.runId, plan.taskGroup.packages, "running") {
      forall k | 0 <= k < |plan.taskGroup.packages| ensures Readable(s, x.runId, x.itemId(plan.taskGroup.packages[k])) {
        var p := plan.taskGroup.packages[k];
        PlanIsGroup(groups, plans, plan);
        PackagesAre(groups, p);
        assert p in plan.taskGroup.packages;
        var j :| 0 <= j < |AllPackages(groups)| && AllPackages(groups)[j] == p;
        assert (x.runId, x.itemId(AllPackages(groups)[j])) in s.items;
      }
    }
  }

  /** The item of package k. */
  lemma ItemOfPackage(itemId: ItemIds, s: Store, runId: string, packages: seq<Package>, p: Package)
    requires HoldsPackages(itemId, s, runId, packages) && p in packages
    ensures (runId, itemId(p)) in s.items && Alike(s.items[(runId, itemId(p))].package, p)
  {
    var k :| 0 <= k < |packages| && packages[k] == p;
    assert (runId, itemId(packages[k])) in s.items;
  }

  lemma PackageOfItem(itemId: ItemIds, s: Store, runId: string, packages: seq<Package>, key: (string, string)) returns (k: nat)
    requires HoldsPackages(itemId, s, runId, packages) && key in s.items && key.0 == runId
    ensures k < |packages| && itemId(packages[k]) == key.1 && Alike(s.items[key].package, packages[k])
  {
    assert Listed(itemId, packages, key.1);
    k :| 0 <= k < |packages| && itemId(packages[k]) == key.1;
    assert (runId, itemId(packages[k])) == key;
  }

  lemma NewRunIsPlanned(x: Execution, s: Store, groups: seq<TaskGroup>, plans: seq<TaskGroupPlan>)
    requires HoldsPackages(x.itemId, s, x.runId, AllPackages(groups)) && PlansFor(groups, plans) && Uniform(groups)
    ensures PlansAreItems(s, x.runId, plans) && ItemsAreCovered(x, s, plans)
  {
    var packages := AllPackages(groups);
    hide HoldsPackages, AllPackages, InPlans, Uniform, PlansFor, MarkedBy;
    forall p: Package | InPlans(plans, p) ensures exists key :: key in s.items && key.0 == x.runId && Alike(s.items[key].package, p) {
      PlannedAre(groups, plans, p);
      var q :| q in packages && Alike(q, p);
      ItemOfPackage(x.itemId, s, x.runId, packages, q);
      assert Alike(s.items[(x.runId, x.itemId(q))].package, p);
    }
    forall key | key in s.items && key.0 == x.runId ensures InPlans(plans, s.items[key].package) {
      var k := PackageOfItem(x.itemId, s, x.runId, packages, key);
      PlannedAre(groups, plans, s.items[key].package);
      assert packages[k] in packages && Alike(packages[k], s.items[key].package);
    }
  }

  lemma NewRunApart(itemId: ItemIds, s: Store, runId: string, packages: seq<Package>)
    requires HoldsPackages(itemId, s, runId, packages) && NoTwoAlike(packages)
    ensures NoneAlike(s, runId)
  {
    hide HoldsPackages;
    forall key, other | key in s.items && other in s.items && key.0 == runId && other.0 == runId && key != other
      ensures !Alike(s.items[key].package, s.items[other].package)
    {
      var j := PackageOfItem(itemId, s, runId, packages, key);
      var k := PackageOfItem(itemId, s, runId, packages, other);
      assert j != k;
      if j < k {
        assert !Alike(packages[j], packages[k]);
      } else {
        assert !Alike(packages[k], packages[j]);
      }
    }
  }

  lemma NoItemOf(itemId: ItemIds, s: Store, runId: string, packages: seq<Package>, id: string)
    requires HoldsPackages(itemId, s, runId, packages) && forall p :: p in packages ==> itemId(p) != id
    ensures (runId, id) !in s.items
  {
    assert !Listed(itemId, packages, id);
    assert forall key :: key in s.items && key.0 == runId ==> Listed(itemId, packages, key.1);
    assert (runId, id).0 == runId && (runId, id).1 == id;
  }

  lemma NewRunHarmless(itemId: ItemIds, s: Store, runId: string, packages: seq<Package>, extra: seq<Record>)
    requires HoldsPackages(itemId, s, runId, packages) && HarmlessTo(itemId, packages, extra)
    ensures Harmless(itemId, s, runId, extra)
  {
    hide HoldsPackages, Bare, Done;
    forall record, key | record in extra && key in s.items && key.0 == runId && About(record, s.items[key].package) ensures Done(record.status) {
      var k := PackageOfItem(itemId, s, runId, packages, key);
      assert packages[k] in packages && About(record, packages[k]);
    }
    forall record | record in extra ensures AboutSome(s, runId, record) || (runId, itemId(Bare(record))) !in s.items {
      if AboutAny(record, packages) {
        var p :| p in packages && About(record, p);
        ItemOfPackage(itemId, s, runId, packages, p);
        assert About(record, s.items[(runId, itemId(p))].package);
      } else {
        NoItemOf(itemId, s, runId, packages, itemId(Bare(record)));
      }
    }
  }

  /** If every group of an index-topological plan succeeds, a clean new run ends. */
  lemma NewRunSucceeds(s: Settings, itemId: ItemIds, host: Host, groups: seq<TaskGroup>, plans: seq<TaskGroupPlan>, before: Store, after: Store,
                       extra: seq<Record>, now: string)
    requires IgnoresFlags(itemId) && DatabaseInv(itemId, before) && !HasActive(before) && now != ""
    requires CleanRun(itemId, before, groups, extra, now) && PlansFor(groups, plans) && Forward(plans) && AllSucceedOn(host, plans)
    requires var runId := NewRunId(AllPackages(groups), now);
             RunCompleted(s, Execution(itemId, host, runId), plans, true, Apply(itemId, before, NewRun(groups, now)), after, extra, now)
    ensures var runId := NewRunId(AllPackages(groups), now);
            EndsOrStays(true, after, runId) && (runId in after.runs <==> !s.deleteCommitted)
  {
    var packages, runId := AllPackages(groups), NewRunId(AllPackages(groups), now);
    var flags := if groups == [] then [] else groups[0].flags;
    var begun := Apply(itemId, before, NewRun(groups, now));
    var x := Execution(itemId, host, runId);
    assert begun.active == Some(runId) by {
      hide AllPackages, NewRunId, Planned, StoredFlags;
    }
    assert LegalOp(NewRun(groups, now));
    hide AllPackages, NewRunId, Apply, RunCompleted, Forward, AllSucceedOn, IgnoresFlags, LegalOp;
    LegalKeepsInv(itemId, before, NewRun(groups, now));
    CreateHolds(itemId, before, packages, flags, now);
    hide HoldsPackages, KeysMatch, ActiveExact, DistinctIds, NoTwoAlike, Uniform, HarmlessTo, EndsOrStays, PlansFor;
    NewRunUpdatable(x, begun, groups, plans);
    NewRunIsPlanned(x, begun, groups, plans);
    NewRunApart(itemId, begun, runId, packages);
    NewRunHarmless(itemId, begun, runId, packages, extra);
    SucceededRunEnds(s, x, plans, true, begun, after, extra, now);
  }

  // ----------------------------------------------------------- a recovered run

  /** The plans createPlans makes of groups without a graph. */
  function Unlinked(groups: seq<TaskGroup>): (plans: seq<TaskGroupPlan>)
    ensures |plans| == |groups| && forall i :: 0 <= i < |groups| ==> plans[i] == TaskGroupPlan(groups[i], [], 0)
  {
    seq(|groups|, i requires 0 <= i < |groups| => TaskGroupPlan(groups[i], [], 0))
  }

  lemma UnlinkedPlans(groups: seq<TaskGroup>)
    ensures WellFormed(Unlinked(groups)) && Forward(Unlinked(groups)) && PlansFor(groups, Unlinked(groups))
  {
    var plans := Unlinked(groups);
    forall t | 0 <= t < |plans| ensures Predecessors(plans, t) == {} {
    }
  }

  /** The active run was recovered; groups that were still to be executed were executed one after the other, and the
      run completed. */
  ghost predicate RecoveredVia(s: Settings, itemId: ItemIds, host: Host, before: Store, middle: Store, after: Store, items: seq<ItemRecord>,
                               groups: seq<TaskGroup>, now: string)
    requires HasActive(before) && before.active.value in before.runs
  {
    var runId := before.active.value;
    && ReadsItems(before, runId, items)
    && RecoveredAs(Recovery(itemId, s.resolve, host, before.items.Keys, runId), s.deleteCommitted, before, middle, OpenItems(items), groups, now)
    && if groups == [] then after == middle
       else DatabaseInv(itemId, middle) && RunCompleted(s, Execution(itemId, host, runId), Unlinked(groups), false, middle, after, [], now)
  }

  ghost predicate RecoveryCompleted(s: Settings, itemId: ItemIds, host: Host, before: Store, after: Store, now: string)
    requires HasActive(before) && before.active.value in before.runs
  {
    exists items, groups, middle :: RecoveredVia(s, itemId, host, before, middle, after, items, groups, now)
  }

  /** No item of the run has failed, none is alike another one, and the open ones are stored under resolved names. */
  ghost predicate CleanRecovery(resolve: string -> string, before: Store, runId: string) {
    && NoneAlike(before, runId)
    && forall key :: key in before.items && key.0 == runId ==>
         before.items[key].status != "failed" && (!Terminal(before.items[key].status) ==> OwnName(resolve, before.items[key].package))
  }

  predicate OwnName(resolve: string -> string, p: Package) {
    resolve(p.system) == p.system
  }

  /** Every group of packages of the run succeeds. */
  ghost predicate RunSucceeds(host: Host, before: Store, runId: string) {
    forall group: TaskGroup :: OfRun(before, runId, group) ==> SuccessFor(group, host.run(group))
  }

  ghost predicate OfRun(before: Store, runId: string, group: TaskGroup) {
    forall p :: p in group.packages ==> exists key :: key in before.items && key.0 == runId && before.items[key].package == p
  }

  lemma RecoveredAreUniform(groups: seq<TaskGroup>, flags: seq<string>)
    requires RecoveredGroups(groups, flags)
    ensures Uniform(groups)
  {
    hide MaximalRuns, WithFlags;
    var found :| MaximalRuns(found, AllPackages(groups)) && groups == WithFlags(found, flags);
    WithFlagsAt(found, flags);
    forall group, p | group in groups && p in group.packages ensures p.action == group.action && p.system == group.system {
      var i :| 0 <= i < |groups| && groups[i] == group;
      RunIsUniform(found, AllPackages(groups), i);
    }
  }

  lemma RunIsUniform(groups: seq<TaskGroup>, packages: seq<Package>, i: nat)
    requires MaximalRuns(groups, packages) && i < |groups|
    ensures forall p :: p in groups[i].packages ==> p.action == groups[i].action && p.system == groups[i].system
  {
    assert Groups(groups[i], groups[i].packages);
  }

  lemma {:induction false} WithFlagsAt(groups: seq<TaskGroup>, flags: seq<string>)
    ensures |WithFlags(groups, flags)| == |groups|
    ensures forall i :: 0 <= i < |groups| ==> WithFlags(groups, flags)[i] == groups[i].(flags := flags)
  {
    if groups != [] {
      WithFlagsAt(groups[..|groups| - 1], flags);
    }
  }

  /** An open item under its resolved name is run again as it is stored. */
  lemma PendingAsStored(r: Recovery, item: ItemRecord)
    requires OwnName(r.resolve, item.package)
    ensures PendingItem(r, item) == item && ResolvedId(r, item) == r.itemId(item.package)
  {
    assert Resolved(r.resolve, item.package) == item.package;
    hide Unchecked;
  }

  /** The key of a pending item. */
  ghost predicate PendingAt(r: Recovery, s: Store, open: seq<ItemRecord>, key: (string, string)) {
    && key in s.items && key.0 == r.runId && r.itemId(s.items[key].package) == key.1
    && s.items[key] in open && StillPending(r, open, s.items[key])
  }

  lemma RecoveredPackage(r: Recovery, deleteCommitted: bool, before: Store, middle: Store, items: seq<ItemRecord>, groups: seq<TaskGroup>,
                         p: Package, now: string) returns (key: (string, string))
    requires KeysMatch(r.itemId, before) && ReadsItems(before, r.runId, items) && CleanRecovery(r.resolve, before, r.runId)
    requires r.runId in before.runs && groups != [] && RecoveredAs(r, deleteCommitted, before, middle, OpenItems(items), groups, now)
    requires p in AllPackages(groups)
    ensures PendingAt(r, before, OpenItems(items), key) && before.items[key].package == p
  {
    ItemsAreStored(r.itemId, before, r.runId, items);
    FilterMembers(IsOpen(), items);
    hide StillPending, AllPackages, RecoveredGroups, ReadsItems, KeysMatch, Filter, PendingItem, Terminal;
    var open := OpenItems(items);
    var item :| item in open && StillPending(r, open, item) && PendingItem(r, item).package == p;
    assert item in items && !Terminal(item.status);
    key := (r.runId, item.itemId);
    assert before.items[key] == item;
    PendingAsStored(r, item);
  }

  lemma PendingIsPlanned(r: Recovery, deleteCommitted: bool, before: Store, middle: Store, items: seq<ItemRecord>, groups: seq<TaskGroup>,
                         key: (string, string), now: string)
    requires CleanRecovery(r.resolve, before, r.runId) && r.runId in before.runs && groups != []
    requires RecoveredAs(r, deleteCommitted, before, middle, OpenItems(items), groups, now)
    requires PendingAt(r, before, OpenItems(items), key)
    ensures before.items[key].package in AllPackages(groups)
  {
    var item := before.items[key];
    FilterMembers(IsOpen(), items);
    hide StillPending, AllPackages, RecoveredGroups, Filter, PendingItem, Terminal;
    assert !Terminal(item.status);
    PendingAsStored(r, item);
    assert PendingItem(r, item).package == item.package;
  }

  /** After the first half of recovery an item is done, or it is pending and as it was. */
  lemma DoneOrPending(r: Recovery, before: Store, settled: Store, items: seq<ItemRecord>, key: (string, string))
    requires DatabaseInv(r.itemId, before) && ReadsItems(before, r.runId, items) && CleanRecovery(r.resolve, before, r.runId)
    requires Settles(before, settled, r.runId, SettledIds(r, OpenItems(items))) && key in before.items && key.0 == r.runId
    ensures key in settled.items && (PendingAt(r, before, OpenItems(items), key) || Done(settled.items[key].status))
  {
    var item, open := before.items[key], OpenItems(items);
    EveryItemIsRead(before, r.runId, items);
    FilterMembers(IsOpen(), items);
    SettledIdsAre(r, open);
    assert key in before.items.Keys && before.items.Keys == settled.items.Keys;
    assert r.itemId(item.package) == key.1;
    hide ReadsItems, KeysMatch, AllReadable, ActiveExact, Filter, StillPending, SettledIds, ResolvedId, SameRuns;
    TerminalIs();
    if !Terminal(item.status) && !StillPending(r, open, item) {
      hide Terminal;
      PendingAsStored(r, item);
      assert item in open && ResolvedId(r, item) == key.1;
      assert key.1 in SettledIds(r, open);
    }
  }

  lemma RecoveredCovers(r: Recovery, deleteCommitted: bool, before: Store, middle: Store, items: seq<ItemRecord>, groups: seq<TaskGroup>, now: string)
    requires DatabaseInv(r.itemId, before) && ReadsItems(before, r.runId, items) && CleanRecovery(r.resolve, before, r.runId)
    requires r.runId in before.runs && groups != [] && RecoveredAs(r, deleteCommitted, before, middle, OpenItems(items), groups, now)
    ensures ItemsAreCovered(Execution(r.itemId, r.host, r.runId), middle, Unlinked(groups))
  {
    var x, plans := Execution(r.itemId, r.host, r.runId), Unlinked(groups);
    RecoveredStore(r, deleteCommitted, before, middle, items, groups, now);
    RecoveredAreUniform(groups, before.runs[r.runId].flags);
    UnlinkedPlans(groups);
    forall key | key in middle.items && key.0 == x.runId
      ensures InPlans(plans, middle.items[key].package) || (Done(middle.items[key].status) && !MarkedBy(x, plans, middle, Indices(|plans|), key.1))
    {
      RecoveredItem(r, deleteCommitted, before, middle, items, groups, key, now);
    }
  }

  /** What recovery leaves of the items: their packages, and their statuses but for those it settled. */
  lemma RecoveredStore(r: Recovery, deleteCommitted: bool, before: Store, middle: Store, items: seq<ItemRecord>, groups: seq<TaskGroup>, now: string)
    requires r.runId in before.runs && groups != [] && RecoveredAs(r, deleteCommitted, before, middle, OpenItems(items), groups, now)
    ensures middle.active == before.active && RecoveredGroups(groups, before.runs[r.runId].flags)
    ensures forall key :: key in before.items <==> key in middle.items
    ensures forall key :: key in before.items ==> middle.items[key].package == before.items[key].package
    ensures exists settled :: Settles(before, settled, r.runId, SettledIds(r, OpenItems(items))) && middle.items == settled.items
  {
    hide StillPending, PendingItem, SettledIds, OpenItems, RecoveredGroups, AllPackages;
    var settled :| Settles(before, settled, r.runId, SettledIds(r, OpenItems(items))) && middle == Apply(r.itemId, settled, MarkState(r.runId, "recovered", now));
    assert middle.items == settled.items && middle.active == settled.active by { hide ReadableRun; }
    assert before.items.Keys == settled.items.Keys;
  }

  lemma RecoveredItem(r: Recovery, deleteCommitted: bool, before: Store, middle: Store, items: seq<ItemRecord>, groups: seq<TaskGroup>,
                      key: (string, string), now: string)
    requires DatabaseInv(r.itemId, before) && ReadsItems(before, r.runId, items) && CleanRecovery(r.resolve, before, r.runId)
    requires r.runId in before.runs && groups != [] && RecoveredAs(r, deleteCommitted, before, middle, OpenItems(items), groups, now)
    requires key in middle.items && key.0 == r.runId && Uniform(groups) && PlansFor(groups, Unlinked(groups))
    ensures var x, plans := Execution(r.itemId, r.host, r.runId), Unlinked(groups);
            InPlans(plans, middle.items[key].package) || (Done(middle.items[key].status) && !MarkedBy(x, plans, middle, Indices(|plans|), key.1))
  {
    var x, plans := Execution(r.itemId, r.host, r.runId), Unlinked(groups);
    RecoveredStore(r, deleteCommitted, before, middle, items, groups, now);
    hide RecoveredAs, ReadsItems, Settles, SettledIds, InPlans, OpenItems, CleanRecovery, AllPackages, Uniform, PlansFor, Unlinked, PendingAt, Done, AllReadable,
         ActiveExact, KeysMatch;
    var settled :| Settles(before, settled, r.runId, SettledIds(r, OpenItems(items))) && middle.items == settled.items;
    DoneOrPending(r, before, settled, items, key);
    if MarkedBy(x, plans, middle, Indices(|plans|), key.1) {
      var p := MarkedPackage(x, groups, plans, middle, key.1);
      var other := RecoveredPackage(r, deleteCommitted, before, middle, items, groups, p, now);
      PendingKey(r, before, OpenItems(items), other);
    }
    if PendingAt(r, before, OpenItems(items), key) {
      PendingIsPlanned(r, deleteCommitted, before, middle, items, groups, key, now);
      PlannedAre(groups, plans, middle.items[key].package);
    }
  }

  lemma PendingKey(r: Recovery, s: Store, open: seq<ItemRecord>, key: (string, string))
    requires PendingAt(r, s, open, key)
    ensures key in s.items && key == (r.runId, r.itemId(s.items[key].package))
  {
  }

  lemma MarkedPackage(x: Execution, groups: seq<TaskGroup>, plans: seq<TaskGroupPlan>, s: Store, id: string) returns (p: Package)
    requires PlansFor(groups, plans) && MarkedBy(x, plans, s, Indices(|plans|), id)
    ensures p in AllPackages(groups) && x.itemId(p) == id
  {
    hide AllPackages;
    var i :| i in Indices(|plans|) && i < |plans| && MarksItem(x, s, plans[i].taskGroup, id);
    var packages := plans[i].taskGroup.packages;
    var k :| 0 <= k < |packages| && x.itemId(packages[k]) == id;
    p := packages[k];
    assert groups[i] in groups && p in groups[i].packages;
    PackagesAre(groups, p);
  }

  /** If every group of packages of the run succeeds, a clean recovery ends the run. */
  lemma RecoverySucceeds(s: Settings, itemId: ItemIds, host: Host, before: Store, after: Store, now: string)
    requires DatabaseInv(itemId, before) && HasActive(before) && before.active.value in before.runs
    requires RecoveryCompleted(s, itemId, host, before, after, now)
    requires CleanRecovery(s.resolve, before, before.active.value) && RunSucceeds(host, before, before.active.value)
    ensures EndsOrStays(true, after, before.active.value) && (before.active.value in after.runs <==> !s.deleteCommitted)
  {
    var runId := before.active.value;
    hide RecoveredAs, RunCompleted, ReadsItems, CleanRecovery, RunSucceeds, EndsOrStays, DatabaseInv, OpenItems;
    var items, groups, middle :| RecoveredVia(s, itemId, host, before, middle, after, items, groups, now);
    var r := Recovery(itemId, s.resolve, host, before.items.Keys, runId);
    if groups == [] {
      NothingLeft(r, s.deleteCommitted, before, after, items, now);
    } else {
      RestSucceeds(s, r, before, middle, after, items, groups, now);
    }
  }

  lemma NothingLeft(r: Recovery, deleteCommitted: bool, before: Store, after: Store, items: seq<ItemRecord>, now: string)
    requires before.active == Some(r.runId) && r.runId in before.runs
    requires RecoveredAs(r, deleteCommitted, before, after, OpenItems(items), [], now)
    ensures EndsOrStays(true, after, r.runId) && (r.runId in after.runs <==> !deleteCommitted)
  {
    hide NothingPending, SettledIds, OpenItems, Closed;
    var settled :| Settles(before, settled, r.runId, SettledIds(r, OpenItems(items))) && after == Closed(r.itemId, deleteCommitted, settled, r.runId, now);
    ClosedEnds(r.itemId, deleteCommitted, settled, r.runId, now);
  }

  /** The recovered groups are groups of packages of the run, all of which can be marked. */
  lemma RecoveredReady(r: Recovery, deleteCommitted: bool, before: Store, middle: Store, items: seq<ItemRecord>, groups: seq<TaskGroup>, now: string)
    requires KeysMatch(r.itemId, before) && ReadsItems(before, r.runId, items) && CleanRecovery(r.resolve, before, r.runId)
    requires r.runId in before.runs && groups != [] && RecoveredAs(r, deleteCommitted, before, middle, OpenItems(items), groups, now)
    requires AllReadable(middle) && RunSucceeds(r.host, before, r.runId)
    ensures var plans := Unlinked(groups);
            && AllSucceedOn(r.host, plans) && Updatable(Execution(r.itemId, r.host, r.runId), middle, plans) && PlansAreItems(middle, r.runId, plans)
  {
    hide RecoveredAs, ReadsItems, CleanRecovery, OpenItems, AllPackages, Unlinked, KeysMatch, RecoveredGroups, PlansFor, Uniform, RunSucceeds,
         AllReadable, SettledIds, Settles, WellFormed, Forward, StillPending, AllSucceedOn, Updatable, PlansAreItems;
    RecoveredStore(r, deleteCommitted, before, middle, items, groups, now);
    UnlinkedPlans(groups);
    RecoveredAreUniform(groups, before.runs[r.runId].flags);
    forall p | p in AllPackages(groups) ensures exists key :: PendingAt(r, before, OpenItems(items), key) && before.items[key].package == p {
      var key := RecoveredPackage(r, deleteCommitted, before, middle, items, groups, p, now);
    }
    RecoveredPlans(r, before, middle, OpenItems(items), groups, Unlinked(groups));
  }

  lemma RecoveredApart(r: Recovery, deleteCommitted: bool, before: Store, middle: Store, items: seq<ItemRecord>, groups: seq<TaskGroup>, now: string)
    requires r.runId in before.runs && groups != [] && RecoveredAs(r, deleteCommitted, before, middle, OpenItems(items), groups, now)
    requires CleanRecovery(r.resolve, before, r.runId)
    ensures middle.active == before.active && NoneAlike(middle, r.runId) && Harmless(r.itemId, middle, r.runId, [])
  {
    assert NoneAlike(before, r.runId);
    hide RecoveredAs, CleanRecovery, OpenItems, RecoveredGroups, NoneAlike, SettledIds, Settles;
    RecoveredStore(r, deleteCommitted, before, middle, items, groups, now);
    SamePackagesSameAnswers(r.itemId, before, middle, r.runId, [], []);
  }

  lemma RestSucceeds(s: Settings, r: Recovery, before: Store, middle: Store, after: Store, items: seq<ItemRecord>, groups: seq<TaskGroup>, now: string)
    requires DatabaseInv(r.itemId, before) && before.active == Some(r.runId) && r.runId in before.runs && groups != []
    requires ReadsItems(before, r.runId, items) && RecoveredAs(r, s.deleteCommitted, before, middle, OpenItems(items), groups, now)
    requires DatabaseInv(r.itemId, middle) && r.resolve == s.resolve
    requires RunCompleted(s, Execution(r.itemId, r.host, r.runId), Unlinked(groups), false, middle, after, [], now)
    requires CleanRecovery(s.resolve, before, r.runId) && RunSucceeds(r.host, before, r.runId)
    ensures EndsOrStays(true, after, r.runId) && (r.runId in after.runs <==> !s.deleteCommitted)
  {
    hide RecoveredAs, RunCompleted, ReadsItems, CleanRecovery, EndsOrStays, OpenItems, Unlinked, ItemsAreCovered, Forward, KeysMatch, ActiveExact,
         NoneAlike, WellFormed, PlansFor, RunSucceeds, AllReadable, AllSucceedOn, Updatable, PlansAreItems, Harmless;
    UnlinkedPlans(groups);
    RecoveredCovers(r, s.deleteCommitted, before, middle, items, groups, now);
    RecoveredReady(r, s.deleteCommitted, before, middle, items, groups, now);
    RecoveredApart(r, s.deleteCommitted, before, middle, items, groups, now);
    SucceededRunEnds(s, Execution(r.itemId, r.host, r.runId), Unlinked(groups), false, middle, after, [], now);
  }

  lemma RecoveredPlans(r: Recovery, before: Store, middle: Store, open: seq<ItemRecord>, groups: seq<TaskGroup>, plans: seq<TaskGroupPlan>)
    requires PlansFor(groups, plans) && Uniform(groups) && AllReadable(middle) && RunSucceeds(r.host, before, r.runId)
    requires forall p :: p in AllPackages(groups) ==> exists key :: PendingAt(r, before, open, key) && before.items[key].package == p
    requires forall key :: key in before.items <==> key in middle.items
    requires forall key :: key in before.items ==> middle.items[key].package == before.items[key].package
    ensures AllSucceedOn(r.host, plans) && Updatable(Execution(r.itemId, r.host, r.runId), middle, plans)
    ensures PlansAreItems(middle, r.runId, plans)
  {
    hide AllPackages, StillPending, SuccessFor, InPlans;
    forall plan | plan in plans
      ensures SuccessFor(plan.taskGroup, r.host.run(plan.taskGroup)) && CanUpdate(r.itemId, middle, r.runId, plan.taskGroup.packages, "running")
    {
      forall p | p in plan.taskGroup.packages ensures exists key :: PendingAt(r, before, open, key) && before.items[key].package == p {
        PlanIsGroup(groups, plans, plan);
        PackagesAre(groups, p);
      }
      GroupOfRun(r, before, middle, open, plan.taskGroup);
    }
    forall p: Package | InPlans(plans, p) ensures exists key :: key in middle.items && key.0 == r.runId && Alike(middle.items[key].package, p) {
      PlannedAre(groups, plans, p);
      var q :| q in AllPackages(groups) && Alike(q, p);
      var key :| PendingAt(r, before, open, key) && before.items[key].package == q;
      assert key in middle.items;
    }
  }

  lemma GroupOfRun(r: Recovery, before: Store, middle: Store, open: seq<ItemRecord>, group: TaskGroup)
    requires AllReadable(middle) && RunSucceeds(r.host, before, r.runId)
    requires forall p :: p in group.packages ==> exists key :: PendingAt(r, before, open, key) && before.items[key].package == p
    requires forall key :: key in before.items <==> key in middle.items
    ensures SuccessFor(group, r.host.run(group)) && CanUpdate(r.itemId, middle, r.runId, group.packages, "running")
  {
    hide StillPending, SuccessFor;
    forall p | p in group.packages ensures exists key :: key in before.items && key.0 == r.runId && before.items[key].package == p {
      var key :| PendingAt(r, before, open, key) && before.items[key].package == p;
    }
    assert OfRun(before, r.runId, group);
    forall k | 0 <= k < |group.packages| ensures Readable(middle, r.runId, r.itemId(group.packages[k])) {
      assert group.packages[k] in group.packages;
      var key :| PendingAt(r, before, open, key) && before.items[key].package == group.packages[k];
      assert key == (r.runId, r.itemId(group.packages[k]));
    }
  }
}
