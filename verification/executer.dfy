// Executer over the transaction database, one call of execute after the other,
// with crashes anywhere between two transactions.
module Executer {
  import opened Sequences
  import opened Packages
  import opened TaskPlans
  import opened TaskGroups
  import opened TransactionCodec
  import opened TransactionStore
  import opened TransactionDatabase
  import opened VertexOrder
  import opened TaskGraphBuilder
  import opened SchedulerRefinement
  import opened SchedulerLaunches
  import opened ParallelTaskScheduler
  import opened ExecutorTransactions
  import opened ExecutorOutcomes
  import opened TaskRunner
  import opened ExecutorRuns

  class TaskExecuter {
    const db: Database
    const settings: Settings
    /** The packages that may ever be stored. */
    ghost const stock: Stock
    var activeRunId: string

    ghost predicate Valid()
      reads this, db
    {
      Sound(db)
    }

    ghost predicate Safe()
      reads this, db
    {
      SafeSoFar(db)
    }

    ghost predicate Stocked()
      reads this, db
    {
      StockedSoFar(stock, db)
    }

    constructor (db: Database, settings: Settings, ghost stock: Stock)
      requires Sound(db)
      ensures Valid() && this.db == db && this.settings == settings && this.stock == stock && activeRunId == ""
    {
      this.db := db;
      this.settings := settings;
      this.stock := stock;
      activeRunId := "";
    }

    // -------------------------------------------------------------- recovery

    /** One item that needs no further work becomes a success, if the run has an item of its id. */
    method Settle(runId: string, item: ItemRecord, now: string) returns (ok: bool)
      requires Valid() && now != ""
      modifies db
      ensures Valid() && (Safe() <==> old(Safe())) && (old(Stocked()) ==> Stocked())
      ensures ok <==> (runId, db.itemId(item.package)) in old(db.store).items
      ensures Settles(old(db.store), db.store, runId, if ok then {db.itemId(item.package)} else {})
    {
      LegalStore(db.itemId, db.origin, db.log);
      ghost var op := UpdateItems(runId, [item.package], "success", "", now);
      PlainUpdate(runId, [item.package], "success", "", now);
      PlainOp(db, stock, op);
      UpdateSettles(db.itemId, db.store, runId, item.package, now);
      hide LegalLog, SafeCommits, StockedLog, KeysMatch, IgnoresFlags, Settles, LegalOp, CanUpdate;
      ok := db.UpdateItemStatus(runId, item.package, "success", "", now);
    }

    method ItemsOfSystem(items: seq<ItemRecord>, system: string) returns (systemItems: seq<ItemRecord>)
      ensures forall item :: item in systemItems <==> item in items && item.package.system == system
    {
      systemItems := [];
      for k := 0 to |items|
        invariant forall item :: item in systemItems <==> item in items[..k] && item.package.system == system
      {
        assert items[..k + 1] == items[..k] + [items[k]];
        if items[k].package.system != system {
          continue;
        }
        systemItems := systemItems + [items[k]];
      }
      assert items[..|items|] == items;
    }

    /** The items of one system: those the plugin reports missing stay pending, and those no item of the run answers
        to; the others succeed. */
    method ReconcileSystem(ghost r: Recovery, host: Host, runId: string, system: string, items: seq<ItemRecord>, now: string)
      returns (pending: seq<ItemRecord>)
      requires Valid() && now != "" && r == Recovery(db.itemId, settings.resolve, host, db.store.items.Keys, runId)
      modifies db
      ensures Valid() && (Safe() <==> old(Safe())) && (old(Stocked()) ==> Stocked())
      ensures Settles(old(db.store), db.store, runId, SystemDone(r, items, system, items))
      ensures forall item :: item in pending <==> item in items && item.package.system == system && KeptBack(r, items, item)
    {
      hide LegalLog, SafeCommits, StockedLog, KeysMatch, IgnoresFlags, Settles, KeptBack, SameRuns, SystemDone, ReportedMissing;
      ghost var store := db.store;
      var systemItems := ItemsOfSystem(items, system);
      if !host.getPlugin(system) {
        NoPlugin(r, items, system);
        SettlesNothing(store, runId);
        return systemItems;
      }
      var missingPackages := Filter(IsMissing(host, system), PackagesOf(systemItems));
      pending := [];
      SettlesNothing(store, runId);
      NothingDone(r, items, system);
      for k := 0 to |systemItems|
        invariant Valid() && (Safe() <==> old(Safe())) && (old(Stocked()) ==> Stocked())
        invariant Settles(store, db.store, runId, SystemDone(r, items, system, systemItems[..k]))
        invariant forall item :: item in pending <==> item in systemItems[..k] && KeptBack(r, items, item)
      {
        var systemItem := systemItems[k];
        assert systemItems[..k + 1] == systemItems[..k] + [systemItem] && systemItem in systemItems;
        ReportedIsKept(r, items, system, systemItems, systemItem);
        SystemDoneMore(r, items, system, systemItems[..k], systemItem);
        SettledKeys(store, db.store, runId, SystemDone(r, items, system, systemItems[..k]));
        NoneMore(SystemDone(r, items, system, systemItems[..k]));
        if ReportedMissing(missingPackages, systemItem.package) {
          pending := pending + [systemItem];
          continue;
        }
        ghost var before := db.store;
        var ok := Settle(runId, systemItem, now);
        SettlesChain(store, before, db.store, runId, SystemDone(r, items, system, systemItems[..k]),
                     if ok then {db.itemId(systemItem.package)} else {});
        if !ok {
          pending := pending + [systemItem];
        }
      }
      assert systemItems[..|systemItems|] == systemItems;
      SystemDoneSame(r, items, system, systemItems);
    }

    /** The loop over the systems of the recoverable items. */
    method ReconcileSystems(ghost r: Recovery, host: Host, runId: string, recoverable: seq<ItemRecord>, unsupported: seq<ItemRecord>, now: string)
      returns (pending: seq<ItemRecord>)
      requires Valid() && now != "" && r == Recovery(db.itemId, settings.resolve, host, db.store.items.Keys, runId)
      modifies db
      ensures Valid() && (Safe() <==> old(Safe())) && (old(Stocked()) ==> Stocked())
      ensures Settles(old(db.store), db.store, runId, DoneIds(r, recoverable))
      ensures forall item :: item in pending <==> item in unsupported || (item in recoverable && KeptBack(r, recoverable, item))
    {
      hide LegalLog, SafeCommits, StockedLog, KeysMatch, IgnoresFlags, Settles, KeptBack, SameRuns, SystemDone, DoneIds;
      ghost var store := db.store;
      pending := unsupported;
      SettlesNothing(store, runId);
      var checkedSystems: seq<string> := [];
      assert SystemsDone(r, recoverable, checkedSystems) == {};
      for k := 0 to |recoverable|
        invariant Valid() && (Safe() <==> old(Safe())) && (old(Stocked()) ==> Stocked())
        invariant Settles(store, db.store, runId, SystemsDone(r, recoverable, checkedSystems))
        invariant forall item :: item in recoverable[..k] ==> item.package.system in checkedSystems
        invariant forall item :: item in pending <==>
          item in unsupported || (item in recoverable && item.package.system in checkedSystems && KeptBack(r, recoverable, item))
      {
        var item := recoverable[k];
        assert recoverable[..k + 1] == recoverable[..k] + [item] && item in recoverable;
        if item.package.system in checkedSystems {
          continue;
        }
        SettledKeys(store, db.store, runId, SystemsDone(r, recoverable, checkedSystems));
        ghost var before := db.store;
        var rest := ReconcileSystem(r, host, runId, item.package.system, recoverable, now);
        SettlesChain(store, before, db.store, runId, SystemsDone(r, recoverable, checkedSystems),
                     SystemDone(r, recoverable, item.package.system, recoverable));
        SystemsDoneMore(r, recoverable, checkedSystems, item.package.system);
        checkedSystems := checkedSystems + [item.package.system];
        pending := pending + rest;
      }
      assert recoverable[..|recoverable|] == recoverable;
      AllSystemsDone(r, recoverable, checkedSystems);
    }

    /** The first loop of reconcileRecoveredItems: the items nobody can be asked about, and the others under their
        resolved systems. */
    method SplitRecoverable(ghost r: Recovery, host: Host, items: seq<ItemRecord>) returns (pending: seq<ItemRecord>, recoverable: seq<ItemRecord>)
      requires r.host == host && r.resolve == settings.resolve
      ensures recoverable == Recoverable(r, items)
      ensures forall item :: item in pending <==> item in items && Unchecked(r, item)
    {
      pending, recoverable := [], [];
      for k := 0 to |items|
        invariant forall item :: item in pending <==> item in items[..k] && Unchecked(r, item)
        invariant recoverable == Recoverable(r, items[..k])
      {
        var item := items[k];
        assert items[..k + 1] == items[..k] + [item];
        assert items[..k + 1][..k] == items[..k];
        if !UsesMissingFilter(item.package.action) {
          pending := pending + [item];
          continue;
        }
        var resolvedSystem := settings.resolve(item.package.system);
        if !host.getPlugin(resolvedSystem) || !host.loadPlugin(resolvedSystem) {
          pending := pending + [item];
          continue;
        }
        recoverable := recoverable + [item.(package := item.package.(system := resolvedSystem))];
      }
      assert items[..|items|] == items;
    }

    /** Items nobody can be asked about stay pending as they are, items still missing and items whose resolved name
        no item of the run answers to under their resolved name; the others are written back as a success. */
    method ReconcileRecoveredItems(ghost r: Recovery, host: Host, runId: string, items: seq<ItemRecord>, now: string)
      returns (pending: seq<ItemRecord>)
      requires Valid() && now != "" && r == Recovery(db.itemId, settings.resolve, host, db.store.items.Keys, runId)
      modifies db
      ensures Valid() && (Safe() <==> old(Safe())) && (old(Stocked()) ==> Stocked())
      ensures Settles(old(db.store), db.store, runId, SettledIds(r, items))
      ensures forall y :: y in pending <==> PendingAs(r, items, y)
    {
      hide LegalLog, SafeCommits, StockedLog, KeysMatch, IgnoresFlags, Settles, KeptBack, SameRuns, Unchecked, Recoverable, PendingAs;
      var unsupported, recoverable := SplitRecoverable(r, host, items);
      pending := ReconcileSystems(r, host, runId, recoverable, unsupported, now);
      assert DoneIds(r, recoverable) == SettledIds(r, items);
      forall y ensures y in pending <==> PendingAs(r, items, y) {
        PendingIs(r, items, y);
      }
    }

    method CreateTaskGroupsFromRecords(items: seq<ItemRecord>) returns (groups: seq<TaskGroup>)
      ensures MaximalRuns(groups, PackagesOf(items))
    {
      hide MaximalRuns;
      groups := [];
      ghost var packages := PackagesOf(items);
      NoGroups();
      for k := 0 to |items|
        invariant MaximalRuns(groups, packages[..k])
      {
        assert packages[..k + 1] == packages[..k] + [packages[k]];
        groups := AppendPackage(groups, packages[..k], items[k].package);
      }
      assert packages[..|items|] == packages;
    }

    method MarkRun(runId: string, state: string, now: string)
      requires Valid() && now != "" && state != "" && state != "committed"
      modifies db
      ensures Valid() && (Safe() <==> old(Safe())) && (old(Stocked()) ==> Stocked())
      ensures db.store == Apply(db.itemId, old(db.store), MarkState(runId, state, now))
    {
      ghost var op := MarkState(runId, state, now);
      assert LegalOp(op);
      PlainOp(db, stock, op);
      hide LegalLog, SafeCommits, StockedLog, LegalOp, Apply;
      var marked := db.MarkRunState(runId, state, now);
    }

    /** A commit is safe exactly if every item of the run has ended. */
    method CommitRun(runId: string, now: string)
      requires Valid() && now != "" && runId != ""
      modifies db
      ensures Valid() && (Safe() <==> old(Safe()) && AllTerminal(old(db.store), runId)) && (old(Stocked()) ==> Stocked())
      ensures db.store == Apply(db.itemId, old(db.store), Commit(runId, now))
    {
      ghost var op := Commit(runId, now);
      assert LegalOp(op) && StockedOp(stock, op);
      LegalMore(db.itemId, db.origin, db.log, op);
      SafetySame(db.itemId, db.origin, db.log, op);
      hide LegalLog, SafeCommits, StockedLog, LegalOp, StockedOp, AllTerminal, Apply;
      if Stocked() {
        StockedMore(stock, db.origin, db.log, op);
      }
      db.MarkRunCommitted(runId, now);
    }

    method DropRun(runId: string)
      requires Valid()
      modifies db
      ensures Valid() && (Safe() <==> old(Safe())) && (old(Stocked()) ==> Stocked())
      ensures db.store == Apply(db.itemId, old(db.store), DeleteRun(runId))
    {
      ghost var op := DeleteRun(runId);
      PlainOp(db, stock, op);
      hide LegalLog, SafeCommits, StockedLog, LegalOp, Apply;
      var deleted := db.DeleteRun(runId);
    }

    method CloseRun(runId: string, now: string)
      requires Valid() && now != "" && runId != ""
      modifies db
      ensures Valid() && (Safe() <==> old(Safe()) && AllTerminal(old(db.store), runId)) && (old(Stocked()) ==> Stocked())
      ensures db.store == Closed(db.itemId, settings.deleteCommitted, old(db.store), runId, now)
    {
      hide LegalLog, SafeCommits, StockedLog, AllTerminal, Apply;
      CommitRun(runId, now);
      if settings.deleteCommitted {
        DropRun(runId);
      }
    }

    /** Nothing pending: the run is closed, whatever its failed items, and that commit is early exactly if one of its
        items was not written back. Otherwise the groups hold exactly the packages still pending, with the flags of
        the run. */
    method RecoverPendingTaskGroups(host: Host, now: string) returns (groups: seq<TaskGroup>)
      requires Valid() && now != ""
      modifies this`activeRunId, db
      ensures Valid() && (old(Stocked()) ==> Stocked())
      ensures !HasActive(old(db.store)) ==>
                groups == [] && db.store == old(db.store) && db.log == old(db.log) && activeRunId == old(activeRunId)
      ensures HasActive(old(db.store)) ==>
                var r := Recovery(db.itemId, settings.resolve, host, old(db.store).items.Keys, old(db.store.active.value));
                && r.runId in old(db.store).runs && activeRunId == (if groups == [] then "" else r.runId)
                && exists items :: && ReadsItems(old(db.store), r.runId, items)
                                   && RecoveredAs(r, settings.deleteCommitted, old(db.store), db.store, OpenItems(items), groups, now)
                                   && (Safe() <==> old(Safe()) && !(groups == [] && CommitsEarly(r, OpenItems(items))))
      ensures groups != [] ==> activeRunId != "" && db.store.active == Some(activeRunId)
      ensures groups == [] && HasActive(old(db.store)) ==> EndsOrStays(true, db.store, old(db.store.active.value))
    {
      LegalStore(db.itemId, db.origin, db.log);
      var activeRun := db.GetActiveRun();
      if HasActive(db.store) {
        ActiveIsReadable(db.itemId, db.store);
      }
      if activeRun.None? || activeRun.value.state == "committed" {
        return [];
      }
      var runId := activeRun.value.id;
      activeRunId := runId;
      ghost var store := db.store;
      var items := db.GetRunItems(runId);
      var openItems := OpenItems(items);
      ghost var r := Recovery(db.itemId, settings.resolve, host, store.items.Keys, runId);
      hide LegalLog, SafeCommits, StockedLog, IgnoresFlags, Settles, StillPending, SettledIds, RecoveredAs, ReadsItems, KeysMatch, DatabaseInv,
           OpenItems, AllTerminal, Filter, MaximalRuns, PendingAs, CommitsEarly, NothingPending, Closed, Apply, ReadableRun;
      var pending := ReconcileRecoveredItems(r, host, runId, openItems, now);
      ghost var settled := db.store;
      SettledState(store, settled, runId, SettledIds(r, openItems));
      if pending == [] {
        PendingNothing(r, openItems);
        NothingPendingIsTerminal(r, store, settled, items);
        ClosedEnds(db.itemId, settings.deleteCommitted, settled, runId, now);
        CloseRun(runId, now);
        activeRunId := "";
        NothingRecovered(r, settings.deleteCommitted, store, settled, db.store, openItems, now);
        return [];
      }
      MarkRun(runId, "recovered", now);
      MarkedActive(db.itemId, settled, runId, "recovered", now);
      var found := CreateTaskGroupsFromRecords(pending);
      groups := WithFlags(found, activeRun.value.flags);
      PendingRecovered(r, settings.deleteCommitted, store, settled, db.store, openItems, pending, found, groups, now);
    }

    // ------------------------------------------------------------- execution

    /** executeRecordedTaskGroups. */
    method ExecuteRecordedTaskGroups(host: Host, plans: seq<TaskGroupPlan>, hasGraph: bool, runId: string, now: string)
      returns (records: seq<Record>, ghost started: seq<nat>)
      requires Valid() && now != "" && WellFormed(plans) && forall group :: StatusesGiven(host.run(group))
      modifies db
      ensures Valid() && (Safe() <==> old(Safe())) && (old(Stocked()) ==> Stocked())
      ensures var x := Execution(db.itemId, host, runId);
              && RunsAs(plans, OutcomeIn(x, old(db.store), plans), hasGraph, settings.jobs, settings.stopOnFirstFailure, started, records)
              && Executed(x, plans, old(db.store), db.store, started)
      ensures StatusesGiven(records)
    {
      hide Sound, SafeSoFar, StockedSoFar, RunsAs, OutcomeIn, Executed, StatusesGiven, WellFormed, Forward, SequentialRecords;
      ghost var exec := OutcomeIn(Execution(db.itemId, host, runId), db.store, plans);
      var runner := new Runner(db, host, runId, now, stock);
      records, started := Run(runner, plans, hasGraph, settings.jobs, settings.stopOnFirstFailure);
      RunGiven(Execution(db.itemId, host, runId), old(db.store), plans, hasGraph, settings.jobs, settings.stopOnFirstFailure, started, records);
    }

    // ------------------------------------------------------------ completion

    /** The body of the loop over the records. */
    method WriteTransactionResult(ghost before: Store, runItems: seq<ItemRecord>, ghost done: seq<Record>, record: Record, now: string)
      requires Valid() && now != "" && record.status != "" && ResultsWritten(db.itemId, before, db.store, activeRunId, runItems, done)
      modifies db
      ensures Valid() && (Safe() <==> old(Safe())) && (old(Stocked()) ==> Stocked())
      ensures ResultsWritten(db.itemId, before, db.store, activeRunId, runItems, done + [record])
    {
      LegalStore(db.itemId, db.origin, db.log);
      hide LegalLog, SafeCommits, StockedLog, ResultsWritten, KeysMatch, IgnoresFlags, ActiveExact, AllReadable, Apply, CanUpdate,
           SameRuns, WrittenPackage;
      RecordWritten(db.itemId, before, db.store, activeRunId, runItems, done, record, now);
      var written := Update(db, stock, activeRunId, [WrittenPackage(runItems, record)], record.status, record.errorMessage, now);
    }

    /** Each record goes to the first item it is about: of the items that are alike, the first ends with the last record
        about it, and all others stay as they were. Where no two are alike, this is each item of the run. */
    method WriteTransactionResults(records: seq<Record>, now: string)
      requires Valid() && now != "" && StatusesGiven(records)
      modifies db
      ensures Valid() && (Safe() <==> old(Safe())) && (old(Stocked()) ==> Stocked())
      ensures activeRunId == "" ==> db.store == old(db.store)
      ensures activeRunId != "" ==> WrittenTo(db.itemId, old(db.store), db.store, activeRunId, records)
      ensures activeRunId != "" && Recognized(db.itemId, old(db.store), activeRunId, records) ==>
                exists items :: ReadsItems(old(db.store), activeRunId, items) && OutcomesReach(old(db.store), db.store, activeRunId, items, records)
      ensures activeRunId != "" && Recognized(db.itemId, old(db.store), activeRunId, records) && NoneAlike(old(db.store), activeRunId) ==>
                EachGetsOutcome(old(db.store), db.store, activeRunId, records)
    {
      if activeRunId == "" {
        return;
      }
      ghost var store := db.store;
      var runItems := db.GetRunItems(activeRunId);
      NothingWritten(db.itemId, store, activeRunId, runItems);
      LegalStore(db.itemId, db.origin, db.log);
      hide LegalLog, SafeCommits, StockedLog, ResultsWritten, ReadsItems, KeysMatch, IgnoresFlags, Recognized, NoneAlike, OutcomesReach, EachGetsOutcome,
           AllReadable, ActiveExact;
      for k := 0 to |records|
        invariant Valid() && (Safe() <==> old(Safe())) && (old(Stocked()) ==> Stocked())
        invariant ResultsWritten(db.itemId, store, db.store, activeRunId, runItems, records[..k])
      {
        var record := records[k];
        assert record in records;
        assert records[..k + 1] == records[..k] + [record];
        WriteTransactionResult(store, runItems, records[..k], record, now);
      }
      assert records[..|records|] == records;
      if Recognized(db.itemId, store, activeRunId, records) {
        RecordsReachItems(db.itemId, store, db.store, activeRunId, runItems, records);
        if NoneAlike(store, activeRunId) {
          EachIsReached(db.itemId, store, db.store, activeRunId, runItems, records);
        }
      }
    }

    /** Commits exactly when every item of the run is a success or committed; otherwise only its state becomes
        failed. */
    method MarkCommittedTransactions(now: string)
      requires Valid() && now != ""
      modifies db
      ensures Valid() && (Safe() <==> old(Safe())) && (old(Stocked()) ==> Stocked())
      ensures activeRunId == "" ==> db.store == old(db.store)
      ensures activeRunId != "" ==>
                db.store == Apply(db.itemId, old(db.store), if AllDone(old(db.store), activeRunId) then Commit(activeRunId, now)
                                                            else MarkState(activeRunId, "failed", now))
      ensures activeRunId != "" && old(db.store).active == Some(activeRunId) ==>
                EndsOrStays(AllDone(old(db.store), activeRunId), db.store, activeRunId)
    {
      if activeRunId == "" {
        return;
      }
      LegalStore(db.itemId, db.origin, db.log);
      var items := db.GetRunItems(activeRunId);
      AllItemsDone(db.store, activeRunId, items);
      if db.store.active == Some(activeRunId) {
        ActiveIsReadable(db.itemId, db.store);
        CompletionEnds(db.itemId, db.store, activeRunId, now);
      }
      hide LegalLog, SafeCommits, StockedLog, ReadsItems, KeysMatch, IgnoresFlags, AllDone, AllTerminal, AllReadable, Apply, EndsOrStays;
      var shouldCommit := forall item :: item in items ==> Done(item.status);
      if !shouldCommit {
        MarkRun(activeRunId, "failed", now);
        return;
      }
      CommitRun(activeRunId, now);
    }

    /** Deletes nothing while a run is active, and otherwise the run just finished and nothing else. */
    method DeleteCommittedTransactions()
      requires Valid()
      modifies this`activeRunId, db
      ensures Valid() && (Safe() <==> old(Safe())) && (old(Stocked()) ==> Stocked())
      ensures HasActive(old(db.store)) || old(activeRunId) == "" ==> db.store == old(db.store) && activeRunId == old(activeRunId)
      ensures !HasActive(old(db.store)) && old(activeRunId) != "" ==>
                db.store == Apply(db.itemId, old(db.store), DeleteRun(old(activeRunId))) && activeRunId == ""
    {
      if activeRunId == "" {
        return;
      }
      LegalStore(db.itemId, db.origin, db.log);
      if HasActive(db.store) {
        ActiveIsReadable(db.itemId, db.store);
      }
      hide LegalLog, SafeCommits, StockedLog, Apply;
      var activeRun := db.GetActiveRun();
      if activeRun.Some? {
        return;
      }
      DropRun(activeRunId);
      activeRunId := "";
    }

    // --------------------------------------------------------------- execute

    /** Results are written, the run is completed and, if so configured, a committed run is deleted. */
    method CompleteRun(records: seq<Record>, now: string)
      requires Valid() && now != "" && StatusesGiven(records)
      requires activeRunId != "" ==> db.store.active == Some(activeRunId)
      modifies this`activeRunId, db
      ensures Valid() && (Safe() <==> old(Safe())) && (old(Stocked()) ==> Stocked())
      ensures old(activeRunId) == "" ==> db.store == old(db.store) && activeRunId == ""
      ensures old(activeRunId) != "" ==> CompletedAs(db.itemId, settings.deleteCommitted, old(db.store), db.store, old(activeRunId), records, now)
      ensures old(activeRunId) != "" ==> EndsOrStays(!HasActive(db.store), db.store, old(activeRunId))
    {
      hide WrittenTo, AllDone, LegalLog, SafeCommits, StockedLog, KeysMatch, Apply;
      ghost var runId := activeRunId;
      WriteTransactionResults(records, now);
      ghost var written := db.store;
      if runId != "" {
        WrittenKeepsActive(db.itemId, old(db.store), written, runId, records);
      }
      MarkCommittedTransactions(now);
      ghost var marked := db.store;
      if settings.deleteCommitted {
        DeleteCommittedTransactions();
      }
      if runId != "" {
        DeletedEnds(db.itemId, marked, runId);
        assert db.store == Finished(db.itemId, settings.deleteCommitted, written, runId, now);
        assert WrittenTo(db.itemId, old(db.store), written, runId, records);
      }
    }

    method Begin(packages: seq<Package>, flags: seq<string>, now: string) returns (runId: string)
      requires Valid() && now != ""
      modifies db
      ensures Valid() && (Safe() <==> old(Safe()))
      ensures old(Stocked()) && StockedOp(stock, Op.CreateRun(packages, flags, now)) ==> Stocked()
      ensures runId == if HasActive(old(db.store)) then "" else NewRunId(packages, now)
      ensures db.store == Apply(db.itemId, old(db.store), Op.CreateRun(packages, flags, now))
      ensures runId != "" ==> db.store.active == Some(runId)
      ensures runId == "" ==> HasActive(old(db.store))
    {
      ghost var op := Op.CreateRun(packages, flags, now);
      assert LegalOp(op);
      assert |NewRunId(packages, now)| > 0;
      LegalMore(db.itemId, db.origin, db.log, op);
      SafetySame(db.itemId, db.origin, db.log, op);
      hide LegalLog, SafeCommits, StockedLog, LegalOp, StockedOp, KeysMatch, Planned, StoredFlags, NewRunId;
      if Stocked() && StockedOp(stock, op) {
        StockedMore(stock, db.origin, db.log, op);
      }
      runId := db.CreateRun(packages, flags, now);
    }

    /** Recovery of what an earlier process left, its groups executed without a graph. */
    method Recover(host: Host, now: string)
      requires Valid() && now != "" && forall group :: StatusesGiven(host.run(group))
      modifies this`activeRunId, db
      ensures Valid() && (old(Stocked()) ==> Stocked())
      ensures old(Safe()) && old(Stocked()) && Lossless(db.itemId, settings.resolve, stock) ==> Safe()
      ensures !HasActive(old(db.store)) ==> db.store == old(db.store)
      ensures HasActive(old(db.store)) ==>
                && old(db.store.active.value) in old(db.store).runs
                && EndsOrStays(!HasActive(db.store), db.store, old(db.store.active.value))
                && RecoveryCompleted(settings, db.itemId, host, old(db.store), db.store, now)
    {
      ghost var before := db.store;
      LegalStore(db.itemId, db.origin, db.log);
      if HasActive(before) {
        ActiveIsReadable(db.itemId, before);
      }
      if Stocked() {
        StockStore(db.itemId, stock, db.origin, db.log);
      }
      hide LegalLog, SafeCommits, StockedLog, KeysMatch, ReadsItems, Apply, CommitsEarly, Lossless, RecoveredAs, CompletedAs, EndsOrStays, RecoveredVia,
           RecoveryCompleted, RunCompleted, RunsAs, Executed, OutcomeIn, WellFormed, Forward, Unlinked, StatusesGiven, ReadableRun, AllReadable, OpenItems;
      var recovered := RecoverPendingTaskGroups(host, now);
      if old(Stocked()) && HasActive(before) && Lossless(db.itemId, settings.resolve, stock) {
        NeverEarly(Recovery(db.itemId, settings.resolve, host, before.items.Keys, before.active.value), stock, before);
      }
      ghost var middle := db.store;
      if recovered != [] && activeRunId != "" {
        ExecuteRecovered(host, recovered, now);
      } else if HasActive(before) {
        EndedIsIdle(db.store, before.active.value);
      }
      if HasActive(before) {
        Recovers(settings, db.itemId, host, before, middle, db.store, recovered, now);
      }
    }

    /** The groups of a recovered run are executed, and the run completed. */
    method ExecuteRecovered(host: Host, groups: seq<TaskGroup>, now: string)
      requires Valid() && now != "" && activeRunId != "" && db.store.active == Some(activeRunId)
      requires forall group :: StatusesGiven(host.run(group))
      modifies this`activeRunId, db
      ensures Valid() && (Safe() <==> old(Safe())) && (old(Stocked()) ==> Stocked())
      ensures DatabaseInv(db.itemId, old(db.store))
      ensures RunCompleted(settings, Execution(db.itemId, host, old(activeRunId)), Unlinked(groups), false, old(db.store), db.store, [], now)
      ensures EndsOrStays(!HasActive(db.store), db.store, old(activeRunId))
    {
      LegalStore(db.itemId, db.origin, db.log);
      UnlinkedPlans(groups);
      hide Forward, PlansFor, Unlinked;
      ExecuteAndComplete(host, Unlinked(groups), false, [], now);
    }

    /** The groups of the active run are executed, and the run completed with their records and some more. */
    method ExecuteAndComplete(host: Host, plans: seq<TaskGroupPlan>, hasGraph: bool, extra: seq<Record>, now: string)
      requires Valid() && now != "" && WellFormed(plans) && StatusesGiven(extra) && forall group :: StatusesGiven(host.run(group))
      requires activeRunId != "" ==> db.store.active == Some(activeRunId)
      modifies this`activeRunId, db
      ensures Valid() && (Safe() <==> old(Safe())) && (old(Stocked()) ==> Stocked())
      ensures old(activeRunId) == "" ==> db.store == old(db.store) && activeRunId == ""
      ensures old(activeRunId) != "" ==>
                && RunCompleted(settings, Execution(db.itemId, host, old(activeRunId)), plans, hasGraph, old(db.store), db.store, extra, now)
                && EndsOrStays(!HasActive(db.store), db.store, old(activeRunId))
    {
      hide LegalLog, SafeCommits, StockedLog, KeysMatch, CompletedAs, EndsOrStays, RunsAs, Executed, OutcomeIn, WellFormed, DatabaseInv;
      ghost var before, runId := db.store, activeRunId;
      ghost var started;
      var records;
      records, started := ExecuteRecordedTaskGroups(host, plans, hasGraph, activeRunId, now);
      ghost var executed := db.store;
      ExecutedActive(Execution(db.itemId, host, runId), plans, before, executed, started);
      LegalStore(db.itemId, db.origin, db.log);
      StatusesConcat(records, extra);
      hide StatusesGiven;
      CompleteRun(records + extra, now);
      if runId != "" {
        assert RunCompleted(settings, Execution(db.itemId, host, runId), plans, hasGraph, before, db.store, extra, now);
      }
    }

    /** The first half of execute. An interrupted run is over afterwards, committed or deleted, or it is still the
        active one, in state failed; it is over if nothing of it had failed and everything of it succeeds. Where nothing
        is lost no commit is early. */
    method RecoverActiveRun(host: Host, now: string) returns (idle: bool)
      requires Valid() && now != "" && forall group :: StatusesGiven(host.run(group))
      modifies this`activeRunId, db
      ensures Valid() && (old(Stocked()) ==> Stocked())
      ensures old(Safe()) && old(Stocked()) && Lossless(db.itemId, settings.resolve, stock) ==> Safe()
      ensures idle == !HasActive(db.store)
      ensures !HasActive(old(db.store)) ==> db.store == old(db.store)
      ensures HasActive(old(db.store)) ==>
                var runId := old(db.store.active.value);
                && runId in old(db.store).runs && EndsOrStays(idle, db.store, runId)
                && RecoveryCompleted(settings, db.itemId, host, old(db.store), db.store, now)
                && (CleanRecovery(settings.resolve, old(db.store), runId) && RunSucceeds(host, old(db.store), runId) ==>
                      EndsOrStays(true, db.store, runId) && (runId in db.store.runs <==> !settings.deleteCommitted))
    {
      hide Lossless, RecoveryCompleted, EndsOrStays, CleanRecovery, RunSucceeds, StatusesGiven, SafeCommits, StockedLog;
      ghost var before := db.store;
      LegalStore(db.itemId, db.origin, db.log);
      Recover(host, now);
      if HasActive(before) && CleanRecovery(settings.resolve, before, before.active.value) && RunSucceeds(host, before, before.active.value) {
        hide LegalLog, KeysMatch, AllReadable;
        RecoverySucceeds(settings, db.itemId, host, before, db.store, now);
      }
      LegalStore(db.itemId, db.origin, db.log);
      if HasActive(db.store) {
        ActiveIsReadable(db.itemId, db.store);
      }
      hide LegalLog, KeysMatch, AllReadable, ReadableRun;
      var activeRun := db.GetActiveRun();
      idle := activeRun.None?;
    }

    /** The second half: a run is created for the groups, if there are any, the groups are executed by the plans of the
        graph, and the run is completed. */
    method ExecuteNew(host: Host, g: Graph, taskGroups: seq<TaskGroup>, extra: seq<Record>, now: string) returns (ghost plans: seq<TaskGroupPlan>)
      requires Valid() && now != "" && !HasActive(db.store) && activeRunId == "" && InRange(g)
      requires StatusesGiven(extra) && forall group :: StatusesGiven(host.run(group))
      modifies this`activeRunId, db
      ensures Valid() && (Safe() <==> old(Safe()))
      ensures old(Stocked()) && StockedOp(stock, NewRun(taskGroups, now)) ==> Stocked()
      ensures taskGroups == [] ==> db.store == old(db.store)
      ensures PlansOf(PolicyOf(settings), g, taskGroups, plans)
      ensures taskGroups != [] ==>
                RunCompleted(settings, Execution(db.itemId, host, NewRunId(AllPackages(taskGroups), now)), plans, true,
                             Apply(db.itemId, old(db.store), NewRun(taskGroups, now)), db.store, extra, now)
    {
      var planned := CreatePlans(PolicyOf(settings), g, taskGroups);
      plans := planned;
      assert WellFormed(planned);
      hide LegalLog, SafeCommits, StockedLog, KeysMatch, EndsOrStays, Apply, StockedOp, NewRunId, PlansOf, RunCompleted, StatusesGiven, WellFormed;
      if taskGroups != [] {
        activeRunId := Begin(AllPackages(taskGroups), taskGroups[0].flags, now);
      }
      ExecuteAndComplete(host, planned, true, extra, now);
    }

    /** One call of execute: what an earlier process left is recovered first, nothing new is begun while a run is
        active, and a run that is begun gets its results and is completed. A clean run whose groups all succeed is over
        afterwards, committed or deleted, and none is active. */
    method Execute(host: Host, g: Graph, taskGroups: seq<TaskGroup>, extra: seq<Record>, now: string)
      returns (begun: bool, ghost recovered: Store, ghost plans: seq<TaskGroupPlan>)
      requires Valid() && now != "" && InRange(g) && StatusesGiven(extra) && forall group :: StatusesGiven(host.run(group))
      modifies this`activeRunId, db
      ensures Valid()
      ensures old(Stocked()) && StockedOp(stock, NewRun(taskGroups, now)) ==> Stocked()
      ensures old(Safe()) && old(Stocked()) && Lossless(db.itemId, settings.resolve, stock) ==> Safe()
      ensures !HasActive(old(db.store)) ==> recovered == old(db.store)
      ensures HasActive(old(db.store)) ==>
                && old(db.store.active.value) in old(db.store).runs && EndsOrStays(begun, recovered, old(db.store.active.value))
                && RecoveryCompleted(settings, db.itemId, host, old(db.store), recovered, now)
      ensures begun == !HasActive(recovered)
      ensures !begun || taskGroups == [] ==> db.store == recovered
      ensures begun && taskGroups != [] ==>
                var runId := NewRunId(AllPackages(taskGroups), now);
                && PlansOf(PolicyOf(settings), g, taskGroups, plans)
                && RunCompleted(settings, Execution(db.itemId, host, runId), plans, true, Apply(db.itemId, recovered, NewRun(taskGroups, now)),
                                db.store, extra, now)
                && (Forward(plans) && AllSucceedOn(host, plans) && CleanRun(db.itemId, recovered, taskGroups, extra, now) ==>
                      EndsOrStays(true, db.store, runId) && (runId in db.store.runs <==> !settings.deleteCommitted))
    {
      hide SafeCommits, StockedLog, KeysMatch, EndsOrStays, Apply, Lossless, StockedOp, NewRunId, PlansOf, RunCompleted, RecoveryCompleted, StatusesGiven,
           CleanRecovery, RunSucceeds, Forward, AllSucceedOn, CleanRun;
      plans := [];
      var idle := RecoverActiveRun(host, now);
      recovered := db.store;
      if !idle {
        return false, recovered, plans;
      }
      LegalStore(db.itemId, db.origin, db.log);
      assert IgnoresFlags(db.itemId);
      hide LegalLog, DatabaseInv;
      activeRunId := "";
      plans := ExecuteNew(host, g, taskGroups, extra, now);
      begun := true;
      if taskGroups != [] && Forward(plans) && AllSucceedOn(host, plans) && CleanRun(db.itemId, recovered, taskGroups, extra, now) {
        PlansAreFor(PolicyOf(settings), g, taskGroups, plans);
        hide IgnoresFlags, PlansFor;
        NewRunSucceeds(settings, db.itemId, host, taskGroups, plans, recovered, db.store, extra, now);
      }
    }
  }

  lemma PlansAreFor(policy: Policy, g: Graph, groups: seq<TaskGroup>, plans: seq<TaskGroupPlan>)
    requires PlansOf(policy, g, groups, plans)
    ensures PlansFor(groups, plans)
  {
    PlansKeepGroups(policy, g, groups, plans);
    hide PlansOf;
  }

  lemma ExecutedActive(x: Execution, plans: seq<TaskGroupPlan>, before: Store, after: Store, done: seq<nat>)
    requires Executed(x, plans, before, after, done)
    ensures after.active == before.active && (x.runId == "" ==> after == before)
  {
    hide MarkedBy;
  }

  /** The two halves of a recovery. */
  lemma Recovers(s: Settings, itemId: ItemIds, host: Host, before: Store, middle: Store, after: Store, groups: seq<TaskGroup>, now: string)
    requires HasActive(before) && before.active.value in before.runs
    requires exists items :: ReadsItems(before, before.active.value, items) &&
               RecoveredAs(Recovery(itemId, s.resolve, host, before.items.Keys, before.active.value), s.deleteCommitted, before, middle,
                           OpenItems(items), groups, now)
    requires if groups == [] then after == middle
             else DatabaseInv(itemId, middle) &&
                  RunCompleted(s, Execution(itemId, host, before.active.value), Unlinked(groups), false, middle, after, [], now)
    ensures RecoveryCompleted(s, itemId, host, before, after, now)
  {
    hide RecoveredAs, RunCompleted, ReadsItems, DatabaseInv, OpenItems, Unlinked;
    var items :| ReadsItems(before, before.active.value, items) &&
                 RecoveredAs(Recovery(itemId, s.resolve, host, before.items.Keys, before.active.value), s.deleteCommitted, before, middle,
                             OpenItems(items), groups, now);
    assert RecoveredVia(s, itemId, host, before, middle, after, items, groups, now);
  }

  function IsMissing(host: Host, system: string): Package -> bool {
    (p: Package) => host.missing(system, p)
  }

  /** The ids of the items of one system, out of some of them, that are written back. */
  ghost function SystemDone(r: Recovery, items: seq<ItemRecord>, system: string, some: seq<ItemRecord>): set<string> {
    set item | item in some && item.package.system == system && !KeptBack(r, items, item) :: r.itemId(item.package)
  }

  ghost function SystemsDone(r: Recovery, items: seq<ItemRecord>, systems: seq<string>): set<string> {
    set item | item in items && item.package.system in systems && !KeptBack(r, items, item) :: r.itemId(item.package)
  }

  ghost function DoneIds(r: Recovery, items: seq<ItemRecord>): set<string> {
    set item | item in items && !KeptBack(r, items, item) :: r.itemId(item.package)
  }

  lemma SameRunsActive(before: Store, after: Store)
    requires SameRuns(before, after)
    ensures after.active == before.active
  {
  }

  lemma StatusesConcat(a: seq<Record>, b: seq<Record>)
    requires StatusesGiven(a) && StatusesGiven(b)
    ensures StatusesGiven(a + b)
  {
  }

  lemma EndedIsIdle(after: Store, runId: string)
    requires EndsOrStays(true, after, runId)
    ensures !HasActive(after)
  {
  }

  lemma CompletionEnds(itemId: ItemIds, s: Store, runId: string, now: string)
    requires s.active == Some(runId) && ReadableRunIn(s, runId)
    ensures EndsOrStays(true, Apply(itemId, s, Commit(runId, now)), runId)
    ensures EndsOrStays(false, Apply(itemId, s, MarkState(runId, "failed", now)), runId)
  {
    CommitReleases(itemId, s, runId, now);
    MarkStateSets(itemId, s, runId, "failed", now);
    hide Apply, ReadableRun;
  }

  lemma DeletedEnds(itemId: ItemIds, s: Store, runId: string)
    ensures EndsOrStays(true, s, runId) ==> EndsOrStays(true, Apply(itemId, s, DeleteRun(runId)), runId)
  {
  }

  lemma MarkedActive(itemId: ItemIds, s: Store, runId: string, state: string, now: string)
    ensures Apply(itemId, s, MarkState(runId, state, now)).active == s.active
  {
    hide ReadableRun;
  }

  lemma NeverEarly(r: Recovery, stock: Stock, s: Store)
    requires Lossless(r.itemId, r.resolve, stock) && StockHolds(stock, s) && KeysMatch(r.itemId, s) && r.keys == s.items.Keys
    ensures forall items :: ReadsItems(s, r.runId, items) ==> !CommitsEarly(r, OpenItems(items))
  {
    hide CommitsEarly, ReadsItems, Lossless, StockHolds, KeysMatch;
    forall items | ReadsItems(s, r.runId, items) ensures !CommitsEarly(r, OpenItems(items)) {
      StockLosesNothing(r, stock, s, items);
    }
  }

  lemma {:induction false} RecordsGiven(runs: nat -> bool, exec: Outcome, n: nat)
    requires forall i: nat :: StatusesGiven(exec(i))
    ensures StatusesGiven(RecordsOf(runs, exec, n))
  {
    if n > 0 {
      RecordsGiven(runs, exec, n - 1);
    }
  }

  lemma RunGiven(x: Execution, s: Store, plans: seq<TaskGroupPlan>, hasGraph: bool, jobs: nat, stopOnFirstFailure: bool, started: seq<nat>, records: seq<Record>)
    requires forall group :: StatusesGiven(x.host.run(group))
    requires RunsAs(plans, OutcomeIn(x, s, plans), hasGraph, jobs, stopOnFirstFailure, started, records)
    ensures StatusesGiven(records)
  {
    forall i: nat ensures StatusesGiven(OutcomeIn(x, s, plans)(i)) {
      OutcomeGiven(x, s, plans, i);
    }
    RecordsGiven(MembersOf(started), OutcomeIn(x, s, plans), |plans|);
  }

  lemma NoneMore(ids: set<string>)
    ensures ids + {} == ids
  {
  }

  lemma NothingDone(r: Recovery, items: seq<ItemRecord>, system: string)
    ensures SystemDone(r, items, system, []) == {}
  {
  }

  lemma NoPlugin(r: Recovery, items: seq<ItemRecord>, system: string)
    requires !r.host.getPlugin(system)
    ensures forall item :: item in items && item.package.system == system ==> KeptBack(r, items, item)
    ensures SystemDone(r, items, system, items) == {}
  {
    hide StillMissing;
  }

  lemma SystemDoneMore(r: Recovery, items: seq<ItemRecord>, system: string, some: seq<ItemRecord>, item: ItemRecord)
    requires item.package.system == system
    ensures SystemDone(r, items, system, some + [item]) ==
            SystemDone(r, items, system, some) + if KeptBack(r, items, item) then {} else {r.itemId(item.package)}
  {
    hide KeptBack;
  }

  lemma SystemDoneSame(r: Recovery, items: seq<ItemRecord>, system: string, systemItems: seq<ItemRecord>)
    requires forall item :: item in systemItems <==> item in items && item.package.system == system
    ensures SystemDone(r, items, system, systemItems) == SystemDone(r, items, system, items)
  {
    hide KeptBack;
  }

  lemma SystemsDoneMore(r: Recovery, items: seq<ItemRecord>, systems: seq<string>, system: string)
    ensures SystemsDone(r, items, systems + [system]) == SystemsDone(r, items, systems) + SystemDone(r, items, system, items)
  {
    hide KeptBack;
  }

  lemma AllSystemsDone(r: Recovery, items: seq<ItemRecord>, systems: seq<string>)
    requires forall item :: item in items ==> item.package.system in systems
    ensures SystemsDone(r, items, systems) == DoneIds(r, items)
  {
    hide KeptBack;
  }

  /** An item the plugin can be asked about is kept back if it is reported missing or no item of the run has its id. */
  lemma ReportedIsKept(r: Recovery, items: seq<ItemRecord>, system: string, systemItems: seq<ItemRecord>, item: ItemRecord)
    requires forall other :: other in systemItems <==> other in items && other.package.system == system
    requires item in systemItems && r.host.getPlugin(system)
    ensures KeptBack(r, items, item) <==>
            || ReportedMissing(Filter(IsMissing(r.host, system), PackagesOf(systemItems)), item.package)
            || (r.runId, r.itemId(item.package)) !in r.keys
  {
    ReportedIsMissing(r, items, system, systemItems, item);
    hide StillMissing, ReportedMissing, Filter;
  }

  lemma ReportedIsMissing(r: Recovery, items: seq<ItemRecord>, system: string, systemItems: seq<ItemRecord>, item: ItemRecord)
    requires forall other :: other in systemItems <==> other in items && other.package.system == system
    requires item in systemItems
    ensures ReportedMissing(Filter(IsMissing(r.host, system), PackagesOf(systemItems)), item.package) <==> StillMissing(r, items, item)
  {
    var packages := PackagesOf(systemItems);
    var missingPackages := Filter(IsMissing(r.host, system), packages);
    FilterMembers(IsMissing(r.host, system), packages);
    if ReportedMissing(missingPackages, item.package) {
      var j :| 0 <= j < |missingPackages| && SamePackage(missingPackages[j], item.package);
      assert missingPackages[j] in packages;
      var i :| 0 <= i < |packages| && packages[i] == missingPackages[j];
      assert systemItems[i] in items;
      var k :| 0 <= k < |items| && items[k] == systemItems[i];
    }
    if StillMissing(r, items, item) {
      var k :| 0 <= k < |items| && items[k].package.system == item.package.system
               && r.host.missing(item.package.system, items[k].package) && SamePackage(items[k].package, item.package);
      assert items[k] in systemItems;
      var i :| 0 <= i < |systemItems| && systemItems[i] == items[k];
      assert packages[i] in packages && packages[i] in missingPackages;
    }
  }

  /** What the two halves leave pending together. */
  lemma PendingIs(r: Recovery, items: seq<ItemRecord>, y: ItemRecord)
    ensures PendingAs(r, items, y) <==>
            || (y in items && Unchecked(r, y))
            || (y in Recoverable(r, items) && KeptBack(r, Recoverable(r, items), y))
  {
    RecoverableMembers(r, items);
    hide Recoverable, Unchecked, KeptBack, ResolvedItem;
    if y in items && Unchecked(r, y) {
      assert StillPending(r, items, y) && PendingItem(r, y) == y;
    }
    if y in Recoverable(r, items) && KeptBack(r, Recoverable(r, items), y) {
      var item :| item in items && !Unchecked(r, item) && y == ResolvedItem(r, item);
      assert StillPending(r, items, item) && PendingItem(r, item) == y;
    }
    if PendingAs(r, items, y) {
      var item :| item in items && StillPending(r, items, item) && PendingItem(r, item) == y;
    }
  }

  lemma SettledKeys(before: Store, after: Store, runId: string, ids: set<string>)
    requires Settles(before, after, runId, ids)
    ensures forall key :: key in before.items <==> key in after.items
  {
    assert before.items.Keys == after.items.Keys;
  }

  /** One start of the program with one call of execute. */
  datatype Start = Start(host: Host, graph: Graph, taskGroups: seq<TaskGroup>, extra: seq<Record>, now: string)

  ghost predicate Admissible(start: Start) {
    start.now != "" && InRange(start.graph) && StatusesGiven(start.extra) && forall group :: StatusesGiven(start.host.run(group))
  }

  /** What a database holds and what the starts may add to it, by run. */
  ghost function StockOf(s: Store, starts: seq<Start>): Stock {
    (iset key | key in s.items :: (key.0, s.items[key].package)) +
    (iset start, k | start in starts && 0 <= k < |AllPackages(start.taskGroups)| ::
       (NewRunId(AllPackages(start.taskGroups), start.now), Stripped(AllPackages(start.taskGroups)[k])))
  }

  lemma StartsStocked(s: Store, starts: seq<Start>)
    ensures StockHolds(StockOf(s, starts), s)
    ensures forall start :: start in starts ==> StockedOp(StockOf(s, starts), NewRun(start.taskGroups, start.now))
  {
    hide NewRunId, Stripped;
  }

  /** No early commit: over any sequence of program starts, each of which may die between any two of its transactions,
      markRunCommitted is only ever called when no item of the run is planned or running, if within each run resolved
      names lose nothing. */
  method Lifetime(db: Database, settings: Settings, starts: seq<Start>)
    requires db.Valid() && db.log == [] && DatabaseInv(db.itemId, db.store)
    requires Lossless(db.itemId, settings.resolve, StockOf(db.store, starts)) && forall start :: start in starts ==> Admissible(start)
    modifies db
    ensures SafeCommits(db.itemId, db.origin, db.log)
    ensures DatabaseInv(db.itemId, db.store)
  {
    ghost var stock := StockOf(db.store, starts);
    StartsStocked(db.store, starts);
    assert db.store == db.origin;
    hide Lossless, StockOf, StockedOp, StockHolds;
    for k := 0 to |starts|
      invariant db.Valid() && LegalLog(db.itemId, db.origin, db.log)
      invariant StockedLog(stock, db.origin, db.log) && SafeCommits(db.itemId, db.origin, db.log)
    {
      var start := starts[k];
      assert start in starts;
      var executer := new TaskExecuter(db, settings, stock);
      hide LegalLog, StockedLog, SafeCommits, KeysMatch, RunCompleted, RecoveryCompleted, PlansOf, Apply, CleanRun, EndsOrStays;
      var begun;
      ghost var recovered, plans;
      begun, recovered, plans := executer.Execute(start.host, start.graph, start.taskGroups, start.extra, start.now);
      var dies: bool, committed: nat := *, *;
      if dies && committed <= |db.log| {
        HistoryPrefix(db.itemId, stock, db.origin, db.log, committed);
        db.Crash(committed);
        LegalStore(db.itemId, db.origin, db.log);
      }
    }
    LegalStore(db.itemId, db.origin, db.log);
  }
}
