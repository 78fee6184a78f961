// The transactional half of Executer::execute: recovery of an interrupted run,
// execution of task groups under a run, and the completion of the run.
module ExecutorTransactions {
  import opened Sequences
  import opened Packages
  import opened TaskPlans
  import opened TaskGroups
  import opened TransactionCodec
  import opened TransactionStore
  import opened TransactionDatabase

  /** What the executer asks of plugins while it runs: whether a system has one and it loads, whether it reports a
      package missing, whether a group gets as far as being handed to its plugin (it is not skipped, left to the
      security gateway, without a plugin, or only a dry run), and the records its execution returns. */
  datatype Host = Host(getPlugin: string -> bool, loadPlugin: string -> bool, missing: (string, Package) -> bool,
                       dispatched: TaskGroup -> bool, run: TaskGroup -> seq<Record>)

  // --------------------------------------------------------- sound histories

  function Resolved(resolve: string -> string, p: Package): Package {
    p.(system := resolve(p.system))
  }

  /** Packages that may ever be stored, each with its run. */
  type Stock = iset<(string, Package)>

  ghost predicate Meets(itemId: ItemIds, resolve: string -> string, p: Package, q: Package) {
    itemId(Resolved(resolve, p)) == itemId(q)
  }

  /** Within a run, the resolved name of an item gives the id of the item itself or of none. */
  ghost predicate Lossless(itemId: ItemIds, resolve: string -> string, stock: Stock) {
    forall runId, p, q :: (runId, p) in stock && (runId, q) in stock && Meets(itemId, resolve, p, q) ==> Meets(itemId, resolve, p, p)
  }

  ghost predicate StockHolds(stock: Stock, s: Store) {
    forall key :: key in s.items ==> (key.0, s.items[key].package) in stock
  }

  ghost predicate StockedOp(stock: Stock, op: Op) {
    op.CreateRun? ==> forall k :: 0 <= k < |op.packages| ==> (NewRunId(op.packages, op.now), Stripped(op.packages[k])) in stock
  }

  /** A history of calls the executer makes. */
  ghost predicate LegalLog(itemId: ItemIds, origin: Store, log: seq<Op>) {
    && IgnoresFlags(itemId) && DatabaseInv(itemId, origin)
    && forall op :: op in log ==> LegalOp(op)
  }

  /** A database with a history of such calls. */
  ghost predicate Sound(db: Database)
    reads db
  {
    db.Valid() && LegalLog(db.itemId, db.origin, db.log)
  }

  /** No run was committed while one of its items was planned or running. */
  ghost predicate SafeSoFar(db: Database)
    reads db
  {
    SafeCommits(db.itemId, db.origin, db.log)
  }

  ghost predicate StockedSoFar(stock: Stock, db: Database)
    reads db
  {
    StockedLog(stock, db.origin, db.log)
  }

  /** Only packages of the stock were stored. */
  ghost predicate StockedLog(stock: Stock, origin: Store, log: seq<Op>) {
    StockHolds(stock, origin) && forall op :: op in log ==> StockedOp(stock, op)
  }

  lemma LegalMore(itemId: ItemIds, origin: Store, log: seq<Op>, op: Op)
    requires LegalLog(itemId, origin, log) && LegalOp(op)
    ensures LegalLog(itemId, origin, log + [op])
  {
    hide LegalOp, DatabaseInv, IgnoresFlags;
  }

  lemma StockedMore(stock: Stock, origin: Store, log: seq<Op>, op: Op)
    requires StockedLog(stock, origin, log) && StockedOp(stock, op)
    ensures StockedLog(stock, origin, log + [op])
  {
    hide StockedOp, StockHolds;
  }

  lemma SafetySame(itemId: ItemIds, origin: Store, log: seq<Op>, op: Op)
    ensures !op.Commit? ==> (SafeCommits(itemId, origin, log + [op]) <==> SafeCommits(itemId, origin, log))
    ensures op.Commit? ==> (SafeCommits(itemId, origin, log + [op]) <==>
                            SafeCommits(itemId, origin, log) && AllTerminal(Replay(itemId, origin, log), op.runId))
  {
    if SafeCommits(itemId, origin, log + [op]) {
      SafePrefix(itemId, origin, log + [op], |log|);
      assert (log + [op])[..|log|] == log && (log + [op])[|log|] == op;
    }
    if SafeCommits(itemId, origin, log) && (op.Commit? ==> AllTerminal(Replay(itemId, origin, log), op.runId)) {
      SafeMore(itemId, origin, log, op);
    }
  }

  /** A crash between two transactions leaves a history of the same kind. */
  lemma HistoryPrefix(itemId: ItemIds, stock: Stock, origin: Store, log: seq<Op>, k: nat)
    requires k <= |log|
    ensures LegalLog(itemId, origin, log) ==> LegalLog(itemId, origin, log[..k])
    ensures StockedLog(stock, origin, log) ==> StockedLog(stock, origin, log[..k])
    ensures SafeCommits(itemId, origin, log) ==> SafeCommits(itemId, origin, log[..k])
  {
    if SafeCommits(itemId, origin, log) {
      SafePrefix(itemId, origin, log, k);
    }
    assert forall op :: op in log[..k] ==> op in log;
    hide LegalOp, StockedOp, SafeCommits, DatabaseInv, IgnoresFlags, StockHolds;
  }

  lemma {:induction false} PlannedFromStock(itemId: ItemIds, runId: string, packages: seq<Package>)
    ensures forall key :: key in Planned(itemId, runId, packages) ==>
              key.0 == runId && exists k :: 0 <= k < |packages| && Planned(itemId, runId, packages)[key].package == Stripped(packages[k])
  {
    if packages != [] {
      var n := |packages| - 1;
      var before := Planned(itemId, runId, packages[..n]);
      PlannedFromStock(itemId, runId, packages[..n]);
      forall key | key in before
        ensures key.0 == runId && exists k :: 0 <= k < |packages| && before[key].package == Stripped(packages[k])
      {
        var k :| 0 <= k < n && before[key].package == Stripped(packages[..n][k]);
        assert packages[..n][k] == packages[k];
      }
    }
  }

  lemma ApplyKeepsStock(itemId: ItemIds, stock: Stock, s: Store, op: Op)
    requires StockHolds(stock, s) && StockedOp(stock, op)
    ensures StockHolds(stock, Apply(itemId, s, op))
  {
    if op.CreateRun? {
      PlannedFromStock(itemId, NewRunId(op.packages, op.now), op.packages);
      hide Planned, StoredFlags, NewRunId, Stripped;
    } else {
      UpdateKeepsStock(itemId, stock, s, op);
    }
  }

  lemma UpdateKeepsStock(itemId: ItemIds, stock: Stock, s: Store, op: Op)
    requires StockHolds(stock, s) && !op.CreateRun?
    ensures StockHolds(stock, Apply(itemId, s, op))
  {
    hide Planned, StoredFlags, NewRunId, Listed, CanUpdate, ReadableRun;
    var after := Apply(itemId, s, op);
    forall key | key in after.items ensures (key.0, after.items[key].package) in stock {
      assert key in s.items && after.items[key].package == s.items[key].package;
    }
  }

  lemma {:induction false} StockStore(itemId: ItemIds, stock: Stock, origin: Store, log: seq<Op>)
    requires StockedLog(stock, origin, log)
    ensures StockHolds(stock, Replay(itemId, origin, log))
  {
    if log != [] {
      assert forall op :: op in log[..|log| - 1] ==> op in log;
      assert log[|log| - 1] in log;
      hide StockHolds, StockedOp, Apply;
      StockStore(itemId, stock, origin, log[..|log| - 1]);
      ApplyKeepsStock(itemId, stock, Replay(itemId, origin, log[..|log| - 1]), log[|log| - 1]);
    }
  }

  lemma LegalStore(itemId: ItemIds, origin: Store, log: seq<Op>)
    requires LegalLog(itemId, origin, log)
    ensures DatabaseInv(itemId, Replay(itemId, origin, log))
  {
    LegalHistoryKeepsInv(itemId, origin, log);
  }

  // -------------------------------------------------------- changes of a store

  /** No run begins, ends or changes anything but its time stamp. */
  ghost predicate SameRuns(before: Store, after: Store) {
    && after.active == before.active && after.items.Keys == before.items.Keys && after.runs.Keys == before.runs.Keys
    && forall runId :: runId in before.runs ==> after.runs[runId] == before.runs[runId].(updatedAt := after.runs[runId].updatedAt)
  }

  lemma UpdateKeepsRuns(itemId: ItemIds, s: Store, runId: string, packages: seq<Package>, status: string, errorMessage: string, now: string)
    ensures SameRuns(s, Apply(itemId, s, UpdateItems(runId, packages, status, errorMessage, now)))
  {
    hide CanUpdate, Listed, ReadableRun;
  }

  /** As SameRuns, and exactly the given items of the run have become a success. */
  ghost predicate Settles(before: Store, after: Store, runId: string, ids: set<string>) {
    && SameRuns(before, after)
    && forall key :: key in before.items ==>
         after.items[key] ==
         if key.0 == runId && key.1 in ids then before.items[key].(status := "success", errorMessage := "") else before.items[key]
  }

  lemma SettlesNothing(s: Store, runId: string)
    ensures Settles(s, s, runId, {})
  {
  }

  lemma SettlesChain(a: Store, b: Store, c: Store, runId: string, first: set<string>, second: set<string>)
    requires Settles(a, b, runId, first) && Settles(b, c, runId, second)
    ensures Settles(a, c, runId, first + second)
  {
  }

  /** Updating one item to a success: the item of that id, if the run has one. */
  lemma UpdateSettles(itemId: ItemIds, s: Store, runId: string, p: Package, now: string)
    requires AllReadable(s)
    ensures CanUpdate(itemId, s, runId, [p], "success") <==> (runId, itemId(p)) in s.items
    ensures Settles(s, Apply(itemId, s, UpdateItems(runId, [p], "success", "", now)), runId,
                    if (runId, itemId(p)) in s.items then {itemId(p)} else {})
  {
    UpdateKeepsRuns(itemId, s, runId, [p], "success", "", now);
    UpdateOneItem(itemId, s, runId, p, "success", "", now);
    assert [p][0] == p;
    assert CanUpdate(itemId, s, runId, [p], "success") <==> Readable(s, runId, itemId(p));
    hide CanUpdate, Listed, Apply, SameRuns;
  }

  // ------------------------------------------------------------ reconciliation

  /** One recovery: the item ids, resolvePluginName, the plugins, the keys of the stored items, and the run. */
  datatype Recovery = Recovery(itemId: ItemIds, resolve: string -> string, host: Host, keys: set<(string, string)>, runId: string)

  function ResolvedItem(r: Recovery, item: ItemRecord): ItemRecord {
    item.(package := Resolved(r.resolve, item.package))
  }

  /** The id under which the item is written back. */
  function ResolvedId(r: Recovery, item: ItemRecord): string {
    r.itemId(Resolved(r.resolve, item.package))
  }

  /** Nobody can be asked about the item. */
  predicate Unchecked(r: Recovery, item: ItemRecord) {
    var system := r.resolve(item.package.system);
    !UsesMissingFilter(item.package.action) || !r.host.getPlugin(system) || !r.host.loadPlugin(system)
  }

  /** The items plugins are asked about, under their resolved systems. */
  function Recoverable(r: Recovery, items: seq<ItemRecord>): seq<ItemRecord> {
    if items == [] then []
    else
      var last := items[|items| - 1];
      Recoverable(r, items[..|items| - 1]) + (if Unchecked(r, last) then [] else [ResolvedItem(r, last)])
  }

  /** A package of the item's identity is reported missing among the items of its system. */
  predicate StillMissing(r: Recovery, recoverable: seq<ItemRecord>, item: ItemRecord) {
    exists k :: 0 <= k < |recoverable| && recoverable[k].package.system == item.package.system
                && r.host.missing(item.package.system, recoverable[k].package) && SamePackage(recoverable[k].package, item.package)
  }

  /** The item is still missing, or the run has no item under its id. */
  predicate KeptBack(r: Recovery, recoverable: seq<ItemRecord>, item: ItemRecord) {
    || !r.host.getPlugin(item.package.system) || StillMissing(r, recoverable, item)
    || (r.runId, r.itemId(item.package)) !in r.keys
  }

  /** The items recovery has to run again. */
  predicate StillPending(r: Recovery, items: seq<ItemRecord>, item: ItemRecord) {
    Unchecked(r, item) || KeptBack(r, Recoverable(r, items), ResolvedItem(r, item))
  }

  /** The form in which it runs them again. */
  function PendingItem(r: Recovery, item: ItemRecord): ItemRecord {
    if Unchecked(r, item) then item else ResolvedItem(r, item)
  }

  ghost predicate NothingPending(r: Recovery, items: seq<ItemRecord>) {
    forall item :: item in items ==> !StillPending(r, items, item)
  }

  /** The ids of the items it writes back as a success. */
  ghost function SettledIds(r: Recovery, items: seq<ItemRecord>): set<string> {
    set item | item in Recoverable(r, items) && !KeptBack(r, Recoverable(r, items), item) :: r.itemId(item.package)
  }

  lemma {:induction false} RecoverableMembers(r: Recovery, items: seq<ItemRecord>)
    ensures forall x :: x in Recoverable(r, items) <==> exists item :: item in items && !Unchecked(r, item) && x == ResolvedItem(r, item)
  {
    if items != [] {
      var rest, last := items[..|items| - 1], items[|items| - 1];
      assert items == rest + [last];
      RecoverableMembers(r, rest);
      hide Unchecked, ResolvedItem;
      forall x ensures x in Recoverable(r, items) <==> exists item :: item in items && !Unchecked(r, item) && x == ResolvedItem(r, item) {
        if x in Recoverable(r, rest) {
          var item :| item in rest && !Unchecked(r, item) && x == ResolvedItem(r, item);
          assert item in items;
        }
        assert last in items;
      }
    }
  }

  lemma SettledIdsAre(r: Recovery, items: seq<ItemRecord>)
    ensures forall id :: id in SettledIds(r, items) <==> exists item :: item in items && !StillPending(r, items, item) && ResolvedId(r, item) == id
  {
    RecoverableMembers(r, items);
    hide Recoverable, Unchecked, KeptBack;
    var recoverable := Recoverable(r, items);
    forall id ensures id in SettledIds(r, items) <==> exists item :: item in items && !StillPending(r, items, item) && ResolvedId(r, item) == id {
      if id in SettledIds(r, items) {
        var x :| x in recoverable && !KeptBack(r, recoverable, x) && r.itemId(x.package) == id;
        var item :| item in items && !Unchecked(r, item) && x == ResolvedItem(r, item);
        assert !StillPending(r, items, item);
      }
      if item :| item in items && !StillPending(r, items, item) && ResolvedId(r, item) == id {
        assert ResolvedItem(r, item) in recoverable;
      }
    }
  }

  function IsOpen(): ItemRecord -> bool {
    (item: ItemRecord) => !Terminal(item.status)
  }

  /** The items recovery looks at. */
  function OpenItems(items: seq<ItemRecord>): seq<ItemRecord> {
    Filter(IsOpen(), items)
  }

  /** What reading the items of a run tells about each of them. */
  lemma ItemsAreStored(itemId: ItemIds, s: Store, runId: string, items: seq<ItemRecord>)
    requires KeysMatch(itemId, s) && ReadsItems(s, runId, items)
    ensures forall item :: item in items ==>
              (runId, item.itemId) in s.items && s.items[(runId, item.itemId)] == item && itemId(item.package) == item.itemId
  {
    forall item | item in items
      ensures (runId, item.itemId) in s.items && s.items[(runId, item.itemId)] == item && itemId(item.package) == item.itemId
    {
      var id :| Readable(s, runId, id) && s.items[(runId, id)] == item;
      assert (runId, id) in s.items;
    }
  }

  lemma EveryItemIsRead(s: Store, runId: string, items: seq<ItemRecord>)
    requires AllReadable(s) && ReadsItems(s, runId, items)
    ensures forall key :: key in s.items && key.0 == runId ==> s.items[key] in items
  {
    forall key | key in s.items && key.0 == runId ensures s.items[key] in items {
      assert Readable(s, runId, key.1) && s.items[(runId, key.1)] == s.items[key];
    }
  }

  // ---------------------------------------------------------- early commits

  /** Recovery commits the run although one of its open items was not written back. */
  ghost predicate CommitsEarly(r: Recovery, open: seq<ItemRecord>) {
    NothingPending(r, open) && exists item :: item in open && item.itemId !in SettledIds(r, open)
  }

  /** Every open item would be written back to some item of the run, but one of them to none. */
  ghost predicate Loses(itemId: ItemIds, resolve: string -> string, keys: set<(string, string)>, runId: string, open: seq<ItemRecord>) {
    && (forall item :: item in open ==>
          UsesMissingFilter(item.package.action) && (runId, itemId(Resolved(resolve, item.package))) in keys)
    && exists item :: item in open && LeftOut(itemId, resolve, open, item)
  }

  ghost predicate LeftOut(itemId: ItemIds, resolve: string -> string, open: seq<ItemRecord>, item: ItemRecord) {
    forall other :: other in open ==> itemId(Resolved(resolve, other.package)) != item.itemId
  }

  lemma EarlyLoses(r: Recovery, open: seq<ItemRecord>)
    requires CommitsEarly(r, open)
    ensures Loses(r.itemId, r.resolve, r.keys, r.runId, open)
  {
    SettledIdsAre(r, open);
    forall item | item in open ensures UsesMissingFilter(item.package.action) && (r.runId, ResolvedId(r, item)) in r.keys {
      assert !StillPending(r, open, item);
    }
    hide SettledIds, StillPending, UsesMissingFilter, Resolved;
    var item :| item in open && item.itemId !in SettledIds(r, open);
    forall other | other in open ensures ResolvedId(r, other) != item.itemId {
      assert !StillPending(r, open, other);
    }
    assert LeftOut(r.itemId, r.resolve, open, item);
  }

  /** Every plugin is there and reports nothing as missing. */
  function ContentHost(): Host {
    Host(_ => true, _ => true, (_, _) => false, _ => true, _ => [])
  }

  lemma LosesEarly(itemId: ItemIds, resolve: string -> string, keys: set<(string, string)>, runId: string, open: seq<ItemRecord>)
    requires Loses(itemId, resolve, keys, runId, open)
    ensures CommitsEarly(Recovery(itemId, resolve, ContentHost(), keys, runId), open)
  {
    var r := Recovery(itemId, resolve, ContentHost(), keys, runId);
    forall item | item in open ensures !StillPending(r, open, item) {
    }
    SettledIdsAre(r, open);
    hide SettledIds, StillPending, UsesMissingFilter, Resolved, ContentHost;
    var item :| item in open && LeftOut(itemId, resolve, open, item);
    assert forall other :: other in open ==> ResolvedId(r, other) != item.itemId;
  }

  /** There are plugins under which recovery commits a run early exactly if every open item would be written back
      somewhere and one of them would be left out. */
  lemma EarlyCommitExactly(itemId: ItemIds, resolve: string -> string, keys: set<(string, string)>, runId: string, open: seq<ItemRecord>)
    ensures (exists host :: CommitsEarly(Recovery(itemId, resolve, host, keys, runId), open)) <==>
            Loses(itemId, resolve, keys, runId, open)
  {
    hide CommitsEarly, Loses;
    if host :| CommitsEarly(Recovery(itemId, resolve, host, keys, runId), open) {
      EarlyLoses(Recovery(itemId, resolve, host, keys, runId), open);
    }
    if Loses(itemId, resolve, keys, runId, open) {
      LosesEarly(itemId, resolve, keys, runId, open);
    }
  }

  /** Nothing is lost where the resolved name of an item gives its own id or the id of no item of the run. */
  lemma LosslessLosesNothing(itemId: ItemIds, resolve: string -> string, keys: set<(string, string)>, runId: string, open: seq<ItemRecord>)
    requires forall item :: item in open ==>
               itemId(Resolved(resolve, item.package)) == item.itemId || (runId, itemId(Resolved(resolve, item.package))) !in keys
    ensures !Loses(itemId, resolve, keys, runId, open)
  {
    hide Resolved, UsesMissingFilter;
    forall item | item in open && itemId(Resolved(resolve, item.package)) == item.itemId ensures !LeftOut(itemId, resolve, open, item) {
    }
  }

  lemma FixedByResolving(itemId: ItemIds, resolve: string -> string, p: Package, q: Package)
    requires resolve(resolve(p.system)) == resolve(p.system)
    requires Meets(itemId, resolve, p, q) ==> SamePackage(Resolved(resolve, p), q)
    ensures Meets(itemId, resolve, p, q) ==> Meets(itemId, resolve, q, q)
  {
    assert SamePackage(Resolved(resolve, p), q) ==> Resolved(resolve, q) == q;
  }

  /** The condition is needed: where every open item would be written back, resolving twice changes nothing more and
      ids tell packages apart, an item is lost exactly if the resolved name of one gives another id. */
  lemma LosslessIsNeeded(itemId: ItemIds, resolve: string -> string, keys: set<(string, string)>, runId: string, open: seq<ItemRecord>)
    requires forall item :: item in open ==>
               && UsesMissingFilter(item.package.action) && (runId, itemId(Resolved(resolve, item.package))) in keys
               && itemId(item.package) == item.itemId && resolve(resolve(item.package.system)) == resolve(item.package.system)
    requires forall item, other :: item in open && other in open && Meets(itemId, resolve, item.package, other.package) ==>
               SamePackage(Resolved(resolve, item.package), other.package)
    ensures Loses(itemId, resolve, keys, runId, open) <==>
            exists item :: item in open && itemId(Resolved(resolve, item.package)) != item.itemId
  {
    hide UsesMissingFilter;
    if item :| item in open && itemId(Resolved(resolve, item.package)) != item.itemId {
      forall other | other in open
        ensures Meets(itemId, resolve, other.package, item.package) ==> itemId(Resolved(resolve, item.package)) == item.itemId
      {
        FixedByResolving(itemId, resolve, other.package, item.package);
      }
      assert LeftOut(itemId, resolve, open, item);
    }
    if Loses(itemId, resolve, keys, runId, open) {
      var item :| item in open && LeftOut(itemId, resolve, open, item);
    }
  }

  /** After recovery with nothing pending every item of the run has ended exactly if it does not commit early. */
  lemma NothingPendingIsTerminal(r: Recovery, before: Store, after: Store, items: seq<ItemRecord>)
    requires DatabaseInv(r.itemId, before) && ReadsItems(before, r.runId, items)
    requires Settles(before, after, r.runId, SettledIds(r, OpenItems(items))) && NothingPending(r, OpenItems(items))
    ensures AllTerminal(after, r.runId) <==> !CommitsEarly(r, OpenItems(items))
  {
    EveryItemIsRead(before, r.runId, items);
    ItemsAreStored(r.itemId, before, r.runId, items);
    FilterMembers(IsOpen(), items);
    var open, settled := OpenItems(items), SettledIds(r, OpenItems(items));
    assert forall item :: item in open <==> item in items && !Terminal(item.status);
    hide ReadsItems, AllReadable, NothingPending, Filter, ActiveExact, OpenItems, SettledIds, Terminal;
    StatusAfter(before, after, r.runId, settled);
    if AllTerminal(after, r.runId) {
      forall item | item in open ensures item.itemId in settled {
        assert (r.runId, item.itemId) in after.items;
      }
    } else {
      var key :| key in after.items && key.0 == r.runId && !Terminal(after.items[key].status);
      assert before.items[key] in open && before.items[key].itemId == key.1;
    }
  }

  lemma StatusAfter(before: Store, after: Store, runId: string, ids: set<string>)
    requires Settles(before, after, runId, ids)
    ensures forall key :: key in before.items <==> key in after.items
    ensures forall key :: key in before.items && key.0 == runId ==>
              after.items[key].status == if key.1 in ids then "success" else before.items[key].status
    ensures Terminal("success")
  {
    assert before.items.Keys == after.items.Keys;
  }

  lemma StockLosesNothing(r: Recovery, stock: Stock, s: Store, items: seq<ItemRecord>)
    requires Lossless(r.itemId, r.resolve, stock) && StockHolds(stock, s) && KeysMatch(r.itemId, s)
    requires ReadsItems(s, r.runId, items) && r.keys == s.items.Keys
    ensures !CommitsEarly(r, OpenItems(items))
  {
    ItemsAreStored(r.itemId, s, r.runId, items);
    FilterMembers(IsOpen(), items);
    hide ReadsItems, Filter, IsOpen, Resolved;
    forall item | item in OpenItems(items)
      ensures ResolvedId(r, item) == item.itemId || (r.runId, ResolvedId(r, item)) !in r.keys
    {
      StockedItem(r, stock, s, item);
    }
    hide CommitsEarly, OpenItems;
    if CommitsEarly(r, OpenItems(items)) {
      EarlyLoses(r, OpenItems(items));
      LosslessLosesNothing(r.itemId, r.resolve, r.keys, r.runId, OpenItems(items));
    }
  }

  lemma StockedItem(r: Recovery, stock: Stock, s: Store, item: ItemRecord)
    requires Lossless(r.itemId, r.resolve, stock) && StockHolds(stock, s) && KeysMatch(r.itemId, s) && r.keys == s.items.Keys
    requires (r.runId, item.itemId) in s.items && s.items[(r.runId, item.itemId)] == item && r.itemId(item.package) == item.itemId
    ensures ResolvedId(r, item) == item.itemId || (r.runId, ResolvedId(r, item)) !in r.keys
  {
    hide Resolved;
    var key := (r.runId, ResolvedId(r, item));
    if key in r.keys {
      var q := s.items[key].package;
      assert (r.runId, item.package) in stock && (r.runId, q) in stock;
      assert Meets(r.itemId, r.resolve, item.package, q);
    }
  }

  // ------------------------------------------------------- failed items

  /** Where nothing is pending and every item is written back to itself, the run had only successes exactly if none
      of its items had failed. */
  lemma OnlyFailuresAreNotDone(r: Recovery, before: Store, after: Store, items: seq<ItemRecord>)
    requires DatabaseInv(r.itemId, before) && ReadsItems(before, r.runId, items)
    requires Settles(before, after, r.runId, SettledIds(r, OpenItems(items))) && NothingPending(r, OpenItems(items))
    requires forall item :: item in OpenItems(items) ==> ResolvedId(r, item) == item.itemId
    ensures AllDone(after, r.runId) <==> forall key :: key in before.items && key.0 == r.runId ==> before.items[key].status != "failed"
  {
    EveryItemIsRead(before, r.runId, items);
    ItemsAreStored(r.itemId, before, r.runId, items);
    FilterMembers(IsOpen(), items);
    SettledIdsAre(r, OpenItems(items));
    var open, settled := OpenItems(items), SettledIds(r, OpenItems(items));
    assert forall item :: item in open <==> item in items && !Terminal(item.status);
    hide ReadsItems, AllReadable, Filter, ActiveExact, OpenItems, SettledIds, StillPending, ResolvedId;
    StatusAfter(before, after, r.runId, settled);
    forall key | key in before.items && key.0 == r.runId ensures key.1 in settled <==> !Terminal(before.items[key].status) {
      SettledIsOpen(r, before, items, open, settled, key);
    }
    hide Settles, NothingPending;
    DoneUnlessFailed(before, after, r.runId, settled);
  }

  lemma DoneUnlessFailed(before: Store, after: Store, runId: string, settled: set<string>)
    requires forall key :: key in before.items <==> key in after.items
    requires forall key :: key in before.items && key.0 == runId ==>
               after.items[key].status == if key.1 in settled then "success" else before.items[key].status
    requires forall key :: key in before.items && key.0 == runId ==> (key.1 in settled <==> !Terminal(before.items[key].status))
    ensures AllDone(after, runId) <==> forall key :: key in before.items && key.0 == runId ==> before.items[key].status != "failed"
  {
    hide Terminal, Done;
    TerminalIs();
  }

  lemma TerminalIs()
    ensures forall status :: Terminal(status) <==> Done(status) || status == "failed"
    ensures Done("success") && !Done("failed")
  {
  }

  lemma SettledIsOpen(r: Recovery, s: Store, items: seq<ItemRecord>, open: seq<ItemRecord>, settled: set<string>, key: (string, string))
    requires key in s.items && key.0 == r.runId && s.items[key] in items && s.items[key].itemId == key.1
    requires forall item :: item in items ==> (r.runId, item.itemId) in s.items && s.items[(r.runId, item.itemId)] == item
    requires forall item :: item in open <==> item in items && !Terminal(item.status)
    requires NothingPending(r, open) && forall item :: item in open ==> ResolvedId(r, item) == item.itemId
    requires forall id :: id in settled <==> exists item :: item in open && !StillPending(r, open, item) && ResolvedId(r, item) == id
    ensures key.1 in settled <==> !Terminal(s.items[key].status)
  {
    hide StillPending, ResolvedId, Terminal;
    var stored := s.items[key];
    if key.1 in settled {
      var item :| item in open && !StillPending(r, open, item) && ResolvedId(r, item) == key.1;
      assert (r.runId, item.itemId) == key;
    }
    if stored in open {
      assert !StillPending(r, open, stored);
    }
  }

  // ------------------------------------------------------- ending a run

  lemma CommitReleases(itemId: ItemIds, s: Store, runId: string, now: string)
    requires s.active == Some(runId)
    ensures var after := Apply(itemId, s, Commit(runId, now)); after.active == None && runId in after.runs && after.runs[runId].state == "committed"
  {
    hide CommittedItems, ReadableRun;
  }

  lemma DeleteReleases(itemId: ItemIds, s: Store, runId: string)
    requires s.active == None || s.active == Some(runId)
    ensures var after := Apply(itemId, s, DeleteRun(runId));
            && (runId in s.runs ==> after.active == None) && (s.active == None ==> after.active == None)
            && runId !in after.runs
  {
  }

  /** A run is committed and, if so configured, deleted. */
  function Closed(itemId: ItemIds, deleteCommitted: bool, s: Store, runId: string, now: string): Store {
    var committed := Apply(itemId, s, Commit(runId, now));
    if deleteCommitted then Apply(itemId, committed, DeleteRun(runId)) else committed
  }

  lemma ClosedEnds(itemId: ItemIds, deleteCommitted: bool, s: Store, runId: string, now: string)
    requires s.active == Some(runId)
    ensures var after := Closed(itemId, deleteCommitted, s, runId, now);
            && after.active == None && (runId in after.runs <==> !deleteCommitted)
            && (runId in after.runs ==> after.runs[runId].state == "committed")
  {
    CommitReleases(itemId, s, runId, now);
    var committed := Apply(itemId, s, Commit(runId, now));
    DeleteReleases(itemId, committed, runId);
    hide Apply;
  }

  /** Closing a run leaves everything else alone. */
  lemma ClosedKeepsOthers(itemId: ItemIds, deleteCommitted: bool, s: Store, runId: string, now: string)
    ensures var after := Closed(itemId, deleteCommitted, s, runId, now);
            && (forall other :: other != runId ==> (other in after.runs <==> other in s.runs) && (other in s.runs ==> after.runs[other] == s.runs[other]))
            && (forall key: (string, string) :: key.0 != runId ==> (key in after.items <==> key in s.items) && (key in s.items ==> after.items[key] == s.items[key]))
  {
    hide ReadableRun;
  }

  lemma MarkStateSets(itemId: ItemIds, s: Store, runId: string, state: string, now: string)
    requires ReadableRunIn(s, runId)
    ensures var after := Apply(itemId, s, MarkState(runId, state, now));
            && after == s.(runs := after.runs) && after.runs.Keys == s.runs.Keys
            && after.runs[runId] == s.runs[runId].(state := state, updatedAt := now)
            && forall other :: other in s.runs && other != runId ==> after.runs[other] == s.runs[other]
  {
    hide ReadableRun;
  }

  lemma ActiveIsReadable(itemId: ItemIds, s: Store)
    requires DatabaseInv(itemId, s) && HasActive(s)
    ensures ReadableRunIn(s, s.active.value) && s.runs[s.active.value].state != "committed" && s.runs[s.active.value].id == s.active.value
  {
  }

  /** Maximal runs of packages, with the flags of the run. */
  ghost predicate RecoveredGroups(groups: seq<TaskGroup>, flags: seq<string>) {
    exists found :: MaximalRuns(found, AllPackages(groups)) && groups == WithFlags(found, flags)
  }

  /** What recovery of the active run leaves behind: the run closed, or active as recovered with the groups that are
      still to be executed. */
  ghost predicate RecoveredAs(r: Recovery, deleteCommitted: bool, before: Store, after: Store, open: seq<ItemRecord>, groups: seq<TaskGroup>, now: string)
    requires r.runId in before.runs
  {
    if groups == [] then
      && NothingPending(r, open)
      && exists settled :: Settles(before, settled, r.runId, SettledIds(r, open)) && after == Closed(r.itemId, deleteCommitted, settled, r.runId, now)
    else
      && (forall p :: p in AllPackages(groups) <==> exists item :: item in open && StillPending(r, open, item) && PendingItem(r, item).package == p)
      && RecoveredGroups(groups, before.runs[r.runId].flags)
      && exists settled :: Settles(before, settled, r.runId, SettledIds(r, open)) && after == Apply(r.itemId, settled, MarkState(r.runId, "recovered", now))
  }

  lemma SettledState(before: Store, after: Store, runId: string, ids: set<string>)
    requires Settles(before, after, runId, ids)
    ensures after.active == before.active && after.runs.Keys == before.runs.Keys && after.items.Keys == before.items.Keys
  {
  }

  function WithFlags(groups: seq<TaskGroup>, flags: seq<string>): seq<TaskGroup> {
    if groups == [] then [] else WithFlags(groups[..|groups| - 1], flags) + [groups[|groups| - 1].(flags := flags)]
  }

  lemma {:induction false} WithFlagsAre(groups: seq<TaskGroup>, flags: seq<string>)
    ensures |WithFlags(groups, flags)| == |groups| && AllPackages(WithFlags(groups, flags)) == AllPackages(groups)
    ensures forall group :: group in WithFlags(groups, flags) ==> group.flags == flags
  {
    if groups != [] {
      WithFlagsAre(groups[..|groups| - 1], flags);
      var after := WithFlags(groups, flags);
      assert after[..|after| - 1] == WithFlags(groups[..|groups| - 1], flags);
    }
  }

  lemma NothingRecovered(r: Recovery, deleteCommitted: bool, before: Store, settled: Store, after: Store, open: seq<ItemRecord>, now: string)
    requires r.runId in before.runs && NothingPending(r, open) && Settles(before, settled, r.runId, SettledIds(r, open))
    requires after == Closed(r.itemId, deleteCommitted, settled, r.runId, now)
    ensures RecoveredAs(r, deleteCommitted, before, after, open, [], now)
  {
    hide NothingPending, Settles, SettledIds, Closed;
  }

  /** y is the form in which a pending item is run again. */
  ghost predicate PendingAs(r: Recovery, open: seq<ItemRecord>, y: ItemRecord) {
    exists item :: item in open && StillPending(r, open, item) && PendingItem(r, item) == y
  }

  lemma PendingRecovered(r: Recovery, deleteCommitted: bool, before: Store, settled: Store, after: Store, open: seq<ItemRecord>,
                         pending: seq<ItemRecord>, found: seq<TaskGroup>, groups: seq<TaskGroup>, now: string)
    requires r.runId in before.runs && Settles(before, settled, r.runId, SettledIds(r, open)) && pending != []
    requires forall y :: y in pending <==> PendingAs(r, open, y)
    requires MaximalRuns(found, PackagesOf(pending)) && groups == WithFlags(found, before.runs[r.runId].flags)
    requires after == Apply(r.itemId, settled, MarkState(r.runId, "recovered", now))
    ensures groups != [] && RecoveredAs(r, deleteCommitted, before, after, open, groups, now)
  {
    WithFlagsAre(found, before.runs[r.runId].flags);
    PendingPackages(r, open, pending);
    assert AllPackages(groups) == PackagesOf(pending) && |PackagesOf(pending)| > 0;
    assert RecoveredGroups(groups, before.runs[r.runId].flags);
    hide RecoveredGroups, StillPending, SettledIds, WithFlags, Groups, PackagesOf, Settles, Apply, PendingItem;
  }

  lemma PendingPackages(r: Recovery, open: seq<ItemRecord>, pending: seq<ItemRecord>)
    requires forall y :: y in pending <==> PendingAs(r, open, y)
    ensures forall p :: p in PackagesOf(pending) <==> exists item :: item in open && StillPending(r, open, item) && PendingItem(r, item).package == p
  {
    hide StillPending, PendingItem;
    var packages := PackagesOf(pending);
    forall p ensures p in packages <==> exists item :: item in open && StillPending(r, open, item) && PendingItem(r, item).package == p {
      if p in packages {
        var k :| 0 <= k < |packages| && packages[k] == p;
        assert pending[k] in pending;
        assert PendingAs(r, open, pending[k]);
      }
      if item :| item in open && StillPending(r, open, item) && PendingItem(r, item).package == p {
        assert PendingAs(r, open, PendingItem(r, item));
        var k :| 0 <= k < |pending| && pending[k] == PendingItem(r, item);
        assert packages[k] == p;
      }
    }
  }

  lemma PendingNothing(r: Recovery, open: seq<ItemRecord>)
    requires forall y :: !PendingAs(r, open, y)
    ensures NothingPending(r, open)
  {
    hide StillPending, PendingItem;
    forall item | item in open ensures !StillPending(r, open, item) {
      assert !PendingAs(r, open, PendingItem(r, item));
    }
  }

  // ------------------------------------------------------------- small helpers

  /** package with the same identity as p was reported missing. */
  predicate ReportedMissing(missingPackages: seq<Package>, p: Package) {
    exists k :: 0 <= k < |missingPackages| && SamePackage(missingPackages[k], p)
  }

  /** buildFailureRecords under a run, when marking the group as running failed. */
  function UpdateFailures(group: TaskGroup, runId: string, packages: seq<Package>): seq<Record> {
    if packages == [] then []
    else
      var p := packages[|packages| - 1];
      UpdateFailures(group, runId, packages[..|packages| - 1]) +
      [Record(runId, group.system, group.action, p.name, p.version, "failed", "transaction update failed")]
  }

  /** The first item of the run a record speaks about. */
  function ItemOf(items: seq<ItemRecord>, record: Record): Option<ItemRecord> {
    if items == [] then None
    else if items[0].package.action == record.action && items[0].package.system == record.system
            && items[0].package.name == record.packageName && items[0].package.version == record.packageVersion
    then Some(items[0])
    else ItemOf(items[1..], record)
  }

  /** The package under which a record is written back. */
  function WrittenPackage(items: seq<ItemRecord>, record: Record): Package {
    var p := Package(record.action, record.system, record.packageName, record.packageVersion, "", false, [], false);
    match ItemOf(items, record)
    case None => p
    case Some(item) => p.(sourcePath := item.package.sourcePath, localTarget := item.package.localTarget, flags := item.package.flags)
  }

  /** The last record written to an item. */
  function LastFor(itemId: ItemIds, items: seq<ItemRecord>, records: seq<Record>, id: string): Option<Record> {
    if records == [] then None
    else if itemId(WrittenPackage(items, records[|records| - 1])) == id then Some(records[|records| - 1])
    else LastFor(itemId, items, records[..|records| - 1], id)
  }

  function WithRecord(item: ItemRecord, record: Option<Record>): ItemRecord {
    match record case None => item case Some(r) => item.(status := r.status, errorMessage := r.errorMessage)
  }

  /** Each item of the run carries the outcome of the last record about it; nothing else changed. */
  ghost predicate ResultsWritten(itemId: ItemIds, before: Store, after: Store, runId: string, items: seq<ItemRecord>, records: seq<Record>) {
    && SameRuns(before, after)
    && forall key :: key in before.items ==>
         after.items[key] ==
         if key.0 == runId then WithRecord(before.items[key], LastFor(itemId, items, records, key.1)) else before.items[key]
  }

  lemma NothingWritten(itemId: ItemIds, s: Store, runId: string, items: seq<ItemRecord>)
    ensures ResultsWritten(itemId, s, s, runId, items, [])
  {
  }

  lemma RecordWritten(itemId: ItemIds, before: Store, s: Store, runId: string, items: seq<ItemRecord>, records: seq<Record>,
                      record: Record, now: string)
    requires ResultsWritten(itemId, before, s, runId, items, records) && AllReadable(s) && record.status != ""
    ensures ResultsWritten(itemId, before,
                           Apply(itemId, s, UpdateItems(runId, [WrittenPackage(items, record)], record.status, record.errorMessage, now)),
                           runId, items, records + [record])
  {
    var p := WrittenPackage(items, record);
    hide WrittenPackage;
    var after := Apply(itemId, s, UpdateItems(runId, [p], record.status, record.errorMessage, now));
    UpdateKeepsRuns(itemId, s, runId, [p], record.status, record.errorMessage, now);
    OneListed(itemId, p);
    UpdateOneItem(itemId, s, runId, p, record.status, record.errorMessage, now);
    hide Apply;
    assert (records + [record])[..|records|] == records;
    assert before.items.Keys == s.items.Keys;
  }

  lemma OneListed(itemId: ItemIds, p: Package)
    ensures forall id :: Listed(itemId, [p], id) <==> id == itemId(p)
  {
    assert itemId([p][0]) == itemId(p);
  }

  lemma UpdateOneItem(itemId: ItemIds, s: Store, runId: string, p: Package, status: string, errorMessage: string, now: string)
    requires AllReadable(s) && status != ""
    ensures var after := Apply(itemId, s, UpdateItems(runId, [p], status, errorMessage, now));
            after.items.Keys == s.items.Keys && forall key :: key in s.items ==>
              after.items[key] == if key == (runId, itemId(p)) then s.items[key].(status := status, errorMessage := errorMessage) else s.items[key]
  {
    OneListed(itemId, p);
    assert [p][0] == p;
    assert CanUpdate(itemId, s, runId, [p], status) ==> Readable(s, runId, itemId([p][0]));
    assert CanUpdate(itemId, s, runId, [p], status) <==> (runId, itemId(p)) in s.items;
    hide CanUpdate, Listed, ReadableRun;
  }

  lemma AllItemsDone(s: Store, runId: string, items: seq<ItemRecord>)
    requires AllReadable(s) && ReadsItems(s, runId, items)
    ensures (forall item :: item in items ==> Done(item.status)) <==> AllDone(s, runId)
    ensures AllDone(s, runId) ==> AllTerminal(s, runId)
  {
    EveryItemIsRead(s, runId, items);
    if AllDone(s, runId) {
      forall item | item in items ensures Done(item.status) {
        var id :| Readable(s, runId, id) && s.items[(runId, id)] == item;
        assert (runId, id) in s.items;
      }
    }
  }

  function PackagesOf(items: seq<ItemRecord>): (packages: seq<Package>)
    ensures |packages| == |items|
    ensures forall k :: 0 <= k < |items| ==> packages[k] == items[k].package
  {
    seq(|items|, k requires 0 <= k < |items| => items[k].package)
  }

  ghost predicate StatusesGiven(records: seq<Record>) {
    forall record :: record in records ==> record.status != ""
  }
}
