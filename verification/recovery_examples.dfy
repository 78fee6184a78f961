// Inputs on which recovery commits a run that did not succeed.
module RecoveryExamples {
  import opened Sequences
  import opened Packages
  import opened TaskPlans
  import opened TaskGroups
  import opened TransactionCodec
  import opened TransactionStore
  import opened ExecutorTransactions

  // ---------------------------------------------- one package under two names

  /** A run with one package twice, under a system name that resolves to another one and under that one. */
  function TwoNames(resolve: string -> string, p: Package): seq<Package> {
    [p, Resolved(resolve, p)]
  }

  lemma TwoPlanned(itemId: ItemIds, packages: seq<Package>, flags: seq<string>, now: string)
    requires |packages| == 2 && itemId(packages[0]) != itemId(packages[1])
    ensures var s, runId := Apply(itemId, EMPTY_STORE, CreateRun(packages, flags, now)), NewRunId(packages, now);
            && s.items.Keys == {(runId, itemId(packages[0])), (runId, itemId(packages[1]))}
            && s.items[(runId, itemId(packages[0]))] == ItemRecord(runId, itemId(packages[0]), 0, Stripped(packages[0]), "planned", "")
            && s.items[(runId, itemId(packages[1]))] == ItemRecord(runId, itemId(packages[1]), 1, Stripped(packages[1]), "planned", "")
  {
    hide NewRunId, StoredFlags, Stripped;
    var runId := NewRunId(packages, now);
    var one := packages[..1];
    assert one[..0] == [] && one[0] == packages[0];
    assert Planned(itemId, runId, one) == map[][(runId, itemId(one[0])) := ItemRecord(runId, itemId(one[0]), 0, Stripped(one[0]), "planned", "")];
  }

  lemma ReadIsStored(s: Store, runId: string, items: seq<ItemRecord>, id: string)
    requires ReadsItems(s, runId, items) && (runId, id) in s.items && s.items[(runId, id)].status == "planned"
    ensures s.items[(runId, id)] in OpenItems(items)
  {
    FilterMembers(IsOpen(), items);
    assert Readable(s, runId, id);
  }

  lemma StoredIsRead(s: Store, runId: string, items: seq<ItemRecord>, item: ItemRecord)
    requires ReadsItems(s, runId, items) && item in OpenItems(items)
    ensures exists id :: (runId, id) in s.items && s.items[(runId, id)] == item
  {
    FilterMembers(IsOpen(), items);
    var id :| Readable(s, runId, id) && s.items[(runId, id)] == item;
  }

  /** Both items are written back to the second one, and recovery commits the run with the first still planned. */
  lemma UnresolvedItemIsLost(itemId: ItemIds, resolve: string -> string, p: Package, flags: seq<string>, now: string, items: seq<ItemRecord>)
    requires IgnoresFlags(itemId) && UsesMissingFilter(p.action)
    requires var q := Resolved(resolve, p); itemId(q) != itemId(p) && Resolved(resolve, q) == q
    requires ReadsItems(Apply(itemId, EMPTY_STORE, CreateRun(TwoNames(resolve, p), flags, now)), NewRunId(TwoNames(resolve, p), now), items)
    ensures var s := Apply(itemId, EMPTY_STORE, CreateRun(TwoNames(resolve, p), flags, now));
            Loses(itemId, resolve, s.items.Keys, NewRunId(TwoNames(resolve, p), now), OpenItems(items))
  {
    var packages := TwoNames(resolve, p);
    var s, runId := Apply(itemId, EMPTY_STORE, CreateRun(packages, flags, now)), NewRunId(packages, now);
    var q := packages[1];
    TwoPlanned(itemId, packages, flags, now);
    hide Apply, NewRunId, OpenItems;
    ReadIsStored(s, runId, items, itemId(p));
    WrittenToSecond(itemId, resolve, p, q);
    forall item | item in OpenItems(items)
      ensures UsesMissingFilter(item.package.action) && itemId(Resolved(resolve, item.package)) == itemId(q)
    {
      StoredIsRead(s, runId, items, item);
    }
    hide ReadsItems, UsesMissingFilter, Resolved, Stripped;
    assert LeftOut(itemId, resolve, OpenItems(items), s.items[(runId, itemId(p))]);
  }

  lemma WrittenToSecond(itemId: ItemIds, resolve: string -> string, p: Package, q: Package)
    requires IgnoresFlags(itemId) && q == Resolved(resolve, p) && Resolved(resolve, q) == q
    ensures itemId(Resolved(resolve, Stripped(p))) == itemId(q) && itemId(Resolved(resolve, Stripped(q))) == itemId(q)
  {
    assert Resolved(resolve, Stripped(p)) == Stripped(q);
    assert Resolved(resolve, Stripped(q)) == Stripped(q);
  }

  lemma ReplayThree(itemId: ItemIds, s: Store, a: Op, b: Op, c: Op)
    ensures Replay(itemId, s, [a, b, c]) == Apply(itemId, Apply(itemId, Apply(itemId, s, a), b), c)
  {
    hide Apply;
    ReplayMore(itemId, s, [], a);
    ReplayMore(itemId, s, [a], b);
    ReplayMore(itemId, s, [a, b], c);
    assert [] + [a] == [a] && [a] + [b] == [a, b] && [a, b] + [c] == [a, b, c];
  }

  lemma SettledTwice(itemId: ItemIds, s: Store, runId: string, q: Package, now: string, key: (string, string))
    requires AllReadable(s) && now != "" && key in s.items && s.items[key].status == "planned" && key != (runId, itemId(q))
    ensures var settle := UpdateItems(runId, [q], "success", "", now);
            var after := Apply(itemId, Apply(itemId, s, settle), settle);
            key in after.items && after.items[key].status == "planned"
  {
    var settle := UpdateItems(runId, [q], "success", "", now);
    assert LegalOp(settle);
    UpdateOneItem(itemId, s, runId, q, "success", "", now);
    UpdateKeepsReadable(itemId, s, settle);
    hide Apply, AllReadable;
    UpdateOneItem(itemId, Apply(itemId, s, settle), runId, q, "success", "", now);
  }

  /** The transactions of that run and its recovery: the commit is early. */
  lemma LostItemHistory(itemId: ItemIds, resolve: string -> string, p: Package, flags: seq<string>, now: string)
    requires IgnoresFlags(itemId) && now != "" && itemId(Resolved(resolve, p)) != itemId(p)
    ensures var packages, q := TwoNames(resolve, p), Resolved(resolve, p);
            var runId := NewRunId(packages, now);
            var settle := UpdateItems(runId, [q], "success", "", now);
            !SafeCommits(itemId, EMPTY_STORE, [CreateRun(packages, flags, now), settle, settle, Commit(runId, now)])
  {
    var packages, q := TwoNames(resolve, p), Resolved(resolve, p);
    var runId := NewRunId(packages, now);
    var create, settle := CreateRun(packages, flags, now), UpdateItems(runId, [q], "success", "", now);
    var key := (runId, itemId(p));
    TwoPlanned(itemId, packages, flags, now);
    assert AllReadable(EMPTY_STORE) && LegalOp(create);
    ApplyKeepsReadable(itemId, EMPTY_STORE, create);
    hide Apply, NewRunId, TwoNames, AllReadable, IgnoresFlags, Resolved;
    SettledTwice(itemId, Apply(itemId, EMPTY_STORE, create), runId, q, now, key);
    ReplayThree(itemId, EMPTY_STORE, create, settle, settle);
    EndsEarly(itemId, [create, settle, settle], runId, now, key);
    assert [create, settle, settle] + [Commit(runId, now)] == [create, settle, settle, Commit(runId, now)];
  }

  lemma EndsEarly(itemId: ItemIds, log: seq<Op>, runId: string, now: string, key: (string, string))
    requires key.0 == runId && key in Replay(itemId, EMPTY_STORE, log).items && Replay(itemId, EMPTY_STORE, log).items[key].status == "planned"
    ensures !SafeCommits(itemId, EMPTY_STORE, log + [Commit(runId, now)])
  {
    hide Replay;
    SafetySame(itemId, EMPTY_STORE, log, Commit(runId, now));
    assert !Terminal("planned");
  }

  // ------------------------------------------------------------ a failed item

  /** The transactions of a run whose only package failed. */
  function FailedRun(p: Package, flags: seq<string>, now: string): seq<Op> {
    var runId := NewRunId([p], now);
    [CreateRun([p], flags, now), UpdateItems(runId, [p], "failed", "plugin action failed", now), MarkState(runId, "failed", now)]
  }

  lemma FailedStore(itemId: ItemIds, p: Package, flags: seq<string>, now: string)
    requires IgnoresFlags(itemId) && now != ""
    ensures var s, runId := Replay(itemId, EMPTY_STORE, FailedRun(p, flags, now)), NewRunId([p], now);
            && s.active == Some(runId) && s.items.Keys == {(runId, itemId(p))} && s.items[(runId, itemId(p))].status == "failed"
  {
    var ops, runId := FailedRun(p, flags, now), NewRunId([p], now);
    OnePlanned(itemId, p, flags, now);
    assert AllReadable(EMPTY_STORE) && LegalOp(ops[0]);
    ApplyKeepsReadable(itemId, EMPTY_STORE, ops[0]);
    hide Apply, NewRunId, AllReadable, IgnoresFlags;
    ReplayThree(itemId, EMPTY_STORE, ops[0], ops[1], ops[2]);
    assert [ops[0], ops[1], ops[2]] == ops;
    var created := Apply(itemId, EMPTY_STORE, ops[0]);
    UpdateOneItem(itemId, created, runId, p, "failed", "plugin action failed", now);
    UpdateKeepsRuns(itemId, created, runId, [p], "failed", "plugin action failed", now);
    MarkKeepsItems(itemId, Apply(itemId, created, ops[1]), runId, "failed", now);
  }

  lemma OnePlanned(itemId: ItemIds, p: Package, flags: seq<string>, now: string)
    ensures var s, runId := Apply(itemId, EMPTY_STORE, CreateRun([p], flags, now)), NewRunId([p], now);
            s.active == Some(runId) && s.items.Keys == {(runId, itemId(p))}
  {
    hide NewRunId, StoredFlags, Stripped;
    var runId, id := NewRunId([p], now), itemId(p);
    assert [p][..0] == [];
    assert Planned(itemId, runId, [p]) == map[][(runId, id) := ItemRecord(runId, id, 0, Stripped(p), "planned", "")];
  }

  lemma MarkKeepsItems(itemId: ItemIds, s: Store, runId: string, state: string, now: string)
    ensures var after := Apply(itemId, s, MarkState(runId, state, now)); after.items == s.items && after.active == s.active
  {
    hide ReadableRun;
  }

  lemma NothingOpen(s: Store, runId: string, items: seq<ItemRecord>)
    requires ReadsItems(s, runId, items) && forall key :: key in s.items ==> s.items[key].status == "failed"
    ensures OpenItems(items) == []
  {
    forall item | item in items ensures !IsOpen()(item) {
      var id :| Readable(s, runId, id) && s.items[(runId, id)] == item;
      assert (runId, id) in s.items;
    }
    FilterNone(IsOpen(), items);
  }

  /** Recovery finds nothing pending in it, whatever the plugins say, and commits the run: its failed item counts as
      committed afterwards. */
  lemma FailedItemIsCommitted(itemId: ItemIds, resolve: string -> string, host: Host, p: Package, flags: seq<string>, now: string, items: seq<ItemRecord>)
    requires IgnoresFlags(itemId) && now != ""
    requires ReadsItems(Replay(itemId, EMPTY_STORE, FailedRun(p, flags, now)), NewRunId([p], now), items)
    ensures var s, runId := Replay(itemId, EMPTY_STORE, FailedRun(p, flags, now)), NewRunId([p], now);
            var after := Apply(itemId, s, Commit(runId, now));
            && NothingPending(Recovery(itemId, resolve, host, s.items.Keys, runId), OpenItems(items))
            && (runId, itemId(p)) in s.items && s.items[(runId, itemId(p))].status == "failed"
            && (runId, itemId(p)) in after.items && after.items[(runId, itemId(p))].status == "committed"
  {
    FailedStore(itemId, p, flags, now);
    var s := Replay(itemId, EMPTY_STORE, FailedRun(p, flags, now));
    hide Replay, FailedRun, NewRunId, ReadableRun;
    NothingOpen(s, NewRunId([p], now), items);
    hide OpenItems, ReadsItems, StillPending;
  }
}
