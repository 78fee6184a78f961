// TransactionDatabase: its methods assemble each transaction step by step and
// commit it as a whole.
module TransactionDatabase {
  import opened Sequences
  import opened Sorting
  import opened Packages
  import opened TransactionCodec
  import opened TransactionStore

  function EarlierItem(): (ItemRecord, ItemRecord) -> bool {
    (a: ItemRecord, b: ItemRecord) => a.sequence < b.sequence
  }

  /** ids lists the item ids of a run, each once. */
  ghost predicate ListsIds(s: Store, runId: string, ids: seq<string>) {
    Distinct(ids) && forall id :: id in ids <==> (runId, id) in s.items
  }

  class Database {
    const itemId: ItemIds
    /** What the database held when it was opened, and the transactions since. */
    const origin: Store
    var log: seq<Op>
    var store: Store

    ghost predicate Valid()
      reads this
    {
      IgnoresFlags(itemId) && KeysMatch(itemId, store) && store == Replay(itemId, origin, log)
    }

    constructor (itemId: ItemIds, content: Store)
      requires IgnoresFlags(itemId) && KeysMatch(itemId, content)
      ensures Valid() && this.itemId == itemId && origin == content && log == [] && store == content
    {
      this.itemId := itemId;
      origin := content;
      log := [];
      store := content;
    }

    /** mdb_txn_commit. */
    method Finish(op: Op, after: Store)
      requires Valid() && after == Apply(itemId, store, op)
      modifies this
      ensures Valid() && store == after && log == old(log) + [op]
    {
      ReplayMore(itemId, origin, log, op);
      ApplyKeepsKeys(itemId, store, op);
      hide KeysMatch, IgnoresFlags, Apply;
      store := after;
      log := log + [op];
    }

    /** The process dies; transactions committed by then stay, an open one is lost. */
    method Crash(committed: nat)
      requires Valid() && committed <= |log|
      modifies this
      ensures IgnoresFlags(itemId) && log == old(log)[..committed] && store == Replay(itemId, origin, log)
    {
      log := log[..committed];
      store := Replay(itemId, origin, log);
    }

    /** loadPrefixedEntries for the items of a run, in any order. */
    method ItemIdsOf(runId: string) returns (ids: seq<string>)
      ensures ListsIds(store, runId, ids)
    {
      ids := [];
      var keys := store.items.Keys;
      while keys != {}
        invariant keys <= store.items.Keys
        invariant Distinct(ids)
        invariant forall id :: id in ids <==> (runId, id) in store.items && (runId, id) !in keys
      {
        var key :| key in keys;
        keys := keys - {key};
        if key.0 == runId {
          DistinctConcat(ids, [key.1]);
          ids := ids + [key.1];
        }
      }
    }

    method GetRunItems(runId: string) returns (items: seq<ItemRecord>)
      requires Valid()
      ensures ReadsItems(store, runId, items)
    {
      var ids := ItemIdsOf(runId);
      var unsorted: seq<ItemRecord> := [];
      for k := 0 to |ids|
        invariant Distinct(unsorted)
        invariant forall item :: item in unsorted <==>
          exists id :: id in ids[..k] && Readable(store, runId, id) && store.items[(runId, id)] == item
      {
        var id := ids[k];
        assert id in ids && id !in ids[..k];
        assert ids[..k + 1] == ids[..k] + [id];
        ghost var before := unsorted;
        if Readable(store, runId, id) {
          var item := store.items[(runId, id)];
          assert item.itemId == id;
          assert forall other :: (runId, other) in store.items ==> store.items[(runId, other)].itemId == other;
          assert item !in unsorted;
          DistinctConcat(unsorted, [item]);
          unsorted := unsorted + [item];
        }
        forall item ensures item in unsorted <==> exists other :: other in ids[..k + 1] && Readable(store, runId, other) && store.items[(runId, other)] == item {
          if item in before {
            var other :| other in ids[..k] && Readable(store, runId, other) && store.items[(runId, other)] == item;
            assert other in ids[..k + 1];
          }
          assert id in ids[..k + 1];
        }
      }
      assert ids[..|ids|] == ids;
      items := StableSort(EarlierItem(), unsorted);
      StableSortSorts(EarlierItem(), unsorted);
      SamePermutation(unsorted, items);
      forall item ensures item in items <==> exists id :: Readable(store, runId, id) && store.items[(runId, id)] == item {
        assert item in items <==> item in unsorted;
        if id :| Readable(store, runId, id) && store.items[(runId, id)] == item {
          assert id in ids;
        }
      }
    }

    method GetActiveRun() returns (run: Option<RunRecord>)
      ensures run == if HasActive(store) && ReadableRunIn(store, store.active.value) then Some(store.runs[store.active.value]) else None
    {
      if !HasActive(store) {
        return None;
      }
      var activeRunId := store.active.value;
      if activeRunId !in store.runs {
        return None;
      }
      run := if ReadableRun(store.runs[activeRunId]) then Some(store.runs[activeRunId]) else None;
    }

    method CreateRun(packages: seq<Package>, flags: seq<string>, now: string) returns (runId: string)
      requires Valid()
      modifies this
      ensures Valid() && log == old(log) + [Op.CreateRun(packages, flags, now)]
      ensures store == Apply(itemId, old(store), Op.CreateRun(packages, flags, now))
      ensures runId == if HasActive(old(store)) then "" else NewRunId(packages, now)
    {
      hide KeysMatch, IgnoresFlags;
      var op := Op.CreateRun(packages, flags, now);
      if HasActive(store) {
        Finish(op, store);
        return "";
      }
      runId := NewRunId(packages, now);
      var run := RunRecord(runId, "open", now, now, StoredFlags(flags));
      var items := store.items;
      for index := 0 to |packages|
        invariant items == store.items + Planned(itemId, runId, packages[..index])
        invariant store == old(store) && log == old(log) && Valid()
      {
        var package := packages[index];
        assert packages[..index + 1][..index] == packages[..index];
        items := items[(runId, itemId(package)) := ItemRecord(runId, itemId(package), index, Stripped(package), "planned", "")];
      }
      assert packages[..|packages|] == packages;
      Finish(op, Store(Some(runId), store.runs[runId := run], items));
    }

    method UpdateItemStatus(runId: string, package: Package, status: string, errorMessage: string, now: string) returns (ok: bool)
      requires Valid()
      modifies this
      ensures Valid() && log == old(log) + [UpdateItems(runId, [package], status, errorMessage, now)]
      ensures store == Apply(itemId, old(store), UpdateItems(runId, [package], status, errorMessage, now))
      ensures ok == CanUpdate(itemId, old(store), runId, [package], status)
    {
      ok := UpdateItemsStatus(runId, [package], status, errorMessage, now);
    }

    method UpdateItemsStatus(runId: string, packages: seq<Package>, status: string, errorMessage: string, now: string) returns (ok: bool)
      requires Valid()
      modifies this
      ensures Valid() && log == old(log) + [UpdateItems(runId, packages, status, errorMessage, now)]
      ensures store == Apply(itemId, old(store), UpdateItems(runId, packages, status, errorMessage, now))
      ensures ok == CanUpdate(itemId, old(store), runId, packages, status)
      ensures !ok ==> store == old(store)
      ensures store.items.Keys == old(store.items.Keys) && store.runs.Keys == old(store.runs.Keys) && store.active == old(store.active)
      ensures ok ==> forall key :: key in store.items ==>
                store.items[key] == if key.0 == runId && Listed(itemId, packages, key.1)
                                    then old(store.items)[key].(status := status, errorMessage := errorMessage) else old(store.items)[key]
    {
      UpdateIsAllOrNothing(itemId, store, runId, packages, status, errorMessage, now);
      hide KeysMatch, IgnoresFlags;
      var op := UpdateItems(runId, packages, status, errorMessage, now);
      var items := store.items;
      assert items == UpdatedItems(itemId, store.items, runId, packages[..0], status, errorMessage);
      for k := 0 to |packages|
        invariant store == old(store) && log == old(log) && Valid()
        invariant items == UpdatedItems(itemId, store.items, runId, packages[..k], status, errorMessage)
        invariant CanUpdate(itemId, store, runId, packages[..k], status)
      {
        var key := (runId, itemId(packages[k]));
        UpdateOne(itemId, store, runId, packages, k, status, errorMessage);
        if key !in items || items[key].status == "" {
          CannotUpdate(itemId, store, runId, packages, k, status);
          Finish(op, store);
          return false;
        }
        items := items[key := items[key].(status := status, errorMessage := errorMessage)];
      }
      assert packages[..|packages|] == packages;
      Finish(op, store.(items := items, runs := Touched(store, runId, now)));
      return true;
    }

    method MarkRunState(runId: string, state: string, now: string) returns (ok: bool)
      requires Valid()
      modifies this
      ensures Valid() && log == old(log) + [MarkState(runId, state, now)]
      ensures store == Apply(itemId, old(store), MarkState(runId, state, now))
      ensures ok == ReadableRunIn(old(store), runId)
    {
      hide KeysMatch, IgnoresFlags;
      var op := MarkState(runId, state, now);
      if !ReadableRunIn(store, runId) {
        Finish(op, store);
        return false;
      }
      var run := store.runs[runId].(state := state, updatedAt := now);
      Finish(op, store.(runs := store.runs[runId := run]));
      return true;
    }

    /** The puts of a commit: every item read is written back as committed. */
    method CommitItems(runId: string, records: seq<ItemRecord>) returns (items: map<(string, string), ItemRecord>)
      requires Valid() && ReadsItems(store, runId, records)
      ensures items == CommittedItems(store.items, runId)
    {
      items := store.items;
      hide IgnoresFlags, Replay, KeysMatch, ReadsItems;
      CommittedNone(store.items);
      for k := 0 to |records|
        invariant items == CommittedAmong(store.items, records[..k])
      {
        var record := records[k];
        assert record in records;
        assert records[..k + 1] == records[..k] + [record];
        ReadAtKey(itemId, store, runId, records, record);
        CommittedOne(store.items, records[..k], record, (runId, itemId(record.package)));
        items := items[(runId, itemId(record.package)) := record.(status := "committed", errorMessage := "")];
      }
      assert records[..|records|] == records;
      CommittedRecords(itemId, store, runId, records);
      CommittedAll(store.items, records, runId);
    }

    method MarkRunCommitted(runId: string, now: string)
      requires Valid()
      modifies this
      ensures Valid() && log == old(log) + [Commit(runId, now)]
      ensures store == Apply(itemId, old(store), Commit(runId, now))
      ensures ReadableRunIn(old(store), runId) ==>
                && runId in store.runs && store.runs[runId].state == "committed" && store.runs[runId].flags == old(store).runs[runId].flags
                && store.runs[runId].createdAt == old(store).runs[runId].createdAt
    {
      if ReadableRunIn(store, runId) {
        CommitKeepsRecord(itemId, store, runId, now);
      }
      hide Apply, KeysMatch, IgnoresFlags, ReadsItems, CommittedItems;
      var records := GetRunItems(runId);
      var items := CommitItems(runId, records);
      Finish(Commit(runId, now), Store(Released(store, runId), store.runs[runId := CommittedRun(store, runId, now)], items));
    }

    method DeleteRun(runId: string) returns (ok: bool)
      requires Valid()
      modifies this
      ensures Valid() && log == old(log) + [Op.DeleteRun(runId)]
      ensures store == Apply(itemId, old(store), Op.DeleteRun(runId))
      ensures ok == (runId in old(store).runs)
    {
      hide KeysMatch, IgnoresFlags;
      var op := Op.DeleteRun(runId);
      var ids := ItemIdsOf(runId);
      var items := store.items;
      for k := 0 to |ids|
        invariant store == old(store) && log == old(log) && Valid()
        invariant items == map key | key in store.items && !(key.0 == runId && key.1 in ids[..k]) :: store.items[key]
      {
        assert ids[..k + 1] == ids[..k] + [ids[k]];
        items := items - {(runId, ids[k])};
      }
      assert ids[..|ids|] == ids;
      if runId !in store.runs {
        Finish(op, store);
        return false;
      }
      assert items == WithoutRun(store.items, runId);
      Finish(op, Store(Released(store, runId), store.runs - {runId}, items));
      return true;
    }
  }

  lemma UpdateOne(itemId: ItemIds, s: Store, runId: string, packages: seq<Package>, k: nat, status: string, errorMessage: string)
    requires k < |packages| && CanUpdate(itemId, s, runId, packages[..k], status)
    ensures var items := UpdatedItems(itemId, s.items, runId, packages[..k], status, errorMessage);
            var key := (runId, itemId(packages[k]));
            && ((key in items && items[key].status != "") <==> CanUpdate(itemId, s, runId, packages[..k + 1], status))
            && (key in items ==> items[key := items[key].(status := status, errorMessage := errorMessage)] ==
                                 UpdatedItems(itemId, s.items, runId, packages[..k + 1], status, errorMessage))
  {
    var id := itemId(packages[k]);
    assert packages[..k + 1] == packages[..k] + [packages[k]];
    forall other ensures Listed(itemId, packages[..k + 1], other) <==> Listed(itemId, packages[..k], other) || other == id {
      assert itemId(packages[..k + 1][k]) == id;
      if Listed(itemId, packages[..k], other) {
        var j :| 0 <= j < k && itemId(packages[..k][j]) == other;
        assert itemId(packages[..k + 1][j]) == other;
      }
    }
  }

  lemma CannotUpdate(itemId: ItemIds, s: Store, runId: string, packages: seq<Package>, k: nat, status: string)
    requires k < |packages| && !CanUpdate(itemId, s, runId, packages[..k + 1], status)
    ensures !CanUpdate(itemId, s, runId, packages, status)
  {
    assert forall j :: 0 <= j <= k ==> packages[..k + 1][j] == packages[j];
  }

  function CommittedAmong(items: map<(string, string), ItemRecord>, records: seq<ItemRecord>): map<(string, string), ItemRecord> {
    map key | key in items :: if items[key] in records then items[key].(status := "committed", errorMessage := "") else items[key]
  }

  lemma CommittedNone(items: map<(string, string), ItemRecord>)
    ensures CommittedAmong(items, []) == items
  {
  }

  lemma CommittedOne(items: map<(string, string), ItemRecord>, records: seq<ItemRecord>, record: ItemRecord, at: (string, string))
    requires at in items && items[at] == record && forall key :: key in items && items[key] == record ==> key == at
    ensures CommittedAmong(items, records + [record]) ==
            CommittedAmong(items, records)[at := record.(status := "committed", errorMessage := "")]
  {
  }

  lemma CommittedAll(items: map<(string, string), ItemRecord>, records: seq<ItemRecord>, runId: string)
    requires forall key :: key in items ==> (items[key] in records <==> key.0 == runId && items[key].status != "")
    ensures CommittedAmong(items, records) == CommittedItems(items, runId)
  {
  }

  lemma ReadAtKey(itemId: ItemIds, s: Store, runId: string, records: seq<ItemRecord>, record: ItemRecord)
    requires KeysMatch(itemId, s) && ReadsItems(s, runId, records) && record in records
    ensures (runId, itemId(record.package)) in s.items && s.items[(runId, itemId(record.package))] == record
    ensures forall key :: key in s.items && s.items[key] == record ==> key == (runId, itemId(record.package))
  {
    var id :| Readable(s, runId, id) && s.items[(runId, id)] == record;
  }

  lemma CommittedRecords(itemId: ItemIds, s: Store, runId: string, records: seq<ItemRecord>)
    requires KeysMatch(itemId, s) && ReadsItems(s, runId, records)
    ensures forall key :: key in s.items ==> (s.items[key] in records <==> key.0 == runId && s.items[key].status != "")
  {
    forall key | key in s.items ensures s.items[key] in records <==> key.0 == runId && s.items[key].status != "" {
      if key.0 == runId && s.items[key].status != "" {
        assert Readable(s, runId, key.1) && s.items[(runId, key.1)] == s.items[key];
      }
    }
  }
}
