// HistoryManager's installed-state operations over the string-to-string store.
module InstalledStateStore {
  import opened Sequences
  import opened Packages
  import opened InstalledCodec
  import opened InstalledState

  // ------------------------------------------- old entries during a replacement

  function NamedId(name: string): Id -> bool {
    (id: Id) => id.name == name
  }

  function NamedEntry(name: string): InstalledEntry -> bool {
    (e: InstalledEntry) => e.name == name
  }

  ghost predicate AllIn(entries: Entries, ids: seq<Id>) {
    forall id :: id in ids ==> id in entries
  }

  lemma EntriesSnoc(entries: Entries, ids: seq<Id>, id: Id)
    requires AllIn(entries, ids) && id in entries
    ensures AllIn(entries, ids + [id]) && EntriesOf(entries, ids + [id]) == EntriesOf(entries, ids) + [entries[id]]
  {
  }

  lemma EntriesNone(entries: Entries)
    ensures AllIn(entries, []) && EntriesOf(entries, []) == []
  {
  }

  lemma {:induction false} FilterEntries(entries: Entries, ids: seq<Id>, name: string)
    requires AllIn(entries, ids) && forall id :: id in ids ==> entries[id].name == id.name
    ensures AllIn(entries, Filter(NamedId(name), ids))
    ensures Filter(NamedEntry(name), EntriesOf(entries, ids)) == EntriesOf(entries, Filter(NamedId(name), ids))
  {
    if ids != [] {
      var rest, last := ids[..|ids| - 1], ids[|ids| - 1];
      assert last in ids;
      FilterEntries(entries, rest, name);
      EntriesSnoc(entries, rest, last);
      EntriesSnoc(entries, Filter(NamedId(name), rest), last);
      assert ids == rest + [last];
      var list := EntriesOf(entries, rest) + [entries[last]];
      assert list[..|ids| - 1] == EntriesOf(entries, rest);
      hide EntriesOf, AllIn;
    }
  }

  /** The two lookup tables of a replacement, over the decoded entries of the system. */
  function ByIdentity(list: seq<InstalledEntry>): map<string, InstalledEntry> {
    if list == [] then map[]
    else ByIdentity(list[..|list| - 1])[Identity(list[|list| - 1]) := list[|list| - 1]]
  }

  function ByName(list: seq<InstalledEntry>): map<string, seq<InstalledEntry>> {
    if list == [] then map[]
    else
      var e := list[|list| - 1];
      var before := ByName(list[..|list| - 1]);
      before[e.name := (if e.name in before then before[e.name] else []) + [e]]
  }

  lemma {:induction false} ByIdentityAt(list: seq<InstalledEntry>, k: nat)
    requires k < |list| && forall i, j :: 0 <= i < j < |list| ==> Identity(list[i]) != Identity(list[j])
    ensures Identity(list[k]) in ByIdentity(list) && ByIdentity(list)[Identity(list[k])] == list[k]
  {
    hide Identity;
    if k < |list| - 1 {
      ByIdentityAt(list[..|list| - 1], k);
    }
  }

  lemma {:induction false} ByIdentityNone(list: seq<InstalledEntry>, identity: string)
    requires forall k :: 0 <= k < |list| ==> Identity(list[k]) != identity
    ensures identity !in ByIdentity(list)
  {
    hide Identity;
    if list != [] {
      ByIdentityNone(list[..|list| - 1], identity);
    }
  }

  lemma {:induction false} ByNameIs(list: seq<InstalledEntry>, name: string)
    ensures if name in ByName(list) then ByName(list)[name] == Filter(NamedEntry(name), list) else Filter(NamedEntry(name), list) == []
  {
    if list != [] {
      ByNameIs(list[..|list| - 1], name);
    }
  }

  /** select_existing_entry_for_replace. */
  function SelectExisting(byIdentity: map<string, InstalledEntry>, byName: map<string, seq<InstalledEntry>>, candidate: InstalledEntry): Option<InstalledEntry> {
    if Identity(candidate) in byIdentity then Some(byIdentity[Identity(candidate)])
    else if candidate.name in byName && |byName[candidate.name]| == 1 then Some(byName[candidate.name][0])
    else None
  }

  lemma SameNameCount(entries: Entries, system: string, ids: seq<Id>, name: string)
    requires IdsOfSystem(entries, system, ids)
    ensures |Filter(NamedId(name), ids)| == |SameName(entries, system, name)|
    ensures forall id :: id in Filter(NamedId(name), ids) <==> id in SameName(entries, system, name)
  {
    FilterMembers(NamedId(name), ids);
    var named := Filter(NamedId(name), ids);
    DistinctMembers(named);
    assert (set id: Id | id in named) == SameName(entries, system, name);
  }

  lemma SelectIsContinued(entries: Entries, system: string, ids: seq<Id>, candidate: InstalledEntry)
    requires IdsOfSystem(entries, system, ids) && forall id :: id in entries ==> IdOf(entries[id]) == id
    ensures var list := EntriesOf(entries, ids);
            SelectExisting(ByIdentity(list), ByName(list), candidate) == Continued(entries, system, candidate)
  {
    var list := EntriesOf(entries, ids);
    var id := Id(system, candidate.name, candidate.version);
    hide ByIdentity, ByName, Identity;
    if id in entries {
      assert id in ids;
      var k :| 0 <= k < |ids| && ids[k] == id;
      IdentityInjective(list[k], candidate);
      DistinctIdentities(entries, system, ids);
      ByIdentityAt(list, k);
    } else {
      forall k | 0 <= k < |list| ensures Identity(list[k]) != Identity(candidate) {
        IdentityInjective(list[k], candidate);
        assert ids[k] in ids;
      }
      ByIdentityNone(list, Identity(candidate));
      OnlyNamesake(entries, system, ids, candidate.name);
    }
  }

  lemma DistinctIdentities(entries: Entries, system: string, ids: seq<Id>)
    requires IdsOfSystem(entries, system, ids) && forall id :: id in entries ==> IdOf(entries[id]) == id
    ensures var list := EntriesOf(entries, ids); forall i, j :: 0 <= i < j < |list| ==> Identity(list[i]) != Identity(list[j])
  {
    var list := EntriesOf(entries, ids);
    hide Identity;
    forall i, j | 0 <= i < j < |list| ensures Identity(list[i]) != Identity(list[j]) {
      IdentityInjective(list[i], list[j]);
      assert ids[i] in ids && ids[j] in ids;
    }
  }

  lemma OnlyNamesake(entries: Entries, system: string, ids: seq<Id>, name: string)
    requires IdsOfSystem(entries, system, ids) && forall id :: id in entries ==> IdOf(entries[id]) == id
    ensures var byName := ByName(EntriesOf(entries, ids));
            && (name in byName && |byName[name]| == 1 <==> |SameName(entries, system, name)| == 1)
            && (name in byName && |byName[name]| == 1 ==>
                  exists id :: SameName(entries, system, name) == {id} && id in entries && byName[name][0] == entries[id])
  {
    SameNameCount(entries, system, ids, name);
    FilterEntries(entries, ids, name);
    ByNameIs(EntriesOf(entries, ids), name);
    var byName := ByName(EntriesOf(entries, ids));
    var named := Filter(NamedId(name), ids);
    hide ByName, Filter;
    if name in byName && |byName[name]| == 1 {
      assert named[0] in named;
      OneMember(SameName(entries, system, name), named[0]);
    }
  }

  lemma OneMember<T>(s: set<T>, x: T)
    requires |s| == 1 && x in s
    ensures s == {x}
  {
    assert |s - {x}| == 0;
    assert s == (s - {x}) + {x};
  }

  // -------------------------------------------------------------- the store

  /** What an event log entry tells updateInstalledState. */
  datatype HistoryEntry = HistoryEntry(action: string, status: string, system: string, packageName: string,
                                       packageVersion: string, timestamp: string)

  class Database {
    var kv: KeyValues
    ghost var entries: Entries

    ghost predicate Valid()
      reads this
    {
      Represents(kv, entries)
    }

    method KeysWithPrefix(prefix: string) returns (keys: seq<string>)
      ensures Distinct(keys) && forall key :: key in keys <==> key in kv && prefix <= key
    {
      keys := [];
      var rest := kv.Keys;
      while rest != {}
        invariant rest <= kv.Keys && Distinct(keys)
        invariant forall key :: key in keys <==> key in kv && key !in rest && prefix <= key
      {
        var key :| key in rest;
        rest := rest - {key};
        if prefix <= key {
          DistinctConcat(keys, [key]);
          keys := keys + [key];
        }
      }
    }

    /** load_entries_for_keys: what cannot be read is left out. */
    method LoadEntries(keys: seq<string>, ghost ids: seq<Id>) returns (loaded: seq<InstalledEntry>)
      requires Valid() && KeysOf(keys, ids) && forall k :: 0 <= k < |ids| ==> HoldsAt(kv, entries, keys[k], ids[k])
      ensures AllIn(entries, Filter(InEntries(entries), ids)) && loaded == EntriesOf(entries, Filter(InEntries(entries), ids))
    {
      hide EntryFrom, StateKey, Represents, EntriesOf;
      loaded := [];
      ghost var live: seq<Id> := [];
      EntriesNone(entries);
      for k := 0 to |keys|
        invariant |keys| == |ids| && live == Filter(InEntries(entries), ids[..k])
        invariant AllIn(entries, live) && loaded == EntriesOf(entries, live)
      {
        assert ids[..k + 1][..k] == ids[..k];
        assert HoldsAt(kv, entries, keys[k], ids[k]);
        var payload := kv[keys[k]];
        var entry := DeserializeEntry(payload);
        if entry.Some? {
          EntriesSnoc(entries, live, ids[k]);
          loaded := loaded + [entry.value];
          live := live + [ids[k]];
        }
      }
      assert ids[..|ids|] == ids;
    }

    /** find_installed_state_entry. */
    method Find(system: string, name: string, version: string) returns (found: Option<(string, InstalledEntry)>)
      requires Valid()
      ensures found.Some? <==> exists id :: Chosen(entries, system, name, version, id)
      ensures forall id :: Chosen(entries, system, name, version, id) ==> found == Some((StateKey(id), entries[id]))
    {
      hide Represents, StateKey, Chosen, IdsOfName;
      var keys, loaded, ids := LoadNamed(system, name);
      var index := PickEntry(loaded, version);
      ChosenAmong(entries, system, name, version, ids, index);
      if index.None? {
        return None;
      }
      assert Chosen(entries, system, name, version, ids[index.value]);
      return Some((keys[index.value], loaded[index.value]));
    }

    method LoadNamed(system: string, name: string) returns (keys: seq<string>, loaded: seq<InstalledEntry>, ghost ids: seq<Id>)
      requires Valid()
      ensures |loaded| == |ids| <= |keys| && KeysOf(keys[..|ids|], ids) && IdsOfName(entries, system, name, ids)
      ensures forall k :: 0 <= k < |ids| ==> ids[k] in entries && loaded[k] == entries[ids[k]] && loaded[k].version == ids[k].version
    {
      hide Represents, StateKey, NamePrefix, HoldsAt;
      keys := KeysWithPrefix(NamePrefix(system, name));
      ghost var all := NameKeys(kv, entries, system, name, keys);
      OwnIds(kv, entries);
      loaded := LoadEntries(keys, all);
      ids := Filter(InEntries(entries), all);
      AllOrNone(entries, all);
      LiveKeys(keys, all, ids);
      hide IdsOfName, Filter, KeysOf;
      assert forall k :: 0 <= k < |ids| ==> ids[k] in ids;
    }

    /** The entry with the version, else the only entry. */
    method PickEntry(loaded: seq<InstalledEntry>, version: string) returns (index: Option<nat>)
      ensures match index
              case Some(k) => k < |loaded| &&
                ((version != "" && loaded[k].version == version) || (|loaded| == 1 && (version != "" ==> loaded[0].version != version)))
              case None => |loaded| != 1 && (version != "" ==> forall k :: 0 <= k < |loaded| ==> loaded[k].version != version)
    {
      if loaded == [] {
        return None;
      }
      if version != "" {
        for k := 0 to |loaded|
          invariant forall j :: 0 <= j < k ==> loaded[j].version != version
        {
          if loaded[k].version == version {
            return Some(k);
          }
        }
      }
      return if |loaded| == 1 then Some(0) else None;
    }

    /** upsert_installed_state_database; an entry without name or system is written but cannot be read. */
    method Upsert(entry: InstalledEntry)
      requires Valid()
      modifies this
      ensures Valid() && entries == if Decodable(entry) then old(entries)[IdOf(entry) := Canon(entry)] else old(entries)
      ensures kv == old(kv)[INITIALIZED_KEY := "1"][StateKey(IdOf(entry)) := SerializeEntry(entry)]
    {
      MarkInitialized(kv, entries);
      kv := kv[INITIALIZED_KEY := "1"];
      Put(entry);
    }

    method Put(entry: InstalledEntry)
      requires Valid()
      modifies this
      ensures Valid() && entries == if Decodable(entry) then old(entries)[IdOf(entry) := Canon(entry)] else old(entries)
      ensures kv == old(kv)[StateKey(IdOf(entry)) := SerializeEntry(entry)]
    {
      if Decodable(entry) {
        PutEntry(kv, entries, entry);
      } else {
        PutDead(kv, entries, entry);
      }
      hide Represents, StateKey, SerializeEntry, Canon;
      kv := kv[StateKey(IdOf(entry)) := SerializeEntry(entry)];
      if Decodable(entry) {
        entries := entries[IdOf(entry) := Canon(entry)];
      }
    }

    method DeleteKeys(keys: seq<string>, ghost ids: seq<Id>)
      requires Valid() && KeysOf(keys, ids)
      modifies this
      ensures Valid() && entries == Without(old(entries), set id | id in ids)
    {
      hide Represents, StateKey;
      for k := 0 to |keys|
        invariant Valid() && entries == Without(old(entries), set id | id in ids[..k])
      {
        assert ids[..k + 1] == ids[..k] + [ids[k]];
        DeleteEntry(kv, entries, ids[k]);
        kv := kv - {keys[k]};
        entries := Without(entries, {ids[k]});
      }
      assert ids[..|keys|] == ids;
    }

    /** remove_installed_state_database: one version, or all of them for an empty version. */
    method Remove(system: string, name: string, version: string)
      requires Valid()
      modifies this
      ensures Valid() && entries == Removed(old(entries), system, name, version)
    {
      var keys;
      ghost var ids;
      if version == "" {
        keys := KeysWithPrefix(NamePrefix(system, name));
        ids := NameKeys(kv, entries, system, name, keys);
      } else {
        keys := [StateKey(Id(system, name, version))];
        ids := [Id(system, name, version)];
      }
      RemovedIs(entries, system, name, version, ids);
      MarkInitialized(kv, entries);
      hide Represents, StateKey, Removed, Without, IdsOfName;
      kv := kv[INITIALIZED_KEY := "1"];
      DeleteKeys(keys, ids);
    }

    /** The loop over the old entries of the system. */
    method BuildTables(existing: seq<InstalledEntry>)
      returns (byIdentity: map<string, InstalledEntry>, byName: map<string, seq<InstalledEntry>>)
      ensures byIdentity == ByIdentity(existing) && byName == ByName(existing)
    {
      hide Identity;
      byIdentity, byName := map[], map[];
      for k := 0 to |existing|
        invariant byIdentity == ByIdentity(existing[..k]) && byName == ByName(existing[..k])
      {
        var entry := existing[k];
        assert existing[..k + 1][..k] == existing[..k];
        byIdentity := byIdentity[Identity(entry) := entry];
        byName := byName[entry.name := (if entry.name in byName then byName[entry.name] else []) + [entry]];
      }
      assert existing[..|existing|] == existing;
    }

    /** Reads the old entries of a system and deletes its keys. */
    method TakeSystem(system: string) returns (existing: seq<InstalledEntry>, ghost ids: seq<Id>)
      requires Valid()
      modifies this
      ensures Valid() && IdsOfSystem(old(entries), system, ids) && entries == Without(old(entries), set id | id in ids)
      ensures AllIn(old(entries), ids) && existing == EntriesOf(old(entries), ids) && forall id :: id in old(entries) ==> IdOf(old(entries)[id]) == id
    {
      hide Represents, StateKey, SystemPrefix, HoldsAt, IdsOfSystem;
      var keys := KeysWithPrefix(SystemPrefix(system));
      ghost var all := SystemKeys(kv, entries, system, keys);
      OwnIds(kv, entries);
      existing := LoadEntries(keys, all);
      ids := Filter(InEntries(entries), all);
      WithoutLive(entries, all);
      MarkInitialized(kv, entries);
      kv := kv[INITIALIZED_KEY := "1"];
      DeleteKeys(keys, all);
    }

    /** replace_installed_state_database; entries without a system are written but cannot be read. */
    method Replace(system: string, listed: seq<InstalledEntry>, now: string)
      requires Valid()
      modifies this
      ensures Valid() && entries == if system == "" then old(entries) else Replaced(old(entries), system, listed, now)
    {
      hide Represents, ByIdentity, ByName, Continued, Refreshed, SelectExisting, Replaced, IdsOfSystem, AllIn, Without;
      ghost var before := entries;
      NoSystem(kv, entries);
      var existing, ids := TakeSystem(system);
      var byIdentity, byName := BuildTables(existing);
      NothingListed(before, system, ids, now);
      for k := 0 to |listed|
        invariant Valid() && entries == if system == "" then before else Replaced(before, system, listed[..k], now)
      {
        var entry := listed[k];
        ReplacedMore(before, system, listed, k, now);
        if entry.name == "" {
          continue;
        }
        var continued := SelectExisting(byIdentity, byName, entry);
        SelectIsContinued(before, system, ids, entry);
        PutRefreshed(continued, entry, system, now);
      }
      assert listed[..|listed|] == listed;
    }

    method PutRefreshed(continued: Option<InstalledEntry>, entry: InstalledEntry, system: string, now: string)
      requires Valid() && entry.name != ""
      modifies this
      ensures Valid()
      ensures entries == if system == "" then old(entries)
                         else old(entries)[Id(system, entry.name, entry.version) := Refreshed(continued, entry, system, now)]
    {
      var refreshed := Refreshed(continued, entry, system, now);
      RefreshedId(continued, entry, system, now);
      if system != "" {
        RefreshedIsCanonical(continued, entry, system, now);
        CanonIsCanonical(refreshed);
      }
      hide Represents, StateKey, Refreshed, SerializeEntry, Canon;
      Put(refreshed);
    }

    /** merge_installed_ownership_database. */
    method Merge(package: Package, ownerIds: seq<string>, directRequest: bool) returns (ok: bool)
      requires Valid()
      modifies this
      ensures Valid() && ok == exists id :: Chosen(old(entries), package.system, package.name, package.version, id)
      ensures !ok ==> entries == old(entries)
      ensures forall id :: Chosen(old(entries), package.system, package.name, package.version, id) ==>
                entries == old(entries)[id := Merged(old(entries)[id], ownerIds, directRequest)]
    {
      var existing := Find(package.system, package.name, package.version);
      if existing.None? {
        return false;
      }
      ghost var id :| Chosen(entries, package.system, package.name, package.version, id);
      WriteBack(existing.value.0, Merged(existing.value.1, ownerIds, directRequest), id) by {
        assert Keeps(kv, id, entries[id]);
        OwnerSets(entries[id], ownerIds, directRequest);
      }
      forall other | Chosen(old(entries), package.system, package.name, package.version, other) ensures other == id {
        ChosenOnce(old(entries), package.system, package.name, package.version, other, id);
      }
      return true;
    }

    /** subtract_installed_ownership_database. */
    method Subtract(package: Package, ownerIds: seq<string>) returns (ok: bool)
      requires Valid()
      modifies this
      ensures Valid() && ok == exists id :: Chosen(old(entries), package.system, package.name, package.version, id)
      ensures !ok ==> entries == old(entries)
      ensures forall id :: Chosen(old(entries), package.system, package.name, package.version, id) ==>
                entries == old(entries)[id := Subtracted(old(entries)[id], ownerIds)]
    {
      var existing := Find(package.system, package.name, package.version);
      if existing.None? {
        return false;
      }
      ghost var id :| Chosen(entries, package.system, package.name, package.version, id);
      WriteBack(existing.value.0, Subtracted(existing.value.1, ownerIds), id) by {
        assert Keeps(kv, id, entries[id]);
        OwnerSets(entries[id], ownerIds, false);
      }
      forall other | Chosen(old(entries), package.system, package.name, package.version, other) ensures other == id {
        ChosenOnce(old(entries), package.system, package.name, package.version, other, id);
      }
      return true;
    }

    method WriteBack(key: string, e: InstalledEntry, ghost id: Id)
      requires Valid() && key == StateKey(id) && IdOf(e) == id && Canonical(e)
      modifies this
      ensures Valid() && entries == old(entries)[id := e]
    {
      MarkInitialized(kv, entries);
      kv := kv[INITIALIZED_KEY := "1"];
      CanonIsCanonical(e);
      PutEntry(kv, entries, e);
      hide Represents, StateKey, SerializeEntry;
      kv := kv[key := SerializeEntry(e)];
      entries := entries[id := e];
    }

    /** updateInstalledState. */
    method UpdateInstalledState(trackInstalled: bool, entry: HistoryEntry)
      requires Valid()
      modifies this
      ensures Valid() && entries == (if trackInstalled && entry.status == "success" then AfterEvent(old(entries), entry) else old(entries))
    {
      if !trackInstalled || entry.status != "success" {
        return;
      }
      var isInstall := entry.action == "install" || entry.action == "ensure";
      var isRemove := entry.action == "remove";
      var isUpdate := entry.action == "update";
      if !isInstall && !isRemove && !isUpdate {
        return;
      }
      if isRemove {
        Remove(entry.system, entry.packageName, entry.packageVersion);
        return;
      }
      if isUpdate {
        Remove(entry.system, entry.packageName, "");
      }
      Upsert(InstalledEntry(entry.packageName, entry.packageVersion, entry.system, entry.timestamp, "", []));
    }
  }

  lemma AllOrNone(entries: Entries, ids: seq<Id>)
    requires (forall id :: id in ids ==> id in entries) || (forall id :: id in ids ==> id !in entries)
    ensures Filter(InEntries(entries), ids) == ids || Filter(InEntries(entries), ids) == []
  {
    if forall id :: id in ids ==> id in entries {
      FilterAll(InEntries(entries), ids);
    } else {
      FilterNone(InEntries(entries), ids);
    }
  }

  lemma LiveKeys(keys: seq<string>, ids: seq<Id>, live: seq<Id>)
    requires KeysOf(keys, ids) && (live == ids || live == [])
    ensures |live| <= |keys| && KeysOf(keys[..|live|], live)
  {
    hide StateKey;
  }

  lemma OwnIds(kv: KeyValues, entries: Entries)
    requires Represents(kv, entries)
    ensures forall id :: id in entries ==> IdOf(entries[id]) == id
  {
    forall id | id in entries ensures IdOf(entries[id]) == id {
      assert Keeps(kv, id, entries[id]);
    }
  }

  lemma NothingListed(entries: Entries, system: string, ids: seq<Id>, now: string)
    requires IdsOfSystem(entries, system, ids)
    ensures Without(entries, set id | id in ids) == Replaced(entries, system, [], now)
    ensures (forall id :: id in entries ==> id.system != "") && system == "" ==> Without(entries, set id | id in ids) == entries
  {
  }

  lemma NoSystem(kv: KeyValues, entries: Entries)
    requires Represents(kv, entries)
    ensures forall id :: id in entries ==> id.system != ""
  {
    forall id | id in entries ensures id.system != "" {
      KeptIsNamed(kv, id, entries[id]);
    }
  }

  lemma ReplacedMore(entries: Entries, system: string, listed: seq<InstalledEntry>, k: nat, now: string)
    requires k < |listed|
    ensures var before := Replaced(entries, system, listed[..k], now);
            Replaced(entries, system, listed[..k + 1], now) ==
            if listed[k].name == "" then before
            else before[Id(system, listed[k].name, listed[k].version) := Refreshed(Continued(entries, system, listed[k]), listed[k], system, now)]
  {
    hide Continued, Refreshed;
    assert listed[..k + 1][..k] == listed[..k];
  }

  /** The entries without one version of a name, or without all of them for an empty version. */
  function Removed(entries: Entries, system: string, name: string, version: string): Entries {
    map id | id in entries && !(id.system == system && id.name == name && (version == "" || id.version == version)) :: entries[id]
  }

  lemma RemovedIs(entries: Entries, system: string, name: string, version: string, ids: seq<Id>)
    requires if version == "" then IdsOfName(entries, system, name, Filter(InEntries(entries), ids)) else ids == [Id(system, name, version)]
    ensures Without(entries, set id | id in ids) == Removed(entries, system, name, version)
  {
    WithoutLive(entries, ids);
    hide Filter;
  }

  /** Which of the entries of a name, if any, a request means. */
  lemma ChosenAmong(entries: Entries, system: string, name: string, version: string, ids: seq<Id>, index: Option<nat>)
    requires IdsOfName(entries, system, name, ids) && (index.Some? ==> index.value < |ids|)
    requires match index
             case Some(k) => (version != "" && ids[k].version == version) || (|ids| == 1 && (version != "" ==> ids[0].version != version))
             case None => |ids| != 1 && (version != "" ==> forall k :: 0 <= k < |ids| ==> ids[k].version != version)
    ensures index.Some? ==> forall id :: Chosen(entries, system, name, version, id) <==> id == ids[index.value]
    ensures index.None? ==> forall id :: !Chosen(entries, system, name, version, id)
  {
    assert forall k :: 0 <= k < |ids| ==> ids[k] in ids;
    if index.None? && |ids| > 1 {
      assert ids[0] != ids[1] && ids[0] in entries && ids[1] in entries;
    }
  }

  lemma RefreshedId(existing: Option<InstalledEntry>, listed: InstalledEntry, system: string, now: string)
    ensures IdOf(Refreshed(existing, listed, system, now)) == Id(system, listed.name, listed.version)
  {
  }

  /** The installed state after a successful event: an install adds its version, an update leaves only the new version
      of the name, a removal takes one version or all of them; an entry without name or system is not added. */
  ghost function AfterEvent(entries: Entries, entry: HistoryEntry): Entries {
    var id := Id(entry.system, entry.packageName, entry.packageVersion);
    var installed := InstalledEntry(entry.packageName, entry.packageVersion, entry.system, entry.timestamp, "unknown", []);
    if entry.action == "install" || entry.action == "ensure" then WithNamed(entries, id, installed)
    else if entry.action == "update" then WithNamed(Removed(entries, entry.system, entry.packageName, ""), id, installed)
    else if entry.action == "remove" then Removed(entries, entry.system, entry.packageName, entry.packageVersion)
    else entries
  }

  ghost function WithNamed(entries: Entries, id: Id, e: InstalledEntry): Entries {
    if Nameless(id) then entries else entries[id := e]
  }
}
