// The installed-state store of HistoryManager: a string-to-string store that stands
// for a map from package identities to entries, and the operations on it.
module InstalledState {
  import opened Sequences
  import opened Packages
  import opened FieldLines
  import opened InstalledCodec

  type KeyValues = map<string, string>

  type Entries = map<Id, InstalledEntry>

  const INITIALIZED_KEY := "meta:initialized"

  /** The payload stored under the key of id decodes to e. */
  ghost predicate Keeps(kv: KeyValues, id: Id, e: InstalledEntry) {
    StateKey(id) in kv && EntryFrom(kv[StateKey(id)]) == Some(e) && IdOf(e) == id && Canonical(e)
  }

  ghost predicate Covered(entries: Entries, key: string) {
    exists id :: id in entries && key == StateKey(id)
  }

  /** An identity whose entry cannot be read back. */
  predicate Nameless(id: Id) {
    id.system == "" || id.name == ""
  }

  /** The payload under the key was written for such an identity. */
  ghost predicate Dead(kv: KeyValues, key: string) {
    key in kv && EntryFrom(kv[key]).None? && exists id :: Nameless(id) && key == StateKey(id)
  }

  /** Every payload decodes to the entry whose key it is stored under, or was written without a name or a system and
      does not decode. */
  ghost predicate Represents(kv: KeyValues, entries: Entries) {
    && (forall id :: id in entries ==> Keeps(kv, id, entries[id]))
    && (forall key :: key in kv ==> key == INITIALIZED_KEY || Covered(entries, key) || Dead(kv, key))
  }

  lemma KeysAreApart(id: Id)
    ensures StateKey(id) != INITIALIZED_KEY && !(SystemPrefix(id.system) <= INITIALIZED_KEY)
    ensures !(NamePrefix(id.system, id.name) <= INITIALIZED_KEY)
  {
    KeyParts(id);
    hide Escape;
    assert StateKey(id)[..4][0] == 'p' && SystemPrefix(id.system)[0] == 'p' && NamePrefix(id.system, id.name)[0] == 'p';
  }

  lemma KeepsApart(kv: KeyValues, key: string, payload: string, id: Id, e: InstalledEntry)
    requires Keeps(kv, id, e) && key != StateKey(id)
    ensures Keeps(kv[key := payload], id, e)
  {
    hide EntryFrom, StateKey, Canonical;
  }

  lemma MarkInitialized(kv: KeyValues, entries: Entries)
    requires Represents(kv, entries)
    ensures Represents(kv[INITIALIZED_KEY := "1"], entries)
  {
    hide Covered, Keeps, EntryFrom, StateKey, Nameless;
    var after := kv[INITIALIZED_KEY := "1"];
    forall id | id in entries ensures Keeps(after, id, entries[id]) {
      KeysAreApart(id);
      KeepsApart(kv, INITIALIZED_KEY, "1", id, entries[id]);
    }
    assert forall key :: key in kv && key != INITIALIZED_KEY && Dead(kv, key) ==> Dead(after, key);
  }

  lemma PutKeeps(kv: KeyValues, e: InstalledEntry, id: Id, kept: InstalledEntry)
    requires Decodable(e) && (if id == IdOf(e) then kept == Canon(e) else Keeps(kv, id, kept))
    ensures Keeps(kv[StateKey(IdOf(e)) := SerializeEntry(e)], id, kept)
  {
    StateKeyInjective(id, IdOf(e));
    EntryReadsBack(e);
    CanonIsCanonical(e);
    hide EntryFrom, StateKey, Canonical, SerializeEntry;
  }

  lemma CoveredMore(entries: Entries, e: InstalledEntry, key: string)
    requires Covered(entries, key) || key == StateKey(IdOf(e))
    ensures Covered(entries[IdOf(e) := Canon(e)], key)
  {
    hide StateKey, Canon;
    var more := entries[IdOf(e) := Canon(e)];
    if key == StateKey(IdOf(e)) {
      assert IdOf(e) in more;
    } else {
      var id :| id in entries && key == StateKey(id);
      assert id in more;
    }
  }

  lemma PutEntry(kv: KeyValues, entries: Entries, e: InstalledEntry)
    requires Represents(kv, entries) && Decodable(e)
    ensures Represents(kv[StateKey(IdOf(e)) := SerializeEntry(e)], entries[IdOf(e) := Canon(e)])
  {
    hide StateKey, SerializeEntry, Keeps, Covered, Canon, Nameless, EntryFrom;
    var after, more := kv[StateKey(IdOf(e)) := SerializeEntry(e)], entries[IdOf(e) := Canon(e)];
    forall id | id in more ensures Keeps(after, id, more[id]) {
      PutKeeps(kv, e, id, more[id]);
    }
    forall key | key in after ensures key == INITIALIZED_KEY || Covered(more, key) || Dead(after, key) {
      if Covered(entries, key) || key == StateKey(IdOf(e)) {
        CoveredMore(entries, e, key);
      } else {
        assert key in kv && (key == INITIALIZED_KEY || Dead(kv, key));
      }
    }
  }

  lemma KeptIsNamed(kv: KeyValues, id: Id, e: InstalledEntry)
    requires Keeps(kv, id, e)
    ensures !Nameless(id)
  {
    hide EntryFrom, StateKey, NormalOwners;
  }

  /** An entry without name or system is written, but stands for nothing. */
  lemma PutDead(kv: KeyValues, entries: Entries, e: InstalledEntry)
    requires Represents(kv, entries) && !Decodable(e)
    ensures Represents(kv[StateKey(IdOf(e)) := SerializeEntry(e)], entries)
  {
    EntryReadsBack(e);
    assert Nameless(IdOf(e));
    hide StateKey, SerializeEntry, Keeps, Covered, EntryFrom, Nameless;
    var after := kv[StateKey(IdOf(e)) := SerializeEntry(e)];
    forall id | id in entries ensures Keeps(after, id, entries[id]) {
      KeptIsNamed(kv, id, entries[id]);
      StateKeyInjective(id, IdOf(e));
      KeepsApart(kv, StateKey(IdOf(e)), SerializeEntry(e), id, entries[id]);
    }
    assert Dead(after, StateKey(IdOf(e)));
    forall key | key in after ensures key == INITIALIZED_KEY || Covered(entries, key) || Dead(after, key) {
      if key != StateKey(IdOf(e)) {
        assert key in kv;
        assert Dead(kv, key) ==> Dead(after, key);
      }
    }
  }

  function Without(entries: Entries, ids: set<Id>): Entries {
    map id | id in entries && id !in ids :: entries[id]
  }

  lemma DeleteEntry(kv: KeyValues, entries: Entries, id: Id)
    requires Represents(kv, entries)
    ensures Represents(kv - {StateKey(id)}, Without(entries, {id}))
  {
    hide EntryFrom, StateKey, Canonical;
    var after, less := kv - {StateKey(id)}, Without(entries, {id});
    forall other | other in less ensures Keeps(after, other, less[other]) {
      StateKeyInjective(other, id);
      hide Covered;
    }
    hide Keeps, Nameless;
    forall key | key in after ensures key == INITIALIZED_KEY || Covered(less, key) || Dead(after, key) {
      if Covered(entries, key) {
        var other :| other in entries && key == StateKey(other);
        assert other in less;
      } else {
        assert Dead(kv, key) ==> Dead(after, key);
      }
    }
  }

  // ------------------------------------------------------------------- lookup

  /** id is what a request for system, name and version means. */
  ghost predicate Chosen(entries: Entries, system: string, name: string, version: string, id: Id) {
    && id in entries && id.system == system && id.name == name
    && (|| (version != "" && id.version == version)
        || ((version != "" ==> Id(system, name, version) !in entries)
            && forall other :: other in entries && other.system == system && other.name == name ==> other == id))
  }

  lemma ChosenOnce(entries: Entries, system: string, name: string, version: string, a: Id, b: Id)
    requires Chosen(entries, system, name, version, a) && Chosen(entries, system, name, version, b)
    ensures a == b
  {
  }

  /** keys lists the store keys of the ids, one for one. */
  ghost predicate KeysOf(keys: seq<string>, ids: seq<Id>) {
    |keys| == |ids| && forall k :: 0 <= k < |keys| ==> keys[k] == StateKey(ids[k])
  }

  ghost predicate IdsOfName(entries: Entries, system: string, name: string, ids: seq<Id>) {
    Distinct(ids) && forall id :: id in ids <==> id in entries && id.system == system && id.name == name
  }

  ghost predicate IdsOfSystem(entries: Entries, system: string, ids: seq<Id>) {
    Distinct(ids) && forall id :: id in ids <==> id in entries && id.system == system
  }

  lemma KeyToItsId(kv: KeyValues, entries: Entries, key: string) returns (id: Id)
    requires Represents(kv, entries) && key in kv && key != INITIALIZED_KEY
    ensures StateKey(id) == key && (id in entries || Nameless(id))
    ensures EntryFrom(kv[key]) == if id in entries then Some(entries[id]) else None
  {
    hide EntryFrom, StateKey, Canonical, Nameless;
    if Covered(entries, key) {
      id :| id in entries && key == StateKey(id);
      assert Keeps(kv, id, entries[id]);
    } else {
      assert Dead(kv, key);
      id :| Nameless(id) && key == StateKey(id);
      assert !(id in entries);
    }
  }

  /** What a key holds: the entry of its id, or nothing that can be read. */
  ghost predicate HoldsAt(kv: KeyValues, entries: Entries, key: string, id: Id) {
    && key in kv && StateKey(id) == key && (id in entries || Nameless(id))
    && EntryFrom(kv[key]) == if id in entries then Some(entries[id]) else None
  }

  lemma {:induction false} KeysToIds(kv: KeyValues, entries: Entries, keys: seq<string>) returns (ids: seq<Id>)
    requires Represents(kv, entries) && Distinct(keys)
    requires forall k :: 0 <= k < |keys| ==> keys[k] in kv && keys[k] != INITIALIZED_KEY
    ensures KeysOf(keys, ids) && Distinct(ids) && forall k :: 0 <= k < |ids| ==> HoldsAt(kv, entries, keys[k], ids[k])
  {
    hide Represents, StateKey, EntryFrom, Nameless;
    ids := [];
    if keys != [] {
      var n := |keys| - 1;
      ids := KeysToIds(kv, entries, keys[..n]);
      var id := KeyToItsId(kv, entries, keys[n]);
      ids := ids + [id];
    }
  }

  lemma KeyToId(keys: seq<string>, ids: seq<Id>, id: Id)
    requires KeysOf(keys, ids) && StateKey(id) in keys
    ensures id in ids
  {
    var k :| 0 <= k < |keys| && keys[k] == StateKey(id);
    StateKeyInjective(ids[k], id);
  }

  /** The entries among the ids of the keys with a prefix are those whose keys have it. */
  lemma PrefixIds(kv: KeyValues, entries: Entries, prefix: string, keys: seq<string>, ids: seq<Id>, id: Id)
    requires Represents(kv, entries) && KeysOf(keys, ids)
    requires forall key :: key in keys <==> key in kv && prefix <= key
    ensures id in ids ==> prefix <= StateKey(id)
    ensures id in ids && id in entries <==> id in entries && prefix <= StateKey(id)
  {
    hide StateKey, Covered, Dead;
    if id in ids {
      var k :| 0 <= k < |ids| && ids[k] == id;
      assert keys[k] in keys;
    }
    if id in entries && prefix <= StateKey(id) {
      assert Keeps(kv, id, entries[id]);
      KeyToId(keys, ids, id);
    }
  }

  function InEntries(entries: Entries): Id -> bool {
    (id: Id) => id in entries
  }

  /** keys are the keys of a name, ids the identities they stand for; all of them can be read, or none. */
  lemma NameKeys(kv: KeyValues, entries: Entries, system: string, name: string, keys: seq<string>) returns (ids: seq<Id>)
    requires Represents(kv, entries) && Distinct(keys)
    requires forall key :: key in keys <==> key in kv && NamePrefix(system, name) <= key
    ensures KeysOf(keys, ids) && Distinct(ids) && forall k :: 0 <= k < |ids| ==> HoldsAt(kv, entries, keys[k], ids[k])
    ensures IdsOfName(entries, system, name, Filter(InEntries(entries), ids))
    ensures forall id :: id in ids ==> id.system == system && id.name == name
    ensures (forall id :: id in ids ==> id in entries) || (forall id :: id in ids ==> id !in entries)
  {
    KeysAreApart(Id(system, name, ""));
    hide NamePrefix, StateKey, Represents, HoldsAt;
    assert forall k :: 0 <= k < |keys| ==> keys[k] in keys;
    ids := KeysToIds(kv, entries, keys);
    FilterMembers(InEntries(entries), ids);
    forall id
      ensures id in ids && id in entries <==> id in entries && id.system == system && id.name == name
      ensures id in ids ==> id.system == system && id.name == name
    {
      PrefixIds(kv, entries, NamePrefix(system, name), keys, ids, id);
      NamePrefixExact(system, name, id);
    }
    forall k | 0 <= k < |ids| ensures ids[k] in entries <==> !Nameless(Id(system, name, "")) {
      assert ids[k] in ids;
      HeldIsNamed(kv, entries, keys[k], ids[k]);
    }
  }

  lemma HeldIsNamed(kv: KeyValues, entries: Entries, key: string, id: Id)
    requires Represents(kv, entries) && HoldsAt(kv, entries, key, id)
    ensures id in entries <==> !Nameless(id)
  {
    hide Covered, Dead, EntryFrom, StateKey;
    if id in entries {
      KeptIsNamed(kv, id, entries[id]);
    }
  }

  lemma SystemKeys(kv: KeyValues, entries: Entries, system: string, keys: seq<string>) returns (ids: seq<Id>)
    requires Represents(kv, entries) && Distinct(keys)
    requires forall key :: key in keys <==> key in kv && SystemPrefix(system) <= key
    ensures KeysOf(keys, ids) && Distinct(ids) && forall k :: 0 <= k < |ids| ==> HoldsAt(kv, entries, keys[k], ids[k])
    ensures IdsOfSystem(entries, system, Filter(InEntries(entries), ids))
  {
    KeysAreApart(Id(system, "", ""));
    hide SystemPrefix, StateKey, Represents, HoldsAt;
    assert forall k :: 0 <= k < |keys| ==> keys[k] in keys;
    ids := KeysToIds(kv, entries, keys);
    FilterMembers(InEntries(entries), ids);
    forall id ensures id in ids && id in entries <==> id in entries && id.system == system {
      PrefixIds(kv, entries, SystemPrefix(system), keys, ids, id);
      SystemPrefixExact(system, id);
    }
  }

  /** Deleting the keys of some ids deletes the entries among them. */
  lemma WithoutLive(entries: Entries, ids: seq<Id>)
    ensures Without(entries, set id | id in ids) == Without(entries, set id | id in Filter(InEntries(entries), ids))
  {
    FilterMembers(InEntries(entries), ids);
  }

  function EntriesOf(entries: Entries, ids: seq<Id>): (r: seq<InstalledEntry>)
    requires forall id :: id in ids ==> id in entries
    ensures |r| == |ids|
    ensures forall k :: 0 <= k < |ids| ==> ids[k] in ids && r[k] == entries[ids[k]]
  {
    seq(|ids|, k requires 0 <= k < |ids| => assert ids[k] in ids; entries[ids[k]])
  }

  // ------------------------------------------------------------------- values

  /** What mergeInstalledOwnership writes back. */
  function Merged(e: InstalledEntry, ownerIds: seq<string>, directRequest: bool): InstalledEntry {
    var owners := NormalizeOwners(e.owners + ownerIds);
    var m := InstallMethodFromOwners(owners);
    e.(owners := owners, installMethod := if directRequest && m == "unknown" then "explicit" else m)
  }

  /** What subtractInstalledOwnership writes back. */
  function Subtracted(e: InstalledEntry, ownerIds: seq<string>): InstalledEntry {
    var owners := NormalizeOwners(Filter(NotIn(ownerIds), e.owners));
    e.(owners := owners, installMethod := InstallMethodFromOwners(owners))
  }

  function NotIn(ownerIds: seq<string>): string -> bool {
    (owner: string) => owner !in ownerIds
  }

  /** Merging is set union and subtracting set difference on owners. */
  lemma OwnerSets(e: InstalledEntry, ownerIds: seq<string>, directRequest: bool)
    requires Canonical(e)
    ensures forall x :: x in Merged(e, ownerIds, directRequest).owners <==> x in e.owners || (x in ownerIds && x != "")
    ensures forall x :: x in Subtracted(e, ownerIds).owners <==> x in e.owners && x !in ownerIds
    ensures Canonical(Merged(e, ownerIds, directRequest)) && Canonical(Subtracted(e, ownerIds))
  {
    NormalizedOwners(e.owners + ownerIds);
    FilterMembers(NotIn(ownerIds), e.owners);
    NormalizedOwners(Filter(NotIn(ownerIds), e.owners));
    hide NormalizeOwners, Filter;
  }

  /** Subtracting what was merged restores the owners exactly when none of them was there before, and the
      whole entry when its install method is the one its owners imply. */
  lemma SubtractUndoesMerge(e: InstalledEntry, ownerIds: seq<string>, directRequest: bool)
    requires Canonical(e)
    ensures var back := Subtracted(Merged(e, ownerIds, directRequest), ownerIds);
            && (back.owners == e.owners <==> forall x :: x in ownerIds ==> x !in e.owners)
            && (back == e <==> (forall x :: x in ownerIds ==> x !in e.owners) && e.installMethod == InstallMethodFromOwners(e.owners))
  {
    var merged := Merged(e, ownerIds, directRequest);
    var back := Subtracted(merged, ownerIds);
    OwnerSets(e, ownerIds, directRequest);
    OwnerSets(merged, ownerIds, directRequest);
    assert back.installMethod == InstallMethodFromOwners(back.owners);
    assert back == e.(owners := back.owners, installMethod := back.installMethod);
    assert NormalOwners(e.owners) && NormalOwners(back.owners);
    hide Merged, Subtracted, NormalOwners, InstallMethodFromOwners;
    if forall x :: x in ownerIds ==> x !in e.owners {
      forall x ensures x in back.owners <==> x in e.owners {}
      NormalIsUnique(back.owners, e.owners);
    }
  }

  /** On the store: after a merge the same request finds the same entry, and subtracting the merged ids leaves
      every other entry alone and gives the owners back exactly when none of the ids was there before. */
  lemma MergeThenSubtract(entries: Entries, system: string, name: string, version: string, id: Id, ownerIds: seq<string>, directRequest: bool)
    requires Chosen(entries, system, name, version, id) && Canonical(entries[id])
    ensures var merged := entries[id := Merged(entries[id], ownerIds, directRequest)];
            var back := merged[id := Subtracted(merged[id], ownerIds)];
            && Chosen(merged, system, name, version, id) && back.Keys == entries.Keys
            && (forall other :: other in entries && other != id ==> back[other] == entries[other])
            && (back[id].owners == entries[id].owners <==> forall x :: x in ownerIds ==> x !in entries[id].owners)
  {
    SubtractUndoesMerge(entries[id], ownerIds, directRequest);
    hide Merged, Subtracted, Canonical;
  }

  /** What replaceInstalledState writes for one listed entry. */
  function Refreshed(existing: Option<InstalledEntry>, listed: InstalledEntry, system: string, now: string): InstalledEntry {
    var installedAt := if listed.installedAt != "" then listed.installedAt else if existing.Some? then existing.value.installedAt else now;
    var owners := NormalizeOwners(if listed.owners == [] && existing.Some? then existing.value.owners else listed.owners);
    var installMethod :=
      if listed.installMethod != "" && listed.installMethod != "unknown" then listed.installMethod
      else if existing.Some? && existing.value.installMethod != "" then existing.value.installMethod
      else InstallMethodFromOwners(owners);
    InstalledEntry(listed.name, listed.version, system, installedAt, installMethod, owners)
  }

  ghost function SameName(entries: Entries, system: string, name: string): set<Id> {
    set id | id in entries && id.system == system && id.name == name
  }

  /** The old entry a listed one continues: the same identity, or the only one of its name. */
  ghost function Continued(entries: Entries, system: string, listed: InstalledEntry): Option<InstalledEntry> {
    if Id(system, listed.name, listed.version) in entries then Some(entries[Id(system, listed.name, listed.version)])
    else if |SameName(entries, system, listed.name)| == 1 then
      var id :| id in SameName(entries, system, listed.name);
      Some(entries[id])
    else None
  }

  /** The listed entries put one after the other over those of other systems. */
  ghost function Replaced(entries: Entries, system: string, listed: seq<InstalledEntry>, now: string): Entries {
    if listed == [] then map id | id in entries && id.system != system :: entries[id]
    else
      var e := listed[|listed| - 1];
      var before := Replaced(entries, system, listed[..|listed| - 1], now);
      if e.name == "" then before
      else before[Id(system, e.name, e.version) := Refreshed(Continued(entries, system, e), e, system, now)]
  }

  /** Position of the last listed entry with the identity. */
  ghost predicate LastListed(listed: seq<InstalledEntry>, id: Id, k: nat) {
    && k < |listed| && listed[k].name == id.name && listed[k].version == id.version && id.name != ""
    && forall j :: k < j < |listed| ==> !(listed[j].name == id.name && listed[j].version == id.version)
  }

  /** Replacing leaves the entries of other systems alone. */
  lemma {:induction false} ReplacedKeepsOthers(entries: Entries, system: string, listed: seq<InstalledEntry>, now: string, id: Id)
    requires id.system != system
    ensures id in Replaced(entries, system, listed, now) <==> id in entries
    ensures id in entries ==> Replaced(entries, system, listed, now)[id] == entries[id]
  {
    hide Continued, Refreshed;
    if listed != [] {
      ReplacedKeepsOthers(entries, system, listed[..|listed| - 1], now, id);
    }
  }

  /** The identities of the system are exactly the named listed ones. */
  lemma {:induction false} ReplacedIdentities(entries: Entries, system: string, listed: seq<InstalledEntry>, now: string, id: Id)
    requires id.system == system
    ensures id in Replaced(entries, system, listed, now) <==>
            id.name != "" && exists k :: 0 <= k < |listed| && listed[k].name == id.name && listed[k].version == id.version
  {
    hide Continued, Refreshed;
    if listed != [] {
      var n := |listed| - 1;
      ReplacedIdentities(entries, system, listed[..n], now, id);
      if k :| 0 <= k < n && listed[k].name == id.name && listed[k].version == id.version {
        assert listed[..n][k] == listed[k];
      }
    }
  }

  /** Each of them is the last listed one, continued from its old entry. */
  lemma {:induction false} ReplacedEntry(entries: Entries, system: string, listed: seq<InstalledEntry>, now: string, id: Id, k: nat)
    requires id.system == system && LastListed(listed, id, k)
    ensures id in Replaced(entries, system, listed, now)
    ensures Replaced(entries, system, listed, now)[id] == Refreshed(Continued(entries, system, listed[k]), listed[k], system, now)
  {
    hide Continued, Refreshed;
    var n := |listed| - 1;
    if k < n {
      ReplacedEntry(entries, system, listed[..n], now, id, k);
    }
  }

  /** A listed entry without time stamp, owners or install method takes them from the entry it continues. */
  lemma RefreshedCarriesOver(existing: InstalledEntry, listed: InstalledEntry, system: string, now: string)
    requires Canonical(existing)
    ensures var e := Refreshed(Some(existing), listed, system, now);
            && (listed.installedAt == "" ==> e.installedAt == existing.installedAt)
            && (listed.owners == [] ==> e.owners == existing.owners)
            && (listed.installMethod == "" || listed.installMethod == "unknown" ==> e.installMethod == existing.installMethod)
  {
    NormalizeNormal(existing.owners);
  }

  lemma RefreshedIsCanonical(existing: Option<InstalledEntry>, listed: InstalledEntry, system: string, now: string)
    requires listed.name != "" && system != ""
    ensures Canonical(Refreshed(existing, listed, system, now))
  {
    NormalizedOwners(if listed.owners == [] && existing.Some? then existing.value.owners else listed.owners);
  }
}
