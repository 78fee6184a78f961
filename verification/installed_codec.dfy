// Entries of the installed-state store: owners, payloads, and the keys they are found under.
module InstalledCodec {
  import opened Sequences
  import opened Sorting
  import opened Text
  import opened FieldLines

  datatype InstalledEntry = InstalledEntry(name: string, version: string, system: string, installedAt: string,
                                           installMethod: string, owners: seq<string>)

  // ------------------------------------------------------------------- owners

  /** Strictly increasing, without the empty string. */
  ghost predicate NormalOwners(owners: seq<string>) {
    (forall i, j :: 0 <= i < j < |owners| ==> StringLess(owners[i], owners[j])) && "" !in owners
  }

  function Less(): (string, string) -> bool {
    (a: string, b: string) => StringLess(a, b)
  }

  /** std::unique. */
  function Unique(s: seq<string>): seq<string> {
    if |s| < 2 then s
    else if s[|s| - 1] == s[|s| - 2] then Unique(s[..|s| - 1])
    else Unique(s[..|s| - 1]) + [s[|s| - 1]]
  }

  function NormalizeOwners(owners: seq<string>): seq<string> {
    Unique(StableSort(Less(), Filter(NonEmpty(), owners)))
  }

  lemma LessIsStrictWeak()
    ensures StrictWeakOrder(Less())
  {
    forall a: string ensures !Less()(a, a) {
      StringLessIrreflexive(a);
    }
    forall a: string, b: string, c: string | Less()(a, b) && Less()(b, c) ensures Less()(a, c) {
      StringLessTransitive(a, b, c);
    }
    forall a: string, b: string, c: string | !Less()(a, b) && !Less()(b, c) ensures !Less()(a, c) {
      StringLessTotal(a, b);
      StringLessTotal(b, c);
      if StringLess(a, c) {
        StringLessIrreflexive(a);
        if StringLess(b, a) && StringLess(c, b) {
          StringLessTransitive(a, c, b);
          StringLessTransitive(a, b, a);
        } else if StringLess(b, a) {
          StringLessTransitive(a, c, a);
        } else if StringLess(c, b) {
          StringLessTransitive(a, c, a);
        }
      }
    }
  }

  lemma {:induction false} UniqueSorted(s: seq<string>)
    requires Sorted(Less(), s)
    ensures forall x :: x in Unique(s) <==> x in s
    ensures forall i, j :: 0 <= i < j < |Unique(s)| ==> StringLess(Unique(s)[i], Unique(s)[j])
    ensures s != [] ==> Unique(s) != [] && Unique(s)[|Unique(s)| - 1] == s[|s| - 1]
  {
    if |s| >= 2 {
      var rest, last := s[..|s| - 1], s[|s| - 1];
      assert s == rest + [last];
      UniqueSorted(rest);
      var u := Unique(rest);
      if last != s[|s| - 2] {
        assert !Less()(last, s[|s| - 2]);
        StringLessTotal(s[|s| - 2], last);
        forall i | 0 <= i < |u| ensures StringLess(u[i], last) {
          if i < |u| - 1 {
            StringLessTransitive(u[i], u[|u| - 1], last);
          }
        }
      }
    }
  }

  /** Normalizing keeps the set of non-empty owners, sorted and without repetition. */
  lemma NormalizedOwners(owners: seq<string>)
    ensures NormalOwners(NormalizeOwners(owners))
    ensures forall x :: x in NormalizeOwners(owners) <==> x in owners && x != ""
  {
    LessIsStrictWeak();
    FilterMembers(NonEmpty(), owners);
    var kept := Filter(NonEmpty(), owners);
    StableSortSorts(Less(), kept);
    SameMembers(kept, StableSort(Less(), kept));
    UniqueSorted(StableSort(Less(), kept));
  }

  /** A set of owners has one normal form. */
  lemma {:induction false} NormalIsUnique(a: seq<string>, b: seq<string>)
    requires NormalOwners(a) && NormalOwners(b) && forall x :: x in a <==> x in b
    ensures a == b
  {
    if a == [] {
      NoMembers(b);
    } else if b == [] {
      NoMembers(a);
    } else {
      var p, q := a[|a| - 1], b[|b| - 1];
      SameLast(a, b);
      assert a == a[..|a| - 1] + [p] && b == b[..|b| - 1] + [q];
      StringLessIrreflexive(p);
      var s, u := a[..|a| - 1], b[..|b| - 1];
      assert p !in s && q !in u;
      forall x ensures x in s <==> x in u {
        assert x in a <==> x in s || x == p;
        assert x in b <==> x in u || x == q;
      }
      NormalIsUnique(s, u);
    }
  }

  lemma SameLast(a: seq<string>, b: seq<string>)
    requires NormalOwners(a) && NormalOwners(b) && (forall x :: x in a <==> x in b) && a != [] && b != []
    ensures a[|a| - 1] == b[|b| - 1]
  {
    var p, q := a[|a| - 1], b[|b| - 1];
    assert p in b && q in a;
    var i :| 0 <= i < |b| && b[i] == p;
    var j :| 0 <= j < |a| && a[j] == q;
    if i < |b| - 1 && j < |a| - 1 {
      StringLessTransitive(p, q, p);
      StringLessIrreflexive(p);
    }
  }

  lemma NormalizeNormal(owners: seq<string>)
    ensures NormalizeOwners(owners) == owners <==> NormalOwners(owners)
  {
    NormalizedOwners(owners);
    if NormalOwners(owners) {
      NormalIsUnique(NormalizeOwners(owners), owners);
    }
  }

  predicate HasOwner(owners: seq<string>, prefix: string) {
    exists k :: 0 <= k < |owners| && prefix + "\n" <= owners[k]
  }

  lemma OwnersWith(owners: seq<string>, prefix: string)
    ensures HasOwner(owners, prefix) <==> exists owner :: owner in owners && prefix + "\n" <= owner
  {
    if k :| 0 <= k < |owners| && prefix + "\n" <= owners[k] {
      assert owners[k] in owners;
    }
  }

  /** Owners that begin with root and a newline make an entry explicit, those that begin with pkg and a newline a
      dependency. */
  function InstallMethodFromOwners(owners: seq<string>): (m: string)
    ensures m != ""
    ensures m in {"explicit", "explicit+dependency"} <==> exists owner :: owner in owners && "root\n" <= owner
    ensures m in {"dependency", "explicit+dependency"} <==> exists owner :: owner in owners && "pkg\n" <= owner
    ensures m in {"explicit", "dependency", "explicit+dependency", "unknown"}
  {
    assert "root" + "\n" == "root\n" && "pkg" + "\n" == "pkg\n";
    OwnersWith(owners, "root");
    OwnersWith(owners, "pkg");
    if HasOwner(owners, "root") && HasOwner(owners, "pkg") then "explicit+dependency"
    else if HasOwner(owners, "root") then "explicit"
    else if HasOwner(owners, "pkg") then "dependency"
    else "unknown"
  }

  // ----------------------------------------------------------------- payloads

  function OwnerFields(owners: seq<string>): seq<Field> {
    if owners == [] then [] else OwnerFields(owners[..|owners| - 1]) + [("owner", owners[|owners| - 1])]
  }

  function HeadOf(e: InstalledEntry): (head: seq<Field>)
    ensures |head| == 5
  {
    [("name", e.name), ("version", e.version), ("system", e.system), ("installedAt", e.installedAt), ("installMethod", e.installMethod)]
  }

  function EntryFields(e: InstalledEntry): seq<Field> {
    HeadOf(e) + OwnerFields(e.owners)
  }

  function FieldLine(field: Field): string {
    field.0 + "=" + Escape(field.1)
  }

  function FieldLinesOf(fields: seq<Field>): seq<string> {
    if fields == [] then [] else FieldLinesOf(fields[..|fields| - 1]) + [FieldLine(fields[|fields| - 1])]
  }

  /** serialize_installed_entry: no newline behind the last line. */
  function SerializeEntry(e: InstalledEntry): string {
    Join(FieldLinesOf(EntryFields(e)), '\n')
  }

  function OwnersIn(fields: seq<Field>): seq<string> {
    if fields == [] then []
    else OwnersIn(fields[..|fields| - 1]) + (if fields[|fields| - 1].0 == "owner" then [fields[|fields| - 1].1] else [])
  }

  function EntryIn(fields: seq<Field>): InstalledEntry {
    InstalledEntry(TextAt(fields, "name"), TextAt(fields, "version"), TextAt(fields, "system"), TextAt(fields, "installedAt"),
                   TextAt(fields, "installMethod"), OwnersIn(fields))
  }

  /** An entry as it comes back: normal owners, and an install method derived from them if it had none. */
  function Canon(e: InstalledEntry): InstalledEntry {
    var owners := NormalizeOwners(e.owners);
    e.(owners := owners, installMethod := if e.installMethod == "" then InstallMethodFromOwners(owners) else e.installMethod)
  }

  predicate Decodable(e: InstalledEntry) {
    e.name != "" && e.system != ""
  }

  ghost predicate Canonical(e: InstalledEntry) {
    Decodable(e) && e.installMethod != "" && NormalOwners(e.owners)
  }

  function EntryFrom(payload: string): Option<InstalledEntry> {
    var e := EntryIn(ReadFields(payload));
    if Decodable(e) then Some(Canon(e)) else None
  }

  lemma OneLine(field: Field)
    requires IsKey(field.0)
    ensures FieldsOf([FieldLine(field)]) == [field] && FieldLine(field) != "" && '\n' !in FieldLine(field)
  {
    LineReadsBack(field);
    OneField(field);
    hide Escape, FieldsOf;
  }

  lemma SeparableMore(parts: seq<string>, part: string, separator: char)
    requires Separable(parts, separator) && part != "" && separator !in part
    ensures Separable(parts + [part], separator)
  {
  }

  lemma {:induction false} LinesAreSeparable(fields: seq<Field>)
    requires forall k :: 0 <= k < |fields| ==> IsKey(fields[k].0)
    ensures Separable(FieldLinesOf(fields), '\n')
  {
    if fields != [] {
      var last := fields[|fields| - 1];
      LinesAreSeparable(fields[..|fields| - 1]);
      OneLine(last);
      hide FieldLine, IsKey, Separable;
      SeparableMore(FieldLinesOf(fields[..|fields| - 1]), FieldLine(last), '\n');
    }
  }

  lemma NoLines()
    ensures FieldsOf([]) == []
  {
  }

  lemma {:induction false} LinesReadBack(fields: seq<Field>)
    requires forall k :: 0 <= k < |fields| ==> IsKey(fields[k].0)
    ensures FieldsOf(FieldLinesOf(fields)) == fields
  {
    hide FieldsOf, FieldLine, IsKey;
    if fields == [] {
      NoLines();
    } else {
      var init, last := fields[..|fields| - 1], fields[|fields| - 1];
      LinesReadBack(init);
      OneLine(last);
      FieldsConcat(FieldLinesOf(init), [FieldLine(last)]);
      hide FieldLinesOf;
      assert fields == init + [last];
    }
  }

  lemma OwnersSnoc(fields: seq<Field>, owners: seq<string>)
    requires owners != []
    ensures fields + OwnerFields(owners) == (fields + OwnerFields(owners[..|owners| - 1])) + [("owner", owners[|owners| - 1])]
  {
    var last: Field := ("owner", owners[|owners| - 1]);
    assert OwnerFields(owners) == OwnerFields(owners[..|owners| - 1]) + [last];
    hide OwnerFields;
    Associate(fields, OwnerFields(owners[..|owners| - 1]), [last]);
  }

  lemma {:induction false} OwnersRead(fields: seq<Field>, owners: seq<string>)
    ensures OwnersIn(fields + OwnerFields(owners)) == OwnersIn(fields) + owners
  {
    if owners == [] {
      assert fields + OwnerFields(owners) == fields;
    } else {
      var init, last := owners[..|owners| - 1], owners[|owners| - 1];
      OwnersRead(fields, init);
      OwnersSnoc(fields, owners);
      OwnersMore(fields + OwnerFields(init), last);
      hide OwnersIn, OwnerFields;
      assert OwnersIn(fields) + init + [last] == OwnersIn(fields) + owners;
    }
  }

  lemma OwnersMore(fields: seq<Field>, owner: string)
    ensures OwnersIn(fields + [("owner", owner)]) == OwnersIn(fields) + [owner]
  {
    assert (fields + [("owner", owner)])[..|fields|] == fields;
  }

  lemma {:induction false} OwnersDoNotHide(fields: seq<Field>, owners: seq<string>, key: string)
    requires key != "owner"
    ensures Lookup(fields + OwnerFields(owners), key) == Lookup(fields, key)
  {
    if owners == [] {
      assert fields + OwnerFields(owners) == fields;
    } else {
      var init, last := owners[..|owners| - 1], owners[|owners| - 1];
      OwnersDoNotHide(fields, init, key);
      OwnersSnoc(fields, owners);
      LookupMore(fields + OwnerFields(init), ("owner", last), key);
      hide Lookup, OwnerFields;
    }
  }

  lemma {:induction false} OwnerKeys(owners: seq<string>)
    ensures forall k :: 0 <= k < |OwnerFields(owners)| ==> OwnerFields(owners)[k].0 == "owner"
  {
    if owners != [] {
      OwnerKeys(owners[..|owners| - 1]);
    }
  }

  lemma EntryKeys(e: InstalledEntry)
    ensures forall k :: 0 <= k < |EntryFields(e)| ==> IsKey(EntryFields(e)[k].0)
  {
    OwnerKeys(e.owners);
    hide OwnerFields;
    assert IsKey("name") && IsKey("version") && IsKey("system") && IsKey("installedAt") && IsKey("installMethod") && IsKey("owner");
  }

  lemma EntryFieldsRead(e: InstalledEntry)
    ensures ReadFields(SerializeEntry(e)) == EntryFields(e)
  {
    EntryKeys(e);
    hide EntryFields, IsKey, FieldsOf, Pieces, Join, FieldLinesOf;
    LinesReadBack(EntryFields(e));
    LinesAreSeparable(EntryFields(e));
    PiecesOfJoin(FieldLinesOf(EntryFields(e)), '\n');
  }

  lemma HeadKeys(e: InstalledEntry)
    ensures forall i, j :: 0 <= i < j < 5 ==> HeadOf(e)[i].0 != HeadOf(e)[j].0
    ensures forall i :: 0 <= i < 5 ==> HeadOf(e)[i].0 != "owner"
  {
  }

  lemma EntryText(e: InstalledEntry, k: nat)
    requires k < 5
    ensures TextAt(EntryFields(e), HeadOf(e)[k].0) == HeadOf(e)[k].1
  {
    HeadKeys(e);
    hide HeadOf, OwnerFields;
    OwnersDoNotHide(HeadOf(e), e.owners, HeadOf(e)[k].0);
    LookupAt(HeadOf(e), k);
  }

  lemma EntryOwners(e: InstalledEntry)
    ensures OwnersIn(EntryFields(e)) == e.owners
  {
    HeadKeys(e);
    OwnersRead(HeadOf(e), e.owners);
    hide HeadOf, OwnerFields;
    NoOwnersIn(HeadOf(e));
    assert [] + e.owners == e.owners;
  }

  lemma EntryInFields(e: InstalledEntry)
    ensures EntryIn(EntryFields(e)) == e
  {
    EntryText(e, 0);
    EntryText(e, 1);
    EntryText(e, 2);
    EntryText(e, 3);
    EntryText(e, 4);
    EntryOwners(e);
    hide TextAt, OwnersIn, EntryFields;
  }

  lemma EntryReadsBack(e: InstalledEntry)
    ensures EntryFrom(SerializeEntry(e)) == if Decodable(e) then Some(Canon(e)) else None
  {
    EntryFieldsRead(e);
    EntryInFields(e);
    hide SerializeEntry, EntryFields, EntryIn, ReadFields, Canon;
  }

  lemma {:induction false} NoOwnersIn(fields: seq<Field>)
    requires forall k :: 0 <= k < |fields| ==> fields[k].0 != "owner"
    ensures OwnersIn(fields) == []
  {
    if fields != [] {
      NoOwnersIn(fields[..|fields| - 1]);
    }
  }

  /** An entry decodes to itself exactly when it has a name, a system and an install method and its owners
      are normal. */
  lemma EntryRoundTrip(e: InstalledEntry)
    ensures EntryFrom(SerializeEntry(e)) == Some(e) <==> Canonical(e)
  {
    EntryReadsBack(e);
    NormalizeNormal(e.owners);
    hide EntryFrom, SerializeEntry, NormalizeOwners, NormalOwners, InstallMethodFromOwners;
  }

  lemma CanonIsCanonical(e: InstalledEntry)
    requires Decodable(e)
    ensures Canonical(Canon(e))
    ensures Canonical(e) ==> Canon(e) == e
  {
    NormalizedOwners(e.owners);
    NormalizeNormal(e.owners);
  }

  // ---------------------------------------------------------------------- keys

  datatype Id = Id(system: string, name: string, version: string)

  function IdOf(e: InstalledEntry): Id {
    Id(e.system, e.name, e.version)
  }

  function SystemPrefix(system: string): string {
    "pkg:" + Escape(system) + ['\n']
  }

  function NamePrefix(system: string, name: string): string {
    SystemPrefix(system) + Escape(name) + ['\n']
  }

  /** installed_state_key. */
  function StateKey(id: Id): string {
    NamePrefix(id.system, id.name) + Escape(id.version)
  }

  /** installed_state_identity. */
  function Identity(e: InstalledEntry): string {
    Escape(e.name) + ['\n'] + Escape(e.version)
  }

  lemma PairInjective(a: string, x: string, b: string, y: string)
    ensures Escape(a) + ['\n'] + x == Escape(b) + ['\n'] + y <==> a == b && x == y
  {
    EscapedHasNoNewline(a);
    EscapedHasNoNewline(b);
    EscapeInjective(a, b);
    SplitUnique('\n', Escape(a), x, Escape(b), y);
  }

  lemma IdentityInjective(a: InstalledEntry, b: InstalledEntry)
    ensures Identity(a) == Identity(b) <==> a.name == b.name && a.version == b.version
  {
    PairInjective(a.name, Escape(a.version), b.name, Escape(b.version));
    EscapeInjective(a.version, b.version);
  }

  lemma KeyParts(id: Id)
    ensures StateKey(id)[4..] == Escape(id.system) + ['\n'] + (Escape(id.name) + ['\n'] + Escape(id.version))
    ensures SystemPrefix(id.system)[4..] == Escape(id.system) + ['\n']
    ensures NamePrefix(id.system, id.name)[4..] == Escape(id.system) + ['\n'] + (Escape(id.name) + ['\n'])
    ensures StateKey(id)[..4] == "pkg:"
  {
    hide Escape;
  }

  /** The key tells system, name and version apart. */
  lemma StateKeyInjective(a: Id, b: Id)
    ensures StateKey(a) == StateKey(b) <==> a == b
  {
    KeyParts(a);
    KeyParts(b);
    hide StateKey, Escape;
    if StateKey(a) == StateKey(b) {
      PairInjective(a.system, Escape(a.name) + ['\n'] + Escape(a.version), b.system, Escape(b.name) + ['\n'] + Escape(b.version));
      PairInjective(a.name, Escape(a.version), b.name, Escape(b.version));
      EscapeInjective(a.version, b.version);
    }
  }

  lemma PrefixSplits(prefix: string, key: string, n: nat)
    requires prefix <= key && n <= |prefix|
    ensures key[n..] == prefix[n..] + key[|prefix|..]
  {
    assert key == prefix + key[|prefix|..];
  }

  lemma PrefixOf(prefix: string, rest: string)
    ensures prefix <= prefix + rest
  {
  }

  /** A key starts with the prefix of a system exactly when it is a key of that system. */
  lemma SystemPrefixExact(system: string, id: Id)
    ensures SystemPrefix(system) <= StateKey(id) <==> id.system == system
  {
    KeyParts(id);
    KeyParts(Id(system, "", ""));
    KeyFromSystem(id);
    KeyFromSystem(Id(system, "", ""));
    hide StateKey, SystemPrefix, NamePrefix, Escape;
    var key, prefix := StateKey(id), SystemPrefix(system);
    if prefix <= key {
      PrefixSplits(prefix, key, 4);
      PairInjective(system, key[|prefix|..], id.system, Escape(id.name) + ['\n'] + Escape(id.version));
    }
  }

  lemma KeyFromSystem(id: Id)
    ensures SystemPrefix(id.system) <= StateKey(id) && NamePrefix(id.system, id.name) <= StateKey(id)
    ensures |SystemPrefix(id.system)| >= 4 && |NamePrefix(id.system, id.name)| >= 4
  {
    hide Escape;
    PrefixOf(SystemPrefix(id.system), Escape(id.name) + ['\n'] + Escape(id.version));
    assert StateKey(id) == SystemPrefix(id.system) + (Escape(id.name) + ['\n'] + Escape(id.version));
    PrefixOf(NamePrefix(id.system, id.name), Escape(id.version));
  }

  /** A key starts with the prefix of a system and a name exactly when it belongs to both. */
  lemma NamePrefixExact(system: string, name: string, id: Id)
    ensures NamePrefix(system, name) <= StateKey(id) <==> id.system == system && id.name == name
  {
    KeyParts(id);
    KeyParts(Id(system, name, ""));
    KeyFromSystem(id);
    KeyFromSystem(Id(system, name, ""));
    hide StateKey, SystemPrefix, NamePrefix, Escape;
    var key, prefix := StateKey(id), NamePrefix(system, name);
    if prefix <= key {
      var rest := key[|prefix|..];
      PrefixSplits(prefix, key, 4);
      assert Escape(system) + ['\n'] + (Escape(name) + ['\n']) + rest == Escape(system) + ['\n'] + (Escape(name) + ['\n'] + rest);
      PairInjective(system, Escape(name) + ['\n'] + rest, id.system, Escape(id.name) + ['\n'] + Escape(id.version));
      PairInjective(name, rest, id.name, Escape(id.version));
    }
  }

  // ------------------------------------------------------------- decoding loop

  method DeserializeEntry(payload: string) returns (result: Option<InstalledEntry>)
    ensures result == EntryFrom(payload)
  {
    hide Find, Unescape, Pieces, Canon;
    var lines := Pieces(payload, '\n');
    var entry := InstalledEntry("", "", "", "", "", []);
    ghost var fields: seq<Field> := [];
    for k := 0 to |lines|
      invariant fields == FieldsOf(lines[..k]) && entry == EntryIn(fields)
    {
      var line := lines[k];
      assert lines[..k + 1][..k] == lines[..k];
      var equals := Find(line, '=');
      if equals == |line| {
        continue;
      }
      var key, value := line[..equals], Unescape(line[equals + 1..]);
      EntryMore(fields, (key, value));
      fields := fields + [(key, value)];
      if key == "name" {
        entry := entry.(name := value);
      } else if key == "version" {
        entry := entry.(version := value);
      } else if key == "system" {
        entry := entry.(system := value);
      } else if key == "installedAt" {
        entry := entry.(installedAt := value);
      } else if key == "installMethod" {
        entry := entry.(installMethod := value);
      } else if key == "owner" {
        entry := entry.(owners := entry.owners + [value]);
      }
    }
    assert lines[..|lines|] == lines;
    if entry.name == "" || entry.system == "" {
      return None;
    }
    return Some(Canon(entry));
  }

  lemma EntryMore(fields: seq<Field>, field: Field)
    ensures EntryIn(fields + [field]) ==
            var e := EntryIn(fields);
            if field.0 == "name" then e.(name := field.1)
            else if field.0 == "version" then e.(version := field.1)
            else if field.0 == "system" then e.(system := field.1)
            else if field.0 == "installedAt" then e.(installedAt := field.1)
            else if field.0 == "installMethod" then e.(installMethod := field.1)
            else if field.0 == "owner" then e.(owners := e.owners + [field.1])
            else e
  {
    LookupMore(fields, field, "name");
    LookupMore(fields, field, "version");
    LookupMore(fields, field, "system");
    LookupMore(fields, field, "installedAt");
    LookupMore(fields, field, "installMethod");
    assert (fields + [field])[..|fields|] == fields;
    hide Lookup;
  }
}
