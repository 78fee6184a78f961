// Which item of a run the records of its execution reach.
module ExecutorOutcomes {
  import opened Sequences
  import opened Packages
  import opened TaskPlans
  import opened TransactionCodec
  import opened TransactionStore
  import opened ExecutorTransactions

  /** The record has the action, system, name and version of the package. */
  predicate About(record: Record, p: Package) {
    record.action == p.action && record.system == p.system && record.packageName == p.name && record.packageVersion == p.version
  }

  /** The packages agree in all that a record tells of them. */
  predicate Alike(p: Package, q: Package) {
    p.action == q.action && p.system == q.system && p.name == q.name && p.version == q.version
  }

  /** The package a record names, when nothing is known about where it comes from. */
  function Bare(record: Record): Package {
    Package(record.action, record.system, record.packageName, record.packageVersion, "", false, [], false)
  }

  /** Each record is about an item of the run, or its bare package has the id of none. */
  ghost predicate Recognized(itemId: ItemIds, s: Store, runId: string, records: seq<Record>) {
    forall record :: record in records ==> AboutSome(s, runId, record) || (runId, itemId(Bare(record))) !in s.items
  }

  ghost predicate AboutSome(s: Store, runId: string, record: Record) {
    exists key :: key in s.items && key.0 == runId && About(record, s.items[key].package)
  }

  /** No two items of the run are alike. */
  ghost predicate NoneAlike(s: Store, runId: string) {
    forall key, other :: key in s.items && other in s.items && key.0 == runId && other.0 == runId && key != other ==>
      !Alike(s.items[key].package, s.items[other].package)
  }

  /** Record k is the last one about the package. */
  ghost predicate LastAbout(records: seq<Record>, p: Package, k: nat) {
    k < |records| && About(records[k], p) && forall j :: k < j < |records| ==> !About(records[j], p)
  }

  /** The item ends with status and error of the last record about it, and as it was if there is none. */
  ghost predicate GetsOutcome(records: seq<Record>, item: ItemRecord, after: ItemRecord) {
    && (forall k: nat :: LastAbout(records, item.package, k) ==> after == item.(status := records[k].status, errorMessage := records[k].errorMessage))
    && ((forall record :: record in records ==> !About(record, item.package)) ==> after == item)
  }

  /** Of the items read, none before it is alike. */
  ghost predicate Leads(items: seq<ItemRecord>, item: ItemRecord) {
    exists k :: 0 <= k < |items| && items[k] == item && forall j :: 0 <= j < k ==> !Alike(items[j].package, item.package)
  }

  /** Of the items of the run that are alike, the first gets the outcome; all other items stay as they were. */
  ghost predicate OutcomesReach(before: Store, after: Store, runId: string, items: seq<ItemRecord>, records: seq<Record>) {
    forall key :: key in before.items ==>
      && key in after.items
      && if key.0 == runId && Leads(items, before.items[key]) then GetsOutcome(records, before.items[key], after.items[key])
         else after.items[key] == before.items[key]
  }

  /** Every item of the run gets its outcome; all other items stay as they were. */
  ghost predicate EachGetsOutcome(before: Store, after: Store, runId: string, records: seq<Record>) {
    forall key :: key in before.items ==>
      && key in after.items
      && if key.0 == runId then GetsOutcome(records, before.items[key], after.items[key]) else after.items[key] == before.items[key]
  }

  lemma {:induction false} FirstAlike(items: seq<ItemRecord>, record: Record)
    ensures match ItemOf(items, record)
            case None => forall item :: item in items ==> !About(record, item.package)
            case Some(x) => x in items && About(record, x.package) && Leads(items, x)
  {
    if items != [] && !About(record, items[0].package) {
      FirstAlike(items[1..], record);
      match ItemOf(items[1..], record)
      case None =>
        forall item | item in items ensures !About(record, item.package) {
          assert item == items[0] || item in items[1..];
        }
      case Some(x) =>
        var k :| 0 <= k < |items[1..]| && items[1..][k] == x && forall j :: 0 <= j < k ==> !Alike(items[1..][j].package, x.package);
        assert items[k + 1] == x;
        forall j | 0 <= j < k + 1 ensures !Alike(items[j].package, x.package) {
          if j > 0 {
            assert items[j] == items[1..][j - 1];
          }
        }
    }
  }

  lemma LeadersAlike(items: seq<ItemRecord>, x: ItemRecord, y: ItemRecord)
    requires Leads(items, x) && Leads(items, y) && Alike(x.package, y.package)
    ensures x == y
  {
    var k :| 0 <= k < |items| && items[k] == x && forall j :: 0 <= j < k ==> !Alike(items[j].package, x.package);
    var l :| 0 <= l < |items| && items[l] == y && forall j :: 0 <= j < l ==> !Alike(items[j].package, y.package);
  }

  lemma WrittenAsItem(items: seq<ItemRecord>, record: Record, item: ItemRecord)
    requires ItemOf(items, record) == Some(item) && About(record, item.package) && Stripped(item.package) == item.package
    ensures WrittenPackage(items, record) == item.package
  {
    hide ItemOf;
  }

  /** A record is written to the first item it is about. */
  lemma ReachesItem(itemId: ItemIds, s: Store, runId: string, items: seq<ItemRecord>, records: seq<Record>, record: Record, key: (string, string))
    requires KeysMatch(itemId, s) && AllReadable(s) && ReadsItems(s, runId, items) && Recognized(itemId, s, runId, records)
    requires record in records && key in s.items && key.0 == runId
    ensures itemId(WrittenPackage(items, record)) == key.1 <==> About(record, s.items[key].package) && Leads(items, s.items[key])
  {
    EveryItemIsRead(s, runId, items);
    ItemsAreStored(itemId, s, runId, items);
    FirstAlike(items, record);
    assert Stripped(s.items[key].package) == s.items[key].package && itemId(s.items[key].package) == key.1;
    hide ReadsItems, AllReadable;
    var item := s.items[key];
    match ItemOf(items, record)
    case None =>
      assert WrittenPackage(items, record) == Bare(record) by { hide KeysMatch, Recognized; }
      hide ItemOf, WrittenPackage, About, KeysMatch, Leads;
      assert item in items;
      forall other | other in s.items && other.0 == runId ensures !About(record, s.items[other].package) {
        assert s.items[other] in items;
      }
    case Some(x) =>
      assert s.items[(runId, x.itemId)] == x && Stripped(x.package) == x.package;
      WrittenAsItem(items, record, x);
      hide ItemOf, WrittenPackage, KeysMatch, Recognized, Leads;
      if About(record, item.package) && Leads(items, item) {
        LeadersAlike(items, x, item);
      }
  }

  lemma {:induction false} LastForIs(itemId: ItemIds, items: seq<ItemRecord>, records: seq<Record>, id: string, p: Package)
    requires forall record :: record in records ==> (itemId(WrittenPackage(items, record)) == id <==> About(record, p))
    ensures match LastFor(itemId, items, records, id)
            case None => forall record :: record in records ==> !About(record, p)
            case Some(r) => exists k: nat :: LastAbout(records, p, k) && records[k] == r
  {
    hide WrittenPackage, About;
    if records != [] {
      var n := |records| - 1;
      var rest := records[..n];
      assert records == rest + [records[n]] && records[n] in records;
      if About(records[n], p) {
        assert LastAbout(records, p, n);
      } else {
        LastForIs(itemId, items, rest, id, p);
        match LastFor(itemId, items, rest, id)
        case None =>
        case Some(r) =>
          var k: nat :| LastAbout(rest, p, k) && rest[k] == r;
          assert LastAbout(records, p, k);
      }
    }
  }

  lemma OnlyOneLast(records: seq<Record>, p: Package, j: nat, k: nat)
    requires LastAbout(records, p, j) && LastAbout(records, p, k)
    ensures j == k
  {
  }

  lemma {:induction false} LastForNone(itemId: ItemIds, items: seq<ItemRecord>, records: seq<Record>, id: string)
    requires forall record :: record in records ==> itemId(WrittenPackage(items, record)) != id
    ensures LastFor(itemId, items, records, id) == None
  {
    hide WrittenPackage;
    if records != [] {
      LastForNone(itemId, items, records[..|records| - 1], id);
    }
  }

  lemma OutcomeIs(itemId: ItemIds, items: seq<ItemRecord>, records: seq<Record>, id: string, item: ItemRecord)
    requires forall record :: record in records ==> (itemId(WrittenPackage(items, record)) == id <==> About(record, item.package))
    ensures GetsOutcome(records, item, WithRecord(item, LastFor(itemId, items, records, id)))
  {
    LastForIs(itemId, items, records, id, item.package);
    hide WrittenPackage, About, LastFor;
    match LastFor(itemId, items, records, id)
    case None =>
      forall k: nat | k < |records| ensures !About(records[k], item.package) {
        assert records[k] in records;
      }
    case Some(r) =>
      var k: nat :| LastAbout(records, item.package, k) && records[k] == r;
      assert records[k] in records;
      forall j: nat | LastAbout(records, item.package, j) ensures j == k {
        OnlyOneLast(records, item.package, j, k);
      }
  }

  lemma OutcomeAt(itemId: ItemIds, before: Store, after: Store, runId: string, items: seq<ItemRecord>, records: seq<Record>, key: (string, string))
    requires KeysMatch(itemId, before) && AllReadable(before) && ReadsItems(before, runId, items) && Recognized(itemId, before, runId, records)
    requires key in before.items && key.0 == runId && key in after.items
    requires after.items[key] == WithRecord(before.items[key], LastFor(itemId, items, records, key.1))
    ensures if Leads(items, before.items[key]) then GetsOutcome(records, before.items[key], after.items[key])
            else after.items[key] == before.items[key]
  {
    forall record | record in records
      ensures itemId(WrittenPackage(items, record)) == key.1 <==> About(record, before.items[key].package) && Leads(items, before.items[key])
    {
      ReachesItem(itemId, before, runId, items, records, record, key);
    }
    hide KeysMatch, AllReadable, ReadsItems, Recognized, Leads, LastFor, WrittenPackage, GetsOutcome, About;
    if Leads(items, before.items[key]) {
      OutcomeIs(itemId, items, records, key.1, before.items[key]);
    } else {
      LastForNone(itemId, items, records, key.1);
    }
  }

  /** Writing results gives each record to the first item it is about: of the items that are alike, the first ends
      with the last record about it, and all others stay as they were. */
  lemma RecordsReachItems(itemId: ItemIds, before: Store, after: Store, runId: string, items: seq<ItemRecord>, records: seq<Record>)
    requires KeysMatch(itemId, before) && AllReadable(before) && ReadsItems(before, runId, items) && Recognized(itemId, before, runId, records)
    requires ResultsWritten(itemId, before, after, runId, items, records)
    ensures OutcomesReach(before, after, runId, items, records)
  {
    assert before.items.Keys == after.items.Keys;
    hide KeysMatch, AllReadable, ReadsItems, Recognized, Leads, LastFor, GetsOutcome, SameRuns;
    forall key | key in before.items
      ensures key in after.items
      ensures if key.0 == runId && Leads(items, before.items[key]) then GetsOutcome(records, before.items[key], after.items[key])
              else after.items[key] == before.items[key]
    {
      assert key in before.items.Keys;
      if key.0 == runId {
        hide WithRecord;
        OutcomeAt(itemId, before, after, runId, items, records, key);
      }
    }
  }

  lemma AllLead(itemId: ItemIds, s: Store, runId: string, items: seq<ItemRecord>, key: (string, string))
    requires KeysMatch(itemId, s) && AllReadable(s) && ReadsItems(s, runId, items) && NoneAlike(s, runId)
    requires key in s.items && key.0 == runId
    ensures Leads(items, s.items[key])
  {
    EveryItemIsRead(s, runId, items);
    ItemsAreStored(itemId, s, runId, items);
    assert Distinct(items);
    hide ReadsItems, AllReadable, KeysMatch;
    var k :| 0 <= k < |items| && items[k] == s.items[key];
    forall j | 0 <= j < k ensures !Alike(items[j].package, s.items[key].package) {
      assert items[j] in items && items[j] != items[k];
      assert s.items[(runId, items[j].itemId)] == items[j];
    }
  }

  /** Where no two items of the run are alike, each of them ends with the last record about it. */
  lemma EachIsReached(itemId: ItemIds, before: Store, after: Store, runId: string, items: seq<ItemRecord>, records: seq<Record>)
    requires KeysMatch(itemId, before) && AllReadable(before) && ReadsItems(before, runId, items) && NoneAlike(before, runId)
    requires OutcomesReach(before, after, runId, items, records)
    ensures EachGetsOutcome(before, after, runId, records)
  {
    forall key | key in before.items && key.0 == runId ensures Leads(items, before.items[key]) {
      AllLead(itemId, before, runId, items, key);
    }
    hide KeysMatch, AllReadable, ReadsItems, NoneAlike, Leads, GetsOutcome;
  }

  /** What a record about no item of the run does when its bare package has the id of one: that item gets its
      outcome. */
  lemma UnrecognizedIsMisplaced(itemId: ItemIds, before: Store, after: Store, runId: string, items: seq<ItemRecord>, record: Record)
    requires KeysMatch(itemId, before) && ReadsItems(before, runId, items) && !Recognized(itemId, before, runId, [record])
    requires ResultsWritten(itemId, before, after, runId, items, [record])
    ensures var key := (runId, itemId(Bare(record)));
            && key in before.items && !About(record, before.items[key].package) && key in after.items
            && after.items[key].status == record.status && after.items[key].errorMessage == record.errorMessage
  {
    var key := (runId, itemId(Bare(record)));
    ItemsAreStored(itemId, before, runId, items);
    FirstAlike(items, record);
    assert before.items.Keys == after.items.Keys && key in before.items.Keys;
    hide KeysMatch, ReadsItems, SameRuns, Leads;
    forall item | item in items ensures !About(record, item.package) {
      assert (runId, item.itemId) in before.items;
    }
    assert ItemOf(items, record) == None;
    assert [record][..0] == [];
  }
}
