// What the transaction database holds, and what each of its transactions does to it.
module TransactionStore {
  import opened Sequences
  import opened Packages
  import opened Text
  import opened TransactionCodec

  /** The decoded content: the active run, the run records, and the items by run and item id. */
  datatype Store = Store(active: Option<string>, runs: map<string, RunRecord>, items: map<(string, string), ItemRecord>)

  /** The item id of a package; flags and directRequest do not enter it. */
  type ItemIds = Package -> string

  ghost predicate IgnoresFlags(itemId: ItemIds) {
    forall p: Package :: itemId(Stripped(p)) == itemId(p)
  }

  function IdsOf(numbering: Numbering, hash: string -> string): ItemIds {
    (p: Package) => ItemId(numbering, hash, p)
  }

  /** Hashed tokens serve as item ids: flags do not enter them, and packages whose system, name and version hold
      no separator get different ids if the hash keeps their tokens apart. */
  lemma TokensServeAsIds(numbering: Numbering, hash: string -> string, packages: seq<Package>)
    requires IsNumbering(numbering) && forall k :: 0 <= k < |packages| ==> SeparatorFree(packages[k])
    requires forall j, k :: 0 <= j < k < |packages| ==> !SamePackage(packages[j], packages[k])
    requires forall j, k :: 0 <= j < k < |packages| && Token(numbering, packages[j]) != Token(numbering, packages[k]) ==>
               hash(Token(numbering, packages[j])) != hash(Token(numbering, packages[k]))
    ensures IgnoresFlags(IdsOf(numbering, hash)) && DistinctIds(IdsOf(numbering, hash), packages)
  {
    forall p: Package ensures Token(numbering, Stripped(p)) == Token(numbering, p) {
      TokenIgnoresFlags(numbering, Stripped(p), p);
    }
    hide Token, SamePackage, SeparatorFree;
    forall j, k | 0 <= j < k < |packages| ensures IdsOf(numbering, hash)(packages[j]) != IdsOf(numbering, hash)(packages[k]) {
      TokenInjective(numbering, packages[j], packages[k]);
    }
  }

  datatype Op =
    | CreateRun(packages: seq<Package>, flags: seq<string>, now: string)
    | UpdateItems(runId: string, packages: seq<Package>, status: string, errorMessage: string, now: string)
    | MarkState(runId: string, state: string, now: string)
    | Commit(runId: string, now: string)
    | DeleteRun(runId: string)

  predicate HasActive(s: Store) {
    s.active.Some? && s.active.value != ""
  }

  function NewRunId(packages: seq<Package>, now: string): string {
    now + "-" + Decimal(|packages|)
  }

  function Planned(itemId: ItemIds, runId: string, packages: seq<Package>): map<(string, string), ItemRecord> {
    if packages == [] then map[]
    else
      var n := |packages| - 1;
      var id := itemId(packages[n]);
      Planned(itemId, runId, packages[..n])[(runId, id) := ItemRecord(runId, id, n, Stripped(packages[n]), "planned", "")]
  }

  /** A stored item that can be decoded again. */
  predicate Readable(s: Store, runId: string, id: string) {
    (runId, id) in s.items && s.items[(runId, id)].status != ""
  }

  predicate Listed(itemId: ItemIds, packages: seq<Package>, id: string) {
    exists k :: 0 <= k < |packages| && itemId(packages[k]) == id
  }

  /** Every listed package has a readable item when its turn comes. */
  predicate CanUpdate(itemId: ItemIds, s: Store, runId: string, packages: seq<Package>, status: string) {
    && (forall k :: 0 <= k < |packages| ==> Readable(s, runId, itemId(packages[k])))
    && (status == "" ==> forall j, k :: 0 <= j < k < |packages| ==> itemId(packages[j]) != itemId(packages[k]))
  }

  function UpdatedItems(itemId: ItemIds, items: map<(string, string), ItemRecord>, runId: string, packages: seq<Package>,
                        status: string, errorMessage: string): map<(string, string), ItemRecord> {
    map key | key in items ::
      if key.0 == runId && Listed(itemId, packages, key.1) then items[key].(status := status, errorMessage := errorMessage)
      else items[key]
  }

  function CommittedItems(items: map<(string, string), ItemRecord>, runId: string): map<(string, string), ItemRecord> {
    map key | key in items ::
      if key.0 == runId && items[key].status != "" then items[key].(status := "committed", errorMessage := "") else items[key]
  }

  function WithoutRun(items: map<(string, string), ItemRecord>, runId: string): map<(string, string), ItemRecord> {
    map key | key in items && key.0 != runId :: items[key]
  }

  predicate ReadableRunIn(s: Store, runId: string) {
    runId in s.runs && ReadableRun(s.runs[runId])
  }

  function Touched(s: Store, runId: string, now: string): map<string, RunRecord> {
    if ReadableRunIn(s, runId) then s.runs[runId := s.runs[runId].(updatedAt := now)] else s.runs
  }

  function Released(s: Store, runId: string): Option<string> {
    if s.active == Some(runId) then None else s.active
  }

  function CommittedRun(s: Store, runId: string, now: string): RunRecord {
    if ReadableRunIn(s, runId) then s.runs[runId].(state := "committed", updatedAt := now)
    else RunRecord(runId, "committed", now, now, [])
  }

  predicate Succeeds(itemId: ItemIds, s: Store, op: Op) {
    match op
    case CreateRun(_, _, _) => !HasActive(s)
    case UpdateItems(runId, packages, status, _, _) => CanUpdate(itemId, s, runId, packages, status)
    case MarkState(runId, _, _) => ReadableRunIn(s, runId)
    case Commit(_, _) => true
    case DeleteRun(runId) => runId in s.runs
  }

  /** One transaction: all of its writes, or none. */
  function Apply(itemId: ItemIds, s: Store, op: Op): Store {
    if !Succeeds(itemId, s, op) then s
    else
      match op
      case CreateRun(packages, flags, now) =>
        var runId := NewRunId(packages, now);
        Store(Some(runId), s.runs[runId := RunRecord(runId, "open", now, now, StoredFlags(flags))],
              s.items + Planned(itemId, runId, packages))
      case UpdateItems(runId, packages, status, errorMessage, now) =>
        s.(items := UpdatedItems(itemId, s.items, runId, packages, status, errorMessage), runs := Touched(s, runId, now))
      case MarkState(runId, state, now) =>
        s.(runs := s.runs[runId := s.runs[runId].(state := state, updatedAt := now)])
      case Commit(runId, now) =>
        Store(Released(s, runId), s.runs[runId := CommittedRun(s, runId, now)], CommittedItems(s.items, runId))
      case DeleteRun(runId) =>
        Store(Released(s, runId), s.runs - {runId}, WithoutRun(s.items, runId))
  }

  function Replay(itemId: ItemIds, s: Store, ops: seq<Op>): Store {
    if ops == [] then s else Apply(itemId, Replay(itemId, s, ops[..|ops| - 1]), ops[|ops| - 1])
  }

  lemma ReplayMore(itemId: ItemIds, s: Store, ops: seq<Op>, op: Op)
    ensures Replay(itemId, s, ops + [op]) == Apply(itemId, Replay(itemId, s, ops), op)
  {
    assert (ops + [op])[..|ops|] == ops;
  }

  const EMPTY_STORE := Store(None, map[], map[])

  // -------------------------------------------------- what every history keeps

  /** Records carry their keys, and every item belongs to a run. */
  ghost predicate KeysMatch(itemId: ItemIds, s: Store) {
    && (forall key :: key in s.items ==>
          && s.items[key].runId == key.0 && s.items[key].itemId == key.1
          && itemId(s.items[key].package) == key.1 && Stripped(s.items[key].package) == s.items[key].package
          && key.0 in s.runs)
    && (forall runId :: runId in s.runs ==> s.runs[runId].id == runId)
  }

  /** The active run is not empty, has its record and is not committed. */
  ghost predicate ActiveExact(s: Store) {
    s.active.Some? ==> s.active.value != "" && s.active.value in s.runs && s.runs[s.active.value].state != "committed"
  }

  ghost predicate StoreInv(itemId: ItemIds, s: Store) {
    KeysMatch(itemId, s) && ActiveExact(s)
  }

  lemma {:induction false} PlannedKeys(itemId: ItemIds, runId: string, packages: seq<Package>)
    requires IgnoresFlags(itemId)
    ensures forall key :: key in Planned(itemId, runId, packages) ==>
              var item := Planned(itemId, runId, packages)[key];
              && key.0 == runId && item.runId == key.0 && item.itemId == key.1 && item.status == "planned"
              && itemId(item.package) == key.1 && Stripped(item.package) == item.package
              && Listed(itemId, packages, key.1)
  {
    if packages != [] {
      var n := |packages| - 1;
      PlannedKeys(itemId, runId, packages[..n]);
      assert itemId(Stripped(packages[n])) == itemId(packages[n]);
      forall id | Listed(itemId, packages[..n], id) ensures Listed(itemId, packages, id) {
        var k :| 0 <= k < n && itemId(packages[..n][k]) == id;
        assert itemId(packages[k]) == id;
      }
      assert Listed(itemId, packages, itemId(packages[n]));
    }
  }

  lemma CreateKeepsKeys(itemId: ItemIds, s: Store, packages: seq<Package>, flags: seq<string>, now: string)
    requires IgnoresFlags(itemId) && KeysMatch(itemId, s)
    ensures KeysMatch(itemId, Apply(itemId, s, CreateRun(packages, flags, now)))
  {
    PlannedKeys(itemId, NewRunId(packages, now), packages);
    hide Planned, StoredFlags, NewRunId, IgnoresFlags, Listed;
  }

  lemma ApplyKeepsKeys(itemId: ItemIds, s: Store, op: Op)
    requires IgnoresFlags(itemId) && KeysMatch(itemId, s)
    ensures KeysMatch(itemId, Apply(itemId, s, op))
  {
    if op.CreateRun? {
      CreateKeepsKeys(itemId, s, op.packages, op.flags, op.now);
    } else if op.DeleteRun? {
      DeleteKeepsKeys(itemId, s, op.runId);
    } else {
      ChangeKeepsKeys(itemId, s, op);
    }
  }

  lemma DeleteKeepsKeys(itemId: ItemIds, s: Store, runId: string)
    requires KeysMatch(itemId, s)
    ensures KeysMatch(itemId, Apply(itemId, s, DeleteRun(runId)))
  {
    hide Stripped;
  }

  lemma ChangeKeepsKeys(itemId: ItemIds, s: Store, op: Op)
    requires KeysMatch(itemId, s) && !op.CreateRun? && !op.DeleteRun?
    ensures KeysMatch(itemId, Apply(itemId, s, op))
  {
    hide Planned, StoredFlags, NewRunId, CanUpdate, Listed, Stripped, ReadableRun;
  }

  /** The one call that would leave a committed run active. */
  predicate MarksActiveCommitted(s: Store, op: Op) {
    op.MarkState? && op.state == "committed" && s.active == Some(op.runId)
  }

  /** A transaction keeps the invariant exactly when it is not markRunState(active, "committed") on a
      run that can be read. */
  lemma ApplyKeepsActive(itemId: ItemIds, s: Store, op: Op)
    requires ActiveExact(s)
    ensures ActiveExact(Apply(itemId, s, op)) <==> !(MarksActiveCommitted(s, op) && ReadableRunIn(s, op.runId))
  {
    hide Planned, StoredFlags, Decimal, UpdatedItems, CommittedItems, WithoutRun, CanUpdate, ReadableRun;
    if op.CreateRun? {
      assert |NewRunId(op.packages, op.now)| > 0;
    }
  }

  /** Over every sequence of calls without markRunState to committed, at most one run is active, it has
      its record and is not committed, and no item outlives its run. */
  lemma {:induction false} HistoryKeepsInv(itemId: ItemIds, ops: seq<Op>)
    requires IgnoresFlags(itemId)
    requires forall op :: op in ops && op.MarkState? ==> op.state != "committed"
    ensures StoreInv(itemId, Replay(itemId, EMPTY_STORE, ops))
  {
    hide IgnoresFlags, KeysMatch, ActiveExact, Apply;
    if ops == [] {
      EmptyIsFine(itemId);
    } else {
      HistoryKeepsInv(itemId, ops[..|ops| - 1]);
      var s := Replay(itemId, EMPTY_STORE, ops[..|ops| - 1]);
      assert ops[|ops| - 1] in ops;
      ApplyKeepsKeys(itemId, s, ops[|ops| - 1]);
      ApplyKeepsActive(itemId, s, ops[|ops| - 1]);
    }
  }

  lemma EmptyIsFine(itemId: ItemIds)
    ensures StoreInv(itemId, EMPTY_STORE)
  {
  }

  // ------------------------------------------------------ a run keeps its packages

  /** The items of the run are exactly the packages it was created with, in order. */
  ghost predicate HoldsPackages(itemId: ItemIds, s: Store, runId: string, packages: seq<Package>) {
    && (forall k :: 0 <= k < |packages| ==>
          && (runId, itemId(packages[k])) in s.items
          && s.items[(runId, itemId(packages[k]))].sequence == k
          && s.items[(runId, itemId(packages[k]))].package == Stripped(packages[k]))
    && (forall key :: key in s.items && key.0 == runId ==> Listed(itemId, packages, key.1))
  }

  ghost predicate DistinctIds(itemId: ItemIds, packages: seq<Package>) {
    forall j, k :: 0 <= j < k < |packages| ==> itemId(packages[j]) != itemId(packages[k])
  }

  lemma {:induction false} PlannedHolds(itemId: ItemIds, runId: string, packages: seq<Package>, k: nat)
    requires DistinctIds(itemId, packages) && k < |packages|
    ensures var planned := Planned(itemId, runId, packages);
            (runId, itemId(packages[k])) in planned && planned[(runId, itemId(packages[k]))] ==
              ItemRecord(runId, itemId(packages[k]), k, Stripped(packages[k]), "planned", "")
  {
    if k < |packages| - 1 {
      PlannedHolds(itemId, runId, packages[..|packages| - 1], k);
    }
  }

  lemma CreateHolds(itemId: ItemIds, s: Store, packages: seq<Package>, flags: seq<string>, now: string)
    requires IgnoresFlags(itemId) && KeysMatch(itemId, s) && !HasActive(s)
    requires DistinctIds(itemId, packages) && NewRunId(packages, now) !in s.runs
    ensures HoldsPackages(itemId, Apply(itemId, s, CreateRun(packages, flags, now)), NewRunId(packages, now), packages)
  {
    var runId := NewRunId(packages, now);
    PlannedKeys(itemId, runId, packages);
    forall k: nat | k < |packages|
      ensures var planned := Planned(itemId, runId, packages);
              (runId, itemId(packages[k])) in planned && planned[(runId, itemId(packages[k]))] ==
                ItemRecord(runId, itemId(packages[k]), k, Stripped(packages[k]), "planned", "")
    {
      PlannedHolds(itemId, runId, packages, k);
    }
    hide Planned, StoredFlags, NewRunId, Listed, IgnoresFlags, DistinctIds, Stripped;
  }

  /** The calls that begin or end a run. */
  predicate BeginsOrEnds(op: Op, runId: string) {
    match op
    case CreateRun(packages, _, now) => NewRunId(packages, now) == runId
    case DeleteRun(id) => id == runId
    case UpdateItems(_, _, _, _, _) => false
    case MarkState(_, _, _) => false
    case Commit(_, _) => false
  }

  lemma ApplyKeepsPackages(itemId: ItemIds, s: Store, op: Op, runId: string, packages: seq<Package>)
    requires IgnoresFlags(itemId) && HoldsPackages(itemId, s, runId, packages) && !BeginsOrEnds(op, runId)
    ensures HoldsPackages(itemId, Apply(itemId, s, op), runId, packages)
  {
    if op.CreateRun? {
      PlannedKeys(itemId, NewRunId(op.packages, op.now), op.packages);
    }
    hide Planned, StoredFlags, NewRunId, Listed, IgnoresFlags, Stripped, CanUpdate, ReadableRun;
  }

  /** A batch update changes exactly the listed items, in status and error alone, or nothing at all. */
  lemma UpdateIsAllOrNothing(itemId: ItemIds, s: Store, runId: string, packages: seq<Package>, status: string, errorMessage: string, now: string)
    ensures var after := Apply(itemId, s, UpdateItems(runId, packages, status, errorMessage, now));
            && (!CanUpdate(itemId, s, runId, packages, status) ==> after == s)
            && after.items.Keys == s.items.Keys && after.runs.Keys == s.runs.Keys && after.active == s.active
            && (CanUpdate(itemId, s, runId, packages, status) ==> forall key :: key in s.items ==>
                  after.items[key] ==
                  if key.0 == runId && Listed(itemId, packages, key.1)
                  then s.items[key].(status := status, errorMessage := errorMessage) else s.items[key])
  {
    hide CanUpdate, Listed, ReadableRun;
  }

  /** Committing a readable run keeps its id, flags and creation time and changes its state and time stamp alone; all
      other records stay. */
  lemma CommitKeepsRecord(itemId: ItemIds, s: Store, runId: string, now: string)
    requires ReadableRunIn(s, runId)
    ensures var after := Apply(itemId, s, Commit(runId, now));
            && runId in after.runs && after.runs[runId].state == "committed" && after.runs[runId].updatedAt == now
            && after.runs[runId].id == s.runs[runId].id && after.runs[runId].flags == s.runs[runId].flags
            && after.runs[runId].createdAt == s.runs[runId].createdAt
            && after.runs.Keys == s.runs.Keys
            && forall other :: other in s.runs && other != runId ==> after.runs[other] == s.runs[other]
  {
    hide CommittedItems, ReadableRun;
  }

  /** After any calls that neither delete nor recreate the run, its items are still the packages given
      to createRun, in their order. */
  lemma {:induction false} HistoryKeepsPackages(itemId: ItemIds, s: Store, ops: seq<Op>, runId: string, packages: seq<Package>)
    requires IgnoresFlags(itemId) && HoldsPackages(itemId, s, runId, packages)
    requires forall op :: op in ops ==> !BeginsOrEnds(op, runId)
    ensures HoldsPackages(itemId, Replay(itemId, s, ops), runId, packages)
  {
    hide IgnoresFlags, HoldsPackages, Apply, BeginsOrEnds;
    if ops != [] {
      HistoryKeepsPackages(itemId, s, ops[..|ops| - 1], runId, packages);
      assert ops[|ops| - 1] in ops;
      ApplyKeepsPackages(itemId, Replay(itemId, s, ops[..|ops| - 1]), ops[|ops| - 1], runId, packages);
    }
  }

  /** A reading of the items of a run: each readable one once, by sequence. */
  ghost predicate ReadsItems(s: Store, runId: string, items: seq<ItemRecord>) {
    && Distinct(items)
    && (forall item :: item in items <==> exists id :: Readable(s, runId, id) && s.items[(runId, id)] == item)
    && (forall i, j :: 0 <= i < j < |items| ==> items[i].sequence <= items[j].sequence)
  }

  ghost predicate BySequence(items: seq<ItemRecord>) {
    forall i, j :: 0 <= i < j < |items| ==> items[i].sequence <= items[j].sequence
  }

  ghost predicate Numbered(items: seq<ItemRecord>) {
    forall k :: 0 <= k < |items| ==> items[k].sequence == k
  }

  lemma LastBySequence(items: seq<ItemRecord>, expected: seq<ItemRecord>)
    requires BySequence(items) && Numbered(expected) && expected != [] && forall item :: item in items <==> item in expected
    ensures items != [] && items[|items| - 1] == expected[|expected| - 1]
  {
    var n := |expected|;
    assert expected[n - 1] in expected;
    var p :| 0 <= p < |items| && items[p] == expected[n - 1];
    assert items[|items| - 1] in items;
    var k :| 0 <= k < n && expected[k] == items[|items| - 1];
  }

  lemma SameInit<T(!new)>(a: seq<T>, b: seq<T>, last: T)
    requires (forall x :: x in a + [last] <==> x in b + [last]) && last !in a && last !in b
    ensures forall x :: x in a <==> x in b
  {
    forall x ensures x in a <==> x in b {
      assert x in a + [last] <==> x in a || x == last;
      assert x in b + [last] <==> x in b || x == last;
    }
  }

  lemma {:induction false} SortedBySequence(items: seq<ItemRecord>, expected: seq<ItemRecord>)
    requires Distinct(items) && BySequence(items) && Numbered(expected) && forall item :: item in items <==> item in expected
    ensures items == expected
  {
    if expected == [] {
      NoMembers(items);
    } else {
      LastBySequence(items, expected);
      var rest, init, last := items[..|items| - 1], expected[..|expected| - 1], expected[|expected| - 1];
      assert items == rest + [last] && expected == init + [last];
      assert last !in rest;
      assert last !in init;
      SameInit(rest, init, last);
      SortedBySequence(rest, init);
    }
  }

  /** Reading a run gives back the packages it was created with, in order, without flags and directRequest. */
  lemma ReadingGivesPackages(itemId: ItemIds, s: Store, runId: string, packages: seq<Package>, items: seq<ItemRecord>)
    requires HoldsPackages(itemId, s, runId, packages) && ReadsItems(s, runId, items)
    requires forall key :: key in s.items && key.0 == runId ==> s.items[key].status != ""
    ensures |items| == |packages|
    ensures forall k :: 0 <= k < |packages| ==> items[k].package == Stripped(packages[k]) && items[k].sequence == k
  {
    var expected := seq(|packages|, k requires 0 <= k < |packages| => s.items[(runId, itemId(packages[k]))]);
    forall item ensures item in items <==> item in expected {
      if item in items {
        var id :| Readable(s, runId, id) && s.items[(runId, id)] == item;
        assert (runId, id) in s.items && (runId, id).0 == runId;
        var k :| 0 <= k < |packages| && itemId(packages[k]) == id;
        assert expected[k] == item;
      }
      if item in expected {
        var k :| 0 <= k < |expected| && expected[k] == item;
        assert Readable(s, runId, itemId(packages[k]));
      }
    }
    SortedBySequence(items, expected);
  }

  // ---------------------------------------------------- statuses and safe commits

  predicate Terminal(status: string) {
    status == "success" || status == "committed" || status == "failed"
  }

  predicate Done(status: string) {
    status == "success" || status == "committed"
  }

  ghost predicate AllTerminal(s: Store, runId: string) {
    forall key :: key in s.items && key.0 == runId ==> Terminal(s.items[key].status)
  }

  ghost predicate AllDone(s: Store, runId: string) {
    forall key :: key in s.items && key.0 == runId ==> Done(s.items[key].status)
  }

  /** Whenever the history commits a run, none of its items is planned or running. */
  ghost predicate SafeCommits(itemId: ItemIds, s: Store, ops: seq<Op>) {
    forall k :: 0 <= k < |ops| && ops[k].Commit? ==> AllTerminal(Replay(itemId, s, ops[..k]), ops[k].runId)
  }

  lemma SafePrefix(itemId: ItemIds, s: Store, ops: seq<Op>, k: nat)
    requires SafeCommits(itemId, s, ops) && k <= |ops|
    ensures SafeCommits(itemId, s, ops[..k])
  {
    assert forall j :: 0 <= j < k ==> ops[..k][..j] == ops[..j];
  }

  lemma SafeMore(itemId: ItemIds, s: Store, ops: seq<Op>, op: Op)
    requires SafeCommits(itemId, s, ops)
    requires op.Commit? ==> AllTerminal(Replay(itemId, s, ops), op.runId)
    ensures SafeCommits(itemId, s, ops + [op])
  {
    assert forall j :: 0 <= j <= |ops| ==> (ops + [op])[..j] == ops[..j];
    assert ops[..|ops|] == ops;
  }

  /** Calls as the executer makes them: no empty status, state or timestamp, and commits by markRunCommitted only. */
  predicate LegalOp(op: Op) {
    match op
    case CreateRun(_, _, now) => now != ""
    case UpdateItems(_, _, status, _, now) => status != "" && now != ""
    case MarkState(_, state, now) => state != "" && state != "committed" && now != ""
    case Commit(runId, now) => runId != "" && now != ""
    case DeleteRun(_) => true
  }

  /** Everything in the store can be read back. */
  ghost predicate AllReadable(s: Store) {
    && (forall key :: key in s.items ==> s.items[key].status != "")
    && (forall runId :: runId in s.runs ==> ReadableRun(s.runs[runId]))
  }

  lemma ApplyKeepsReadable(itemId: ItemIds, s: Store, op: Op)
    requires IgnoresFlags(itemId) && AllReadable(s) && LegalOp(op)
    ensures AllReadable(Apply(itemId, s, op))
  {
    if op.CreateRun? {
      PlannedKeys(itemId, NewRunId(op.packages, op.now), op.packages);
      assert |NewRunId(op.packages, op.now)| > 0;
      hide Planned, StoredFlags, NewRunId, Listed, IgnoresFlags, Stripped;
    } else {
      UpdateKeepsReadable(itemId, s, op);
    }
  }

  lemma UpdateKeepsReadable(itemId: ItemIds, s: Store, op: Op)
    requires AllReadable(s) && LegalOp(op) && !op.CreateRun?
    ensures AllReadable(Apply(itemId, s, op))
  {
    hide Planned, StoredFlags, NewRunId, Listed, CanUpdate;
  }

  ghost predicate DatabaseInv(itemId: ItemIds, s: Store) {
    StoreInv(itemId, s) && AllReadable(s)
  }

  lemma LegalKeepsInv(itemId: ItemIds, s: Store, op: Op)
    requires IgnoresFlags(itemId) && DatabaseInv(itemId, s) && LegalOp(op)
    ensures DatabaseInv(itemId, Apply(itemId, s, op))
  {
    hide KeysMatch, ActiveExact, AllReadable, IgnoresFlags, Apply;
    ApplyKeepsReadable(itemId, s, op);
    ApplyKeepsKeys(itemId, s, op);
    ApplyKeepsActive(itemId, s, op);
  }

  lemma {:induction false} LegalHistoryKeepsInv(itemId: ItemIds, s: Store, ops: seq<Op>)
    requires IgnoresFlags(itemId) && DatabaseInv(itemId, s) && forall op :: op in ops ==> LegalOp(op)
    ensures DatabaseInv(itemId, Replay(itemId, s, ops))
  {
    hide DatabaseInv, LegalOp, IgnoresFlags, Apply;
    if ops != [] {
      LegalHistoryKeepsInv(itemId, s, ops[..|ops| - 1]);
      assert ops[|ops| - 1] in ops;
      LegalKeepsInv(itemId, Replay(itemId, s, ops[..|ops| - 1]), ops[|ops| - 1]);
    }
  }
}
