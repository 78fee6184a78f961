// Keys and payloads of the transaction database.
module TransactionCodec {
  import opened Sequences
  import opened Packages
  import opened Text
  import opened FieldLines

  datatype RunRecord = RunRecord(id: string, state: string, createdAt: string, updatedAt: string, flags: seq<string>)

  datatype ItemRecord = ItemRecord(runId: string, itemId: string, sequence: nat, package: Package, status: string,
                                   errorMessage: string)

  /** The numbers behind the enumerators of ActionType. */
  datatype Numbering = Numbering(number: Action -> int, action: int -> Action)

  ghost predicate IsNumbering(numbering: Numbering) {
    forall a: Action :: -TWO_TO_31 <= numbering.number(a) < TWO_TO_31 && numbering.action(numbering.number(a)) == a
  }

  function NumberInOrder(a: Action): (number: int)
    ensures -TWO_TO_31 <= number < TWO_TO_31
  {
    match a
    case UNKNOWN => 0
    case INSTALL => 1
    case ENSURE => 2
    case REMOVE => 3
    case UPDATE => 4
    case OTHER(code) => if code + 5 < TWO_TO_31 then code + 5 else code + 5 - 2 * TWO_TO_31
  }

  function ActionInOrder(number: int): Action {
    if number == 0 then UNKNOWN
    else if number == 1 then INSTALL
    else if number == 2 then ENSURE
    else if number == 3 then REMOVE
    else if number == 4 then UPDATE
    else if 5 <= number < TWO_TO_31 then OTHER(number - 5)
    else if -TWO_TO_31 <= number < 0 then OTHER(number + 2 * TWO_TO_31 - 5)
    else UNKNOWN
  }

  /** Every value of the enumeration has a number of its own, and every 32-bit number stands for a value. */
  lemma SomeNumbering()
    ensures IsNumbering(Numbering(NumberInOrder, ActionInOrder))
    ensures forall n :: -TWO_TO_31 <= n < TWO_TO_31 ==> NumberInOrder(ActionInOrder(n)) == n
  {
  }

  // -------------------------------------------------------------------- keys

  function RunKey(runId: string): string {
    "run:" + runId
  }

  function ItemPrefix(runId: string): string {
    "item:" + runId + ":"
  }

  function ItemKey(runId: string, itemId: string): string {
    ItemPrefix(runId) + itemId
  }

  /** parse_item_key. */
  function ParseItemKey(key: string): Option<(string, string)> {
    if !("item:" <= key) then None
    else
      var separator := 5 + Find(key[5..], ':');
      if separator + 1 >= |key| then None
      else
        var runId, itemId := key[5..separator], key[separator + 1..];
        if runId == "" || itemId == "" then None else Some((runId, itemId))
  }

  predicate IsRunId(runId: string) {
    runId != "" && ':' !in runId
  }

  lemma KeyTail(runId: string, itemId: string)
    ensures ItemKey(runId, itemId)[5..] == runId + [':'] + itemId
  {
  }

  /** A key reads back as its parts exactly when the run id is non-empty and has no colon, and the
      item id is non-empty. */
  lemma ItemKeyRoundTrip(runId: string, itemId: string)
    ensures ParseItemKey(ItemKey(runId, itemId)) == Some((runId, itemId)) <==> IsRunId(runId) && itemId != ""
  {
    KeyTail(runId, itemId);
    var key := ItemKey(runId, itemId);
    if ':' !in runId {
      FindIn(runId, ':', itemId);
      assert key[5..5 + |runId|] == runId;
      assert key[5 + |runId| + 1..] == itemId;
    } else {
      var k := Find(key[5..], ':');
      assert ':' !in key[5..][..k];
      assert key[5..][..k] == key[5..5 + k];
    }
  }

  /** Reading by prefix finds exactly the items of the run. */
  lemma ItemPrefixExact(runId: string, other: string, itemId: string)
    requires ':' !in runId && ':' !in other
    ensures ItemPrefix(runId) <= ItemKey(other, itemId) <==> runId == other
  {
    if ItemPrefix(runId) <= ItemKey(other, itemId) {
      var key := ItemKey(other, itemId);
      KeyTail(other, itemId);
      FindIn(other, ':', itemId);
      var rest := key[|ItemPrefix(runId)|..];
      assert key == ItemPrefix(runId) + rest;
      assert key[5..] == runId + [':'] + rest;
      FindIn(runId, ':', rest);
      assert runId == key[5..][..|runId|] && other == key[5..][..|other|];
    }
  }

  /** Run keys, item keys and the key of the active run never meet. */
  lemma KeysApart(runId: string, other: string, itemId: string)
    ensures RunKey(runId) == RunKey(other) ==> runId == other
    ensures RunKey(runId) != ItemKey(other, itemId) && RunKey(runId) != ACTIVE_RUN_KEY && ItemKey(other, itemId) != ACTIVE_RUN_KEY
  {
    assert RunKey(runId)[4..] == runId && RunKey(other)[4..] == other;
    assert RunKey(runId)[0] == 'r' && ItemKey(other, itemId)[0] == 'i' && ACTIVE_RUN_KEY[0] == 'm';
  }

  const ACTIVE_RUN_KEY := "meta:active_run"

  // ------------------------------------------------------------------ tokens

  /** transaction_database_package_token. */
  function Token(numbering: Numbering, p: Package): string {
    DecimalInt(numbering.number(p.action)) + "|" + p.system + "|" + p.name + "|" + p.version + "|" + p.sourcePath + "|" +
    (if p.localTarget then "1" else "0")
  }

  /** transaction_database_item_id_for_package, for a hash of the token. */
  function ItemId(numbering: Numbering, hash: string -> string, p: Package): string {
    hash(Token(numbering, p))
  }

  lemma TokenIgnoresFlags(numbering: Numbering, p: Package, q: Package)
    requires SamePackage(p, q)
    ensures Token(numbering, p) == Token(numbering, q)
  {
  }

  predicate SeparatorFree(p: Package) {
    '|' !in p.system && '|' !in p.name && '|' !in p.version
  }

  function TokenEnd(p: Package): string {
    p.sourcePath + ['|'] + (if p.localTarget then "1" else "0")
  }

  lemma TokenParts(numbering: Numbering, p: Package)
    ensures Token(numbering, p) ==
            DecimalInt(numbering.number(p.action)) + ['|'] + (p.system + ['|'] + (p.name + ['|'] + (p.version + ['|'] + TokenEnd(p))))
  {
    hide DecimalInt;
  }

  lemma NumberHasNoBar(x: int)
    ensures '|' !in DecimalInt(x)
  {
    hide Decimal;
  }

  /** Packages whose system, name and version hold no separator have different tokens unless they are
      the same package. */
  lemma TokenInjective(numbering: Numbering, p: Package, q: Package)
    requires IsNumbering(numbering) && SeparatorFree(p) && SeparatorFree(q)
    ensures Token(numbering, p) == Token(numbering, q) <==> SamePackage(p, q)
  {
    if SamePackage(p, q) {
      TokenIgnoresFlags(numbering, p, q);
    }
    if Token(numbering, p) == Token(numbering, q) {
      TokenParts(numbering, p);
      TokenParts(numbering, q);
      hide Token, TokenEnd, DecimalInt;
      var i, j := numbering.number(p.action), numbering.number(q.action);
      NumberHasNoBar(i);
      NumberHasNoBar(j);
      SplitUnique('|', DecimalInt(i), p.system + ['|'] + (p.name + ['|'] + (p.version + ['|'] + TokenEnd(p))),
                 DecimalInt(j), q.system + ['|'] + (q.name + ['|'] + (q.version + ['|'] + TokenEnd(q))));
      IntRoundTrip(i);
      IntRoundTrip(j);
      SplitUnique('|', p.system, p.name + ['|'] + (p.version + ['|'] + TokenEnd(p)), q.system, q.name + ['|'] + (q.version + ['|'] + TokenEnd(q)));
      SplitUnique('|', p.name, p.version + ['|'] + TokenEnd(p), q.name, q.version + ['|'] + TokenEnd(q));
      SplitUnique('|', p.version, TokenEnd(p), q.version, TokenEnd(q));
      TokenEndInjective(p, q);
    }
  }

  /** The number of separators in s. */
  ghost function Bars(s: string): nat {
    multiset(s)['|']
  }

  lemma BarsConcat(a: string, b: string)
    ensures Bars(a + b) == Bars(a) + Bars(b)
  {
    assert multiset(a + b) == multiset(a) + multiset(b);
  }

  lemma NoBars(s: string)
    ensures Bars(s) == 0 <==> '|' !in s
  {
    assert '|' in multiset(s) <==> '|' in s;
  }

  ghost function FieldBars(p: Package): nat {
    Bars(p.system) + Bars(p.name) + Bars(p.version) + Bars(p.sourcePath)
  }

  lemma EndBars(p: Package)
    ensures Bars(TokenEnd(p)) == Bars(p.sourcePath) + 1
  {
    var digit := if p.localTarget then "1" else "0";
    NoBars(digit);
    BarsAround(p.sourcePath, digit);
    hide Bars;
  }

  /** Five separators of a token stand between its fields, all others inside them. */
  lemma TokenBars(numbering: Numbering, p: Package)
    ensures Bars(Token(numbering, p)) == 5 + FieldBars(p)
  {
    var number := DecimalInt(numbering.number(p.action));
    TokenParts(numbering, p);
    NumberHasNoBar(numbering.number(p.action));
    NoBars(number);
    EndBars(p);
    hide Token, TokenEnd, DecimalInt, Bars;
    BarsAround(p.version, TokenEnd(p));
    BarsAround(p.name, p.version + ['|'] + TokenEnd(p));
    BarsAround(p.system, p.name + ['|'] + (p.version + ['|'] + TokenEnd(p)));
    BarsAround(number, p.system + ['|'] + (p.name + ['|'] + (p.version + ['|'] + TokenEnd(p))));
  }

  lemma BarsAround(a: string, b: string)
    ensures Bars(a + ['|'] + b) == Bars(a) + 1 + Bars(b)
  {
    BarsConcat(a + ['|'], b);
    BarsConcat(a, ['|']);
    assert Bars(['|']) == 1;
  }

  predicate HasSeparator(p: Package) {
    '|' in p.system || '|' in p.name || '|' in p.version || '|' in p.sourcePath
  }

  /** p with a part of a field, up to a separator, moved over to its neighbour. */
  function Shifted(p: Package): Package {
    var i, j, k, l := Find(p.system, '|'), Find(p.name, '|'), Find(p.version, '|'), Find(p.sourcePath, '|');
    if i < |p.system| then p.(system := p.system[..i], name := p.system[i + 1..] + ['|'] + p.name)
    else if j < |p.name| then p.(name := p.name[..j], version := p.name[j + 1..] + ['|'] + p.version)
    else if k < |p.version| then p.(version := p.version[..k], sourcePath := p.version[k + 1..] + ['|'] + p.sourcePath)
    else if l < |p.sourcePath| then p.(version := p.version + ['|'] + p.sourcePath[..l], sourcePath := p.sourcePath[l + 1..])
    else p
  }

  lemma Regroup(a: string, b: string, c: string)
    ensures a + ['|'] + (b + ['|'] + c) == (a + ['|'] + b) + ['|'] + c
  {
  }

  lemma ShiftedOther(p: Package)
    requires HasSeparator(p)
    ensures !SamePackage(p, Shifted(p))
  {
    var q := Shifted(p);
    FindShort(p.system);
    FindShort(p.name);
    FindShort(p.version);
    FindShort(p.sourcePath);
    hide Find;
    assert |q.system| < |p.system| || |q.name| < |p.name| || |q.version| < |p.version| || |q.sourcePath| < |p.sourcePath|;
  }

  lemma FindShort(s: string)
    ensures Find(s, '|') < |s| <==> '|' in s
  {
    assert s[..|s|] == s;
  }

  /** A separator before the first of two neighbours may stand inside it or inside the second. */
  lemma MoveBar(a: string, b: string, c: string, rest: string)
    ensures (a + ['|'] + b) + ['|'] + (c + ['|'] + rest) == a + ['|'] + ((b + ['|'] + c) + ['|'] + rest)
  {
    Regroup(a, b, c + ['|'] + rest);
    Regroup(b, c, rest);
  }

  lemma MoveBarLeft(a: string, b: string, c: string, rest: string)
    ensures a + ['|'] + ((b + ['|'] + c) + ['|'] + rest) == (a + ['|'] + b) + ['|'] + (c + ['|'] + rest)
  {
    Regroup(a, b, c + ['|'] + rest);
    Regroup(b, c, rest);
  }

  lemma CutAtBar(s: string)
    requires Find(s, '|') < |s|
    ensures s == s[..Find(s, '|')] + ['|'] + s[Find(s, '|') + 1..]
  {
    var k := Find(s, '|');
    hide Find;
    assert s == s[..k] + [s[k]] + s[k + 1..];
  }

  lemma ShiftedToken(numbering: Numbering, p: Package)
    ensures Token(numbering, Shifted(p)) == Token(numbering, p)
  {
    var i, j, k, l := Find(p.system, '|'), Find(p.name, '|'), Find(p.version, '|'), Find(p.sourcePath, '|');
    var digit := if p.localTarget then "1" else "0";
    TokenParts(numbering, p);
    TokenParts(numbering, Shifted(p));
    hide Token, DecimalInt, Find;
    if i < |p.system| {
      CutAtBar(p.system);
      MoveBar(p.system[..i], p.system[i + 1..], p.name, p.version + ['|'] + TokenEnd(p));
    } else if j < |p.name| {
      CutAtBar(p.name);
      MoveBar(p.name[..j], p.name[j + 1..], p.version, TokenEnd(p));
    } else if k < |p.version| {
      CutAtBar(p.version);
      MoveBar(p.version[..k], p.version[k + 1..], p.sourcePath, digit);
    } else if l < |p.sourcePath| {
      CutAtBar(p.sourcePath);
      MoveBarLeft(p.version, p.sourcePath[..l], p.sourcePath[l + 1..], digit);
    }
  }

  /** Tokens are not escaped: a package shares its token with a different one exactly when a separator
      stands in its system, name, version or source path. */
  lemma TokenIsShared(numbering: Numbering, p: Package)
    requires IsNumbering(numbering)
    ensures (exists q :: !SamePackage(p, q) && Token(numbering, p) == Token(numbering, q)) <==> HasSeparator(p)
  {
    if HasSeparator(p) {
      ShiftedOther(p);
      ShiftedToken(numbering, p);
    } else {
      forall q | Token(numbering, p) == Token(numbering, q) ensures SamePackage(p, q) {
        TokenBars(numbering, p);
        TokenBars(numbering, q);
        hide Token, SamePackage, Stripped, IsNumbering;
        FieldsWithoutBars(p);
        FieldsWithoutBars(q);
        TokenInjective(numbering, p, q);
      }
    }
  }

  lemma FieldsWithoutBars(p: Package)
    ensures FieldBars(p) == 0 <==> !HasSeparator(p)
  {
    NoBars(p.system);
    NoBars(p.name);
    NoBars(p.version);
    NoBars(p.sourcePath);
    hide Bars;
  }

  lemma TokenEndInjective(p: Package, q: Package)
    requires TokenEnd(p) == TokenEnd(q)
    ensures p.sourcePath == q.sourcePath && p.localTarget == q.localTarget
  {
    var end := TokenEnd(p);
    assert end[..|end| - 2] == p.sourcePath && end[..|end| - 2] == q.sourcePath;
    assert end[|end| - 1] == if p.localTarget then '1' else '0';
    assert end[|end| - 1] == if q.localTarget then '1' else '0';
  }

  // --------------------------------------------------------------------- runs

  function EscapedFlags(flags: seq<string>): string {
    if flags == [] then ""
    else if |flags| == 1 then Escape(flags[0])
    else Escape(flags[0]) + ";" + EscapedFlags(flags[1..])
  }

  /** transaction_database_serialize_run. */
  function SerializeRun(run: RunRecord): string {
    Render([("state", run.state), ("createdAt", run.createdAt), ("updatedAt", run.updatedAt)]) +
    "flags=" + EscapedFlags(run.flags) + "\n"
  }

  /** The flags read from all flags fields. */
  function FlagsIn(fields: seq<Field>): seq<string> {
    if fields == [] then []
    else
      FlagsIn(fields[..|fields| - 1]) +
      if fields[|fields| - 1].0 == "flags" then NonEmptyPieces(fields[|fields| - 1].1, ';') else []
  }

  /** A run a decoder accepts. */
  predicate ReadableRun(run: RunRecord) {
    run.id != "" && run.state != "" && run.createdAt != "" && run.updatedAt != ""
  }

  function RunIn(runId: string, fields: seq<Field>): RunRecord {
    RunRecord(runId, TextAt(fields, "state"), TextAt(fields, "createdAt"), TextAt(fields, "updatedAt"), FlagsIn(fields))
  }

  function RunFrom(runId: string, payload: string): Option<RunRecord> {
    var run := RunIn(runId, ReadFields(payload));
    if ReadableRun(run) then Some(run) else None
  }

  /** What is left of flags that are joined with semicolons and split again. */
  function StoredFlags(flags: seq<string>): seq<string> {
    NonEmptyPieces(Join(flags, ';'), ';')
  }

  lemma {:induction false} EscapedFlagsJoin(flags: seq<string>)
    ensures EscapedFlags(flags) == Escape(Join(flags, ';'))
  {
    if |flags| > 1 {
      EscapedFlagsJoin(flags[1..]);
      EscapeConcat(flags[0], [';']);
      EscapeConcat(flags[0] + [';'], Join(flags[1..], ';'));
      assert Escape([';']) == [';'] by { EscapePlain([';']); }
    }
  }

  lemma SerializedRunFields(run: RunRecord)
    ensures ReadFields(SerializeRun(run)) ==
            [("state", run.state), ("createdAt", run.createdAt), ("updatedAt", run.updatedAt), ("flags", Join(run.flags, ';'))]
  {
    var fields := [("state", run.state), ("createdAt", run.createdAt), ("updatedAt", run.updatedAt)];
    var flags: Field := ("flags", Join(run.flags, ';'));
    EscapedFlagsJoin(run.flags);
    hide Escape, Join, EscapedFlags, ReadFields;
    var last := "flags=" + Escape(flags.1) + "\n";
    assert Render([flags]) == last by {
      assert [flags][1..] == [];
    }
    assert last + "" == last;
    FieldsRoundTrip([flags], "");
    assert SerializeRun(run) == Render(fields) + last;
    FieldsRoundTrip(fields, last);
    assert ReadFields("") == [] by { NothingRead(); }
    assert fields + [flags] + [] == [("state", run.state), ("createdAt", run.createdAt), ("updatedAt", run.updatedAt), flags];
  }

  lemma NothingRead()
    ensures ReadFields("") == []
  {
  }

  lemma RunReadsBack(run: RunRecord)
    ensures RunFrom(run.id, SerializeRun(run)) == if ReadableRun(run) then Some(run.(flags := StoredFlags(run.flags))) else None
  {
    SerializedRunFields(run);
    var fields := [("state", run.state), ("createdAt", run.createdAt), ("updatedAt", run.updatedAt), ("flags", Join(run.flags, ';'))];
    hide ReadFields, SerializeRun, Join, NonEmptyPieces;
    LookupAt(fields, 0);
    LookupAt(fields, 1);
    LookupAt(fields, 2);
    assert FlagsIn(fields) == StoredFlags(run.flags) by {
      assert FlagsIn(fields[..3]) == [] by {
        assert fields[..3][..2][..1][..0] == [];
        assert FlagsIn(fields[..3][..2][..1]) == [];
      }
    }
  }

  /** A run decodes to itself exactly when its id, state and timestamps are non-empty and each flag is
      non-empty and free of semicolons. */
  lemma RunRoundTrip(run: RunRecord)
    ensures RunFrom(run.id, SerializeRun(run)) == Some(run) <==> ReadableRun(run) && Separable(run.flags, ';')
  {
    RunReadsBack(run);
    JoinRoundTrip(run.flags, ';');
    hide RunFrom, SerializeRun, Join, NonEmptyPieces, Separable;
  }

  /** Storing a run that was read changes nothing more. */
  lemma StoredFlagsStay(flags: seq<string>)
    ensures StoredFlags(StoredFlags(flags)) == StoredFlags(flags)
  {
    var joined := Join(flags, ';');
    PiecesAreFree(joined, ';');
    FilterMembers(NonEmpty(), Pieces(joined, ';'));
    JoinRoundTrip(StoredFlags(flags), ';');
  }

  /** The decoding loop of transaction_database_deserialize_run. */
  method DeserializeRun(runId: string, payload: string) returns (result: Option<RunRecord>)
    ensures result == RunFrom(runId, payload)
  {
    hide Find, Unescape, NonEmptyPieces, Pieces;
    var lines := Pieces(payload, '\n');
    var run := RunRecord(runId, "", "", "", []);
    ghost var fields: seq<Field> := [];
    for k := 0 to |lines|
      invariant fields == FieldsOf(lines[..k]) && run == RunIn(runId, fields)
    {
      var line := lines[k];
      assert lines[..k + 1][..k] == lines[..k];
      var equals := Find(line, '=');
      if equals == |line| {
        continue;
      }
      var key, value := line[..equals], Unescape(line[equals + 1..]);
      RunMore(runId, fields, (key, value));
      fields := fields + [(key, value)];
      if key == "state" {
        run := run.(state := value);
      } else if key == "createdAt" {
        run := run.(createdAt := value);
      } else if key == "updatedAt" {
        run := run.(updatedAt := value);
      } else if key == "flags" {
        run := run.(flags := run.flags + NonEmptyPieces(value, ';'));
      }
    }
    assert lines[..|lines|] == lines;
    result := if run.id == "" || run.state == "" || run.createdAt == "" || run.updatedAt == "" then None else Some(run);
  }

  lemma RunMore(runId: string, fields: seq<Field>, field: Field)
    ensures RunIn(runId, fields + [field]) ==
            var run := RunIn(runId, fields);
            if field.0 == "state" then run.(state := field.1)
            else if field.0 == "createdAt" then run.(createdAt := field.1)
            else if field.0 == "updatedAt" then run.(updatedAt := field.1)
            else if field.0 == "flags" then run.(flags := run.flags + NonEmptyPieces(field.1, ';'))
            else run
  {
    LookupMore(fields, field, "state");
    LookupMore(fields, field, "createdAt");
    LookupMore(fields, field, "updatedAt");
    assert (fields + [field])[..|fields|] == fields;
    hide Lookup, NonEmptyPieces;
  }

  // -------------------------------------------------------------------- items

  function ItemFields(numbering: Numbering, item: ItemRecord): seq<Field> {
    [("sequence", Decimal(item.sequence)), ("action", DecimalInt(numbering.number(item.package.action))),
     ("system", item.package.system), ("name", item.package.name), ("version", item.package.version),
     ("sourcePath", item.package.sourcePath), ("localTarget", if item.package.localTarget then "1" else "0"),
     ("status", item.status), ("error", item.errorMessage)]
  }

  function Line(key: string, text: string): string {
    key + "=" + text + "\n"
  }

  /** transaction_database_serialize_item; numbers and the target digit are written as they are. */
  function SerializeItem(numbering: Numbering, item: ItemRecord): string {
    Line("sequence", Decimal(item.sequence)) + Line("action", DecimalInt(numbering.number(item.package.action))) +
    Line("system", Escape(item.package.system)) + Line("name", Escape(item.package.name)) +
    Line("version", Escape(item.package.version)) + Line("sourcePath", Escape(item.package.sourcePath)) +
    Line("localTarget", if item.package.localTarget then "1" else "0") + Line("status", Escape(item.status)) +
    Line("error", Escape(item.errorMessage))
  }

  /** A field that makes the decoder give up. */
  predicate BadItemField(field: Field) {
    || (field.0 == "sequence" && ParseUnsigned(field.1).None?)
    || (field.0 == "action" && ParseInt(field.1).None?)
    || (field.0 == "localTarget" && field.1 != "1" && field.1 != "0")
  }

  function UnsignedAt(fields: seq<Field>, key: string): nat {
    match ParseUnsigned(TextAt(fields, key)) case None => 0 case Some(n) => n
  }

  function ActionAt(numbering: Numbering, fields: seq<Field>): Action {
    match ParseInt(TextAt(fields, "action")) case None => UNKNOWN case Some(code) => numbering.action(code)
  }

  function ItemIn(numbering: Numbering, key: (string, string), fields: seq<Field>): ItemRecord {
    ItemRecord(key.0, key.1, UnsignedAt(fields, "sequence"),
               Package(ActionAt(numbering, fields), TextAt(fields, "system"), TextAt(fields, "name"), TextAt(fields, "version"),
                       TextAt(fields, "sourcePath"), TextAt(fields, "localTarget") == "1", [], false),
               TextAt(fields, "status"), TextAt(fields, "error"))
  }

  const ITEM_KEYS := ["sequence", "action", "system", "name", "version", "sourcePath", "localTarget", "status", "error"]

  predicate HasAllKeys(fields: seq<Field>) {
    forall key :: key in ITEM_KEYS ==> Lookup(fields, key).Some?
  }

  function ItemFrom(numbering: Numbering, key: string, payload: string): Option<ItemRecord> {
    var fields := ReadFields(payload);
    match ParseItemKey(key)
    case None => None
    case Some(ids) =>
      var item := ItemIn(numbering, ids, fields);
      if (exists field :: field in fields && BadItemField(field)) || !HasAllKeys(fields) || item.status == "" then None
      else Some(item)
  }

  lemma NumberIsPlain(x: int)
    ensures Plain(DecimalInt(x))
  {
    var digits := Decimal(if x < 0 then -x else x);
    forall c | c in digits ensures c != '\\' && c != '\n' {
      assert IsDigit(c);
    }
    hide Decimal;
  }

  lemma SerializedItemIsRendered(numbering: Numbering, item: ItemRecord)
    ensures SerializeItem(numbering, item) == Render(ItemFields(numbering, item))
  {
    NumberIsPlain(item.sequence);
    NumberIsPlain(numbering.number(item.package.action));
    EscapePlain(Decimal(item.sequence));
    EscapePlain(DecimalInt(numbering.number(item.package.action)));
    EscapePlain("1");
    EscapePlain("0");
    var f := ItemFields(numbering, item);
    hide Escape, Decimal, DecimalInt, Plain, Render;
    RenderNine(f);
    forall k | 0 <= k < 9 ensures RenderField(f[k]) == Line(f[k].0, Escape(f[k].1)) {}
    hide Line, RenderField;
  }

  lemma RenderNine(f: seq<Field>)
    requires |f| == 9
    ensures Render(f) == RenderField(f[0]) + RenderField(f[1]) + RenderField(f[2]) + RenderField(f[3]) + RenderField(f[4]) +
                         RenderField(f[5]) + RenderField(f[6]) + RenderField(f[7]) + RenderField(f[8])
  {
    hide RenderField;
    assert f[1..][1..] == f[2..] && f[2..][1..] == f[3..] && f[3..][1..] == f[4..] && f[4..][1..] == f[5..];
    assert f[5..][1..] == f[6..] && f[6..][1..] == f[7..] && f[7..][1..] == f[8..] && f[8..][1..] == [];
    assert Render(f[8..]) == RenderField(f[8]);
    assert Render(f[6..]) == RenderField(f[6]) + (RenderField(f[7]) + RenderField(f[8]));
    assert Render(f[4..]) == RenderField(f[4]) + (RenderField(f[5]) + Render(f[6..]));
    assert Render(f[2..]) == RenderField(f[2]) + (RenderField(f[3]) + Render(f[4..]));
  }

  lemma ItemFieldsRead(numbering: Numbering, item: ItemRecord)
    ensures ReadFields(SerializeItem(numbering, item)) == ItemFields(numbering, item)
  {
    SerializedItemIsRendered(numbering, item);
    var fields := ItemFields(numbering, item);
    hide SerializeItem, Render, ReadFields, Decimal, DecimalInt;
    FieldsRoundTrip(fields, "");
    NothingRead();
    assert Render(fields) + "" == Render(fields);
  }

  lemma ItemReadsBack(numbering: Numbering, key: (string, string), item: ItemRecord)
    requires IsNumbering(numbering) && item.sequence < TWO_TO_64
    ensures var fields := ItemFields(numbering, item);
            && ItemIn(numbering, key, fields) == item.(runId := key.0, itemId := key.1, package := Stripped(item.package))
            && HasAllKeys(fields) && forall field :: field in fields ==> !BadItemField(field)
  {
    var fields := ItemFields(numbering, item);
    var code := numbering.number(item.package.action);
    UnsignedRoundTrip(item.sequence);
    IntRoundTrip(code);
    hide ParseUnsigned, ParseInt, Decimal, DecimalInt;
    forall k: nat | k < 9 ensures fields[k].0 == ITEM_KEYS[k] && Lookup(fields, fields[k].0) == Some(fields[k].1) {
      LookupAt(fields, k);
    }
    hide Lookup;
    assert Lookup(fields, ITEM_KEYS[0]) == Some(fields[0].1) && Lookup(fields, ITEM_KEYS[1]) == Some(fields[1].1);
    assert Lookup(fields, ITEM_KEYS[2]) == Some(fields[2].1) && Lookup(fields, ITEM_KEYS[3]) == Some(fields[3].1);
    assert Lookup(fields, ITEM_KEYS[4]) == Some(fields[4].1) && Lookup(fields, ITEM_KEYS[5]) == Some(fields[5].1);
    assert Lookup(fields, ITEM_KEYS[6]) == Some(fields[6].1) && Lookup(fields, ITEM_KEYS[7]) == Some(fields[7].1);
    assert Lookup(fields, ITEM_KEYS[8]) == Some(fields[8].1);
  }

  /** An item decodes to itself, without the flags and directRequest of its package, exactly when its run
      id is non-empty and has no colon and its item id and status are non-empty. */
  lemma ItemRoundTrip(numbering: Numbering, item: ItemRecord)
    requires IsNumbering(numbering) && item.sequence < TWO_TO_64
    ensures (ItemFrom(numbering, ItemKey(item.runId, item.itemId), SerializeItem(numbering, item)) ==
             Some(item.(package := Stripped(item.package)))) <==>
            IsRunId(item.runId) && item.itemId != "" && item.status != ""
  {
    ItemKeyRoundTrip(item.runId, item.itemId);
    ItemFieldsRead(numbering, item);
    var key := ItemKey(item.runId, item.itemId);
    hide ItemKey, ParseItemKey, SerializeItem, ReadFields, ItemFields, IsNumbering, BadItemField, HasAllKeys, ItemIn, IsRunId;
    match ParseItemKey(key)
    case None =>
    case Some(ids) =>
      ItemReadsBack(numbering, ids, item);
  }

  /** The decoding loop of transaction_database_deserialize_item. */
  method DeserializeItem(numbering: Numbering, key: string, payload: string) returns (result: Option<ItemRecord>)
    ensures result == ItemFrom(numbering, key, payload)
  {
    hide Find, Unescape, Pieces, ParseItemKey, ParseUnsigned, ParseInt, ItemIn, HasAllKeys, BadItemField;
    var parsedKey := ParseItemKey(key);
    if parsedKey.None? {
      return None;
    }
    var lines := Pieces(payload, '\n');
    var item := ItemRecord(parsedKey.value.0, parsedKey.value.1, 0, Package(UNKNOWN, "", "", "", "", false, [], false), "", "");
    var seen: set<string> := {};
    ghost var fields: seq<Field> := [];
    NoItemFields(numbering, parsedKey.value);
    for k := 0 to |lines|
      invariant fields == FieldsOf(lines[..k]) && item == ItemIn(numbering, parsedKey.value, fields)
      invariant item.runId == parsedKey.value.0 && item.itemId == parsedKey.value.1
      invariant forall name :: name in seen <==> name in ITEM_KEYS && Lookup(fields, name).Some?
      invariant forall field :: field in fields ==> !BadItemField(field)
    {
      var line := lines[k];
      assert lines[..k + 1][..k] == lines[..k];
      var equals := Find(line, '=');
      if equals == |line| {
        continue;
      }
      var name, value := line[..equals], Unescape(line[equals + 1..]);
      ghost var before := fields;
      fields := fields + [(name, value)];
      var next := WithItemField(numbering, item, name, value);
      ItemMore(numbering, parsedKey.value, before, (name, value));
      KeysMore(before, (name, value));
      if next.None? {
        FieldsPrefix(lines, k + 1);
        assert fields[|before|] == (name, value) && fields[|before|] == ReadFields(payload)[|before|];
        return None;
      }
      item := next.value;
      if name in ITEM_KEYS {
        seen := seen + {name};
      }
    }
    assert lines[..|lines|] == lines;
    assert fields == ReadFields(payload);
    AllKeysSeen(fields, seen);
    ParsedKeyParts(key);
    if item.runId == "" || item.itemId == "" || (exists name :: name in ITEM_KEYS && name !in seen) || item.status == "" {
      return None;
    }
    return Some(item);
  }

  /** The if-chain of the decoding loop; None where it returns nullopt. */
  function WithItemField(numbering: Numbering, item: ItemRecord, name: string, value: string): Option<ItemRecord> {
    if name == "sequence" then
      match ParseUnsigned(value) case None => None case Some(n) => Some(item.(sequence := n))
    else if name == "action" then
      match ParseInt(value) case None => None case Some(code) => Some(item.(package := item.package.(action := numbering.action(code))))
    else if name == "system" then Some(item.(package := item.package.(system := value)))
    else if name == "name" then Some(item.(package := item.package.(name := value)))
    else if name == "version" then Some(item.(package := item.package.(version := value)))
    else if name == "sourcePath" then Some(item.(package := item.package.(sourcePath := value)))
    else if name == "localTarget" then
      if value == "1" then Some(item.(package := item.package.(localTarget := true)))
      else if value == "0" then Some(item.(package := item.package.(localTarget := false)))
      else None
    else if name == "status" then Some(item.(status := value))
    else if name == "error" then Some(item.(errorMessage := value))
    else Some(item)
  }

  lemma NoItemFields(numbering: Numbering, key: (string, string))
    ensures ItemIn(numbering, key, []) == ItemRecord(key.0, key.1, 0, Package(UNKNOWN, "", "", "", "", false, [], false), "", "")
  {
  }

  lemma TextMore(fields: seq<Field>, field: Field, key: string)
    ensures TextAt(fields + [field], key) == if field.0 == key then field.1 else TextAt(fields, key)
  {
    LookupMore(fields, field, key);
  }

  lemma ItemMore(numbering: Numbering, key: (string, string), fields: seq<Field>, field: Field)
    ensures var next := WithItemField(numbering, ItemIn(numbering, key, fields), field.0, field.1);
            if BadItemField(field) then next.None? else next == Some(ItemIn(numbering, key, fields + [field]))
  {
    hide ParseUnsigned, ParseInt, TextAt;
    TextMore(fields, field, "sequence");
    TextMore(fields, field, "action");
    TextMore(fields, field, "system");
    TextMore(fields, field, "name");
    TextMore(fields, field, "version");
    TextMore(fields, field, "sourcePath");
    TextMore(fields, field, "localTarget");
    TextMore(fields, field, "status");
    TextMore(fields, field, "error");
    var item, after := ItemIn(numbering, key, fields), ItemIn(numbering, key, fields + [field]);
    assert field.0 != "sequence" ==> after.sequence == item.sequence;
    assert field.0 != "action" ==> after.package.action == item.package.action;
    hide UnsignedAt, ActionAt;
  }

  lemma KeysMore(fields: seq<Field>, field: Field)
    ensures forall name :: Lookup(fields + [field], name).Some? <==> Lookup(fields, name).Some? || name == field.0
  {
    forall name ensures Lookup(fields + [field], name) == if field.0 == name then Some(field.1) else Lookup(fields, name) {
      LookupMore(fields, field, name);
    }
    hide Lookup;
  }

  lemma AllKeysSeen(fields: seq<Field>, seen: set<string>)
    requires forall name :: name in seen <==> name in ITEM_KEYS && Lookup(fields, name).Some?
    ensures HasAllKeys(fields) <==> forall name :: name in ITEM_KEYS ==> name in seen
  {
  }

  lemma ParsedKeyParts(key: string)
    ensures ParseItemKey(key).Some? ==> ParseItemKey(key).value.0 != "" && ParseItemKey(key).value.1 != ""
  {
  }
}
