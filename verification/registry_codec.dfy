// Payloads of the registry database: a header of key=value lines, a separator, and a script.
module RegistryCodec {
  import opened Sequences
  import opened Text
  import opened FieldLines

  datatype WriteScope = WriteScope(kind: string, value: string)

  datatype NetworkScope = NetworkScope(host: string, scheme: string, pathPrefix: string)

  datatype RegistryRecord = RegistryRecord(
    name: string, source: string, alias: bool, originPath: string, description: string, role: string,
    targetSystem: string, capabilities: seq<string>, ecosystemScopes: seq<string>, writeScopes: seq<WriteScope>,
    networkScopes: seq<NetworkScope>, privilegeLevel: string, scriptSha256: string, bootstrapSha256: string,
    script: string, bootstrapScript: string, bundlePath: string, bundleSource: bool)

  // ------------------------------------------------------------ scope fields

  function EscapeScopeChar(c: char): string {
    if c == '|' then "\\|" else EscapeChar(c)
  }

  /** escape_scope_component. */
  function EscapeScope(s: string): string {
    if s == "" then "" else EscapeScopeChar(s[0]) + EscapeScope(s[1..])
  }

  /** split_escaped_fields from the middle of a field. */
  function SplitFrom(s: string, current: string, escaped: bool): seq<string> {
    if s == "" then [current]
    else if !escaped && s[0] == '\\' then SplitFrom(s[1..], current + [s[0]], true)
    else if !escaped && s[0] == '|' then [current] + SplitFrom(s[1..], "", false)
    else SplitFrom(s[1..], current + [s[0]], false)
  }

  function SplitEscaped(s: string): seq<string> {
    SplitFrom(s, "", false)
  }

  lemma SplitChar(c: char, rest: string, current: string)
    ensures SplitFrom(EscapeScopeChar(c) + rest, current, false) == SplitFrom(rest, current + EscapeScopeChar(c), false)
  {
    var s := EscapeScopeChar(c) + rest;
    if |EscapeScopeChar(c)| == 2 {
      assert s[1..] == [EscapeScopeChar(c)[1]] + rest;
      assert s[1..][1..] == rest;
      assert current + ['\\'] + [EscapeScopeChar(c)[1]] == current + EscapeScopeChar(c);
    } else {
      assert s[1..] == rest;
    }
  }

  lemma {:induction false} SplitScope(a: string, rest: string, current: string)
    ensures SplitFrom(EscapeScope(a) + rest, current, false) == SplitFrom(rest, current + EscapeScope(a), false)
  {
    if a == "" {
      assert EscapeScope(a) + rest == rest && current + EscapeScope(a) == current;
    } else {
      SplitChar(a[0], EscapeScope(a[1..]) + rest, current);
      SplitScope(a[1..], rest, current + EscapeScopeChar(a[0]));
      hide SplitFrom, EscapeScopeChar;
      assert EscapeScope(a) + rest == EscapeScopeChar(a[0]) + (EscapeScope(a[1..]) + rest);
      assert current + EscapeScope(a) == current + EscapeScopeChar(a[0]) + EscapeScope(a[1..]);
    }
  }

  lemma UnescapeScopeChar(c: char, rest: string)
    ensures Unescape(EscapeScopeChar(c) + rest) == [c] + Unescape(rest)
  {
    var s := EscapeScopeChar(c) + rest;
    if |EscapeScopeChar(c)| == 2 {
      assert s[2..] == rest;
    } else {
      assert s[1..] == rest;
    }
  }

  lemma {:induction false} ScopeRoundTrip(s: string)
    ensures Unescape(EscapeScope(s)) == s
    ensures '\n' !in EscapeScope(s)
  {
    if s != "" {
      ScopeRoundTrip(s[1..]);
      UnescapeScopeChar(s[0], EscapeScope(s[1..]));
      assert s == [s[0]] + s[1..];
    }
  }

  function EscapedScopes(fields: seq<string>): seq<string> {
    if fields == [] then [] else [EscapeScope(fields[0])] + EscapedScopes(fields[1..])
  }

  function Unescaped(fields: seq<string>): seq<string> {
    if fields == [] then [] else [Unescape(fields[0])] + Unescaped(fields[1..])
  }

  /** One scope on a line. */
  function ScopeLine(fields: seq<string>): string {
    Join(EscapedScopes(fields), '|')
  }

  lemma LineOfMore(fields: seq<string>)
    requires |fields| > 1
    ensures ScopeLine(fields) == EscapeScope(fields[0]) + (['|'] + ScopeLine(fields[1..]))
  {
    hide EscapeScope;
    assert EscapedScopes(fields)[1..] == EscapedScopes(fields[1..]);
    EscapedScopesSize(fields);
    EscapedScopesSize(fields[1..]);
  }

  lemma {:induction false} SplitScopeLine(fields: seq<string>)
    requires fields != []
    ensures SplitFrom(ScopeLine(fields), "", false) == EscapedScopes(fields)
  {
    var first := EscapeScope(fields[0]);
    if |fields| == 1 {
      SplitScope(fields[0], "", "");
      assert first + "" == first && "" + first == first;
      assert fields[1..] == [];
      assert SplitFrom("", first, false) == [first];
    } else {
      var rest := ScopeLine(fields[1..]);
      SplitScopeLine(fields[1..]);
      SplitScope(fields[0], ['|'] + rest, "");
      LineOfMore(fields);
      assert "" + first == first;
      assert (['|'] + rest)[1..] == rest;
      assert SplitFrom(['|'] + rest, first, false) == [first] + SplitFrom(rest, "", false);
      hide SplitFrom, Join, EscapeScope;
    }
  }

  lemma {:induction false} EscapedScopesSize(fields: seq<string>)
    ensures |EscapedScopes(fields)| == |fields|
  {
    if fields != [] {
      EscapedScopesSize(fields[1..]);
    }
  }

  lemma {:induction false} ScopesUnescape(fields: seq<string>)
    ensures Unescaped(EscapedScopes(fields)) == fields
  {
    if fields != [] {
      ScopesUnescape(fields[1..]);
      ScopeRoundTrip(fields[0]);
      assert EscapedScopes(fields)[1..] == EscapedScopes(fields[1..]);
    }
  }

  lemma {:induction false} JoinFree(parts: seq<string>, separator: char, c: char)
    requires c != separator && forall part :: part in parts ==> c !in part
    ensures c !in Join(parts, separator)
  {
    if |parts| == 1 {
      assert parts[0] in parts;
    } else if parts != [] {
      assert parts[0] in parts;
      assert forall part :: part in parts[1..] ==> part in parts;
      JoinFree(parts[1..], separator, c);
    }
  }

  lemma {:induction false} EscapedScopesFree(fields: seq<string>)
    ensures forall part :: part in EscapedScopes(fields) ==> '\n' !in part
  {
    if fields != [] {
      ScopeRoundTrip(fields[0]);
      EscapedScopesFree(fields[1..]);
    }
  }

  /** A line with two or more fields is never empty, has no newline, and reads back as its fields,
      whatever characters they hold. */
  lemma ScopeLineRoundTrip(fields: seq<string>)
    requires |fields| >= 2
    ensures ScopeLine(fields) != "" && '\n' !in ScopeLine(fields)
    ensures Unescaped(SplitEscaped(ScopeLine(fields))) == fields
  {
    SplitScopeLine(fields);
    ScopesUnescape(fields);
    EscapedScopesSize(fields);
    EscapedScopesFree(fields);
    JoinFree(EscapedScopes(fields), '|', '\n');
    hide EscapedScopes;
    assert |ScopeLine(fields)| >= 1;
  }

  lemma EscapeScopeStep(done: string, value: string, k: nat)
    requires k < |value|
    ensures done + EscapeScope(value[k..]) == done + EscapeScopeChar(value[k]) + EscapeScope(value[k + 1..])
  {
    assert value[k..][1..] == value[k + 1..];
    hide EscapeScopeChar;
    assert EscapeScope(value[k..]) == EscapeScopeChar(value[k]) + EscapeScope(value[k + 1..]);
  }

  method EscapeScopeComponent(value: string) returns (escaped: string)
    ensures escaped == EscapeScope(value)
  {
    escaped := "";
    assert value[0..] == value && EscapeScope(value[|value|..]) == "";
    hide EscapeScope;
    for k := 0 to |value|
      invariant escaped + EscapeScope(value[k..]) == EscapeScope(value)
    {
      var c := value[k];
      EscapeScopeStep(escaped, value, k);
      if c == '\\' || c == '|' || c == '\n' {
        assert EscapeScopeChar(c) == ['\\', if c == '\n' then 'n' else c];
        hide EscapeScopeChar;
        escaped := escaped + ['\\', if c == '\n' then 'n' else c];
        continue;
      }
      escaped := escaped + [c];
    }
  }

  method SplitEscapedFields(value: string) returns (fields: seq<string>)
    ensures fields == SplitEscaped(value)
  {
    fields := [];
    var current := "";
    var escaped := false;
    for k := 0 to |value|
      invariant fields + SplitFrom(value[k..], current, escaped) == SplitEscaped(value)
    {
      var c := value[k];
      assert value[k..][1..] == value[k + 1..];
      if !escaped && c == '\\' {
        escaped := true;
        current := current + [c];
        continue;
      }
      if !escaped && c == '|' {
        fields := fields + [current];
        current := "";
        continue;
      }
      current := current + [c];
      escaped := false;
    }
    fields := fields + [current];
  }

  // -------------------------------------------------------------- scope lists

  function WriteLines(scopes: seq<WriteScope>): (lines: seq<string>)
    ensures |lines| == |scopes|
    ensures forall k :: 0 <= k < |scopes| ==> lines[k] == ScopeLine([scopes[k].kind, scopes[k].value])
  {
    seq(|scopes|, k requires 0 <= k < |scopes| => ScopeLine([scopes[k].kind, scopes[k].value]))
  }

  function NetworkLines(scopes: seq<NetworkScope>): (lines: seq<string>)
    ensures |lines| == |scopes|
    ensures forall k :: 0 <= k < |scopes| ==> lines[k] == ScopeLine([scopes[k].host, scopes[k].scheme, scopes[k].pathPrefix])
  {
    seq(|scopes|, k requires 0 <= k < |scopes| => ScopeLine([scopes[k].host, scopes[k].scheme, scopes[k].pathPrefix]))
  }

  /** registry_database_serialize_write_scopes and _network_scopes. */
  function SerializeWriteScopes(scopes: seq<WriteScope>): string {
    Join(WriteLines(scopes), '\n')
  }

  function SerializeNetworkScopes(scopes: seq<NetworkScope>): string {
    Join(NetworkLines(scopes), '\n')
  }

  function FieldAt(fields: seq<string>, k: nat): string {
    if k < |fields| then Unescape(fields[k]) else ""
  }

  function WriteScopeOf(line: string): WriteScope {
    var fields := SplitEscaped(line);
    WriteScope(FieldAt(fields, 0), FieldAt(fields, 1))
  }

  function NetworkScopeOf(line: string): NetworkScope {
    var fields := SplitEscaped(line);
    NetworkScope(FieldAt(fields, 0), FieldAt(fields, 1), FieldAt(fields, 2))
  }

  function Mapped<T>(f: string -> T, lines: seq<string>): (r: seq<T>)
    ensures |r| == |lines|
    ensures forall k :: 0 <= k < |lines| ==> r[k] == f(lines[k])
  {
    seq(|lines|, k requires 0 <= k < |lines| => f(lines[k]))
  }

  function WriteScopesFrom(text: string): seq<WriteScope> {
    Mapped(WriteScopeOf, NonEmptyPieces(text, '\n'))
  }

  function NetworkScopesFrom(text: string): seq<NetworkScope> {
    Mapped(NetworkScopeOf, NonEmptyPieces(text, '\n'))
  }

  lemma {:induction false} UnescapedAt(fields: seq<string>, k: nat)
    requires k < |fields|
    ensures k < |Unescaped(fields)| && Unescaped(fields)[k] == Unescape(fields[k])
  {
    if k > 0 {
      UnescapedAt(fields[1..], k - 1);
    }
  }

  lemma ScopeFields(fields: seq<string>, k: nat)
    requires |fields| >= 2 && k < |fields|
    ensures FieldAt(SplitEscaped(ScopeLine(fields)), k) == fields[k]
  {
    ScopeLineRoundTrip(fields);
    SplitScopeLine(fields);
    EscapedScopesSize(fields);
    UnescapedAt(EscapedScopes(fields), k);
    hide ScopeLine, SplitFrom;
  }

  /** Scope lists come back whole, whatever characters their fields hold. */
  lemma WriteScopesRoundTrip(scopes: seq<WriteScope>)
    ensures WriteScopesFrom(SerializeWriteScopes(scopes)) == scopes
  {
    var lines := WriteLines(scopes);
    forall k: nat | k < |lines| ensures lines[k] != "" && '\n' !in lines[k] && WriteScopeOf(lines[k]) == scopes[k] {
      var fields := [scopes[k].kind, scopes[k].value];
      ScopeLineRoundTrip(fields);
      ScopeFields(fields, 0);
      ScopeFields(fields, 1);
    }
    JoinRoundTrip(lines, '\n');
  }

  lemma NetworkScopesRoundTrip(scopes: seq<NetworkScope>)
    ensures NetworkScopesFrom(SerializeNetworkScopes(scopes)) == scopes
  {
    var lines := NetworkLines(scopes);
    forall k: nat | k < |lines| ensures lines[k] != "" && '\n' !in lines[k] && NetworkScopeOf(lines[k]) == scopes[k] {
      var fields := [scopes[k].host, scopes[k].scheme, scopes[k].pathPrefix];
      ScopeLineRoundTrip(fields);
      ScopeFields(fields, 0);
      ScopeFields(fields, 1);
      ScopeFields(fields, 2);
    }
    JoinRoundTrip(lines, '\n');
  }

  method DeserializeWriteScopes(value: string) returns (scopes: seq<WriteScope>)
    ensures scopes == WriteScopesFrom(value)
  {
    var lines := Pieces(value, '\n');
    scopes := [];
    for k := 0 to |lines|
      invariant scopes == Mapped(WriteScopeOf, Filter(NonEmpty(), lines[..k]))
    {
      var line := lines[k];
      assert lines[..k + 1][..k] == lines[..k];
      if line == "" {
        continue;
      }
      var fields := SplitEscapedFields(line);
      var scope := WriteScope("", "");
      if |fields| > 0 {
        var kind := UnescapeField(fields[0]);
        scope := scope.(kind := kind);
      }
      if |fields| > 1 {
        var rest := UnescapeField(fields[1]);
        scope := scope.(value := rest);
      }
      scopes := scopes + [scope];
    }
    assert lines[..|lines|] == lines;
  }

  method DeserializeNetworkScopes(value: string) returns (scopes: seq<NetworkScope>)
    ensures scopes == NetworkScopesFrom(value)
  {
    var lines := Pieces(value, '\n');
    scopes := [];
    for k := 0 to |lines|
      invariant scopes == Mapped(NetworkScopeOf, Filter(NonEmpty(), lines[..k]))
    {
      var line := lines[k];
      assert lines[..k + 1][..k] == lines[..k];
      if line == "" {
        continue;
      }
      var fields := SplitEscapedFields(line);
      var scope := NetworkScope("", "", "");
      if |fields| > 0 {
        var host := UnescapeField(fields[0]);
        scope := scope.(host := host);
      }
      if |fields| > 1 {
        var scheme := UnescapeField(fields[1]);
        scope := scope.(scheme := scheme);
      }
      if |fields| > 2 {
        var pathPrefix := UnescapeField(fields[2]);
        scope := scope.(pathPrefix := pathPrefix);
      }
      scopes := scopes + [scope];
    }
    assert lines[..|lines|] == lines;
  }

  // ----------------------------------------------------------- script checks

  predicate Contains(s: string, needle: string) {
    needle <= s || (s != "" && Contains(s[1..], needle))
  }

  predicate HasNonWhitespace(s: string) {
    exists k :: 0 <= k < |s| && !IsSpace(s[k])
  }

  predicate LooksLikeHtml(s: string) {
    var prefix := ToLower(s[..if |s| < 512 then |s| else 512]);
    Contains(prefix, "<!doctype html") || Contains(prefix, "<html") || Contains(prefix, "<head") || Contains(prefix, "<body")
  }

  predicate ValidScript(script: string) {
    HasNonWhitespace(script) && !LooksLikeHtml(script)
  }

  predicate IsPackageEntry(r: RegistryRecord) {
    ToLower(r.role) == "package"
  }

  predicate CanMaterialize(r: RegistryRecord) {
    !r.alias && !IsPackageEntry(r)
  }

  /** What the decoder demands of a record beyond its format. */
  predicate Accepted(r: RegistryRecord) {
    (r.source != "" || r.alias) && (CanMaterialize(r) && r.script != "" ==> ValidScript(r.script))
  }

  // ------------------------------------------------------------------ payload

  const META_SEPARATOR := "\n---\n"

  function Digit(flag: bool): string {
    if flag then "1" else "0"
  }

  function HeaderFields(r: RegistryRecord): seq<Field> {
    [("source", r.source), ("alias", Digit(r.alias)), ("originPath", r.originPath), ("description", r.description),
     ("role", r.role), ("targetSystem", r.targetSystem), ("capabilities", Join(r.capabilities, '\n')),
     ("ecosystemScopes", Join(r.ecosystemScopes, '\n')), ("writeScopes", SerializeWriteScopes(r.writeScopes)),
     ("networkScopes", SerializeNetworkScopes(r.networkScopes)), ("privilegeLevel", r.privilegeLevel),
     ("scriptSha256", r.scriptSha256), ("bootstrapSha256", r.bootstrapSha256), ("bundleSource", Digit(r.bundleSource)),
     ("bundlePath", r.bundlePath), ("bootstrap", r.bootstrapScript)]
  }

  /** registry_database_serialize_record; the digits have nothing to escape. */
  function SerializeRecord(r: RegistryRecord): string {
    Render(HeaderFields(r)) + META_SEPARATOR + r.script
  }

  /** Position of the first separator; |s| if there is none. */
  function FindSeparator(s: string): (k: nat)
    ensures k <= |s|
    ensures k < |s| ==> k + 5 <= |s| && s[k..k + 5] == META_SEPARATOR
  {
    if |s| < 5 then |s|
    else if s[..5] == META_SEPARATOR then 0
    else
      var k := FindSeparator(s[1..]);
      assert k < |s| - 1 ==> s[k + 1..k + 6] == s[1..][k..k + 5];
      k + 1
  }

  lemma {:induction false} FindSeparatorAt(s: string, k: nat)
    requires k + 5 <= |s| && s[k..k + 5] == META_SEPARATOR
    requires forall j :: 0 <= j < k ==> s[j] != '\n' || s[j + 1] != '-'
    ensures FindSeparator(s) == k
  {
    if k > 0 {
      assert s[..5][0] == s[0] && s[..5][1] == s[1];
      assert s[1..][k - 1..k + 4] == s[k..k + 5];
      FindSeparatorAt(s[1..], k - 1);
    }
  }

  predicate IsHeaderKey(key: string) {
    IsKey(key) && key != "" && key[0] != '-'
  }

  /** No line of a header starts with a dash. */
  ghost predicate NoDashLine(s: string) {
    (s != "" ==> s[0] != '-') && forall j :: 0 <= j < |s| - 1 && s[j] == '\n' ==> s[j + 1] != '-'
  }

  lemma FieldHasNoDashLine(field: Field, rest: string)
    requires IsHeaderKey(field.0) && NoDashLine(rest)
    ensures NoDashLine(RenderField(field) + rest)
  {
    EscapedHasNoNewline(field.1);
    var line := field.0 + "=" + Escape(field.1);
    hide Escape;
    assert '\n' !in line;
    var s := RenderField(field) + rest;
    assert s == line + ['\n'] + rest;
    assert forall k :: 0 <= k < |line| ==> s[k] == line[k] && line[k] in line;
    forall j | 0 <= j < |s| - 1 && s[j] == '\n' ensures s[j + 1] != '-' {
      if j == |line| {
        assert s[j + 1] == rest[0];
      } else if j > |line| {
        assert s[j] == rest[j - |line| - 1] && s[j + 1] == rest[j - |line|];
      }
    }
  }

  lemma {:induction false} HeaderHasNoDashLine(fields: seq<Field>)
    requires forall k :: 0 <= k < |fields| ==> IsHeaderKey(fields[k].0)
    ensures NoDashLine(Render(fields))
  {
    if fields != [] {
      HeaderHasNoDashLine(fields[1..]);
      FieldHasNoDashLine(fields[0], Render(fields[1..]));
    }
  }

  /** The separator found first is the one that was written, whatever the fields and the script hold. */
  lemma SeparatorIsReal(fields: seq<Field>, script: string)
    requires forall k :: 0 <= k < |fields| ==> IsHeaderKey(fields[k].0)
    ensures FindSeparator(Render(fields) + META_SEPARATOR + script) == |Render(fields)|
  {
    HeaderHasNoDashLine(fields);
    var header := Render(fields);
    var s := header + META_SEPARATOR + script;
    hide Render;
    forall j | 0 <= j < |header| ensures s[j] != '\n' || s[j + 1] != '-' {
      assert s[j] == header[j];
      if j + 1 < |header| {
        assert s[j + 1] == header[j + 1];
      } else {
        assert s[j + 1] == META_SEPARATOR[0];
      }
    }
    assert s[|header|..|header| + 5] == META_SEPARATOR;
    FindSeparatorAt(s, |header|);
  }

  // ------------------------------------------------------------------ decoding

  /** The keys the decoding loop compares a line with, in its order. */
  datatype HeaderKey =
    | SOURCE | ALIAS | ORIGIN_PATH | DESCRIPTION | ROLE | TARGET_SYSTEM | CAPABILITIES | ECOSYSTEM_SCOPES
    | WRITE_SCOPES | NETWORK_SCOPES | PRIVILEGE_LEVEL | SCRIPT_SHA256 | BOOTSTRAP_SHA256 | BUNDLE_SOURCE | BUNDLE_PATH | BOOTSTRAP | OTHER_KEY

  function HeaderKeyOf(key: string): HeaderKey {
    if key == "source" then SOURCE
    else if key == "alias" then ALIAS
    else if key == "originPath" then ORIGIN_PATH
    else if key == "description" then DESCRIPTION
    else if key == "role" then ROLE
    else if key == "targetSystem" then TARGET_SYSTEM
    else if key == "capabilities" then CAPABILITIES
    else if key == "ecosystemScopes" then ECOSYSTEM_SCOPES
    else if key == "writeScopes" then WRITE_SCOPES
    else if key == "networkScopes" then NETWORK_SCOPES
    else if key == "privilegeLevel" then PRIVILEGE_LEVEL
    else if key == "scriptSha256" then SCRIPT_SHA256
    else if key == "bootstrapSha256" then BOOTSTRAP_SHA256
    else if key == "bundleSource" then BUNDLE_SOURCE
    else if key == "bundlePath" then BUNDLE_PATH
    else if key == "bootstrap" then BOOTSTRAP
    else OTHER_KEY
  }

  function HeaderKeyAt(k: nat): HeaderKey {
    if k >= 16 then OTHER_KEY
    else [SOURCE, ALIAS, ORIGIN_PATH, DESCRIPTION, ROLE, TARGET_SYSTEM, CAPABILITIES, ECOSYSTEM_SCOPES,
          WRITE_SCOPES, NETWORK_SCOPES, PRIVILEGE_LEVEL, SCRIPT_SHA256, BOOTSTRAP_SHA256, BUNDLE_SOURCE, BUNDLE_PATH, BOOTSTRAP][k]
  }

  lemma KeysReadA()
    ensures HeaderKeyOf("source") == SOURCE
    ensures HeaderKeyOf("alias") == ALIAS
    ensures HeaderKeyOf("originPath") == ORIGIN_PATH
    ensures HeaderKeyOf("description") == DESCRIPTION
    ensures HeaderKeyOf("role") == ROLE
  {
  }

  lemma KeysReadB()
    ensures HeaderKeyOf("targetSystem") == TARGET_SYSTEM
    ensures HeaderKeyOf("capabilities") == CAPABILITIES
    ensures HeaderKeyOf("ecosystemScopes") == ECOSYSTEM_SCOPES
    ensures HeaderKeyOf("writeScopes") == WRITE_SCOPES
  {
  }

  lemma KeysReadC()
    ensures HeaderKeyOf("networkScopes") == NETWORK_SCOPES
    ensures HeaderKeyOf("privilegeLevel") == PRIVILEGE_LEVEL
    ensures HeaderKeyOf("scriptSha256") == SCRIPT_SHA256
  {
  }

  lemma KeysReadD()
    ensures HeaderKeyOf("bootstrapSha256") == BOOTSTRAP_SHA256
    ensures HeaderKeyOf("bundleSource") == BUNDLE_SOURCE
  {
  }

  lemma KeysReadE()
    ensures HeaderKeyOf("bundlePath") == BUNDLE_PATH
    ensures HeaderKeyOf("bootstrap") == BOOTSTRAP
  {
  }

  /** The value the decoder ends up with for a key: the last one read. */
  function ValueOf(fields: seq<Field>, key: HeaderKey): string {
    if fields == [] then ""
    else if HeaderKeyOf(fields[|fields| - 1].0) == key then fields[|fields| - 1].1
    else ValueOf(fields[..|fields| - 1], key)
  }

  lemma {:induction false} ValueAt(fields: seq<Field>, k: nat)
    requires k < |fields| && forall i, j :: 0 <= i < j < |fields| ==> HeaderKeyOf(fields[i].0) != HeaderKeyOf(fields[j].0)
    ensures ValueOf(fields, HeaderKeyOf(fields[k].0)) == fields[k].1
  {
    hide HeaderKeyOf;
    if k < |fields| - 1 {
      ValueAt(fields[..|fields| - 1], k);
    }
  }

  lemma ValueMore(fields: seq<Field>, field: Field, key: HeaderKey)
    ensures ValueOf(fields + [field], key) == if HeaderKeyOf(field.0) == key then field.1 else ValueOf(fields, key)
  {
    hide HeaderKeyOf;
    assert (fields + [field])[..|fields|] == fields;
  }

  predicate BadFlag(field: Field) {
    (HeaderKeyOf(field.0) == ALIAS || HeaderKeyOf(field.0) == BUNDLE_SOURCE) && field.1 != "1" && field.1 != "0"
  }

  function ValuesIn(fields: seq<Field>): HeaderKey -> string {
    (key: HeaderKey) => ValueOf(fields, key)
  }

  /** The record with the given header values. */
  function RecordOf(name: string, script: string, value: HeaderKey -> string): RegistryRecord {
    RegistryRecord(name, value(SOURCE), value(ALIAS) == "1", value(ORIGIN_PATH),
                   value(DESCRIPTION), value(ROLE),
                   value(TARGET_SYSTEM), NonEmptyPieces(value(CAPABILITIES), '\n'),
                   NonEmptyPieces(value(ECOSYSTEM_SCOPES), '\n'), WriteScopesFrom(value(WRITE_SCOPES)),
                   NetworkScopesFrom(value(NETWORK_SCOPES)), value(PRIVILEGE_LEVEL),
                   value(SCRIPT_SHA256), value(BOOTSTRAP_SHA256),
                   script, value(BOOTSTRAP),
                   value(BUNDLE_PATH), value(BUNDLE_SOURCE) == "1")
  }

  function RecordIn(name: string, script: string, fields: seq<Field>): RegistryRecord {
    RecordOf(name, script, ValuesIn(fields))
  }

  function RecordFrom(name: string, payload: string): Option<RegistryRecord> {
    var separator := FindSeparator(payload);
    if separator == |payload| then None
    else
      var fields := ReadFields(payload[..separator]);
      var record := RecordIn(name, payload[separator + 5..], fields);
      if (exists field :: field in fields && BadFlag(field)) || !Accepted(record) then None else Some(record)
  }

  /** The record with its name lists as joining and splitting leaves them. */
  function Stored(name: string, r: RegistryRecord): RegistryRecord {
    r.(name := name, capabilities := NonEmptyPieces(Join(r.capabilities, '\n'), '\n'),
       ecosystemScopes := NonEmptyPieces(Join(r.ecosystemScopes, '\n'), '\n'))
  }

  lemma GoodKeysA()
    ensures IsHeaderKey("source")
    ensures IsHeaderKey("alias")
    ensures IsHeaderKey("originPath")
    ensures IsHeaderKey("description")
  {
  }

  lemma GoodKeysB()
    ensures IsHeaderKey("role")
    ensures IsHeaderKey("targetSystem")
    ensures IsHeaderKey("capabilities")
    ensures IsHeaderKey("ecosystemScopes")
  {
  }

  lemma GoodKeysC()
    ensures IsHeaderKey("writeScopes")
    ensures IsHeaderKey("networkScopes")
    ensures IsHeaderKey("privilegeLevel")
    ensures IsHeaderKey("scriptSha256")
  {
  }

  lemma GoodKeysD()
    ensures IsHeaderKey("bootstrapSha256")
    ensures IsHeaderKey("bundleSource")
    ensures IsHeaderKey("bundlePath")
    ensures IsHeaderKey("bootstrap")
  {
  }

  lemma HeaderKeys(r: RegistryRecord)
    ensures |HeaderFields(r)| == 16
    ensures forall k :: 0 <= k < 16 ==> IsHeaderKey(HeaderFields(r)[k].0)
  {
    GoodKeysA();
    GoodKeysB();
    GoodKeysC();
    GoodKeysD();
    hide Join, SerializeWriteScopes, SerializeNetworkScopes, IsHeaderKey, Digit;
  }

  lemma HeaderKeysFront(r: RegistryRecord)
    ensures |HeaderFields(r)| == 16
    ensures forall k :: 0 <= k < 8 ==> HeaderKeyOf(HeaderFields(r)[k].0) == HeaderKeyAt(k)
  {
    KeysReadA();
    KeysReadB();
    hide Join, SerializeWriteScopes, SerializeNetworkScopes, HeaderKeyOf, Digit;
    var f := HeaderFields(r);
    assert HeaderKeyOf(f[0].0) == HeaderKeyAt(0) && HeaderKeyOf(f[1].0) == HeaderKeyAt(1);
    assert HeaderKeyOf(f[2].0) == HeaderKeyAt(2) && HeaderKeyOf(f[3].0) == HeaderKeyAt(3);
    assert HeaderKeyOf(f[4].0) == HeaderKeyAt(4) && HeaderKeyOf(f[5].0) == HeaderKeyAt(5);
    assert HeaderKeyOf(f[6].0) == HeaderKeyAt(6) && HeaderKeyOf(f[7].0) == HeaderKeyAt(7);
  }

  lemma HeaderKeysBack(r: RegistryRecord)
    ensures |HeaderFields(r)| == 16
    ensures forall k :: 8 <= k < 16 ==> HeaderKeyOf(HeaderFields(r)[k].0) == HeaderKeyAt(k)
  {
    KeysReadB();
    KeysReadC();
    KeysReadD();
    KeysReadE();
    hide Join, SerializeWriteScopes, SerializeNetworkScopes, HeaderKeyOf, Digit;
    var f := HeaderFields(r);
    assert HeaderKeyOf(f[8].0) == HeaderKeyAt(8) && HeaderKeyOf(f[9].0) == HeaderKeyAt(9);
    assert HeaderKeyOf(f[10].0) == HeaderKeyAt(10) && HeaderKeyOf(f[11].0) == HeaderKeyAt(11);
    assert HeaderKeyOf(f[12].0) == HeaderKeyAt(12) && HeaderKeyOf(f[13].0) == HeaderKeyAt(13);
    assert HeaderKeyOf(f[14].0) == HeaderKeyAt(14) && HeaderKeyOf(f[15].0) == HeaderKeyAt(15);
  }

  lemma HeaderKeysAre(r: RegistryRecord)
    ensures |HeaderFields(r)| == 16
    ensures forall k :: 0 <= k < 16 ==> HeaderKeyOf(HeaderFields(r)[k].0) == HeaderKeyAt(k)
  {
    HeaderKeysFront(r);
    HeaderKeysBack(r);
    hide HeaderFields, HeaderKeyOf, HeaderKeyAt;
  }

  lemma HeaderKeysDiffer()
    ensures forall i, j :: 0 <= i < j < 16 ==> HeaderKeyAt(i) != HeaderKeyAt(j)
  {
  }

  lemma HeaderValues(r: RegistryRecord, k: nat)
    requires k < 16
    ensures |HeaderFields(r)| == 16 && ValueOf(HeaderFields(r), HeaderKeyAt(k)) == HeaderFields(r)[k].1
    ensures !BadFlag(HeaderFields(r)[k])
  {
    HeaderKeysAre(r);
    HeaderKeysDiffer();
    hide Join, SerializeWriteScopes, SerializeNetworkScopes, HeaderKeyOf, ValueOf;
    ValueAt(HeaderFields(r), k);
    assert HeaderFields(r)[1].1 == Digit(r.alias) && HeaderFields(r)[13].1 == Digit(r.bundleSource);
  }

  lemma HeaderReadsBack(name: string, r: RegistryRecord)
    ensures RecordIn(name, r.script, HeaderFields(r)) == Stored(name, r)
    ensures forall field :: field in HeaderFields(r) ==> !BadFlag(field)
  {
    WriteScopesRoundTrip(r.writeScopes);
    NetworkScopesRoundTrip(r.networkScopes);
    hide Join, SerializeWriteScopes, SerializeNetworkScopes, NonEmptyPieces, WriteScopesFrom, NetworkScopesFrom, HeaderKeyOf, ValueOf, BadFlag;
    HeaderValues(r, 0);
    HeaderValues(r, 1);
    HeaderValues(r, 2);
    HeaderValues(r, 3);
    HeaderValues(r, 4);
    HeaderValues(r, 5);
    HeaderValues(r, 6);
    HeaderValues(r, 7);
    HeaderValues(r, 8);
    HeaderValues(r, 9);
    HeaderValues(r, 10);
    HeaderValues(r, 11);
    HeaderValues(r, 12);
    HeaderValues(r, 13);
    HeaderValues(r, 14);
    HeaderValues(r, 15);
  }

  lemma SerializedSplits(r: RegistryRecord)
    ensures var payload := SerializeRecord(r);
            var separator := FindSeparator(payload);
            && separator < |payload| && payload[separator + 5..] == r.script && ReadFields(payload[..separator]) == HeaderFields(r)
  {
    var fields := HeaderFields(r);
    HeaderKeys(r);
    SeparatorIsReal(fields, r.script);
    FieldsRoundTrip(fields, "");
    assert ReadFields("") == [];
    hide HeaderFields, ReadFields, Render;
    var header := Render(fields);
    assert header + "" == header && fields + [] == fields;
    var payload := SerializeRecord(r);
    assert payload[..|header|] == header && payload[|header| + 5..] == r.script;
  }

  /** Decoding what was written gives the record as stored, or nothing if the decoder does not accept it. */
  lemma RecordReadsBack(name: string, r: RegistryRecord)
    ensures RecordFrom(name, SerializeRecord(r)) == if Accepted(r) then Some(Stored(name, r)) else None
  {
    SerializedSplits(r);
    HeaderReadsBack(name, r);
    hide SerializeRecord, FindSeparator, ReadFields, HeaderFields, RecordIn, NonEmptyPieces, Join, ValidScript, IsPackageEntry;
    assert Accepted(Stored(name, r)) <==> Accepted(r) by { AcceptedStored(name, r); }
  }

  lemma AcceptedStored(name: string, r: RegistryRecord)
    ensures Accepted(Stored(name, r)) <==> Accepted(r)
  {
    hide ValidScript, ToLower, Join, NonEmptyPieces;
  }

  /** Registry round trip: a record decodes to itself exactly when it has a source or is an alias, its
      script is acceptable, and its capabilities and ecosystems are non-empty and free of newlines. */
  lemma RecordRoundTrip(name: string, r: RegistryRecord)
    ensures RecordFrom(name, SerializeRecord(r)) == Some(r.(name := name)) <==>
            Accepted(r) && Separable(r.capabilities, '\n') && Separable(r.ecosystemScopes, '\n')
  {
    RecordReadsBack(name, r);
    JoinRoundTrip(r.capabilities, '\n');
    JoinRoundTrip(r.ecosystemScopes, '\n');
    hide RecordFrom, SerializeRecord, Accepted, Join, NonEmptyPieces, Separable;
  }

  // ------------------------------------------------------------- decoding loop

  /** The if-chain of the decoding loop; None where it returns nullopt. */
  function FieldAssigned(r: RegistryRecord, key: HeaderKey, value: string): Option<RegistryRecord> {
    match key
    case SOURCE => Some(r.(source := value))
    case ALIAS => if value == "1" then Some(r.(alias := true)) else if value == "0" then Some(r.(alias := false)) else None
    case ORIGIN_PATH => Some(r.(originPath := value))
    case DESCRIPTION => Some(r.(description := value))
    case ROLE => Some(r.(role := value))
    case TARGET_SYSTEM => Some(r.(targetSystem := value))
    case CAPABILITIES => Some(r.(capabilities := NonEmptyPieces(value, '\n')))
    case ECOSYSTEM_SCOPES => Some(r.(ecosystemScopes := NonEmptyPieces(value, '\n')))
    case WRITE_SCOPES => Some(r.(writeScopes := WriteScopesFrom(value)))
    case NETWORK_SCOPES => Some(r.(networkScopes := NetworkScopesFrom(value)))
    case PRIVILEGE_LEVEL => Some(r.(privilegeLevel := value))
    case SCRIPT_SHA256 => Some(r.(scriptSha256 := value))
    case BOOTSTRAP_SHA256 => Some(r.(bootstrapSha256 := value))
    case BUNDLE_SOURCE => if value == "1" then Some(r.(bundleSource := true)) else if value == "0" then Some(r.(bundleSource := false)) else None
    case BUNDLE_PATH => Some(r.(bundlePath := value))
    case BOOTSTRAP => Some(r.(bootstrapScript := value))
    case OTHER_KEY => Some(r)
  }

  /** after is before with the value of one key replaced. */
  predicate Replaces(before: RegistryRecord, after: RegistryRecord, key: HeaderKey, v: string) {
    && after.name == before.name && after.script == before.script
    && after.source == (if key == SOURCE then v else before.source)
    && after.alias == (if key == ALIAS then v == "1" else before.alias)
    && after.originPath == (if key == ORIGIN_PATH then v else before.originPath)
    && after.description == (if key == DESCRIPTION then v else before.description)
    && after.role == (if key == ROLE then v else before.role)
    && after.targetSystem == (if key == TARGET_SYSTEM then v else before.targetSystem)
    && after.capabilities == (if key == CAPABILITIES then NonEmptyPieces(v, '\n') else before.capabilities)
    && after.ecosystemScopes == (if key == ECOSYSTEM_SCOPES then NonEmptyPieces(v, '\n') else before.ecosystemScopes)
    && after.writeScopes == (if key == WRITE_SCOPES then WriteScopesFrom(v) else before.writeScopes)
    && after.networkScopes == (if key == NETWORK_SCOPES then NetworkScopesFrom(v) else before.networkScopes)
    && after.privilegeLevel == (if key == PRIVILEGE_LEVEL then v else before.privilegeLevel)
    && after.scriptSha256 == (if key == SCRIPT_SHA256 then v else before.scriptSha256)
    && after.bootstrapSha256 == (if key == BOOTSTRAP_SHA256 then v else before.bootstrapSha256)
    && after.bundleSource == (if key == BUNDLE_SOURCE then v == "1" else before.bundleSource)
    && after.bundlePath == (if key == BUNDLE_PATH then v else before.bundlePath)
    && after.bootstrapScript == (if key == BOOTSTRAP then v else before.bootstrapScript)
  }

  lemma ValueReplaces(name: string, script: string, before: HeaderKey -> string, after: HeaderKey -> string, key: HeaderKey, v: string)
    requires forall k :: after(k) == if key == k then v else before(k)
    ensures Replaces(RecordOf(name, script, before), RecordOf(name, script, after), key, v)
  {
    hide WriteScopesFrom, NetworkScopesFrom, NonEmptyPieces;
  }

  lemma FieldReplaces(name: string, script: string, fields: seq<Field>, field: Field)
    ensures Replaces(RecordIn(name, script, fields), RecordIn(name, script, fields + [field]), HeaderKeyOf(field.0), field.1)
  {
    hide HeaderKeyOf, RecordOf, ValueOf;
    var before, after := ValuesIn(fields), ValuesIn(fields + [field]);
    forall k ensures after(k) == if HeaderKeyOf(field.0) == k then field.1 else before(k) {
      ValueMore(fields, field, k);
    }
    ValueReplaces(name, script, before, after, HeaderKeyOf(field.0), field.1);
  }

  lemma AssignedReplaces(before: RegistryRecord, after: RegistryRecord, key: HeaderKey, v: string)
    requires Replaces(before, after, key, v) && !((key == ALIAS || key == BUNDLE_SOURCE) && v != "1" && v != "0")
    ensures FieldAssigned(before, key, v) == Some(after)
  {
    hide WriteScopesFrom, NetworkScopesFrom, NonEmptyPieces;
  }

  lemma RecordMore(name: string, script: string, fields: seq<Field>, field: Field)
    ensures var next := FieldAssigned(RecordIn(name, script, fields), HeaderKeyOf(field.0), field.1);
            if BadFlag(field) then next.None? else next == Some(RecordIn(name, script, fields + [field]))
  {
    FieldReplaces(name, script, fields, field);
    hide RecordIn, HeaderKeyOf, Replaces, WriteScopesFrom, NetworkScopesFrom, NonEmptyPieces;
    if !BadFlag(field) {
      AssignedReplaces(RecordIn(name, script, fields), RecordIn(name, script, fields + [field]), HeaderKeyOf(field.0), field.1);
      hide FieldAssigned;
    }
  }

  lemma NoHeaderFields(name: string, script: string)
    ensures RecordIn(name, script, []) ==
            RegistryRecord(name, "", false, "", "", "", "", [], [], [], [], "", "", "", script, "", "", false)
  {
  }

  method DeserializeRecord(name: string, payload: string) returns (result: Option<RegistryRecord>)
    ensures result == RecordFrom(name, payload)
  {
    hide RecordIn, FieldAssigned, Find, Unescape, Pieces, Accepted, BadFlag, FindSeparator;
    var separator := FindSeparator(payload);
    if separator == |payload| {
      return None;
    }
    var script := payload[separator + 5..];
    var record := RegistryRecord(name, "", false, "", "", "", "", [], [], [], [], "", "", "", script, "", "", false);
    NoHeaderFields(name, script);
    var lines := Pieces(payload[..separator], '\n');
    ghost var fields: seq<Field> := [];
    for k := 0 to |lines|
      invariant fields == FieldsOf(lines[..k]) && record == RecordIn(name, script, fields)
      invariant forall field :: field in fields ==> !BadFlag(field)
    {
      var line := lines[k];
      assert lines[..k + 1][..k] == lines[..k];
      var equals := Find(line, '=');
      if equals == |line| {
        continue;
      }
      var key, value := line[..equals], Unescape(line[equals + 1..]);
      ghost var before := fields;
      fields := fields + [(key, value)];
      RecordMore(name, script, before, (key, value));
      var next := FieldAssigned(record, HeaderKeyOf(key), value);
      if next.None? {
        FieldsPrefix(lines, k + 1);
        assert fields[|before|] == (key, value) && fields[|before|] == ReadFields(payload[..separator])[|before|];
        return None;
      }
      record := next.value;
    }
    assert lines[..|lines|] == lines;
    result := if Accepted(record) then Some(record) else None;
  }
}
