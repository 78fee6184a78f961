// The text format shared by the transaction, history and registry stores:
// one key=value line per field, with backslash and newline escaped in the value.
module FieldLines {
  import opened Sequences

  // ---------------------------------------------------------- find and split

  /** Position of the first c in s; |s| if there is none. */
  function Find(s: string, c: char): (k: nat)
    ensures k <= |s| && (k < |s| ==> s[k] == c)
    ensures c !in s[..k]
  {
    if s == "" || s[0] == c then 0
    else
      var k := Find(s[1..], c);
      assert s[..k + 1] == [s[0]] + s[1..][..k];
      k + 1
  }

  lemma {:induction false} FindIn(a: string, c: char, b: string)
    requires c !in a
    ensures Find(a + [c] + b, c) == |a|
  {
    if a != "" {
      FindIn(a[1..], c, b);
      assert (a + [c] + b)[1..] == a[1..] + [c] + b;
      assert a[0] in a;
    }
  }

  /** Two texts agree around their first separator exactly when their parts agree. */
  lemma SplitUnique(separator: char, a: string, x: string, b: string, y: string)
    requires separator !in a && separator !in b
    ensures a + [separator] + x == b + [separator] + y <==> a == b && x == y
  {
    if a + [separator] + x == b + [separator] + y {
      FindIn(a, separator, x);
      FindIn(b, separator, y);
      assert (a + [separator] + x)[..|a|] == a && (b + [separator] + y)[..|b|] == b;
      assert (a + [separator] + x)[|a| + 1..] == x && (b + [separator] + y)[|b| + 1..] == y;
    }
  }

  lemma {:induction false} FindNone(s: string, c: char)
    requires c !in s
    ensures Find(s, c) == |s|
  {
    if s != "" {
      assert s[0] in s;
      FindNone(s[1..], c);
    }
  }

  /** What repeated std::getline calls read: no piece follows a final separator. */
  function Pieces(s: string, separator: char): seq<string>
    decreases |s|
  {
    if s == "" then []
    else
      var k := Find(s, separator);
      if k == |s| then [s] else [s[..k]] + Pieces(s[k + 1..], separator)
  }

  lemma PiecesFirst(piece: string, separator: char, rest: string)
    requires separator !in piece
    ensures Pieces(piece + [separator] + rest, separator) == [piece] + Pieces(rest, separator)
  {
    FindIn(piece, separator, rest);
    var s := piece + [separator] + rest;
    assert s[..|piece|] == piece && s[|piece| + 1..] == rest;
  }

  lemma PiecesLast(piece: string, separator: char)
    requires separator !in piece && piece != ""
    ensures Pieces(piece, separator) == [piece]
  {
    FindNone(piece, separator);
  }

  lemma {:induction false} PiecesAreFree(s: string, separator: char)
    ensures forall piece :: piece in Pieces(s, separator) ==> separator !in piece
    decreases |s|
  {
    if s != "" {
      var k := Find(s, separator);
      if k < |s| {
        PiecesAreFree(s[k + 1..], separator);
      } else {
        assert s[..k] == s;
      }
    }
  }

  /** The parts with a separator between them. */
  function Join(parts: seq<string>, separator: char): string {
    if parts == [] then ""
    else if |parts| == 1 then parts[0]
    else parts[0] + [separator] + Join(parts[1..], separator)
  }

  function NonEmpty(): string -> bool {
    (piece: string) => piece != ""
  }

  /** The reading loops that skip empty pieces. */
  function NonEmptyPieces(s: string, separator: char): seq<string> {
    Filter(NonEmpty(), Pieces(s, separator))
  }

  /** Each part can be told apart after joining. */
  predicate Separable(parts: seq<string>, separator: char) {
    forall part :: part in parts ==> part != "" && separator !in part
  }

  lemma SeparableRest(parts: seq<string>, separator: char)
    requires parts != [] && Separable(parts, separator)
    ensures Separable(parts[1..], separator)
  {
    assert forall part :: part in parts[1..] ==> part in parts;
  }

  lemma {:induction false} PiecesOfJoin(parts: seq<string>, separator: char)
    requires Separable(parts, separator)
    ensures Pieces(Join(parts, separator), separator) == parts
  {
    if |parts| == 1 {
      assert parts[0] in parts;
      PiecesLast(parts[0], separator);
    } else if parts != [] {
      assert parts[0] in parts;
      SeparableRest(parts, separator);
      PiecesOfJoin(parts[1..], separator);
      PiecesFirst(parts[0], separator, Join(parts[1..], separator));
    }
  }

  /** Splitting what was joined gives the parts back exactly when none is empty or holds a separator. */
  lemma JoinRoundTrip(parts: seq<string>, separator: char)
    ensures NonEmptyPieces(Join(parts, separator), separator) == parts <==> Separable(parts, separator)
  {
    var joined := Join(parts, separator);
    if Separable(parts, separator) {
      PiecesOfJoin(parts, separator);
      FilterAll(NonEmpty(), parts);
    }
    PiecesAreFree(joined, separator);
    FilterMembers(NonEmpty(), Pieces(joined, separator));
  }

  // ---------------------------------------------------------------- escaping

  function EscapeChar(c: char): string {
    if c == '\\' then "\\\\" else if c == '\n' then "\\n" else [c]
  }

  function Escape(s: string): string {
    if s == "" then "" else Escape(s[..|s| - 1]) + EscapeChar(s[|s| - 1])
  }

  /** A backslash stands for the next character, or a newline before n; one at the very end is dropped. */
  function Unescape(s: string): string {
    if s == "" then ""
    else if s[0] != '\\' then [s[0]] + Unescape(s[1..])
    else if |s| == 1 then ""
    else [if s[1] == 'n' then '\n' else s[1]] + Unescape(s[2..])
  }

  lemma UnescapeOne(c: char, rest: string)
    ensures Unescape(EscapeChar(c) + rest) == [c] + Unescape(rest)
  {
    var s := EscapeChar(c) + rest;
    if |EscapeChar(c)| == 2 {
      assert s[2..] == rest;
    } else {
      assert s[1..] == rest;
    }
  }

  lemma {:induction false} UnescapeEscaped(s: string, rest: string)
    ensures Unescape(Escape(s) + rest) == s + Unescape(rest)
  {
    if s == "" {
      assert Escape(s) + rest == rest;
    } else {
      var init, last := s[..|s| - 1], s[|s| - 1];
      var tail := EscapeChar(last) + rest;
      UnescapeEscaped(init, tail);
      UnescapeOne(last, rest);
      hide Unescape, EscapeChar;
      Associate(Escape(init), EscapeChar(last), rest);
      Associate(init, [last], Unescape(rest));
      assert s == init + [last];
    }
  }

  lemma EscapeRoundTrip(s: string)
    ensures Unescape(Escape(s)) == s
  {
    UnescapeEscaped(s, "");
    assert Escape(s) + "" == Escape(s);
    assert s + Unescape("") == s;
  }

  /** Escaping is injective and leaves no newline. */
  lemma EscapeInjective(s: string, t: string)
    ensures Escape(s) == Escape(t) ==> s == t
  {
    EscapeRoundTrip(s);
    EscapeRoundTrip(t);
  }

  lemma {:induction false} EscapedHasNoNewline(s: string)
    ensures '\n' !in Escape(s)
  {
    if s != "" {
      EscapedHasNoNewline(s[..|s| - 1]);
    }
  }

  predicate Plain(s: string) {
    '\\' !in s && '\n' !in s
  }

  lemma {:induction false} EscapePlain(s: string)
    requires Plain(s)
    ensures Escape(s) == s
  {
    if s != "" {
      assert s == s[..|s| - 1] + [s[|s| - 1]];
      EscapePlain(s[..|s| - 1]);
    }
  }

  lemma {:induction false} UnescapePlain(a: string, rest: string)
    requires '\\' !in a
    ensures Unescape(a + rest) == a + Unescape(rest)
  {
    if a == "" {
      assert a + rest == rest;
    } else {
      assert a[0] in a;
      UnescapePlain(a[1..], rest);
      assert (a + rest)[1..] == a[1..] + rest;
      assert Unescape(a + rest) == [a[0]] + (a[1..] + Unescape(rest));
      hide Unescape;
      Associate([a[0]], a[1..], Unescape(rest));
      assert [a[0]] + a[1..] == a;
    }
  }

  lemma {:induction false} EscapeConcat(a: string, b: string)
    ensures Escape(a + b) == Escape(a) + Escape(b)
  {
    if b == "" {
      assert a + b == a;
    } else {
      var init, last := b[..|b| - 1], b[|b| - 1];
      EscapeConcat(a, init);
      assert (a + b)[..|a + b| - 1] == a + init && (a + b)[|a + b| - 1] == last;
      assert Escape(a + b) == Escape(a + init) + EscapeChar(last);
      assert Escape(b) == Escape(init) + EscapeChar(last);
      hide Escape, EscapeChar;
      Associate(Escape(a), Escape(init), EscapeChar(last));
    }
  }

  /** escape_field of all three stores. */
  method EscapeField(value: string) returns (escaped: string)
    ensures escaped == Escape(value)
  {
    escaped := "";
    for k := 0 to |value|
      invariant escaped == Escape(value[..k])
    {
      var c := value[k];
      assert value[..k + 1][..k] == value[..k];
      if c == '\\' || c == '\n' {
        escaped := escaped + ['\\'];
        escaped := escaped + [if c == '\n' then 'n' else c];
        continue;
      }
      escaped := escaped + [c];
    }
    assert value[..|value|] == value;
  }

  /** What unescaping still has to produce at position index. */
  ghost function Remaining(value: string, index: nat, escaped: bool): string
    requires index <= |value| && (escaped ==> index > 0)
  {
    Unescape(if escaped then value[index - 1..] else value[index..])
  }

  lemma UnescapeStep(done: string, value: string, index: nat, escaped: bool)
    requires index < |value| && (escaped ==> index > 0 && value[index - 1] == '\\')
    ensures var c := value[index];
            done + Remaining(value, index, escaped) ==
            if escaped then done + [if c == 'n' then '\n' else c] + Remaining(value, index + 1, false)
            else if c == '\\' then done + Remaining(value, index + 1, true)
            else done + [c] + Remaining(value, index + 1, false)
  {
    var c := value[index];
    if escaped {
      assert value[index - 1..][2..] == value[index + 1..];
      Associate(done, [if c == 'n' then '\n' else c], Remaining(value, index + 1, false));
    } else {
      assert value[index..][1..] == value[index + 1..];
      Associate(done, [c], Remaining(value, index + 1, false));
    }
  }

  lemma SplitAt(s: string, k: nat)
    requires k <= |s|
    ensures s[..k] + s[k..] == s
  {
  }

  lemma NothingEscaped(value: string)
    requires '\\' !in value
    ensures Unescape(value) == value
  {
    assert Unescape("") == "" && value + "" == value;
    UnescapePlain(value, "");
  }

  lemma UnescapeStart(value: string, firstEscape: nat)
    requires firstEscape == Find(value, '\\')
    ensures value[..firstEscape] + Remaining(value, firstEscape, false) == Unescape(value)
    ensures firstEscape == |value| ==> Unescape(value) == value
  {
    hide Unescape, Find;
    SplitAt(value, firstEscape);
    UnescapePlain(value[..firstEscape], value[firstEscape..]);
    if firstEscape == |value| {
      assert value[..firstEscape] == value;
      NothingEscaped(value);
    }
  }

  lemma RemainingNone(value: string, escaped: bool)
    requires escaped ==> value != "" && value[|value| - 1] == '\\'
    ensures Remaining(value, |value|, escaped) == ""
  {
  }

  /** unescape_field of all three stores; two of them copy the part before the first escape in one go. */
  method UnescapeField(value: string) returns (unescaped: string)
    ensures unescaped == Unescape(value)
  {
    hide Unescape, Remaining;
    var firstEscape := Find(value, '\\');
    UnescapeStart(value, firstEscape);
    if firstEscape == |value| {
      return value;
    }
    unescaped := value[..firstEscape];
    var escaped := false;
    for index := firstEscape to |value|
      invariant escaped ==> index > firstEscape && value[index - 1] == '\\'
      invariant unescaped + Remaining(value, index, escaped) == Unescape(value)
    {
      UnescapeStep(unescaped, value, index, escaped);
      var c := value[index];
      if !escaped && c == '\\' {
        escaped := true;
        continue;
      }
      if escaped {
        unescaped := unescaped + [if c == 'n' then '\n' else c];
        escaped := false;
        continue;
      }
      unescaped := unescaped + [c];
    }
    RemainingNone(value, escaped);
  }

  // ------------------------------------------------------------ field lines

  type Field = (string, string)

  /** The field on a line; a line without '=' holds none. */
  function FieldOf(line: string): Option<Field> {
    var equals := Find(line, '=');
    if equals == |line| then None else Some((line[..equals], Unescape(line[equals + 1..])))
  }

  function FieldsOf(lines: seq<string>): seq<Field> {
    if lines == [] then []
    else
      FieldsOf(lines[..|lines| - 1]) +
      match FieldOf(lines[|lines| - 1]) case None => [] case Some(field) => [field]
  }

  /** The fields a decoder sees in a text, in order. */
  function ReadFields(text: string): seq<Field> {
    FieldsOf(Pieces(text, '\n'))
  }

  function RenderField(field: Field): string {
    field.0 + "=" + Escape(field.1) + "\n"
  }

  function Render(fields: seq<Field>): string {
    if fields == [] then "" else RenderField(fields[0]) + Render(fields[1..])
  }

  predicate IsKey(key: string) {
    '=' !in key && '\n' !in key
  }

  lemma {:induction false} FieldsConcat(a: seq<string>, b: seq<string>)
    ensures FieldsOf(a + b) == FieldsOf(a) + FieldsOf(b)
  {
    if b == [] {
      assert a + b == a;
    } else {
      hide FieldsOf, FieldOf;
      var init, last := b[..|b| - 1], b[|b| - 1];
      assert b == init + [last];
      FieldsConcat(a, init);
      FieldsSnoc(init, last);
      FieldsSnoc(a + init, last);
      Associate(a, init, [last]);
      Associate(FieldsOf(a), FieldsOf(init), if FieldOf(last).Some? then [FieldOf(last).value] else []);
    }
  }

  lemma FieldsSnoc(lines: seq<string>, line: string)
    ensures FieldsOf(lines + [line]) == FieldsOf(lines) + if FieldOf(line).Some? then [FieldOf(line).value] else []
  {
    assert (lines + [line])[..|lines|] == lines;
    hide FieldOf;
  }

  lemma FieldsPrefix(lines: seq<string>, k: nat)
    requires k <= |lines|
    ensures FieldsOf(lines[..k]) <= FieldsOf(lines)
  {
    hide FieldsOf;
    FieldsConcat(lines[..k], lines[k..]);
    assert lines[..k] + lines[k..] == lines;
  }

  lemma LineReadsBack(field: Field)
    requires IsKey(field.0)
    ensures '\n' !in field.0 + "=" + Escape(field.1)
    ensures FieldOf(field.0 + "=" + Escape(field.1)) == Some(field)
  {
    EscapedHasNoNewline(field.1);
    EscapeRoundTrip(field.1);
    FindIn(field.0, '=', Escape(field.1));
    var line := field.0 + ['='] + Escape(field.1);
    assert line[..|field.0|] == field.0 && line[|field.0| + 1..] == Escape(field.1);
    assert line == field.0 + "=" + Escape(field.1);
  }

  lemma OneField(field: Field)
    requires IsKey(field.0)
    ensures FieldsOf([field.0 + "=" + Escape(field.1)]) == [field]
  {
    LineReadsBack(field);
    var lines := [field.0 + "=" + Escape(field.1)];
    assert lines[..0] == [] && FieldsOf(lines[..0]) == [];
  }

  lemma RenderedLine(fields: seq<Field>, rest: string)
    requires fields != []
    ensures Render(fields) + rest == fields[0].0 + "=" + Escape(fields[0].1) + ['\n'] + (Render(fields[1..]) + rest)
  {
    hide Escape;
    assert RenderField(fields[0]) == fields[0].0 + "=" + Escape(fields[0].1) + ['\n'];
  }

  lemma ReadFirst(field: Field, tail: string)
    requires IsKey(field.0)
    ensures ReadFields(field.0 + "=" + Escape(field.1) + ['\n'] + tail) == [field] + ReadFields(tail)
  {
    LineReadsBack(field);
    OneField(field);
    var line := field.0 + "=" + Escape(field.1);
    hide Escape, FieldsOf, Pieces, IsKey;
    PiecesFirst(line, '\n', tail);
    FieldsConcat([line], Pieces(tail, '\n'));
  }

  /** Decoding reads back every field that was written, whatever characters its value holds. */
  lemma {:induction false} FieldsRoundTrip(fields: seq<Field>, rest: string)
    requires forall k :: 0 <= k < |fields| ==> IsKey(fields[k].0)
    ensures ReadFields(Render(fields) + rest) == fields + ReadFields(rest)
  {
    hide Escape, ReadFields, IsKey;
    if fields == [] {
      assert Render(fields) + rest == rest;
      assert fields + ReadFields(rest) == ReadFields(rest);
    } else {
      FieldsRoundTrip(fields[1..], rest);
      RenderedLine(fields, rest);
      ReadFirst(fields[0], Render(fields[1..]) + rest);
      hide Render;
      assert [fields[0]] + (fields[1..] + ReadFields(rest)) == fields + ReadFields(rest);
    }
  }

  /** The value a decoder ends up with for a key: the last one read. */
  function Lookup(fields: seq<Field>, key: string): Option<string> {
    if fields == [] then None
    else if fields[|fields| - 1].0 == key then Some(fields[|fields| - 1].1)
    else Lookup(fields[..|fields| - 1], key)
  }

  function TextAt(fields: seq<Field>, key: string): string {
    match Lookup(fields, key) case None => "" case Some(value) => value
  }

  lemma {:induction false} LookupAt(fields: seq<Field>, k: nat)
    requires k < |fields| && forall i, j :: 0 <= i < j < |fields| ==> fields[i].0 != fields[j].0
    ensures Lookup(fields, fields[k].0) == Some(fields[k].1)
  {
    if k < |fields| - 1 {
      LookupAt(fields[..|fields| - 1], k);
    }
  }

  lemma LookupMore(fields: seq<Field>, field: Field, key: string)
    ensures Lookup(fields + [field], key) == if field.0 == key then Some(field.1) else Lookup(fields, key)
  {
    assert (fields + [field])[..|fields|] == fields;
  }
}
