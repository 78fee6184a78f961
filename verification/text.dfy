// Strings as the library functions the program calls see them: byte-wise order,
// and the decimal numbers std::to_string writes and std::stoul, std::stoull and std::stoi read.
module Text {
  import opened Sequences

  /** std::string's operator<. */
  predicate StringLess(a: string, b: string) {
    b != "" && (a == "" || a[0] < b[0] || (a[0] == b[0] && StringLess(a[1..], b[1..])))
  }

  lemma {:induction false} StringLessIrreflexive(a: string)
    ensures !StringLess(a, a)
  {
    if a != "" {
      StringLessIrreflexive(a[1..]);
    }
  }

  lemma {:induction false} StringLessTotal(a: string, b: string)
    ensures a == b || StringLess(a, b) || StringLess(b, a)
  {
    if a != "" && b != "" && a[0] == b[0] {
      StringLessTotal(a[1..], b[1..]);
      assert a == [a[0]] + a[1..] && b == [b[0]] + b[1..];
    }
  }

  lemma {:induction false} StringLessTransitive(a: string, b: string, c: string)
    requires StringLess(a, b) && StringLess(b, c)
    ensures StringLess(a, c)
  {
    if a != "" && a[0] == b[0] && b[0] == c[0] {
      StringLessTransitive(a[1..], b[1..], c[1..]);
    }
  }

  /** The usual meaning: the first difference decides, and a proper prefix is less. */
  lemma {:induction false} StringLessIsLexicographic(a: string, b: string)
    ensures StringLess(a, b) <==>
            || a < b
            || exists k :: 0 <= k < |a| && k < |b| && a[..k] == b[..k] && a[k] < b[k]
  {
    if a != "" && b != "" && a[0] == b[0] {
      var s, t := a[1..], b[1..];
      StringLessIsLexicographic(s, t);
      assert a == [a[0]] + s && b == [b[0]] + t;
      if k :| 0 <= k < |s| && k < |t| && s[..k] == t[..k] && s[k] < t[k] {
        assert a[..k + 1] == [a[0]] + s[..k] && b[..k + 1] == [b[0]] + t[..k];
        assert a[k + 1] < b[k + 1];
      }
      if k :| 0 <= k < |a| && k < |b| && a[..k] == b[..k] && a[k] < b[k] {
        assert k > 0;
        assert s[..k - 1] == a[..k][1..] && t[..k - 1] == b[..k][1..];
        assert s[k - 1] < t[k - 1];
      }
    } else if a != "" && b != "" {
      if a[0] < b[0] {
        assert a[..0] == b[..0];
      }
      forall k | 0 < k < |a| && k < |b| ensures a[..k] != b[..k] {
        assert a[..k][0] == a[0] && b[..k][0] == b[0];
      }
    }
  }

  function LowerChar(c: char): char {
    if 'A' <= c <= 'Z' then c + ' ' else c
  }

  /** The to_lower_copy helpers. */
  function ToLower(s: string): (r: string)
    ensures |r| == |s|
    ensures forall k :: 0 <= k < |s| ==> r[k] == LowerChar(s[k])
  {
    seq(|s|, k requires 0 <= k < |s| => LowerChar(s[k]))
  }

  // ---------------------------------------------------------------- numbers

  predicate IsDigit(c: char) {
    '0' <= c <= '9'
  }

  predicate IsSpace(c: char) {
    c == ' ' || c == '\t' || c == '\n' || c == '\r' || c == '\U{B}' || c == '\U{C}'
  }

  function SkipSpaces(s: string): string {
    if s != "" && IsSpace(s[0]) then SkipSpaces(s[1..]) else s
  }

  function LeadingDigits(s: string): string {
    if s != "" && IsDigit(s[0]) then [s[0]] + LeadingDigits(s[1..]) else ""
  }

  function DigitsValue(s: string): nat
    requires forall c :: c in s ==> IsDigit(c)
  {
    if s == "" then 0
    else
      var digit := s[|s| - 1];
      assert digit in s && IsDigit(digit);
      DigitsValue(s[..|s| - 1]) * 10 + ((digit as int) - ('0' as int))
  }

  lemma {:induction false} LeadingDigitsAreDigits(s: string)
    ensures forall c :: c in LeadingDigits(s) ==> IsDigit(c)
  {
    if s != "" && IsDigit(s[0]) {
      LeadingDigitsAreDigits(s[1..]);
    }
  }

  lemma {:induction false} AllLeading(s: string)
    requires forall c :: c in s ==> IsDigit(c)
    ensures LeadingDigits(s) == s
  {
    if s != "" {
      AllLeading(s[1..]);
    }
  }

  /** What strtoul, strtoull and strtol scan: white space, a sign, digits; the rest is ignored. */
  function ScanNumber(s: string): Option<(bool, nat)> {
    var t := SkipSpaces(s);
    var negative := t != "" && t[0] == '-';
    var digits := LeadingDigits(if t != "" && (t[0] == '-' || t[0] == '+') then t[1..] else t);
    LeadingDigitsAreDigits(if t != "" && (t[0] == '-' || t[0] == '+') then t[1..] else t);
    if digits == "" then None else Some((negative, DigitsValue(digits)))
  }

  const TWO_TO_64: int := 0x1_0000_0000_0000_0000
  const TWO_TO_31: int := 0x8000_0000

  /** std::stoull and, where unsigned long has 64 bits, std::stoul; None for the exceptions. */
  function ParseUnsigned(s: string): Option<nat> {
    match ScanNumber(s)
    case None => None
    case Some((negative, value)) =>
      if value >= TWO_TO_64 then None
      else if negative && value > 0 then Some(TWO_TO_64 - value)
      else Some(value)
  }

  /** std::stoi; None for the exceptions. */
  function ParseInt(s: string): Option<int> {
    match ScanNumber(s)
    case None => None
    case Some((negative, value)) =>
      var signed: int := if negative then 0 - value else value;
      if -TWO_TO_31 <= signed < TWO_TO_31 then Some(signed) else None
  }

  /** std::to_string. */
  function Decimal(n: nat): (s: string)
    ensures s != "" && forall c :: c in s ==> IsDigit(c)
  {
    var last := ['0' + (n % 10) as char];
    if n < 10 then last else Decimal(n / 10) + last
  }

  function DecimalInt(x: int): string {
    if x < 0 then "-" + Decimal(-x) else Decimal(x)
  }

  lemma {:induction false} DecimalValue(n: nat)
    ensures DigitsValue(Decimal(n)) == n
  {
    var s := Decimal(n);
    assert s[|s| - 1] as int - '0' as int == n % 10;
    if n >= 10 {
      DecimalValue(n / 10);
      assert s[..|s| - 1] == Decimal(n / 10);
    } else {
      assert s[..|s| - 1] == "";
    }
  }

  lemma DecimalScans(n: nat)
    ensures ScanNumber(Decimal(n)) == Some((false, n))
  {
    var s := Decimal(n);
    assert s[0] in s;
    AllLeading(s);
    DecimalValue(n);
  }

  lemma UnsignedRoundTrip(n: nat)
    requires n < TWO_TO_64
    ensures ParseUnsigned(Decimal(n)) == Some(n)
  {
    DecimalScans(n);
  }

  lemma IntRoundTrip(x: int)
    requires -TWO_TO_31 <= x < TWO_TO_31
    ensures ParseInt(DecimalInt(x)) == Some(x)
  {
    if x < 0 {
      var s := Decimal(-x);
      assert DecimalInt(x)[1..] == s;
      AllLeading(s);
      DecimalValue(-x);
    } else {
      DecimalScans(x);
    }
  }
}
