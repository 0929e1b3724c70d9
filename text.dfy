/** Text helpers the checkpoint projections rely on: the UTF-8 byte length of
    a Rust `String` (`str::len`), decimal formatting of an integer (`{}`) and
    the `%H:%M:%S` clock format. Each formatter comes with its parser, and a
    lemma shows that parsing undoes formatting. */
module Text {

  /** Bytes UTF-8 uses to encode one Unicode scalar value. */
  function Utf8Width(c: char): (w: nat)
    ensures 1 <= w <= 4
    ensures w == 1 <==> c as int < 0x80
  {
    if c as int < 0x80 then 1
    else if c as int < 0x800 then 2
    else if c as int < 0x1_0000 then 3
    else 4
  }

  /** UTF-8 byte length of a string, what Rust's `String::len` returns. */
  function ByteLength(s: string): (n: nat)
    ensures |s| <= n <= 4 * |s|
  {
    if s == [] then 0 else Utf8Width(s[0]) + ByteLength(s[1..])
  }

  predicate IsAscii(s: string)
  {
    forall i :: 0 <= i < |s| ==> s[i] as int < 0x80
  }

  /** Byte length is additive over concatenation. */
  lemma {:induction false} ByteLengthAppend(a: string, b: string)
    ensures ByteLength(a + b) == ByteLength(a) + ByteLength(b)
  {
    if a == [] {
      assert a + b == b;
    } else {
      assert (a + b)[1..] == a[1..] + b;
      ByteLengthAppend(a[1..], b);
    }
  }

  /** An ASCII string has exactly one byte per character, and any other string has more. */
  lemma {:induction false} AsciiByteLength(s: string)
    ensures ByteLength(s) == |s| <==> IsAscii(s)
  {
    if s != [] {
      AsciiByteLength(s[1..]);
      assert IsAscii(s) <==> s[0] as int < 0x80 && IsAscii(s[1..]) by {
        if IsAscii(s) {
          forall i | 0 <= i < |s[1..]| ensures s[1..][i] as int < 0x80 {
            assert s[1..][i] == s[i + 1];
          }
        }
        if s[0] as int < 0x80 && IsAscii(s[1..]) {
          forall i | 0 <= i < |s| ensures s[i] as int < 0x80 {
            if i > 0 { assert s[i] == s[1..][i - 1]; }
          }
        }
      }
    }
  }

  predicate IsDigit(c: char)
  {
    '0' <= c <= '9'
  }

  predicate AllDigits(s: string)
  {
    forall i :: 0 <= i < |s| ==> IsDigit(s[i])
  }

  function DigitChar(d: nat): (c: char)
    requires d < 10
    ensures IsDigit(c)
  {
    ('0' as int + d) as char
  }

  function DigitValue(c: char): (d: nat)
    requires IsDigit(c)
    ensures d < 10
  {
    c as int - '0' as int
  }

  /** Decimal text of `n` as Rust's `{}` writes it: at least one digit, no leading zero. */
  function Decimal(n: nat): (s: string)
    ensures |s| >= 1 && AllDigits(s)
    ensures s[0] == '0' ==> n == 0
  {
    if n < 10 then [DigitChar(n)] else Decimal(n / 10) + [DigitChar(n % 10)]
  }

  /** The number a string of digits denotes. */
  function DecimalValue(s: string): nat
    requires AllDigits(s)
  {
    if s == [] then 0 else 10 * DecimalValue(s[..|s| - 1]) + DigitValue(s[|s| - 1])
  }

  /** Parsing the decimal text of `n` gives back `n`. */
  lemma {:induction false} DecimalRoundTrip(n: nat)
    ensures DecimalValue(Decimal(n)) == n
  {
    if n >= 10 {
      var s := Decimal(n);
      assert s[..|s| - 1] == Decimal(n / 10);
      DecimalRoundTrip(n / 10);
    }
  }

  /** Distinct numbers never share a decimal text. */
  lemma DecimalInjective(m: nat, n: nat)
    requires Decimal(m) == Decimal(n)
    ensures m == n
  {
    DecimalRoundTrip(m);
    DecimalRoundTrip(n);
  }

  /** A zero-padded two-digit field, as in `%H`, `%M` and `%S`. */
  function TwoDigits(v: nat): (s: string)
    requires v < 100
    ensures |s| == 2 && AllDigits(s)
    ensures 10 * DigitValue(s[0]) + DigitValue(s[1]) == v
  {
    [DigitChar(v / 10), DigitChar(v % 10)]
  }

  const SECONDS_PER_DAY: int := 86400

  /** `%H:%M:%S` of a second of the day. */
  function ClockText(secondOfDay: nat): (s: string)
    requires secondOfDay < SECONDS_PER_DAY
    ensures |s| == 8 && s[2] == ':' && s[5] == ':'
  {
    TwoDigits(secondOfDay / 3600) + ":" + TwoDigits(secondOfDay % 3600 / 60) + ":" + TwoDigits(secondOfDay % 60)
  }

  predicate IsClockText(s: string)
  {
    |s| == 8 && s[2] == ':' && s[5] == ':'
    && IsDigit(s[0]) && IsDigit(s[1]) && IsDigit(s[3]) && IsDigit(s[4]) && IsDigit(s[6]) && IsDigit(s[7])
  }

  /** The second of the day a `HH:MM:SS` text denotes. */
  function ClockValue(s: string): int
    requires IsClockText(s)
  {
    var h := 10 * DigitValue(s[0]) + DigitValue(s[1]);
    var m := 10 * DigitValue(s[3]) + DigitValue(s[4]);
    var sec := 10 * DigitValue(s[6]) + DigitValue(s[7]);
    3600 * h + 60 * m + sec
  }

  /** The clock text is well formed and parses back to the second of the day it shows. */
  lemma ClockRoundTrip(secondOfDay: nat)
    requires secondOfDay < SECONDS_PER_DAY
    ensures IsClockText(ClockText(secondOfDay))
    ensures ClockValue(ClockText(secondOfDay)) == secondOfDay
  {
    var s := ClockText(secondOfDay);
    var h, m, sec := secondOfDay / 3600, secondOfDay % 3600 / 60, secondOfDay % 60;
    assert s[..2] == TwoDigits(h);
    assert s[3..5] == TwoDigits(m);
    assert s[6..] == TwoDigits(sec);
    assert 3600 * h + 60 * m + sec == secondOfDay;
  }
}
