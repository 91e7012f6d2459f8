/**
 * `formatXmlDateTime` of lib/utils.js: a UTC instant written as
 * `year-MM-DDThh:mm:ss.mmmZ`, the `xs:dateTime` form that section 1.3.3 of
 * the SAML 2.0 Core specification asks for, with millisecond precision.
 * The month is printed 1-based; the two-digit fields are padded by
 * `("0" + n).slice(-2)` and the milliseconds by `("00" + n).slice(-3)`.
 */
module XmlDateTime {
  import opened Js

  /** What the `getUTC…` accessors of a JavaScript `Date` return; `month` is 0-based. */
  datatype UtcFields = UtcFields(year: int, month: nat, date: nat, hours: nat, minutes: nat, seconds: nat, millis: nat)

  /** The ranges the accessors keep to; JavaScript dates have no leap seconds. */
  predicate InRange(d: UtcFields) {
    d.month < 12 && 1 <= d.date <= 31 && d.hours < 24 && d.minutes < 60 && d.seconds < 60 && d.millis < 1000
  }

  /** The decimal digit for `d`. */
  function Digit(d: nat): (c: char)
    requires d < 10
    ensures '0' <= c <= '9'
  {
    (48 + d) as char
  }

  predicate IsDigit(c: char) {
    '0' <= c <= '9'
  }

  /** `String(n)` for a non-negative integer: its decimal digits, no leading zero. */
  function NatToString(n: nat): (s: string)
    ensures |s| >= 1
    ensures forall k :: 0 <= k < |s| ==> IsDigit(s[k])
    ensures n < 10 <==> |s| == 1
    decreases n
  {
    if n < 10 then [Digit(n)] else NatToString(n / 10) + [Digit(n % 10)]
  }

  /** `String(i)` for an integer: a minus sign before the digits of a negative number. */
  function IntToString(i: int): (s: string)
    ensures |s| >= 1
    ensures i < 0 <==> s[0] == '-'
  {
    if i < 0 then "-" + NatToString(-i) else NatToString(i)
  }

  /** `s.slice(-k)` for `k > 0`: the last `k` characters, or all of `s` when it is shorter. */
  function SliceLast(s: string, k: nat): (r: string)
    ensures |r| == if |s| < k then |s| else k
    ensures r == s[|s| - |r|..]
  {
    if k <= |s| then s[|s| - k..] else s
  }

  /** `("0" + n).slice(-2)`. */
  function Pad2(n: nat): string {
    SliceLast("0" + NatToString(n), 2)
  }

  /** `("00" + n).slice(-3)`. */
  function Pad3(n: nat): string {
    SliceLast("00" + NatToString(n), 3)
  }

  /** `formatXmlDateTime(date)`. */
  function FormatXmlDateTime(d: UtcFields): string {
    IntToString(d.year) + "-" + Pad2(d.month + 1) + "-" + Pad2(d.date) + "T" + Pad2(d.hours) + ":"
    + Pad2(d.minutes) + ":" + Pad2(d.seconds) + "." + Pad3(d.millis) + "Z"
  }

  /** The two digits of a number below 100, tens first. */
  function TwoDigits(n: nat): string
    requires n < 100
  {
    [Digit(n / 10), Digit(n % 10)]
  }

  /** The three digits of a number below 1000, hundreds first. */
  function ThreeDigits(n: nat): string
    requires n < 1000
  {
    [Digit(n / 100), Digit(n / 10 % 10), Digit(n % 10)]
  }

  /** Below 100, the padding yields exactly two digits with the value of `n`. */
  lemma Pad2Below100(n: nat)
    requires n < 100
    ensures Pad2(n) == TwoDigits(n)
  {
    if n >= 10 {
      assert NatToString(n) == NatToString(n / 10) + [Digit(n % 10)];
      assert NatToString(n / 10) == [Digit(n / 10)];
    }
  }

  /** Below 1000, the millisecond padding yields exactly three digits with the value of `n`. */
  lemma Pad3Below1000(n: nat)
    requires n < 1000
    ensures Pad3(n) == ThreeDigits(n)
  {
    if n >= 100 {
      assert NatToString(n) == NatToString(n / 10) + [Digit(n % 10)];
      assert NatToString(n / 10) == NatToString(n / 10 / 10) + [Digit(n / 10 % 10)];
      assert NatToString(n / 10 / 10) == [Digit(n / 100)];
    } else if n >= 10 {
      assert NatToString(n) == NatToString(n / 10) + [Digit(n % 10)];
      assert NatToString(n / 10) == [Digit(n / 10 % 10)];
    }
  }

  /** The value of a digit character. */
  function DigitValue(c: char): int {
    c as int - 48
  }

  /** The value of a string of decimal digits, read left to right. */
  function DigitsValue(s: string): int
    decreases |s|
  {
    if s == [] then 0 else DigitsValue(s[..|s| - 1]) * 10 + DigitValue(s[|s| - 1])
  }

  /** The integer a year field denotes: an optional minus sign before decimal digits. */
  function YearValue(s: string): int {
    if |s| > 0 && s[0] == '-' then -DigitsValue(s[1..]) else DigitsValue(s)
  }

  /** `s` cut into everything but its last `k` characters, and those. */
  function SplitLast(s: string, k: nat): (r: (string, string))
    requires k <= |s|
    ensures r.0 + r.1 == s && |r.1| == k
  {
    (s[..|s| - k], s[|s| - k..])
  }

  /** The text cut into the year, the six numeric fields and the separators between them. */
  datatype Pieces = Pieces(year: string, dash1: string, mon: string, dash2: string, day: string, tee: string,
                           hr: string, colon1: string, min: string, colon2: string, sec: string, dot: string,
                           ms: string, z: string)

  /**
   * Peel the fields off the end of the text, `Z`, three millisecond
   * digits, `.`, and so on back to the `-` after the year; what is left
   * is the year.
   */
  function Cut(s: string): (p: Pieces)
    requires |s| > 20
    ensures p.z == [s[|s| - 1]]
  {
    var (r1, z) := SplitLast(s, 1);
    var (r2, ms) := SplitLast(r1, 3);
    var (r3, dot) := SplitLast(r2, 1);
    var (r4, sec) := SplitLast(r3, 2);
    var (r5, colon2) := SplitLast(r4, 1);
    var (r6, min) := SplitLast(r5, 2);
    var (r7, colon1) := SplitLast(r6, 1);
    var (r8, hr) := SplitLast(r7, 2);
    var (r9, tee) := SplitLast(r8, 1);
    var (r10, day) := SplitLast(r9, 2);
    var (r11, dash2) := SplitLast(r10, 1);
    var (r12, mon) := SplitLast(r11, 2);
    var (year, dash1) := SplitLast(r12, 1);
    Pieces(year, dash1, mon, dash2, day, tee, hr, colon1, min, colon2, sec, dot, ms, z)
  }

  /** The instant the pieces denote; `None` when a separator is not the one the format writes. */
  function ReadPieces(p: Pieces): (r: Option<UtcFields>)
    ensures r.Some? ==> p.z == "Z"
  {
    if p.z == "Z" && p.dot == "." && p.colon2 == ":" && p.colon1 == ":" && p.tee == "T" && p.dash2 == "-" && p.dash1 == "-"
       && 1 <= DigitsValue(p.mon) && 0 <= DigitsValue(p.day) && 0 <= DigitsValue(p.hr) && 0 <= DigitsValue(p.min)
       && 0 <= DigitsValue(p.sec) && 0 <= DigitsValue(p.ms) then
      Some(UtcFields(YearValue(p.year), DigitsValue(p.mon) - 1, DigitsValue(p.day), DigitsValue(p.hr), DigitsValue(p.min),
                     DigitsValue(p.sec), DigitsValue(p.ms)))
    else None
  }

  /**
   * The inverse of the format: cut the text at the places the format puts
   * its separators and read the pieces; `None` when the text is too short
   * or a separator is not where the format puts it.
   */
  function ParseXmlDateTime(s: string): (r: Option<UtcFields>)
    ensures r.Some? ==> |s| > 20 && s[|s| - 1] == 'Z'
  {
    if |s| <= 20 then None else ReadPieces(Cut(s))
  }

  /** Reading the digits `NatToString` writes gives the number back. */
  lemma {:induction false} NatToStringValue(n: nat)
    ensures DigitsValue(NatToString(n)) == n
    decreases n
  {
    var s := NatToString(n);
    if n < 10 {
      assert s[..0] == [];
    } else {
      NatToStringValue(n / 10);
      assert s[..|s| - 1] == NatToString(n / 10);
    }
  }

  /** The year field reads back as the year. */
  lemma IntToStringValue(i: int)
    ensures YearValue(IntToString(i)) == i
  {
    if i < 0 {
      NatToStringValue(-i);
      assert IntToString(i)[1..] == NatToString(-i);
    } else {
      NatToStringValue(i);
    }
  }

  lemma DigitRoundTrip(d: nat)
    requires d < 10
    ensures DigitValue(Digit(d)) == d
  {
  }

  lemma TwoDigitsValue(n: nat)
    requires n < 100
    ensures DigitsValue(TwoDigits(n)) == n
  {
    var s := TwoDigits(n);
    assert s[..1] == [Digit(n / 10)];
    assert s[..1][..0] == [];
    DigitRoundTrip(n / 10);
    DigitRoundTrip(n % 10);
    assert DigitsValue(s[..1]) == n / 10;
  }

  lemma ThreeDigitsValue(n: nat)
    requires n < 1000
    ensures DigitsValue(ThreeDigits(n)) == n
  {
    var s := ThreeDigits(n);
    assert s[..2] == TwoDigits(n / 10);
    TwoDigitsValue(n / 10);
    DigitRoundTrip(n % 10);
  }

  /** Cutting a concatenation at the seam gives its two parts back. */
  lemma SplitAppend(a: string, b: string)
    ensures SplitLast(a + b, |b|) == (a, b)
  {
    assert (a + b)[..|a|] == a;
    assert (a + b)[|a|..] == b;
  }

  /**
   * For the ranges a `Date` keeps to, the instant reads back from its
   * formatted text: every field is written out without loss. The text is
   * the year followed by exactly 20 characters.
   */
  lemma FormatRoundTrip(d: UtcFields)
    requires InRange(d)
    ensures |FormatXmlDateTime(d)| == |IntToString(d.year)| + 20
    ensures ParseXmlDateTime(FormatXmlDateTime(d)) == Some(d)
  {
    Pad2Below100(d.month + 1);
    Pad2Below100(d.date);
    Pad2Below100(d.hours);
    Pad2Below100(d.minutes);
    Pad2Below100(d.seconds);
    Pad3Below1000(d.millis);
    var y := IntToString(d.year);
    var mon, day, hr, min, sec, ms := TwoDigits(d.month + 1), TwoDigits(d.date), TwoDigits(d.hours),
                                      TwoDigits(d.minutes), TwoDigits(d.seconds), ThreeDigits(d.millis);
    var s := y + "-" + mon + "-" + day + "T" + hr + ":" + min + ":" + sec + "." + ms + "Z";
    assert FormatXmlDateTime(d) == s;
    CutPieces(y, mon, day, hr, min, sec, ms);
    var p := Pieces(y, "-", mon, "-", day, "T", hr, ":", min, ":", sec, ".", ms, "Z");
    assert ParseXmlDateTime(s) == ReadPieces(p);
    TwoDigitsValue(d.month + 1);
    TwoDigitsValue(d.date);
    TwoDigitsValue(d.hours);
    TwoDigitsValue(d.minutes);
    TwoDigitsValue(d.seconds);
    ThreeDigitsValue(d.millis);
    IntToStringValue(d.year);
    assert ReadPieces(p) == Some(d);
  }

  /** Text laid out as the format lays it out is cut back into the same pieces. */
  lemma CutPieces(y: string, mon: string, day: string, hr: string, min: string, sec: string, ms: string)
    requires |y| > 0 && |mon| == 2 && |day| == 2 && |hr| == 2 && |min| == 2 && |sec| == 2 && |ms| == 3
    ensures var s := y + "-" + mon + "-" + day + "T" + hr + ":" + min + ":" + sec + "." + ms + "Z";
            && |s| == |y| + 20
            && Cut(s) == Pieces(y, "-", mon, "-", day, "T", hr, ":", min, ":", sec, ".", ms, "Z")
  {
    var s1 := y + "-";
    var s2 := s1 + mon;
    var s3 := s2 + "-";
    var s4 := s3 + day;
    var s5 := s4 + "T";
    var s6 := s5 + hr;
    var s7 := s6 + ":";
    var s8 := s7 + min;
    var s9 := s8 + ":";
    var s10 := s9 + sec;
    var s11 := s10 + ".";
    var s12 := s11 + ms;
    SplitAppend(s12, "Z");
    SplitAppend(s11, ms);
    SplitAppend(s10, ".");
    SplitAppend(s9, sec);
    SplitAppend(s8, ":");
    SplitAppend(s7, min);
    SplitAppend(s6, ":");
    SplitAppend(s5, hr);
    SplitAppend(s4, "T");
    SplitAppend(s3, day);
    SplitAppend(s2, "-");
    SplitAppend(s1, mon);
    SplitAppend(y, "-");
  }

  /** The frozen-clock example: the Unix epoch formats as 1970-01-01T00:00:00.000Z. */
  lemma EpochExample(d: UtcFields)
    requires d == UtcFields(1970, 0, 1, 0, 0, 0, 0)
    ensures FormatXmlDateTime(d) == "1970-01-01T00:00:00.000Z"
  {
    Pad2Below100(1);
    Pad2Below100(0);
    Pad3Below1000(0);
    assert NatToString(1970) == NatToString(197) + ['0'];
    assert NatToString(197) == NatToString(19) + ['7'];
    assert NatToString(19) == NatToString(1) + ['9'];
  }
}
