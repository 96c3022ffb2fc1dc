/** Option and Result, the failure-carrying values used throughout the model. */
module Wrappers {

  datatype Option<+T> = None | Some(value: T) {
    function GetOr(default: T): T {
      match this
      case Some(v) => v
      case None => default
    }
  }

  datatype Result<+R, +E> = Success(value: R) | Failure(error: E)
}

/** String helpers standing in for Python's str formatting, `str.join` and `str.split(sep)`. */
module Strings {

  predicate IsDigit(c: char) {
    '0' <= c <= '9'
  }

  predicate AllDigits(s: string) {
    forall i :: 0 <= i < |s| ==> IsDigit(s[i])
  }

  function DigitChar(d: nat): (c: char)
    requires d < 10
    ensures IsDigit(c)
  {
    ('0' as int + d) as char
  }

  function DigitValue(c: char): (d: nat)
    requires IsDigit(c)
    ensures d < 10 && DigitChar(d) == c
  {
    c as int - '0' as int
  }

  /** `f"{n}"` for a non-negative integer: its decimal digits, no padding. */
  function Decimal(n: nat): (s: string)
    ensures |s| >= 1 && AllDigits(s)
    ensures n < 10 <==> |s| == 1
  {
    if n < 10 then [DigitChar(n)] else Decimal(n / 10) + [DigitChar(n % 10)]
  }

  /** The value of a string of decimal digits (the empty string reads as 0). */
  function ParseDecimal(s: string): nat
    requires AllDigits(s)
  {
    if s == [] then 0 else ParseDecimal(s[..|s| - 1]) * 10 + DigitValue(s[|s| - 1])
  }

  lemma {:induction false} DecimalRoundTrip(n: nat)
    ensures ParseDecimal(Decimal(n)) == n
  {
    if n >= 10 {
      var s := Decimal(n);
      assert s[..|s| - 1] == Decimal(n / 10);
      DecimalRoundTrip(n / 10);
    }
  }

  /** Four-digit years print as exactly four digits. */
  lemma DecimalOfFourDigits(n: nat)
    ensures 1000 <= n <= 9999 ==> |Decimal(n)| == 4
  {
    if 1000 <= n <= 9999 {
      assert |Decimal(n / 1000)| == 1;
      assert |Decimal(n / 100)| == |Decimal(n / 100 / 10)| + 1;
      assert |Decimal(n / 10)| == |Decimal(n / 10 / 10)| + 1;
    }
  }

  /** `f"{n:02d}"`: zero-padded to at least two digits. */
  function Pad2(n: nat): (s: string)
    ensures AllDigits(s)
    ensures n < 100 ==> |s| == 2
    ensures n < 100 ==> ParseDecimal(s) == n
  {
    DecimalRoundTrip(n);
    if n < 10 then "0" + Decimal(n) else Decimal(n)
  }

  /** `sep.join(parts)`. */
  function Join(sep: string, parts: seq<string>): (s: string)
  {
    if |parts| == 0 then ""
    else if |parts| == 1 then parts[0]
    else Join(sep, parts[..|parts| - 1]) + sep + parts[|parts| - 1]
  }

  lemma JoinAppend(sep: string, parts: seq<string>, p: string)
    requires parts != []
    ensures Join(sep, parts + [p]) == Join(sep, parts) + sep + p
  {
    assert (parts + [p])[..|parts|] == parts;
  }

  lemma {:induction false} JoinConcat(sep: string, a: seq<string>, b: seq<string>)
    requires a != [] && b != []
    ensures Join(sep, a + b) == Join(sep, a) + sep + Join(sep, b)
  {
    if |b| == 1 {
      JoinAppend(sep, a, b[0]);
      assert a + b == a + [b[0]];
    } else {
      var b' := b[..|b| - 1];
      JoinConcat(sep, a, b');
      assert a + b == (a + b') + [b[|b| - 1]];
      JoinAppend(sep, a + b', b[|b| - 1]);
      assert b == b' + [b[|b| - 1]];
      JoinAppend(sep, b', b[|b| - 1]);
    }
  }

  predicate Excludes(s: string, c: char) {
    forall i :: 0 <= i < |s| ==> s[i] != c
  }

  /** `s.split(c)` for a one-character separator: always at least one piece. */
  function SplitOn(s: string, c: char): (parts: seq<string>)
    ensures |parts| >= 1
  {
    if s == [] then [""]
    else
      var r := SplitOn(s[..|s| - 1], c);
      if s[|s| - 1] == c then r + [""]
      else r[..|r| - 1] + [r[|r| - 1] + [s[|s| - 1]]]
  }

  lemma {:induction false} SplitOnAfterSeparator(t: string, c: char, p: string)
    requires Excludes(p, c)
    ensures SplitOn(t + [c] + p, c) == SplitOn(t, c) + [p]
  {
    if p == [] {
      assert t + [c] + p == t + [c];
      assert (t + [c])[..|t|] == t;
    } else {
      var p' := p[..|p| - 1];
      var s := t + [c] + p;
      assert s[..|s| - 1] == t + [c] + p';
      SplitOnAfterSeparator(t, c, p');
      assert p == p' + [p[|p| - 1]];
    }
  }

  lemma {:induction false} SplitOnWithoutSeparator(p: string, c: char)
    requires Excludes(p, c)
    ensures SplitOn(p, c) == [p]
  {
    if p != [] {
      var p' := p[..|p| - 1];
      SplitOnWithoutSeparator(p', c);
      assert p == p' + [p[|p| - 1]];
    }
  }

  /** Splitting a `c`-join of pieces that do not contain `c` gives the pieces back. */
  lemma {:induction false} SplitOnJoin(parts: seq<string>, c: char)
    requires parts != []
    requires forall i :: 0 <= i < |parts| ==> Excludes(parts[i], c)
    ensures SplitOn(Join([c], parts), c) == parts
  {
    if |parts| == 1 {
      SplitOnWithoutSeparator(parts[0], c);
    } else {
      var init := parts[..|parts| - 1];
      SplitOnJoin(init, c);
      SplitOnAfterSeparator(Join([c], init), c, parts[|parts| - 1]);
      assert parts == init + [parts[|parts| - 1]];
    }
  }

  predicate IsLowerHex(c: char) {
    IsDigit(c) || 'a' <= c <= 'f'
  }

  predicate IsUpperHex(c: char) {
    IsDigit(c) || 'A' <= c <= 'F'
  }

  function UpperHexChar(c: char): (u: char)
    requires IsLowerHex(c)
    ensures IsUpperHex(u)
  {
    if IsDigit(c) then c else (c as int - 'a' as int + 'A' as int) as char
  }

  /** `s.upper()` restricted to what it does on hexadecimal digits. */
  function UpperHex(s: string): (r: string)
    requires forall i :: 0 <= i < |s| ==> IsLowerHex(s[i])
    ensures |r| == |s|
    ensures forall i :: 0 <= i < |r| ==> IsUpperHex(r[i])
    ensures forall i :: 0 <= i < |r| ==> r[i] == UpperHexChar(s[i])
  {
    if s == [] then [] else [UpperHexChar(s[0])] + UpperHex(s[1..])
  }
}

/** Calendar dates as `datetime.utcnow()` yields them (UTC, proleptic Gregorian). */
module Calendar {
  import opened Strings

  datatype DateTime = DateTime(year: int, month: int, day: int) {
    predicate Valid() {
      1 <= year <= 9999 && 1 <= month <= 12 && 1 <= day <= DaysInMonth(year, month)
    }
  }

  predicate IsLeapYear(y: int) {
    (y % 4 == 0 && y % 100 != 0) || y % 400 == 0
  }

  function DaysInMonth(y: int, m: int): int {
    if m == 2 then (if IsLeapYear(y) then 29 else 28)
    else if m == 4 || m == 6 || m == 9 || m == 11 then 30
    else 31
  }

  /** Months counted from year 0, January: consecutive months have consecutive indexes. */
  function MonthIndex(y: int, m: int): int {
    y * 12 + (m - 1)
  }

  /** The month before (y, m): December of the year before for January, m - 1 otherwise. */
  function PrevMonth(y: int, m: int): (r: (int, int))
    requires 1 <= m <= 12
    ensures 1 <= r.1 <= 12
    ensures MonthIndex(r.0, r.1) == MonthIndex(y, m) - 1
  {
    var prevMonth := if m == 1 then 12 else m - 1;
    var prevYear := if m == 1 then y - 1 else y;
    (prevYear, prevMonth)
  }

  /** The month index determines year and month, so PrevMonth is the only such pair. */
  lemma MonthIndexInjective(y1: int, m1: int, y2: int, m2: int)
    requires 1 <= m1 <= 12 && 1 <= m2 <= 12
    requires MonthIndex(y1, m1) == MonthIndex(y2, m2)
    ensures y1 == y2 && m1 == m2
  {
    var d := y1 - y2;
    assert 12 * d == m2 - m1;
  }

  /** `now.strftime('%Y%m%d')`. */
  function DateStamp(now: DateTime): (s: string)
    requires now.Valid()
    ensures AllDigits(s)
    ensures 1000 <= now.year ==> |s| == 8
  {
    DecimalOfFourDigits(now.year);
    Decimal(now.year) + Pad2(now.month) + Pad2(now.day)
  }
}
