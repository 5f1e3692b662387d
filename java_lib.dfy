/**
 * The pieces of the Java platform that the ingestion code leans on, written out
 * so that the model can say exactly when they succeed: Java `int` arithmetic,
 * the regular expressions `\d{n}` / `[0-9]{n}` used by `String.matches`,
 * `Integer.parseInt` and `LocalDate.parse` (ISO calendar dates).
 */
module JavaLib {
  import opened Base

  const INT_MIN: int := -0x8000_0000
  const INT_MAX: int := 0x7FFF_FFFF

  predicate InInt32(x: int) { INT_MIN <= x <= INT_MAX }

  /** Two's-complement wrap-around of a mathematical integer into a Java `int`. */
  function Int32(x: int): (r: int)
    ensures InInt32(r)
    ensures (r - x) % 0x1_0000_0000 == 0
    ensures InInt32(x) ==> r == x
  {
    (x - INT_MIN) % 0x1_0000_0000 + INT_MIN
  }

  /** An ASCII decimal digit: what `\d` and `[0-9]` match in a Java regex without UNICODE_CHARACTER_CLASS. */
  predicate IsDigit(c: char) { '0' <= c <= '9' }

  /** Whole-string match of the regular expression `\d{n}`, consumed left to right as a regex engine does. */
  predicate MatchesDigits(s: string, n: nat)
    decreases n
  {
    if n == 0 then s == []
    else |s| > 0 && IsDigit(s[0]) && MatchesDigits(s[1..], n - 1)
  }

  /** `\d{n}` matches exactly the strings of n ASCII digits. */
  lemma {:induction false} MatchesDigitsIff(s: string, n: nat)
    ensures MatchesDigits(s, n) <==> |s| == n && forall i :: 0 <= i < |s| ==> IsDigit(s[i])
    decreases n
  {
    if n > 0 && |s| > 0 {
      MatchesDigitsIff(s[1..], n - 1);
      if |s| == n && forall i :: 0 <= i < |s| ==> IsDigit(s[i]) {
        assert forall i :: 0 <= i < |s[1..]| ==> IsDigit(s[1..][i]) by {
          forall i | 0 <= i < |s[1..]| ensures IsDigit(s[1..][i]) { assert s[1..][i] == s[i + 1]; }
        }
      }
      if MatchesDigits(s, n) {
        forall i | 0 <= i < |s| ensures IsDigit(s[i]) {
          if i > 0 { assert s[i] == s[1..][i - 1]; }
        }
      }
    }
  }

  predicate AllDigits(s: string) { forall i :: 0 <= i < |s| ==> IsDigit(s[i]) }

  function DigitValue(c: char): (v: nat)
    requires IsDigit(c)
    ensures v < 10
  {
    (c as int) - ('0' as int)
  }

  function DigitChar(d: nat): (c: char)
    requires d < 10
    ensures IsDigit(c) && DigitValue(c) == d
  {
    (('0' as int) + d) as char
  }

  /** The decimal value of a digit string, most significant digit first. */
  function DigitsValue(s: string): (v: nat)
    requires AllDigits(s)
    decreases |s|
  {
    if s == [] then 0
    else DigitsValue(s[..|s| - 1]) * 10 + DigitValue(s[|s| - 1])
  }

  /**
   * `Integer.parseInt(s)`: an optional leading `+` or `-`, then at least one digit,
   * and a value inside the `int` range; anything else throws NumberFormatException (None).
   */
  function ParseInt(s: string): (r: Option<int>)
    ensures r.Some? ==> InInt32(r.value)
  {
    if |s| == 0 then None
    else if s[0] == '-' || s[0] == '+' then
      if |s| == 1 || !AllDigits(s[1..]) then None
      else
        var m: int := DigitsValue(s[1..]);
        var v := if s[0] == '-' then -m else m;
        if InInt32(v) then Some(v) else None
    else if AllDigits(s) then
      var v := DigitsValue(s);
      if InInt32(v) then Some(v) else None
    else None
  }

  /** Decimal digits of n without leading zeros, as `Integer.toString` writes a non-negative int. */
  function NatToDigits(n: nat): (s: string)
    ensures |s| > 0 && AllDigits(s)
    decreases n
  {
    if n < 10 then [DigitChar(n)] else NatToDigits(n / 10) + [DigitChar(n % 10)]
  }

  /** `Integer.toString(n)`. */
  function IntToString(n: int): (s: string)
  {
    if n < 0 then "-" + NatToDigits(-n) else NatToDigits(n)
  }

  lemma {:induction false} NatToDigitsValue(n: nat)
    ensures DigitsValue(NatToDigits(n)) == n
    decreases n
  {
    var s := NatToDigits(n);
    if n >= 10 {
      NatToDigitsValue(n / 10);
      assert s[..|s| - 1] == NatToDigits(n / 10);
    }
  }

  /** `Integer.parseInt` inverts `Integer.toString` on every Java int. */
  lemma ParseIntOfToString(n: int)
    requires InInt32(n)
    ensures ParseInt(IntToString(n)) == Some(n)
  {
    var s := IntToString(n);
    if n < 0 {
      NatToDigitsValue(-n);
      assert s[1..] == NatToDigits(-n);
    } else {
      NatToDigitsValue(n);
      assert s[0] == NatToDigits(n)[0];
    }
  }

  /** `java.time.LocalDate`, reduced to its three fields. */
  datatype Date = Date(year: int, month: int, day: int)

  /** Leap years of the proleptic Gregorian calendar that `LocalDate` uses. */
  predicate IsLeapYear(y: int) { (y % 4 == 0 && y % 100 != 0) || y % 400 == 0 }

  function DaysInMonth(y: int, m: int): (d: int)
    requires 1 <= m <= 12
    ensures 28 <= d <= 31
  {
    if m == 2 then (if IsLeapYear(y) then 29 else 28)
    else if m == 4 || m == 6 || m == 9 || m == 11 then 30
    else 31
  }

  predicate IsCalendarDate(d: Date)
  {
    1 <= d.month <= 12 && 1 <= d.day <= DaysInMonth(d.year, d.month)
  }

  /**
   * `LocalDate.parse(s)` with the ISO_LOCAL_DATE format `uuuu-MM-dd`, strict resolution:
   * four year digits, two month digits, two day digits, and a day that exists in that
   * month. Anything else throws DateTimeParseException (None).
   */
  function ParseDate(s: string): (r: Option<Date>)
    ensures r.Some? ==> IsCalendarDate(r.value) && 0 <= r.value.year <= 9999
  {
    if |s| != 10 || s[4] != '-' || s[7] != '-' then None
    else if !AllDigits(s[..4]) || !AllDigits(s[5..7]) || !AllDigits(s[8..]) then None
    else
      var d := Date(DigitsValue(s[..4]), DigitsValue(s[5..7]), DigitsValue(s[8..]));
      DigitsValueBound(s[..4]);
      assert Pow10(4) == 10000;
      if IsCalendarDate(d) then Some(d) else None
  }

  /** Exactly w digits of n, zero-padded on the left. */
  function PadDigits(n: nat, w: nat): (s: string)
    ensures |s| == w && AllDigits(s)
    decreases w
  {
    if w == 0 then [] else PadDigits(n / 10, w - 1) + [DigitChar(n % 10)]
  }

  lemma {:induction false} PadDigitsValue(n: nat, w: nat)
    requires n < Pow10(w)
    ensures DigitsValue(PadDigits(n, w)) == n
    decreases w
  {
    if w > 0 {
      var s := PadDigits(n, w);
      assert n / 10 < Pow10(w - 1);
      PadDigitsValue(n / 10, w - 1);
      assert s[..|s| - 1] == PadDigits(n / 10, w - 1);
    }
  }

  function Pow10(w: nat): (p: nat)
    ensures p >= 1
  {
    if w == 0 then 1 else 10 * Pow10(w - 1)
  }

  /** A string of w digits denotes a number below 10^w. */
  lemma {:induction false} DigitsValueBound(s: string)
    requires AllDigits(s)
    ensures DigitsValue(s) < Pow10(|s|)
    decreases |s|
  {
    if s != [] {
      DigitsValueBound(s[..|s| - 1]);
    }
  }

  /** `LocalDate.toString()` for years 0..9999: `uuuu-MM-dd`. */
  function FormatDate(d: Date): (s: string)
    requires IsCalendarDate(d) && 0 <= d.year <= 9999
    ensures |s| == 10
  {
    PadDigits(d.year, 4) + "-" + PadDigits(d.month, 2) + "-" + PadDigits(d.day, 2)
  }

  /** `LocalDate.parse` inverts `LocalDate.toString` on the four-digit years. */
  lemma ParseDateOfFormat(d: Date)
    requires IsCalendarDate(d) && 0 <= d.year <= 9999
    ensures ParseDate(FormatDate(d)) == Some(d)
  {
    var y, m, dd := PadDigits(d.year, 4), PadDigits(d.month, 2), PadDigits(d.day, 2);
    var s := FormatDate(d);
    assert s == y + "-" + m + "-" + dd;
    assert s[..4] == y && s[5..7] == m && s[8..] == dd;
    assert Pow10(4) == 10000 && Pow10(2) == 100;
    PadDigitsValue(d.year, 4);
    PadDigitsValue(d.month, 2);
    PadDigitsValue(d.day, 2);
  }
}
