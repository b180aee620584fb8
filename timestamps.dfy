/**
 * Naive date-times as Python's `datetime` holds them, the reading of a
 * `YYYYMMDDTHHMMSS` stamp (`strptime` with "%Y%m%dT%H%M%S") and its inverse
 * (the zero-padded `YYYYMMDDTHHMMSS` rendering).
 */
module Timestamps {
  import opened Outcomes

  /** A naive `datetime`: no time zone. Parsed stamps have microsecond 0. */
  datatype DateTime = DateTime(year: int, month: int, day: int,
                               hour: int, minute: int, second: int, microsecond: int)

  predicate IsLeapYear(year: int) {
    year % 4 == 0 && (year % 100 != 0 || year % 400 == 0)
  }

  function DaysInMonth(year: int, month: int): (n: int)
    requires 1 <= month <= 12
    ensures 28 <= n <= 31
  {
    if month == 2 then (if IsLeapYear(year) then 29 else 28)
    else if month == 4 || month == 6 || month == 9 || month == 11 then 30
    else 31
  }

  /** The values `datetime` accepts: years 1 to 9999 of the proleptic Gregorian calendar. */
  predicate Valid(t: DateTime): (r: bool)
    ensures r ==> t.day <= 31 && (t.month == 2 ==> t.day <= 29)
    ensures r && t.month == 2 && t.day == 29 ==> IsLeapYear(t.year)
  {
    && 1 <= t.year <= 9999
    && 1 <= t.month <= 12
    && 1 <= t.day <= DaysInMonth(t.year, t.month)
    && 0 <= t.hour < 24
    && 0 <= t.minute < 60
    && 0 <= t.second < 60
    && 0 <= t.microsecond < 1000000
  }

  /** `a < b` on datetimes: field by field, most significant first. */
  predicate Before(a: DateTime, b: DateTime): (r: bool)
    ensures r ==> a != b && a.year <= b.year
  {
    if a.year != b.year then a.year < b.year
    else if a.month != b.month then a.month < b.month
    else if a.day != b.day then a.day < b.day
    else if a.hour != b.hour then a.hour < b.hour
    else if a.minute != b.minute then a.minute < b.minute
    else if a.second != b.second then a.second < b.second
    else a.microsecond < b.microsecond
  }

  /** `Before` is a strict total order, so `<` and `>` in the queries behave as on a time line. */
  lemma BeforeIsStrictTotalOrder(a: DateTime, b: DateTime, c: DateTime)
    ensures !Before(a, a)
    ensures Before(a, b) ==> !Before(b, a)
    ensures Before(a, b) && Before(b, c) ==> Before(a, c)
    ensures a != b ==> Before(a, b) || Before(b, a)
  {
  }

  predicate IsDigit(c: char) { '0' <= c <= '9' }

  predicate AllDigits(s: string) {
    forall i :: 0 <= i < |s| ==> IsDigit(s[i])
  }

  function Pow10(k: nat): (p: nat)
    ensures p >= 1
  {
    if k == 0 then 1 else 10 * Pow10(k - 1)
  }

  /** The decimal value of a string of digits (leading zeros allowed). */
  function Number(s: string): (n: nat)
    requires AllDigits(s)
    ensures n < Pow10(|s|)
  {
    if s == [] then 0
    else Number(s[..|s| - 1]) * 10 + (s[|s| - 1] as int - '0' as int)
  }

  /** `n` written with exactly `width` digits, zero-padded on the left (the low digits of `n`). */
  function Digits(n: nat, width: nat): (s: string)
    ensures |s| == width && AllDigits(s)
  {
    if width == 0 then [] else Digits(n / 10, width - 1) + [('0' as int + n % 10) as char]
  }

  lemma {:induction false} NumberOfDigits(n: nat, width: nat)
    requires n < Pow10(width)
    ensures Number(Digits(n, width)) == n
  {
    if width > 0 {
      var s := Digits(n, width);
      NumberOfDigits(n / 10, width - 1);
      assert s[..|s| - 1] == Digits(n / 10, width - 1);
    }
  }

  lemma {:induction false} DigitsOfNumber(s: string)
    requires AllDigits(s)
    ensures Digits(Number(s), |s|) == s
  {
    if s != [] {
      var init := s[..|s| - 1];
      var d := s[|s| - 1] as int - '0' as int;
      var n := Number(s);
      assert n == Number(init) * 10 + d;
      assert n / 10 == Number(init) && n % 10 == d;
      DigitsOfNumber(init);
      assert s == init + [s[|s| - 1]];
    }
  }

  /** The shape `[0-9]{8}T[0-9]{6}` the regular expression guarantees before strptime is called. */
  predicate IsStamp(s: string) {
    |s| == 15 && s[8] == 'T' && forall i :: 0 <= i < 15 && i != 8 ==> IsDigit(s[i])
  }

  /** The zero-padded `YYYYMMDDTHHMMSS` rendering: the exact inverse of `StampToDateTime`. */
  function Format(t: DateTime): (s: string)
    requires Valid(t)
    ensures IsStamp(s)
  {
    Digits(t.year, 4) + Digits(t.month, 2) + Digits(t.day, 2) + "T"
    + Digits(t.hour, 2) + Digits(t.minute, 2) + Digits(t.second, 2)
  }

  /** The fields a stamp spells out, each from its fixed slice of digits. */
  function Fields(stamp: string): (t: DateTime)
    requires IsStamp(stamp)
    ensures 0 <= t.year < 10000 && 0 <= t.month < 100 && 0 <= t.day < 100
    ensures 0 <= t.hour < 100 && 0 <= t.minute < 100 && 0 <= t.second < 100 && t.microsecond == 0
  {
    DateTime(Number(stamp[0..4]), Number(stamp[4..6]), Number(stamp[6..8]),
             Number(stamp[9..11]), Number(stamp[11..13]), Number(stamp[13..15]), 0)
  }

  /** Formatting the fields read from a stamp gives the stamp back. */
  lemma FormatOfFields(stamp: string)
    requires IsStamp(stamp) && Valid(Fields(stamp))
    ensures Format(Fields(stamp)) == stamp
  {
    DigitsOfNumber(stamp[0..4]);
    DigitsOfNumber(stamp[4..6]);
    DigitsOfNumber(stamp[6..8]);
    DigitsOfNumber(stamp[9..11]);
    DigitsOfNumber(stamp[11..13]);
    DigitsOfNumber(stamp[13..15]);
    Reassemble(stamp);
  }

  /** A 15-character stamp is the concatenation of its field slices around the 'T'. */
  lemma Reassemble(stamp: string)
    requires |stamp| == 15 && stamp[8] == 'T'
    ensures stamp == stamp[0..4] + stamp[4..6] + stamp[6..8] + "T" + stamp[9..11] + stamp[11..13] + stamp[13..15]
  {
    assert stamp[..8] == stamp[0..4] + stamp[4..6] + stamp[6..8];
    assert stamp[9..] == stamp[9..11] + stamp[11..13] + stamp[13..15];
    assert stamp == stamp[..8] + "T" + stamp[9..];
  }

  /**
   * `datetime.strptime(stamp, "%Y%m%dT%H%M%S")` (vevent.py:38). With exactly 8 and 6 digits
   * every field takes a fixed slice; the result is an error (ValueError) exactly when the
   * fields do not form a valid date-time.
   */
  function StampToDateTime(stamp: string): (r: Result<DateTime>)
    requires IsStamp(stamp)
    ensures r.Ok? ==> Valid(r.value) && r.value.microsecond == 0 && Format(r.value) == stamp
    ensures r.Err? ==> r.error == InvalidTimestamp
  {
    var t := Fields(stamp);
    if Valid(t) then FormatOfFields(stamp); Ok(t) else Err(InvalidTimestamp)
  }

  /** Every valid whole-second date-time is accepted back from its own stamp. */
  lemma StampRoundTrip(t: DateTime)
    requires Valid(t) && t.microsecond == 0
    ensures StampToDateTime(Format(t)) == Ok(t)
  {
    var s := Format(t);
    assert s[0..4] == Digits(t.year, 4);
    assert s[4..6] == Digits(t.month, 2);
    assert s[6..8] == Digits(t.day, 2);
    assert s[9..11] == Digits(t.hour, 2);
    assert s[11..13] == Digits(t.minute, 2);
    assert s[13..15] == Digits(t.second, 2);
    NumberOfDigits(t.year, 4);
    NumberOfDigits(t.month, 2);
    NumberOfDigits(t.day, 2);
    NumberOfDigits(t.hour, 2);
    NumberOfDigits(t.minute, 2);
    NumberOfDigits(t.second, 2);
  }
}
