// UTC timestamps as Python stores and prints them: datetime.isoformat() with
// an omitted fraction when the microsecond is zero. Their string order is
// proved to be the order of time.
module IsoTime {
  import opened Ordering

  // ---- the calendar ----------------------------------------------------

  predicate Leap(year: int) { year % 4 == 0 && (year % 100 != 0 || year % 400 == 0) }

  function DaysIn(year: int, month: int): int {
    if month == 2 then (if Leap(year) then 29 else 28)
    else if month in {4, 6, 9, 11} then 30 else 31
  }

  datatype DateTime = DateTime(year: int, month: int, day: int, hour: int, minute: int, second: int, micro: int) {
    predicate Valid() {
      && 1 <= year <= 9999 && 1 <= month <= 12 && 1 <= day <= DaysIn(year, month)
      && 0 <= hour < 24 && 0 <= minute < 60 && 0 <= second < 60 && 0 <= micro < 1000000
    }
  }

  function DaysBeforeYear(year: int): int {
    var y := year - 1;
    y * 365 + y / 4 - y / 100 + y / 400
  }

  function DaysBeforeMonth(year: int, month: int): int
    decreases month
  { if month <= 1 then 0 else DaysBeforeMonth(year, month - 1) + DaysIn(year, month - 1) }

  function Ordinal(t: DateTime): int { DaysBeforeYear(t.year) + DaysBeforeMonth(t.year, t.month) + t.day }

  /** Microseconds on the UTC time line. */
  function Instant(t: DateTime): int {
    (((Ordinal(t) * 24 + t.hour) * 60 + t.minute) * 60 + t.second) * 1000000 + t.micro
  }

  /** Comparison of the fields from the most to the least significant. */
  predicate Before(s: DateTime, t: DateTime) {
    s.year < t.year || (s.year == t.year && (
    s.month < t.month || (s.month == t.month && (
    s.day < t.day || (s.day == t.day && (
    s.hour < t.hour || (s.hour == t.hour && (
    s.minute < t.minute || (s.minute == t.minute && (
    s.second < t.second || (s.second == t.second && s.micro < t.micro)))))))))))
  }

  lemma LeapSteps(y: int)
    ensures (y + 1) / 4 == y / 4 + (if (y + 1) % 4 == 0 then 1 else 0)
    ensures (y + 1) / 100 == y / 100 + (if (y + 1) % 100 == 0 then 1 else 0)
    ensures (y + 1) / 400 == y / 400 + (if (y + 1) % 400 == 0 then 1 else 0)
  {
  }

  lemma FourTimes(k: int)
    ensures 4 * k % 4 == 0
  {
  }

  lemma HundredTimes(k: int)
    ensures 100 * k % 100 == 0
  {
  }

  lemma CenturyDividesByFour(year: int)
    ensures year % 400 == 0 ==> year % 100 == 0
    ensures year % 100 == 0 ==> year % 4 == 0
  {
    HundredTimes(4 * (year / 400));
    FourTimes(25 * (year / 100));
  }

  lemma YearLength(year: int)
    requires year >= 1
    ensures DaysBeforeYear(year + 1) == DaysBeforeYear(year) + (if Leap(year) then 366 else 365)
  {
    LeapSteps(year - 1);
    CenturyDividesByFour(year);
  }

  lemma {:induction false} YearsAscend(a: int, b: int)
    requires 1 <= a < b
    ensures DaysBeforeYear(a) + (if Leap(a) then 366 else 365) <= DaysBeforeYear(b)
    decreases b
  {
    YearLength(b - 1);
    if a < b - 1 {
      YearsAscend(a, b - 1);
    } else {
      YearLength(a);
    }
  }

  lemma {:induction false} MonthsAscend(year: int, a: int, b: int)
    requires 1 <= a < b
    ensures DaysBeforeMonth(year, a) + DaysIn(year, a) <= DaysBeforeMonth(year, b)
    decreases b
  {
    if a < b - 1 {
      MonthsAscend(year, a, b - 1);
    }
  }

  lemma MonthsFillYear(year: int)
    ensures DaysBeforeMonth(year, 13) == (if Leap(year) then 366 else 365)
  {
    var f := DaysBeforeMonth(year, 3);
    assert DaysBeforeMonth(year, 5) == f + 61;
    assert DaysBeforeMonth(year, 7) == f + 122;
    assert DaysBeforeMonth(year, 9) == f + 184;
    assert DaysBeforeMonth(year, 11) == f + 245;
    assert DaysBeforeMonth(year, 13) == f + 306;
  }

  lemma DayInYear(t: DateTime)
    requires t.Valid()
    ensures 0 < DaysBeforeMonth(t.year, t.month) + t.day <= (if Leap(t.year) then 366 else 365)
  {
    MonthsFillYear(t.year);
    MonthsAscend(t.year, t.month, 13);
    if t.month > 1 {
      MonthsAscend(t.year, 1, t.month);
    }
  }

  lemma EarlierDate(s: DateTime, t: DateTime)
    requires s.Valid() && t.Valid()
    requires s.year < t.year || (s.year == t.year && (s.month < t.month || (s.month == t.month && s.day < t.day)))
    ensures Ordinal(s) < Ordinal(t)
  {
    DayInYear(s);
    DayInYear(t);
    if s.year < t.year {
      YearsAscend(s.year, t.year);
    } else if s.month < t.month {
      MonthsAscend(s.year, s.month, t.month);
    }
  }

  lemma EarlierInstant(s: DateTime, t: DateTime)
    requires s.Valid() && t.Valid() && Before(s, t)
    ensures Instant(s) < Instant(t)
  {
    if s.year != t.year || s.month != t.month || s.day != t.day {
      EarlierDate(s, t);
    }
  }

  lemma BeforeIsTotal(s: DateTime, t: DateTime)
    ensures s == t || Before(s, t) || Before(t, s)
  {
  }

  /** The field order of valid timestamps is the order of their instants. */
  lemma BeforeIsEarlier(s: DateTime, t: DateTime)
    requires s.Valid() && t.Valid()
    ensures Before(s, t) <==> Instant(s) < Instant(t)
  {
    BeforeIsTotal(s, t);
    if Before(s, t) {
      EarlierInstant(s, t);
    } else if Before(t, s) {
      EarlierInstant(t, s);
    }
  }

  lemma InstantIsInjective(s: DateTime, t: DateTime)
    requires s.Valid() && t.Valid() && Instant(s) == Instant(t)
    ensures s == t
  {
    BeforeIsEarlier(s, t);
    BeforeIsEarlier(t, s);
    BeforeIsTotal(s, t);
  }

  // ---- the text --------------------------------------------------------

  function Digit(d: int): char
    requires 0 <= d < 10
  { "0123456789"[d] }

  /** Exactly `width` decimal digits. */
  function Pad(n: int, width: nat): (s: string)
    requires n >= 0
    ensures |s| == width
  { if width == 0 then "" else Pad(n / 10, width - 1) + [Digit(n % 10)] }

  function Pow10(k: nat): int { if k == 0 then 1 else 10 * Pow10(k - 1) }

  function Fraction(micro: int): string
    requires micro >= 0
  { if micro == 0 then "" else "." + Pad(micro, 6) }

  function Tail(micro: int): string
    requires micro >= 0
  { Fraction(micro) + "+00:00" }

  /** isoformat() of a UTC datetime. */
  function Iso(t: DateTime): string
    requires t.Valid()
  {
    Pad(t.year, 4) + ("-" + (Pad(t.month, 2) + ("-" + (Pad(t.day, 2) + ("T" + (Pad(t.hour, 2) + (":" +
      (Pad(t.minute, 2) + (":" + (Pad(t.second, 2) + Tail(t.micro)))))))))))
  }

  lemma DigitOrder(a: int, b: int)
    requires 0 <= a < 10 && 0 <= b < 10
    ensures Digit(a) < Digit(b) <==> a < b
    ensures Digit(a) == Digit(b) <==> a == b
  {
  }

  lemma OneCharacter(a: char, b: char)
    ensures LexLess([a], [b]) <==> a < b
  {
    assert [a][1..] == [] && [b][1..] == [];
  }

  /** A field of fixed width decides, and when the fields agree the rest does. */
  lemma FieldOrder(h: string, g: string, a: string, b: string)
    requires |h| == |g|
    ensures LexLess(h + a, g + b) <==> LexLess(h, g) || (h == g && LexLess(a, b))
  {
    if h == g {
      LexCommonPrefix(h, a, b);
      LexIrreflexive(h);
    } else {
      LexDecidedByHead(h, g, a, b);
    }
  }

  lemma {:induction false} PadOrder(a: int, b: int, width: nat)
    requires 0 <= a < Pow10(width) && 0 <= b < Pow10(width)
    ensures LexLess(Pad(a, width), Pad(b, width)) <==> a < b
    ensures Pad(a, width) == Pad(b, width) <==> a == b
  {
    if width > 0 {
      var h, g := Pad(a / 10, width - 1), Pad(b / 10, width - 1);
      PadOrder(a / 10, b / 10, width - 1);
      FieldOrder(h, g, [Digit(a % 10)], [Digit(b % 10)]);
      OneCharacter(Digit(a % 10), Digit(b % 10));
      DigitOrder(a % 10, b % 10);
      assert Pad(a, width)[..width - 1] == h && Pad(b, width)[..width - 1] == g;
      assert Pad(a, width)[width - 1] == Digit(a % 10) && Pad(b, width)[width - 1] == Digit(b % 10);
    }
  }

  /** The comparison of two printed numbers followed by anything, behind a common separator. */
  lemma NumberOrder(separator: string, a: int, b: int, width: nat, x: string, y: string)
    requires 0 <= a < Pow10(width) && 0 <= b < Pow10(width)
    ensures LexLess(separator + (Pad(a, width) + x), separator + (Pad(b, width) + y))
            <==> a < b || (a == b && LexLess(x, y))
  {
    LexCommonPrefix(separator, Pad(a, width) + x, Pad(b, width) + y);
    FieldOrder(Pad(a, width), Pad(b, width), x, y);
    PadOrder(a, b, width);
  }

  lemma Powers()
    ensures Pow10(2) == 100 && Pow10(4) == 10000 && Pow10(6) == 1000000
  {
    assert Pow10(3) == 1000;
    assert Pow10(5) == 100000;
  }

  /** '+' sorts before '.', so an omitted fraction sorts before every written one. */
  lemma TailOrder(a: int, b: int)
    requires 0 <= a < 1000000 && 0 <= b < 1000000
    ensures LexLess(Tail(a), Tail(b)) <==> a < b
  {
    Powers();
    if a == 0 && b == 0 {
      LexIrreflexive(Tail(0));
    } else if a == 0 || b == 0 {
      assert Tail(0)[0] == '+';
      assert a > 0 ==> Tail(a)[0] == '.';
      assert b > 0 ==> Tail(b)[0] == '.';
    } else {
      NumberOrder(".", a, b, 6, "+00:00", "+00:00");
      LexIrreflexive("+00:00");
      assert Tail(a) == "." + (Pad(a, 6) + "+00:00") && Tail(b) == "." + (Pad(b, 6) + "+00:00");
    }
  }

  function Clock(t: DateTime): string
    requires t.Valid()
  { "T" + (Pad(t.hour, 2) + (":" + (Pad(t.minute, 2) + (":" + (Pad(t.second, 2) + Tail(t.micro)))))) }

  lemma ClockOrder(s: DateTime, t: DateTime)
    requires s.Valid() && t.Valid()
    ensures LexLess(Clock(s), Clock(t))
            <==> s.hour < t.hour || (s.hour == t.hour && (s.minute < t.minute || (s.minute == t.minute &&
                 (s.second < t.second || (s.second == t.second && s.micro < t.micro)))))
  {
    Powers();
    var x1, y1 := Tail(s.micro), Tail(t.micro);
    var x2, y2 := ":" + (Pad(s.second, 2) + x1), ":" + (Pad(t.second, 2) + y1);
    var x3, y3 := ":" + (Pad(s.minute, 2) + x2), ":" + (Pad(t.minute, 2) + y2);
    TailOrder(s.micro, t.micro);
    NumberOrder(":", s.second, t.second, 2, x1, y1);
    NumberOrder(":", s.minute, t.minute, 2, x2, y2);
    NumberOrder("T", s.hour, t.hour, 2, x3, y3);
  }

  lemma IsoIsDateThenClock(t: DateTime, date: string)
    requires t.Valid() && date == "-" + (Pad(t.month, 2) + ("-" + (Pad(t.day, 2) + Clock(t))))
    ensures Iso(t) == "" + (Pad(t.year, 4) + date)
  {
  }

  lemma FieldsOrder(s: DateTime, t: DateTime)
    requires s.Valid() && t.Valid()
    ensures LexLess(Iso(s), Iso(t)) <==> Before(s, t)
  {
    hide Clock, Tail, Pad;
    Powers();
    var x1, y1 := Clock(s), Clock(t);
    var x2, y2 := "-" + (Pad(s.day, 2) + x1), "-" + (Pad(t.day, 2) + y1);
    var x3, y3 := "-" + (Pad(s.month, 2) + x2), "-" + (Pad(t.month, 2) + y2);
    ClockOrder(s, t);
    NumberOrder("-", s.day, t.day, 2, x1, y1);
    NumberOrder("-", s.month, t.month, 2, x2, y2);
    NumberOrder("", s.year, t.year, 4, x3, y3);
    IsoIsDateThenClock(s, x3);
    IsoIsDateThenClock(t, y3);
  }

  /**
   * Comparing two timestamps as stored strings compares the instants they name, whether or not either of them
   * carries a fraction.
   */
  lemma StringOrderIsTimeOrder(s: DateTime, t: DateTime)
    requires s.Valid() && t.Valid()
    ensures LexLess(Iso(s), Iso(t)) <==> Instant(s) < Instant(t)
  {
    hide Iso, Instant, Before;
    FieldsOrder(s, t);
    BeforeIsEarlier(s, t);
  }

  // ---- the calendar and the text, checked against what is known --------

  /** Four centuries have 146097 days, in every position. */
  lemma FourCenturies(year: int)
    ensures DaysBeforeYear(year + 400) == DaysBeforeYear(year) + 146097
  {
    var y := year - 1;
    assert (y + 400) / 4 == y / 4 + 100;
    assert (y + 400) / 100 == y / 100 + 4;
    assert (y + 400) / 400 == y / 400 + 1;
  }

  /** Midnight after the last second of a month is the first of the next one. */
  lemma MonthsJoin(t: DateTime)
    requires t.Valid() && t.month < 12 && t.day == DaysIn(t.year, t.month)
    requires t.hour == 23 && t.minute == 59 && t.second == 59
    ensures Instant(DateTime(t.year, t.month + 1, 1, 0, 0, 0, t.micro)) == Instant(t) + 1000000
  {
  }

  lemma YearsJoin(t: DateTime)
    requires t.Valid() && t.month == 12 && t.day == 31 && t.hour == 23 && t.minute == 59 && t.second == 59
    ensures Instant(DateTime(t.year + 1, 1, 1, 0, 0, 0, t.micro)) == Instant(t) + 1000000
  {
    YearLength(t.year);
    MonthsFillYear(t.year);
  }

  /** The places of the separators, and the offset at the end: 25 characters, or 32 with a fraction. */
  lemma IsoShape(t: DateTime)
    requires t.Valid()
    ensures var s := Iso(t);
      && |s| == (if t.micro == 0 then 25 else 32)
      && s[4] == s[7] == '-' && s[10] == 'T' && s[13] == s[16] == ':' && s[|s| - 6..] == "+00:00"
      && (t.micro != 0 ==> s[19] == '.')
      && s[..4] == Pad(t.year, 4) && s[5..7] == Pad(t.month, 2) && s[8..10] == Pad(t.day, 2)
      && s[11..13] == Pad(t.hour, 2) && s[14..16] == Pad(t.minute, 2) && s[17..19] == Pad(t.second, 2)
  {
    hide Pad;
    var s, seconds := Iso(t), Pad(t.second, 2) + Tail(t.micro);
    assert s[17..] == seconds;
    assert s[17..19] == seconds[..2] == Pad(t.second, 2);
    assert s[14..16] == Pad(t.minute, 2) && s[11..13] == Pad(t.hour, 2);
  }
}
