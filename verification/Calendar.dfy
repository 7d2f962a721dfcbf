/**
 Python's `date` and `datetime` as the sync uses them: Gregorian dates with their proleptic ordinal,
 moments to the second, and the `strftime` texts the listing service and the audit table hold.
 Years have four digits, the only ones a 14-digit watermark can carry.
 */
module Calendar {
  import opened Wrappers
  import opened Digits

  datatype YearMonthDay = YearMonthDay(year: nat, month: nat, day: nat)

  predicate IsLeap(year: nat) {
    year % 4 == 0 && (year % 100 != 0 || year % 400 == 0)
  }

  function DaysInMonth(year: nat, month: nat): (days: nat)
    ensures 28 <= days <= 31
  {
    if month == 2 then (if IsLeap(year) then 29 else 28)
    else if month in {4, 6, 9, 11} then 30
    else 31
  }

  predicate ValidDate(d: YearMonthDay) {
    1000 <= d.year <= 9999 && 1 <= d.month <= 12 && 1 <= d.day <= DaysInMonth(d.year, d.month)
  }

  type Date = d: YearMonthDay | ValidDate(d) witness YearMonthDay(2000, 1, 1)

  function DaysBeforeYear(year: nat): int {
    365 * (year - 1) + (year - 1) / 4 - (year - 1) / 100 + (year - 1) / 400
  }

  function DaysBeforeMonth(year: nat, month: nat): nat {
    if month <= 1 then 0 else DaysBeforeMonth(year, month - 1) + DaysInMonth(year, month - 1)
  }

  /** `date.toordinal()`. */
  function Ordinal(d: YearMonthDay): int {
    DaysBeforeYear(d.year) + DaysBeforeMonth(d.year, d.month) + d.day
  }

  /** Calendar order, field by field. */
  predicate Earlier(a: YearMonthDay, b: YearMonthDay) {
    a.year < b.year || (a.year == b.year && (a.month < b.month || (a.month == b.month && a.day < b.day)))
  }

  /** `day + timedelta(days=1)`; the last representable day has no successor. */
  function NextDay(d: Date): (n: Date)
    requires d != YearMonthDay(9999, 12, 31)
  {
    if d.day < DaysInMonth(d.year, d.month) then YearMonthDay(d.year, d.month, d.day + 1)
    else if d.month < 12 then YearMonthDay(d.year, d.month + 1, 1)
    else YearMonthDay(d.year + 1, 1, 1)
  }

  lemma ElevenMonths(year: nat)
    ensures DaysBeforeMonth(year, 12) == 306 + DaysInMonth(year, 2)
  {
    assert DaysBeforeMonth(year, 2) == 31;
    assert DaysBeforeMonth(year, 3) == 31 + DaysInMonth(year, 2);
    assert DaysBeforeMonth(year, 5) == DaysBeforeMonth(year, 3) + 61;
    assert DaysBeforeMonth(year, 7) == DaysBeforeMonth(year, 5) + 61;
    assert DaysBeforeMonth(year, 9) == DaysBeforeMonth(year, 7) + 62;
    assert DaysBeforeMonth(year, 11) == DaysBeforeMonth(year, 9) + 61;
  }

  lemma YearLength(year: nat)
    requires year >= 1
    ensures DaysBeforeYear(year) + DaysBeforeMonth(year, 12) + 31 == DaysBeforeYear(year + 1)
  {
    ElevenMonths(year);
    hide DaysBeforeMonth, DaysBeforeYear, IsLeap;
    LeapYearAddsOne(year);
  }

  lemma CenturiesNest(year: nat)
    ensures year % 400 == 0 ==> year % 100 == 0
    ensures year % 100 == 0 ==> year % 4 == 0
  {
    if year % 400 == 0 { assert year == 100 * (4 * (year / 400)); }
    if year % 100 == 0 { assert year == 4 * (25 * (year / 100)); }
  }

  lemma LeapYearAddsOne(year: nat)
    requires year >= 1
    ensures DaysBeforeYear(year + 1) - DaysBeforeYear(year) == if IsLeap(year) then 366 else 365
  {
    LeapDaysAddUp(year - 1);
    CenturiesNest(year);
  }

  /** The Gregorian months, as day counts: 30 days in four of them, and 29 in the February of a leap year. */
  lemma MonthLengths(year: nat, month: nat)
    requires 1000 <= year <= 9999 && 1 <= month < 12
    ensures Ordinal(YearMonthDay(year, month + 1, 1)) - Ordinal(YearMonthDay(year, month, 1)) ==
            if month in {4, 6, 9, 11} then 30
            else if month != 2 then 31
            else if year % 400 == 0 || (year % 4 == 0 && year % 100 != 0) then 29 else 28
  {
  }

  lemma LeapDaysAddUp(y: nat)
    ensures (y + 1) / 4 == y / 4 + if (y + 1) % 4 == 0 then 1 else 0
    ensures (y + 1) / 100 == y / 100 + if (y + 1) % 100 == 0 then 1 else 0
    ensures (y + 1) / 400 == y / 400 + if (y + 1) % 400 == 0 then 1 else 0
  {
  }

  /** Adding one day adds one to the ordinal, across month ends, year ends and leap days. */
  lemma NextDayOrdinal(d: Date)
    requires d != YearMonthDay(9999, 12, 31)
    ensures Ordinal(NextDay(d)) == Ordinal(d) + 1
    ensures Earlier(d, NextDay(d))
  {
    if d.day == DaysInMonth(d.year, d.month) && d.month == 12 {
      YearLength(d.year);
    }
  }

  lemma {:induction false} MonthsAccumulate(year: nat, a: nat, b: nat)
    requires 1 <= a < b
    ensures DaysBeforeMonth(year, a) + DaysInMonth(year, a) <= DaysBeforeMonth(year, b)
    decreases b
  {
    if a < b - 1 { MonthsAccumulate(year, a, b - 1); }
  }

  lemma {:induction false} YearsAccumulate(a: nat, b: nat)
    requires 1 <= a < b
    ensures DaysBeforeYear(a) + DaysBeforeMonth(a, 12) + 31 <= DaysBeforeYear(b)
    decreases b
  {
    YearLength(b - 1);
    if a < b - 1 { YearsAccumulate(a, b - 1); }
  }

  lemma EarlierHasLessOrdinal(a: Date, b: Date)
    requires Earlier(a, b)
    ensures Ordinal(a) < Ordinal(b)
  {
    if a.year < b.year {
      YearsAccumulate(a.year, b.year);
      if a.month < 12 { MonthsAccumulate(a.year, a.month, 12); }
    } else if a.month < b.month {
      MonthsAccumulate(a.year, a.month, b.month);
    }
  }

  /** The ordinal is an order embedding: comparing dates and comparing day counts agree. */
  lemma OrdinalOrder(a: Date, b: Date)
    ensures Earlier(a, b) <==> Ordinal(a) < Ordinal(b)
    ensures a == b <==> Ordinal(a) == Ordinal(b)
  {
    if Earlier(a, b) { EarlierHasLessOrdinal(a, b); }
    if Earlier(b, a) { EarlierHasLessOrdinal(b, a); }
  }

  // ----- moments -----

  datatype ClockTime = ClockTime(hour: nat, minute: nat, second: nat)

  predicate ValidClock(t: ClockTime) {
    t.hour < 24 && t.minute < 60 && t.second < 60
  }

  type Clock = t: ClockTime | ValidClock(t) witness ClockTime(0, 0, 0)

  datatype Moment = Moment(date: Date, clock: Clock)

  const MIDNIGHT: Clock := ClockTime(0, 0, 0)

  /** Seconds since the calendar's origin, the order of `datetime`. */
  function Instant(m: Moment): int {
    Ordinal(m.date) * 86400 + m.clock.hour * 3600 + m.clock.minute * 60 + m.clock.second
  }

  // ----- texts -----

  function MonthText(year: nat, month: nat): (s: string)
    requires year <= 9999 && month <= 12
    ensures |s| == 6 && AllDigits(s)
  {
    FourDigits(year) + TwoDigits(month)
  }

  /** `strftime("%Y%m%d")`. */
  function DayText(d: Date): (s: string)
    ensures |s| == 8 && AllDigits(s)
  {
    MonthText(d.year, d.month) + TwoDigits(d.day)
  }

  function ClockText(t: Clock): (s: string)
    ensures |s| == 6 && AllDigits(s)
  {
    TwoDigits(t.hour) + TwoDigits(t.minute) + TwoDigits(t.second)
  }

  /** `strftime("%Y%m%d%H%M%S")`. */
  function StampText(m: Moment): (s: string)
    ensures |s| == 14 && AllDigits(s)
  {
    DayText(m.date) + ClockText(m.clock)
  }

  /** `strptime(s, "%Y%m%d")` on text of eight characters. */
  function ParseDay(s: string): Option<Date> {
    if |s| == 8 && AllDigits(s) then
      var d := YearMonthDay(Number(s[..4]), Number(s[4..6]), Number(s[6..8]));
      if ValidDate(d) then Some(d) else None
    else None
  }

  lemma DayTextFields(d: Date)
    ensures DayText(d)[..4] == FourDigits(d.year)
    ensures DayText(d)[4..6] == TwoDigits(d.month)
    ensures DayText(d)[6..8] == TwoDigits(d.day)
    ensures DayText(d)[..6] == MonthText(d.year, d.month)
  {
  }

  lemma ParseInvertsDayText(d: Date)
    ensures ParseDay(DayText(d)) == Some(d)
  {
    DayTextFields(d);
  }

  /** Eight-digit texts sort as the days they name. */
  lemma DayTextOrder(a: Date, b: Date)
    ensures Less(DayText(a), DayText(b)) <==> Earlier(a, b)
    ensures DayText(a) == DayText(b) <==> a == b
  {
    LessByField(MonthText(a.year, a.month), MonthText(b.year, b.month), TwoDigits(a.day), TwoDigits(b.day));
    LessByField(FourDigits(a.year), FourDigits(b.year), TwoDigits(a.month), TwoDigits(b.month));
    LessIsNumeric(FourDigits(a.year), FourDigits(b.year));
    LessIsNumeric(TwoDigits(a.month), TwoDigits(b.month));
    LessIsNumeric(TwoDigits(a.day), TwoDigits(b.day));
    ParseInvertsDayText(a);
    ParseInvertsDayText(b);
    DayTextFields(a);
    DayTextFields(b);
  }

  lemma ClockTextOrder(a: Clock, b: Clock)
    ensures Less(ClockText(a), ClockText(b)) <==>
            a.hour * 3600 + a.minute * 60 + a.second < b.hour * 3600 + b.minute * 60 + b.second
    ensures ClockText(a) == ClockText(b) <==> a == b
  {
    var ah, am, asec := TwoDigits(a.hour), TwoDigits(a.minute), TwoDigits(a.second);
    var bh, bm, bs := TwoDigits(b.hour), TwoDigits(b.minute), TwoDigits(b.second);
    LessByField(ah + am, bh + bm, asec, bs);
    LessByField(ah, bh, am, bm);
    LessIsNumeric(ah, bh);
    LessIsNumeric(am, bm);
    LessIsNumeric(asec, bs);
    assert ClockText(a)[..2] == ah && ClockText(a)[2..4] == am && ClockText(a)[4..] == asec;
    assert ClockText(b)[..2] == bh && ClockText(b)[2..4] == bm && ClockText(b)[4..] == bs;
    assert ClockText(a)[..4] == ah + am && ClockText(b)[..4] == bh + bm;
  }

  lemma ClockRange(a: Clock, b: Clock)
    ensures 0 <= a.hour * 3600 + a.minute * 60 + a.second < 86400
    ensures a == b <==> a.hour * 3600 + a.minute * 60 + a.second == b.hour * 3600 + b.minute * 60 + b.second
  {
  }

  /** Watermarks are compared as text by the database and by `max`; that is chronological order. */
  lemma StampOrder(a: Moment, b: Moment)
    ensures Less(StampText(a), StampText(b)) <==> Instant(a) < Instant(b)
    ensures StampText(a) == StampText(b) <==> a == b
    ensures a == b <==> Instant(a) == Instant(b)
  {
    hide Less, DayText, ClockText, Ordinal;
    LessByField(DayText(a.date), DayText(b.date), ClockText(a.clock), ClockText(b.clock));
    DayTextOrder(a.date, b.date);
    ClockTextOrder(a.clock, b.clock);
    OrdinalOrder(a.date, b.date);
    ClockRange(a.clock, b.clock);
    ClockRange(b.clock, a.clock);
    if StampText(a) == StampText(b) {
      assert StampText(a)[..8] == DayText(a.date) && StampText(a)[8..] == ClockText(a.clock);
      assert StampText(b)[..8] == DayText(b.date) && StampText(b)[8..] == ClockText(b.clock);
    }
  }
}
