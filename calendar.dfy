/**
 * Gregorian calendar dates, as JavaScript's `Date` represents them once a
 * date string has been parsed: the year, the 1-based month and the day of
 * the month. `Date.setDate(getDate() + 1)` is modelled by NextDay, with
 * month, year and leap-year rollover.
 */
module Calendar {
  import opened Wrappers
  import Text

  datatype Date = Date(year: nat, month: nat, day: nat)

  predicate IsLeapYear(y: nat) {
    y % 4 == 0 && (y % 100 != 0 || y % 400 == 0)
  }

  function DaysInMonth(y: nat, m: nat): (n: nat)
    requires 1 <= m <= 12
    ensures 28 <= n <= 31
  {
    if m == 2 then (if IsLeapYear(y) then 29 else 28)
    else if m == 4 || m == 6 || m == 9 || m == 11 then 30
    else 31
  }

  predicate ValidDate(d: Date) {
    1 <= d.month <= 12 && 1 <= d.day <= DaysInMonth(d.year, d.month)
  }

  /** The following calendar day (what `date.setDate(date.getDate() + 1)` produces). */
  function NextDay(d: Date): (r: Date)
    requires ValidDate(d)
    ensures ValidDate(r)
  {
    if d.day < DaysInMonth(d.year, d.month) then Date(d.year, d.month, d.day + 1)
    else if d.month < 12 then Date(d.year, d.month + 1, 1)
    else Date(d.year + 1, 1, 1)
  }

  /** The preceding calendar day; the first day of year 0 has none here. */
  function PrevDay(d: Date): (r: Date)
    requires ValidDate(d) && d != Date(0, 1, 1)
    ensures ValidDate(r)
  {
    if d.day > 1 then Date(d.year, d.month, d.day - 1)
    else if d.month > 1 then Date(d.year, d.month - 1, DaysInMonth(d.year, d.month - 1))
    else Date(d.year - 1, 12, 31)
  }

  /** NextDay and PrevDay are inverse to each other. */
  lemma NextPrevInverse(d: Date)
    requires ValidDate(d)
    ensures NextDay(d) != Date(0, 1, 1) && PrevDay(NextDay(d)) == d
    ensures d != Date(0, 1, 1) ==> NextDay(PrevDay(d)) == d
  {
  }

  function YearLength(y: nat): nat {
    if IsLeapYear(y) then 366 else 365
  }

  /** Days in the years before `y`, counted from 1 January of year 0. */
  function DaysBeforeYear(y: nat): nat {
    if y == 0 then 0 else DaysBeforeYear(y - 1) + YearLength(y - 1)
  }

  /** Days in the months of year `y` before month `m`. */
  function DaysBeforeMonth(y: nat, m: nat): nat
    requires 1 <= m <= 13
  {
    if m == 1 then 0 else DaysBeforeMonth(y, m - 1) + DaysInMonth(y, m - 1)
  }

  /** The months of a year add up to its length. */
  lemma WholeYear(y: nat)
    ensures DaysBeforeMonth(y, 13) == YearLength(y)
  {
    var feb := DaysInMonth(y, 2);
    assert DaysBeforeMonth(y, 1) == 0;
    assert DaysBeforeMonth(y, 2) == 31;
    assert DaysBeforeMonth(y, 3) == 31 + feb;
    assert DaysBeforeMonth(y, 4) == 62 + feb;
    assert DaysBeforeMonth(y, 5) == 92 + feb;
    assert DaysBeforeMonth(y, 6) == 123 + feb;
    assert DaysBeforeMonth(y, 7) == 153 + feb;
    assert DaysBeforeMonth(y, 8) == 184 + feb;
    assert DaysBeforeMonth(y, 9) == 215 + feb;
    assert DaysBeforeMonth(y, 10) == 245 + feb;
    assert DaysBeforeMonth(y, 11) == 276 + feb;
    assert DaysBeforeMonth(y, 12) == 306 + feb;
  }

  /** The number of days from 1 January of year 0 to `d`: an independent reference
      for "one calendar day later". */
  function DayNumber(d: Date): nat
    requires ValidDate(d)
  {
    DaysBeforeYear(d.year) + DaysBeforeMonth(d.year, d.month) + d.day - 1
  }

  /** NextDay moves exactly one day forward on the day count. */
  lemma NextDayIsOneDayLater(d: Date)
    requires ValidDate(d)
    ensures DayNumber(NextDay(d)) == DayNumber(d) + 1
  {
    if d.day == DaysInMonth(d.year, d.month) && d.month == 12 {
      WholeYear(d.year);
    }
  }

  /** Distinct valid dates have distinct day counts, so NextDay is the only date one day later. */
  lemma DayNumberInjective(a: Date, b: Date)
    requires ValidDate(a) && ValidDate(b) && DayNumber(a) == DayNumber(b)
    ensures a == b
  {
    if a.year < b.year {
      EarlierYearFirst(a, b);
      assert false;
    } else if b.year < a.year {
      EarlierYearFirst(b, a);
      assert false;
    } else if a.month < b.month {
      EarlierMonthFirst(a, b);
      assert false;
    } else if b.month < a.month {
      EarlierMonthFirst(b, a);
      assert false;
    }
  }

  /** Every day of an earlier year comes before every day of a later one. */
  lemma EarlierYearFirst(a: Date, b: Date)
    requires ValidDate(a) && ValidDate(b) && a.year < b.year
    ensures DayNumber(a) < DayNumber(b)
  {
    YearBounds(a);
    DaysBeforeYearMonotone(a.year + 1, b.year);
  }

  /** Within a year, every day of an earlier month comes before every day of a later one. */
  lemma EarlierMonthFirst(a: Date, b: Date)
    requires ValidDate(a) && ValidDate(b) && a.year == b.year && a.month < b.month
    ensures DayNumber(a) < DayNumber(b)
  {
    DaysBeforeMonthMonotone(a.year, a.month + 1, b.month);
  }

  /** A date's day count lies within its year. */
  lemma YearBounds(d: Date)
    requires ValidDate(d)
    ensures DayNumber(d) < DaysBeforeYear(d.year + 1)
  {
    DaysBeforeMonthMonotone(d.year, d.month + 1, 13);
    WholeYear(d.year);
  }

  lemma {:induction false} DaysBeforeYearMonotone(x: nat, y: nat)
    requires x <= y
    ensures DaysBeforeYear(x) <= DaysBeforeYear(y)
  {
    if x < y {
      DaysBeforeYearMonotone(x, y - 1);
    }
  }

  lemma {:induction false} DaysBeforeMonthMonotone(y: nat, m: nat, n: nat)
    requires 1 <= m <= n <= 13
    ensures DaysBeforeMonth(y, m) <= DaysBeforeMonth(y, n)
  {
    if m < n {
      DaysBeforeMonthMonotone(y, m, n - 1);
    }
  }

  /** 28 February is followed by 29 February exactly in leap years, otherwise by 1 March. */
  lemma FebruaryRollover(y: nat)
    ensures NextDay(Date(y, 2, 28)) == if IsLeapYear(y) then Date(y, 2, 29) else Date(y, 3, 1)
  {
  }

  /** 31 December is followed by 1 January of the next year. */
  lemma YearRollover(y: nat)
    ensures NextDay(Date(y, 12, 31)) == Date(y + 1, 1, 1)
  {
  }

  /** `yyyy-MM-dd`: the year with at least four digits and the month and day with two,
      as date-fns' `format(date, 'yyyy-MM-dd')` and the date part of `toISOString()` write it. */
  function FormatIso(d: Date): (r: string)
    ensures ValidDate(d) && d.year < 10000 ==>
              |r| == 10 && r[4] == '-' && r[7] == '-'
              && forall i :: 0 <= i < 10 && i != 4 && i != 7 ==> Text.IsDigit(r[i])
  {
    var y, m, dd := Text.PaddedNat(d.year, 4), Text.PaddedNat(d.month, 2), Text.PaddedNat(d.day, 2);
    Text.DigitsJoined(y, m, dd, '-');
    FieldWidths(d);
    y + "-" + m + "-" + dd
  }

  /** The widths of a valid date's padded fields. */
  lemma FieldWidths(d: Date)
    ensures ValidDate(d) ==> |Text.PaddedNat(d.month, 2)| == 2 && |Text.PaddedNat(d.day, 2)| == 2
    ensures ValidDate(d) && d.year < 10000 ==> |Text.PaddedNat(d.year, 4)| == 4
  {
    if ValidDate(d) {
      Text.PaddedTwoDigits(d.month);
      Text.PaddedTwoDigits(d.day);
      if d.year < 10000 {
        YearDigits(d.year);
      }
    }
  }

  predicate AllDigits(s: string) {
    forall i :: 0 <= i < |s| ==> Text.IsDigit(s[i])
  }

  /** Reads a `YYYY-MM-DD` string; anything else, or an impossible date, gives None. */
  function ParseIso(s: string): (r: Option<Date>)
    ensures r.Some? ==> ValidDate(r.value)
  {
    if |s| == 10 && s[4] == '-' && s[7] == '-'
       && AllDigits(s[..4]) && AllDigits(s[5..7]) && AllDigits(s[8..])
    then
      var d := Date(Text.ParseNat(s[..4]), Text.ParseNat(s[5..7]), Text.ParseNat(s[8..]));
      if ValidDate(d) then Some(d) else None
    else None
  }

  /** Formatting a date of years 0..9999 and reading it back gives the same date. */
  lemma ParseFormatIso(d: Date)
    requires ValidDate(d) && d.year < 10000
    ensures ParseIso(FormatIso(d)) == Some(d)
  {
    var y := Text.PaddedNat(d.year, 4);
    var m := Text.PaddedNat(d.month, 2);
    var dd := Text.PaddedNat(d.day, 2);
    YearDigits(d.year);
    Text.PaddedTwoDigits(d.month);
    Text.PaddedTwoDigits(d.day);
    var s := FormatIso(d);
    assert s[..4] == y && s[5..7] == m && s[8..] == dd;
    Text.PaddedNatValue(d.year, 4);
    Text.PaddedNatValue(d.month, 2);
    Text.PaddedNatValue(d.day, 2);
  }

  lemma YearDigits(y: nat)
    requires y < 10000
    ensures |Text.PaddedNat(y, 4)| == 4
  {
    NatToStringLength(y);
  }

  /** The next day is another day, in the same year or a later one. */
  lemma NextDayMovesForward(d: Date)
    requires ValidDate(d)
    ensures NextDay(d) != d && d.year <= NextDay(d).year
  {
    NextDayIsOneDayLater(d);
  }

  /** Two different dates of years below 10000 are written differently. */
  lemma FormatIsoInjective(p: Date, d: Date)
    requires ValidDate(p) && ValidDate(d) && p.year < 10000 && d.year < 10000
    ensures FormatIso(p) == FormatIso(d) <==> p == d
  {
    ParseFormatIso(p);
    ParseFormatIso(d);
  }

  lemma {:induction false} NatToStringLength(n: nat)
    ensures n < 10000 ==> |Text.NatToString(n)| <= 4
    ensures n < 100 ==> |Text.NatToString(n)| <= 2
  {
    if n >= 10 {
      NatToStringLength(n / 10);
      assert |Text.NatToString(n)| == |Text.NatToString(n / 10)| + 1;
      assert n < 10000 ==> n / 10 < 1000;
      assert n < 100 ==> n / 10 < 10;
    }
  }
}
