/**
 * `add_days`: calendar and business-day arithmetic over proleptic ordinals (1 January of year 1 is day 1, a
 * Monday).
 */
module Deadlines {

  datatype DayBasis = Calendar | Business

  // Monday is 0, Sunday is 6.
  function Weekday(date: int): (w: int)
    ensures 0 <= w < 7
  {
    (date + 6) % 7
  }

  predicate IsBusinessDay(date: int) {
    Weekday(date) < 5
  }

  /** The calendar: 1 January of year 1 is a Monday, 1 January 2000 a Saturday, and a week later it is the same day. */
  lemma {:induction false} CalendarIsAnchored(date: int)
    ensures Weekday(1) == 0 && Weekday(730_120) == 5 && Weekday(date + 7) == Weekday(date)
    ensures IsBusinessDay(date) <==> date % 7 != 6 && date % 7 != 0
  {
  }

  /** Business days after `low`, up to and including `high`. */
  function BusinessDaysBetween(low: int, high: int): (n: nat)
    decreases high - low
  {
    if high <= low then 0 else BusinessDaysBetween(low, high - 1) + if IsBusinessDay(high) then 1 else 0
  }

  /** The day `days` business days after `start`; counting nothing goes nowhere, weekend or not. */
  ghost predicate IsBusinessDayAfter(start: int, days: int, date: int) {
    if days <= 0 then date == start
    else date > start && IsBusinessDay(date) && BusinessDaysBetween(start, date) == days
  }

  method AddDays(start: int, days: int, basis: DayBasis) returns (moved: int)
    ensures basis.Calendar? ==> moved == start + days
    ensures basis.Business? ==> IsBusinessDayAfter(start, days, moved) && moved == ClosedForm(start, days)
  {
    if basis.Calendar? {
      return start + days;
    }
    moved := start;
    var remaining := days;
    while remaining > 0
      invariant remaining <= days && moved >= start
      invariant days > 0 ==> remaining >= 0 && BusinessDaysBetween(start, moved) == days - remaining
      invariant days <= 0 ==> moved == start
      invariant remaining == 0 && days > 0 ==> moved > start && IsBusinessDay(moved)
      decreases remaining, DaysToBusinessDay(moved)
    {
      moved := moved + 1;
      if Weekday(moved) < 5 {
        remaining := remaining - 1;
      } else {
        WeekendsEnd(moved);
      }
    }
    if days > 0 {
      ClosedFormIsRight(start, days);
      BusinessDayIsUnique(start, days, moved, ClosedForm(start, days));
    }
  }

  // How far the next business day is: at most a weekend.
  function DaysToBusinessDay(date: int): nat {
    if Weekday(date) >= 4 then 7 - Weekday(date) else 1
  }

  lemma WeekendsEnd(date: int)
    requires Weekday(date) >= 5
    ensures DaysToBusinessDay(date) < DaysToBusinessDay(date - 1)
  {
    WeekdayAdvances(date - 1);
  }

  lemma WeekdayAdvances(date: int)
    ensures Weekday(date + 1) == if Weekday(date) == 6 then 0 else Weekday(date) + 1
  {
  }

  lemma {:induction false} CountSplits(low: int, middle: int, high: int)
    requires low <= middle <= high
    ensures BusinessDaysBetween(low, high) == BusinessDaysBetween(low, middle) + BusinessDaysBetween(middle, high)
    decreases high - middle
  {
    if middle < high {
      CountSplits(low, middle, high - 1);
    }
  }

  /** Only one date is the given number of business days away. */
  lemma BusinessDayIsUnique(start: int, days: int, date: int, date': int)
    requires IsBusinessDayAfter(start, days, date) && IsBusinessDayAfter(start, days, date')
    ensures date == date'
  {
    if days > 0 && date != date' {
      var low, high := if date < date' then date else date', if date < date' then date' else date;
      CountSplits(start, low, high);
      CountSplits(low, high - 1, high);
    }
  }

  /** Adding a business days and then b more is adding a + b. */
  lemma BusinessDaysAdd(start: int, a: nat, b: nat, middle: int, end: int)
    requires IsBusinessDayAfter(start, a, middle) && IsBusinessDayAfter(middle, b, end)
    ensures IsBusinessDayAfter(start, a + b, end)
  {
    if a > 0 && b > 0 {
      CountSplits(start, middle, end);
    }
  }

  /** Later deadlines for more days, and every business day strictly after the start is reached by some count. */
  lemma MoreDaysLater(start: int, a: nat, b: nat, x: int, y: int)
    requires a < b && IsBusinessDayAfter(start, a, x) && IsBusinessDayAfter(start, b, y)
    ensures x < y
  {
    if y <= x {
      CountSplits(start, y, x);
    }
  }

  // ---------------------------------------------------------------------------------------------
  // Without a loop
  // ---------------------------------------------------------------------------------------------

  // The last business day on or before the date.
  function LastBusinessDay(date: int): int {
    if Weekday(date) >= 5 then date - (Weekday(date) - 4) else date
  }

  /** Whole weeks of five, then the rest, over a weekend if it runs past Friday. */
  function ClosedForm(start: int, days: int): int {
    if days <= 0 then start
    else
      var from := LastBusinessDay(start);
      var rest := days % 5;
      from + 7 * (days / 5) + rest + if Weekday(from) + rest > 4 then 2 else 0
  }

  lemma WeekHasFive(date: int)
    ensures BusinessDaysBetween(date, date + 7) == 5
  {
    assert BusinessDaysBetween(date, date + 1) == if IsBusinessDay(date + 1) then 1 else 0;
    assert BusinessDaysBetween(date, date + 3) == BusinessDaysBetween(date, date + 1)
      + (if IsBusinessDay(date + 2) then 1 else 0) + (if IsBusinessDay(date + 3) then 1 else 0);
    assert BusinessDaysBetween(date, date + 5) == BusinessDaysBetween(date, date + 3)
      + (if IsBusinessDay(date + 4) then 1 else 0) + (if IsBusinessDay(date + 5) then 1 else 0);
    WeekdayAdvances(date);
    WeekdayAdvances(date + 1);
    WeekdayAdvances(date + 2);
    WeekdayAdvances(date + 3);
    WeekdayAdvances(date + 4);
    WeekdayAdvances(date + 5);
    WeekdayAdvances(date + 6);
  }

  lemma {:induction false} WeeksHaveFiveEach(date: int, weeks: nat)
    ensures BusinessDaysBetween(date, date + 7 * weeks) == 5 * weeks
    ensures Weekday(date + 7 * weeks) == Weekday(date)
  {
    if weeks > 0 {
      WeeksHaveFiveEach(date, weeks - 1);
      CountSplits(date, date + 7 * (weeks - 1), date + 7 * weeks);
      WeekHasFive(date + 7 * (weeks - 1));
    }
  }

  // Up to four more business days from a business day.
  lemma {:induction false} RestOfWeek(date: int, rest: nat)
    requires IsBusinessDay(date) && rest < 5
    ensures var end := date + rest + if Weekday(date) + rest > 4 then 2 else 0;
      IsBusinessDay(end) && BusinessDaysBetween(date, end) == rest
  {
    if rest > 0 {
      RestOfWeek(date, rest - 1);
      var before := date + (rest - 1) + if Weekday(date) + (rest - 1) > 4 then 2 else 0;
      WeekdayAdvances(before);
      WeekdayAdvances(before + 1);
      WeekdayAdvances(before + 2);
      if Weekday(date) + rest == 5 {
        OverTheWeekend(date, before, rest);
      }
    }
  }

  lemma OverTheWeekend(date: int, friday: int, rest: nat)
    requires date <= friday && rest > 0 && Weekday(friday) == 4 && BusinessDaysBetween(date, friday) == rest - 1
    ensures IsBusinessDay(friday + 3) && BusinessDaysBetween(date, friday + 3) == rest
  {
    WeekdayAdvances(friday);
    WeekdayAdvances(friday + 1);
    WeekdayAdvances(friday + 2);
    assert BusinessDaysBetween(date, friday + 1) == rest - 1;
    assert BusinessDaysBetween(date, friday + 2) == rest - 1;
  }

  lemma WeekendAddsNothing(start: int)
    ensures IsBusinessDay(LastBusinessDay(start)) && LastBusinessDay(start) <= start
    ensures BusinessDaysBetween(LastBusinessDay(start), start) == 0
  {
    WeekdayAdvances(start - 2);
    WeekdayAdvances(start - 1);
    if Weekday(start) == 6 {
      assert BusinessDaysBetween(start - 2, start - 1) == 0;
    } else if Weekday(start) == 5 {
      assert BusinessDaysBetween(start - 1, start - 1) == 0;
    }
  }

  /** The loop and the closed form agree, weekend starts included. */
  lemma ClosedFormIsRight(start: int, days: int)
    ensures IsBusinessDayAfter(start, days, ClosedForm(start, days))
  {
    if days > 0 {
      var from := LastBusinessDay(start);
      var weeks, rest := days / 5, days % 5;
      var monday := from + 7 * weeks;
      WeekendAddsNothing(start);
      WeeksHaveFiveEach(from, weeks);
      RestOfWeek(monday, rest);
      var end := ClosedForm(start, days);
      CountSplits(from, monday, end);
      assert BusinessDaysBetween(from, end) == days;
      if end <= start {
        CountSplits(from, end, start);
      } else {
        CountSplits(from, start, end);
      }
    }
  }
}
