/**
 * What the calendar's arithmetic stands for: the Gregorian year, sums and maxima of counts, and the steps of intensity.
 */
module CalendarMeaning {
  import opened Common
  import opened Calendar

  /** Every fourth year, except the centuries that are not fourth ones themselves. */
  predicate LeapYear(year: nat) { year % 400 == 0 || (year % 4 == 0 && year % 100 != 0) }

  predicate Multiple(y: nat, d: nat)
    requires d >= 1
  {
    y % d == 0
  }

  /** How often `d` goes into `y`. */
  function Times(y: nat, d: nat): nat
    requires d >= 1
  {
    y / d
  }

  lemma DivStep(y: nat, d: nat)
    requires y >= 1 && d >= 1
    ensures Times(y, d) == Times(y - 1, d) + if Multiple(y, d) then 1 else 0
  {
    var q, r := (y - 1) / d, (y - 1) % d;
    assert y == q * d + (r + 1);
    if r + 1 == d {
      assert y == (q + 1) * d + 0;
      Quotient(y, q + 1, 0, d);
    } else {
      Quotient(y, q, r + 1, d);
    }
  }

  lemma Quotient(x: nat, q: nat, r: nat, d: nat)
    requires r < d && x == q * d + r
    ensures x / d == q && x % d == r
  {
    var p := x / d;
    assert x == p * d + x % d;
    if p < q { assert (p + 1) * d <= q * d by { Grows(p + 1, q, d); } }
    if p > q { assert (q + 1) * d <= p * d by { Grows(q + 1, p, d); } }
  }

  lemma Grows(a: nat, b: nat, d: nat)
    requires a <= b
    ensures a * d <= b * d
  {}

  /**
   * 1 January of year 1 was a Monday, and a year begins as many weekdays later than the one before as that one had
   * days: 366 in leap years and 365 otherwise.
   */
  lemma WeekdaysRunOn(year: nat)
    requires year >= 1
    ensures FirstWeekday(1) == 0
    ensures FirstWeekday(year + 1) == (FirstWeekday(year) + if LeapYear(year) then 366 else 365) % 7
    ensures DaysIn(year) == if LeapYear(year) then 366 else 365
  {
    hide Leap, LeapYear, DaysUpTo, FirstWeekday;
    LeapIs(year);
    LeapDays(year);
    YearOne();
    FirstIs(year);
    FirstIs(year + 1);
    ModSum(DaysUpTo(year - 1), if LeapYear(year) then 366 else 365);
  }

  lemma YearOne()
    ensures FirstWeekday(1) == 0
  {}

  /** The days of the years up to the given one. */
  function DaysUpTo(year: nat): int { 365 * year + Times(year, 4) - Times(year, 100) + Times(year, 400) }

  lemma FirstIs(year: nat)
    requires year >= 1
    ensures DaysUpTo(year - 1) >= 0 && FirstWeekday(year) == DaysUpTo(year - 1) % 7
  {}

  lemma LeapDays(year: nat)
    requires year >= 1
    ensures DaysUpTo(year) == DaysUpTo(year - 1) + if LeapYear(year) then 366 else 365
  {
    DivStep(year, 4);
    DivStep(year, 100);
    DivStep(year, 400);
    Multiples(year);
    hide Times, Multiple, LeapYear;
  }

  lemma Multiples(year: nat)
    ensures LeapYear(year) <==> Multiple(year, 400) || (Multiple(year, 4) && !Multiple(year, 100))
    ensures (Multiple(year, 400) ==> Multiple(year, 100)) && (Multiple(year, 100) ==> Multiple(year, 4))
  {
    if year % 400 == 0 { Quotient(year, 4 * (year / 400), 0, 100); }
    if year % 100 == 0 { Quotient(year, 25 * (year / 100), 0, 4); }
  }

  lemma ModSum(a: nat, b: nat)
    ensures (a + b) % 7 == (a % 7 + b) % 7
  {}

  const STARTS: seq<nat> := [0, 31, 59, 90, 120, 151, 181, 212, 243, 273, 304, 334, 365]

  /** The days on which the months start, one later from March on in leap years. */
  lemma {:induction false} MonthsStart(year: nat, month: nat)
    requires 1 <= month <= 13
    ensures MonthStart(year, month) == STARTS[month - 1] + if LeapYear(year) && month >= 3 then 1 else 0
    decreases month
  {
    if month > 1 {
      MonthsStart(year, month - 1);
      LengthIs(year, month - 1);
      hide MonthLength, LeapYear;
    }
  }

  lemma LengthIs(year: nat, month: nat)
    requires 1 <= month <= 12
    ensures MonthLength(year, month)
            == STARTS[month] - STARTS[month - 1] + if LeapYear(year) && month == 2 then 1 else 0
  {
    hide Leap, LeapYear;
    LeapIs(year);
  }

  lemma LeapIs(year: nat)
    ensures Leap(year) <==> LeapYear(year)
  {
    if year % 400 == 0 { assert year == 4 * (100 * (year / 400)); }
  }

  /** The days of the year fall on the weekdays in turn. */
  lemma DaysInTurn(year: nat, day: nat)
    requires year >= 1
    ensures WeekdayOf(year, 0) == FirstWeekday(year)
    ensures WeekdayOf(year, day + 1) == (WeekdayOf(year, day) + 1) % 7
  {
    WeekdayBound(year);
    hide FirstWeekday;
    ModSum(FirstWeekday(year) + day, 1);
  }

  lemma WeekdayBound(year: nat)
    requires year >= 1
    ensures FirstWeekday(year) < 7
  {}

  /** Sums over adjoining stretches add up, and the sum over one day is its count. */
  lemma {:induction false} SumsAddUp(counts: seq<nat>, i: nat, j: nat, k: nat)
    requires i <= j <= k <= |counts|
    ensures SumIn(counts, i, k) == SumIn(counts, i, j) + SumIn(counts, j, k)
    ensures j < |counts| ==> SumIn(counts, j, j + 1) == counts[j]
    decreases k
  {
    if j < k { SumsAddUp(counts, i, j, k - 1); }
    if j < |counts| { assert SumIn(counts, j, j) == 0; }
  }

  /** No count is above the greatest, which is one of them, or zero where there are none. */
  lemma {:induction false} MostIsGreatest(counts: seq<nat>, n: nat)
    requires n <= |counts|
    ensures forall k | 0 <= k < n :: counts[k] <= Most(counts, n)
    ensures if n == 0 then Most(counts, n) == 0 else exists k | 0 <= k < n :: counts[k] == Most(counts, n)
  {
    if n > 0 { MostIsGreatest(counts, n - 1); }
  }

  lemma CeilIs(a: nat, b: nat)
    requires a > 0 && b > 0
    ensures (CeilDiv(a, b) - 1) * b < a <= CeilDiv(a, b) * b && CeilDiv(a, b) >= 1
  {
    var q, r := (a + b - 1) / b, (a + b - 1) % b;
    assert a + b - 1 == q * b + r;
    assert (q - 1) * b == q * b - b;
  }

  /**
   * A step is the smallest number of contributions of which four reach the busiest day, and a day's level is the number
   * of steps that reach its count.
   */
  lemma LevelCountsSteps(count: nat, most: nat) returns (step: nat)
    requires 0 < count <= most
    ensures 4 * (step - 1) < most <= 4 * step
    ensures (Level(count, most) - 1) * step < count <= Level(count, most) * step
  {
    step := CeilDiv(most, 4);
    CeilIs(most, 4);
    CeilIs(count, step);
    NothingIsCapped(count, most);
  }
}
