/** The year of contributions: streak, busiest month, and the grid of weeks with its month headings. */
module Calendar {
  import opened Common

  // ---- Dates, as days of a year from 0 ----

  predicate Leap(year: nat) { year % 4 == 0 && (year % 100 != 0 || year % 400 == 0) }

  function DaysIn(year: nat): nat { if Leap(year) then 366 else 365 }

  function MonthLength(year: nat, month: nat): nat
    requires 1 <= month <= 12
  {
    if month == 2 then (if Leap(year) then 29 else 28)
    else if month in {4, 6, 9, 11} then 30
    else 31
  }

  /** The first day of a month; 13 stands for the end of the year. */
  function MonthStart(year: nat, month: nat): nat
    requires 1 <= month <= 13
  {
    if month == 1 then 0 else MonthStart(year, month - 1) + MonthLength(year, month - 1)
  }

  /** The weekday of 1 January, Monday 0: 1 January of year 1 was a Monday. */
  function FirstWeekday(year: nat): nat
    requires year >= 1
  {
    var y := year - 1;
    (365 * y + y / 4 - y / 100 + y / 400) % 7
  }

  function WeekdayOf(year: nat, day: nat): nat
    requires year >= 1
  {
    (FirstWeekday(year) + day) % 7
  }

  lemma MonthStep(year: nat, m: nat)
    requires 1 <= m <= 12
    ensures MonthStart(year, m + 1) == MonthStart(year, m) + MonthLength(year, m)
    ensures 28 <= MonthLength(year, m) <= 31
  {}

  lemma YearInMonths(year: nat)
    ensures MonthStart(year, 13) == DaysIn(year)
  {
    MonthStep(year, 1);
    MonthStep(year, 2);
    MonthStep(year, 3);
    MonthStep(year, 4);
    MonthStep(year, 5);
    MonthStep(year, 6);
    MonthStep(year, 7);
    MonthStep(year, 8);
    MonthStep(year, 9);
    MonthStep(year, 10);
    MonthStep(year, 11);
    MonthStep(year, 12);
    hide MonthStart, Leap;
  }

  predicate InMonth(year: nat, day: nat, month: nat) {
    1 <= month <= 12 && MonthStart(year, month) <= day < MonthStart(year, month + 1)
  }

  lemma {:induction false} StartsGrow(year: nat, a: nat, b: nat)
    requires 1 <= a <= b <= 13
    ensures MonthStart(year, a) + 28 * (b - a) <= MonthStart(year, b)
    decreases b
  {
    if a < b {
      MonthStep(year, b - 1);
      StartsGrow(year, a, b - 1);
    }
  }

  /** The month of a day. */
  function MonthOf(year: nat, day: nat, from: nat): (m: nat)
    requires 1 <= from <= 12 && MonthStart(year, from) <= day < DaysIn(year)
    ensures InMonth(year, day, m)
    decreases 12 - from
  {
    if from == 12 then
      YearInMonths(year);
      12
    else if day < MonthStart(year, from + 1) then from
    else MonthOf(year, day, from + 1)
  }

  lemma MonthUnique(year: nat, day: nat, a: nat, b: nat)
    requires InMonth(year, day, a) && InMonth(year, day, b)
    ensures a == b
  {
    if a < b { StartsGrow(year, a + 1, b); }
    if b < a { StartsGrow(year, b + 1, a); }
  }

  // ---- Streak and busiest month ----

  predicate Active(counts: seq<nat>, i: nat, j: nat)
    requires j <= |counts|
  {
    forall k | i <= k < j :: counts[k] > 0
  }

  /** The longest run of consecutive active days, by the running totals of the loop. */
  method LongestStreak(counts: seq<nat>) returns (longest: nat)
    ensures exists i: nat, j: nat :: i <= j <= |counts| && j - i == longest && Active(counts, i, j)
    ensures forall i: nat, j: nat | i <= j <= |counts| && Active(counts, i, j) :: j - i <= longest
  {
    longest := 0;
    var streak: nat := 0;
    ghost var at: nat := 0;
    for day := 0 to |counts|
      invariant streak <= day && Active(counts, day - streak, day)
      invariant streak < day ==> counts[day - streak - 1] == 0
      invariant at + longest <= day && Active(counts, at, at + longest)
      invariant forall i: nat, j: nat | i <= j <= day && Active(counts, i, j) :: j - i <= longest
    {
      ghost var before := longest;
      if counts[day] > 0 {
        streak := streak + 1;
        if streak > longest {
          longest := streak;
          at := day + 1 - streak;
        }
      } else {
        streak := 0;
      }
      forall i: nat, j: nat | i <= j <= day + 1 && Active(counts, i, j) ensures j - i <= longest {
        if j <= day {
          assert j - i <= before;
        } else if i <= day {
          assert counts[day] > 0;
          if streak <= day { assert counts[day - streak] == 0; }
        }
      }
    }
  }

  function SumIn(counts: seq<nat>, i: nat, j: nat): nat
    requires i <= j <= |counts|
  {
    if i == j then 0 else SumIn(counts, i, j - 1) + counts[j - 1]
  }

  function MonthCount(year: nat, counts: seq<nat>, month: nat): nat
    requires |counts| == DaysIn(year) && 1 <= month <= 12
  {
    YearInMonths(year);
    StartsGrow(year, month + 1, 13);
    SumIn(counts, MonthStart(year, month), MonthStart(year, month + 1))
  }

  /** The first of the months with the most contributions; January when there are none. */
  method BusiestMonth(year: nat, counts: seq<nat>) returns (best: nat)
    requires |counts| == DaysIn(year)
    ensures 1 <= best <= 12
    ensures forall m | 1 <= m <= 12 :: MonthCount(year, counts, m) <= MonthCount(year, counts, best)
    ensures forall m | 1 <= m < best :: MonthCount(year, counts, m) < MonthCount(year, counts, best)
  {
    best := 1;
    for month := 2 to 13
      invariant 1 <= best < month
      invariant forall m | 1 <= m < month :: MonthCount(year, counts, m) <= MonthCount(year, counts, best)
      invariant forall m | 1 <= m < best :: MonthCount(year, counts, m) < MonthCount(year, counts, best)
    {
      if MonthCount(year, counts, month) > MonthCount(year, counts, best) { best := month; }
    }
  }

  // ---- Intensity ----

  function CeilDiv(a: nat, b: nat): nat
    requires b > 0
  {
    (a + b - 1) / b
  }

  function Level(count: nat, most: nat): nat {
    if count == 0 || most == 0 then 0 else Min(4, CeilDiv(count, Max(1, CeilDiv(most, 4))))
  }

  lemma Scaled(d: nat, a: nat, b: nat)
    requires a <= b
    ensures d * a <= d * b
  {}

  lemma DivAtMost(a: nat, d: nat, q: nat)
    requires d > 0 && a < d * (q + 1)
    ensures a / d <= q
  {
    if a / d > q {
      Scaled(d, q + 1, a / d);
      assert false;
    }
  }

  lemma QuotientAbove(b: nat, d: nat) returns (q: nat)
    requires d > 0
    ensures q == b / d && b < d * (q + 1)
  {
    q := b / d;
    assert b == q * d + b % d;
    assert d * (q + 1) == q * d + d;
  }

  lemma DivMonotone(a: nat, b: nat, d: nat)
    requires a <= b && d > 0
    ensures a / d <= b / d
  {
    var q := QuotientAbove(b, d);
    DivAtMost(a, d, q);
  }

  /** Levels run from 0, exactly for days without contributions, to 4 and never fall as the count grows. */
  lemma LevelsMeasure(a: nat, b: nat, most: nat)
    requires a <= b <= most
    ensures 0 <= Level(a, most) <= Level(b, most) <= 4
    ensures Level(a, most) == 0 <==> a == 0
  {
    if a > 0 {
      var step: nat := Max(1, CeilDiv(most, 4));
      DivMonotone(a + step - 1, b + step - 1, step);
      DivMonotone(step, a + step - 1, step);
    }
  }

  /** No count is cut down to the top level: the busiest day needs at most four steps. */
  lemma NothingIsCapped(count: nat, most: nat)
    requires 0 < count <= most
    ensures Level(count, most) == CeilDiv(count, Max(1, CeilDiv(most, 4)))
  {
    var step: nat := Max(1, CeilDiv(most, 4));
    assert 4 * step >= most;
    DivAtMost(count + step - 1, step, 4);
  }

  // ---- The grid ----

  datatype Cell = Cell(day: nat, count: nat, level: nat)

  function Most(counts: seq<nat>, n: nat): nat
    requires n <= |counts|
  {
    if n == 0 then 0 else Max(Most(counts, n - 1), counts[n - 1])
  }

  /** Blank cells before 1 January: weeks start on Sunday. */
  function Leading(year: nat): nat
    requires year >= 1
  {
    (FirstWeekday(year) + 1) % 7
  }

  function Weeks(year: nat): nat
    requires year >= 1
  {
    CeilDiv(Leading(year) + DaysIn(year), 7)
  }

  /** What belongs at a place counted down the columns, Sunday first. */
  function PlaceAt(year: nat, counts: seq<nat>, place: nat): Option<Cell>
    requires year >= 1 && |counts| == DaysIn(year)
  {
    var day := place - Leading(year);
    if 0 <= day < |counts| then Some(Cell(day, counts[day], Level(counts[day], Most(counts, |counts|)))) else None
  }

  /** The cells in order: blanks, the days, and blanks to the end of the last week. */
  method CellsOf(year: nat, counts: seq<nat>) returns (cells: seq<Option<Cell>>)
    requires year >= 1 && |counts| == DaysIn(year)
    ensures |cells| == 7 * Weeks(year) && forall p | 0 <= p < |cells| :: cells[p] == PlaceAt(year, counts, p)
  {
    var most := 0;
    for n := 0 to |counts|
      invariant most == Most(counts, n)
    {
      most := Max(most, counts[n]);
    }
    cells := [];
    for n := 0 to Leading(year)
      invariant |cells| == n && forall p | 0 <= p < |cells| :: cells[p] == None
    {
      cells := cells + [None];
    }
    for day := 0 to |counts|
      invariant |cells| == Leading(year) + day && forall p | 0 <= p < |cells| :: cells[p] == PlaceAt(year, counts, p)
    {
      cells := cells + [Some(Cell(day, counts[day], Level(counts[day], most)))];
    }
    var blanks := -|cells| % 7;
    for n := 0 to blanks
      invariant |cells| == Leading(year) + |counts| + n
                && forall p | 0 <= p < |cells| :: cells[p] == PlaceAt(year, counts, p)
    {
      cells := cells + [None];
    }
  }

  method WeeksOf(cells: seq<Option<Cell>>) returns (weeks: seq<seq<Option<Cell>>>)
    requires |cells| % 7 == 0
    ensures |weeks| == |cells| / 7
    ensures forall c | 0 <= c < |weeks| :: |weeks[c]| == 7 && forall r | 0 <= r < 7 :: weeks[c][r] == cells[7 * c + r]
  {
    weeks := [];
    for c := 0 to |cells| / 7
      invariant |weeks| == c
      invariant forall b | 0 <= b < c :: |weeks[b]| == 7 && forall r | 0 <= r < 7 :: weeks[b][r] == cells[7 * b + r]
    {
      weeks := weeks + [cells[7 * c..7 * c + 7]];
    }
  }

  /** `_calendar_grid` without its headings: one row a weekday, one column a week. */
  method Grid(year: nat, counts: seq<nat>) returns (rows: seq<seq<Option<Cell>>>, weeks: seq<seq<Option<Cell>>>)
    requires year >= 1 && |counts| == DaysIn(year)
    ensures |rows| == 7 && |weeks| == Weeks(year)
    ensures forall r | 0 <= r < 7 :: |rows[r]| == Weeks(year)
    ensures forall r, c | 0 <= r < 7 && 0 <= c < Weeks(year) :: rows[r][c] == PlaceAt(year, counts, 7 * c + r)
    ensures forall c | 0 <= c < |weeks| :: |weeks[c]| == 7 && forall r | 0 <= r < 7 ::
            weeks[c][r] == PlaceAt(year, counts, 7 * c + r)
  {
    var cells := CellsOf(year, counts);
    weeks := WeeksOf(cells);
    hide PlaceAt;
    rows := [];
    for r := 0 to 7
      invariant |rows| == r
      invariant forall q | 0 <= q < r :: |rows[q]| == |weeks|
      invariant forall q, c | 0 <= q < r && 0 <= c < |weeks| :: rows[q][c] == PlaceAt(year, counts, 7 * c + q)
    {
      var row: seq<Option<Cell>> := [];
      for c := 0 to |weeks|
        invariant |row| == c && forall b | 0 <= b < c :: row[b] == PlaceAt(year, counts, 7 * b + r)
      {
        row := row + [weeks[c][r]];
      }
      rows := rows + [row];
    }
  }

  /**
   * Read column by column the grid shows every day of the year once and in order, each in the row of its own weekday,
   * Sunday being row 0.
   */
  lemma EveryDayOnce(year: nat, counts: seq<nat>, day: nat, row: nat, column: nat)
    requires year >= 1 && |counts| == DaysIn(year) && day < |counts| && row < 7 && column < Weeks(year)
    ensures (exists cell :: PlaceAt(year, counts, 7 * column + row) == Some(cell) && cell.day == day)
            <==> 7 * column + row == Leading(year) + day
    ensures 7 * column + row == Leading(year) + day ==> row == (WeekdayOf(year, day) + 1) % 7
    ensures (Leading(year) + day) / 7 < Weeks(year)
  {
    var place := Leading(year) + day;
    WeekdayOfPlace(year, day);
    InWeeks(place, Leading(year) + DaysIn(year));
    if 7 * column + row == place {
      assert PlaceAt(year, counts, 7 * column + row).Some?;
      assert row == place % 7;
    }
    hide FirstWeekday, Most, Level, Leading, WeekdayOf, DaysIn;
  }

  lemma WeekdayOfPlace(year: nat, day: nat)
    requires year >= 1
    ensures (Leading(year) + day) % 7 == (WeekdayOf(year, day) + 1) % 7
  {
    var w := FirstWeekday(year);
    hide FirstWeekday;
    ModAdd(w + 1, day);
    ModAdd(w + day, 1);
  }

  lemma ModAdd(a: nat, b: nat)
    ensures (a % 7 + b) % 7 == (a + b) % 7
  {}

  lemma InWeeks(place: nat, n: nat)
    requires place < n
    ensures place / 7 < CeilDiv(n, 7)
  {}

  // ---- Month headings ----

  /** The column that holds a day. */
  function ColumnOf(year: nat, day: nat): nat
    requires year >= 1
  {
    (Leading(year) + day) / 7
  }

  /** The column a month's heading starts at; the one after the last column for the end of the year. */
  function HeadingAt(year: nat, month: nat): nat
    requires year >= 1 && 1 <= month <= 13
  {
    if month == 13 then Weeks(year) else ColumnOf(year, MonthStart(year, month))
  }

  function Span(year: nat, month: nat): int
    requires year >= 1 && 1 <= month <= 12
  {
    HeadingAt(year, month + 1) - HeadingAt(year, month)
  }

  /** The columns where months are first seen, going through the weeks column by column. */
  ghost predicate Seen(year: nat, starts: map<nat, nat>, places: nat)
    requires year >= 1
  {
    forall m: nat :: m in starts <==>
      1 <= m <= 12 && MonthStart(year, m) + Leading(year) < places
  }

  ghost predicate SeenAt(year: nat, starts: map<nat, nat>)
    requires year >= 1
  {
    forall m | m in starts :: 1 <= m <= 12 && starts[m] == ColumnOf(year, MonthStart(year, m))
  }

  /** Past a day, exactly the month that starts on it is new. */
  lemma NextDay(year: nat, starts: map<nat, nat>, column: nat, row: nat, day: nat, month: nat)
    returns (after: map<nat, nat>)
    requires year >= 1 && row < 7 && 7 * column + row == Leading(year) + day && InMonth(year, day, month)
    requires Seen(year, starts, 7 * column + row) && SeenAt(year, starts)
    ensures Seen(year, after, 7 * column + row + 1) && SeenAt(year, after)
    ensures after == if month !in starts then starts[month := column] else starts
  {
    hide MonthStart, Leading;
    after := if month !in starts then starts[month := column] else starts;
    forall m: nat | 1 <= m <= 12 && MonthStart(year, m) == day ensures m == month {
      StartsHere(year, m, day);
      MonthUnique(year, day, m, month);
    }
    if month !in starts {
      assert MonthStart(year, month) == day;
      assert (7 * column + row) / 7 == column;
    }
  }

  lemma StartsHere(year: nat, m: nat, day: nat)
    requires 1 <= m <= 12 && MonthStart(year, m) == day
    ensures InMonth(year, day, m)
  {
    MonthStep(year, m);
  }

  /** Past a blank place no month is new. */
  lemma NextBlank(year: nat, counts: seq<nat>, starts: map<nat, nat>, place: nat)
    requires year >= 1 && |counts| == DaysIn(year) && PlaceAt(year, counts, place).None?
    requires Seen(year, starts, place)
    ensures Seen(year, starts, place + 1)
  {
    forall m: nat | 1 <= m <= 12 ensures MonthStart(year, m) != place - Leading(year) {
      StartsGrow(year, m, 13);
      YearInMonths(year);
    }
    hide MonthStart, Leading, DaysIn, Most, Level;
  }

  /** The day at a place and the month it is in. */
  lemma DayAt(year: nat, counts: seq<nat>, place: nat)
    requires year >= 1 && |counts| == DaysIn(year)
    ensures var cell := PlaceAt(year, counts, place);
            cell.Some? ==> (MonthStart(year, 1) <= cell.value.day < DaysIn(year)
                            && place == Leading(year) + cell.value.day
                            && InMonth(year, cell.value.day, MonthOf(year, cell.value.day, 1)))
  {
    hide Leading, DaysIn, Most, Level, MonthOf;
  }

  /** `_month_spans`: where each month is first seen, and how many columns it takes to the next. */
  method MonthSpans(year: nat, counts: seq<nat>, weeks: seq<seq<Option<Cell>>>) returns (spans: seq<int>)
    requires year >= 1 && |counts| == DaysIn(year) && |weeks| == Weeks(year)
    requires forall c | 0 <= c < |weeks| :: |weeks[c]| == 7 && forall r | 0 <= r < 7 ::
             weeks[c][r] == PlaceAt(year, counts, 7 * c + r)
    ensures |spans| == 12 && forall m | 1 <= m <= 12 :: spans[m - 1] == Span(year, m)
  {
    var starts: map<nat, nat> := map[];
    assert Seen(year, starts, 0) && SeenAt(year, starts);
    hide MonthStart, MonthOf, Leading, DaysIn, PlaceAt, Seen, SeenAt, InMonth;
    for column := 0 to |weeks|
      invariant Seen(year, starts, 7 * column) && SeenAt(year, starts)
    {
      for row := 0 to 7
        invariant Seen(year, starts, 7 * column + row) && SeenAt(year, starts)
      {
        var cell := weeks[column][row];
        DayAt(year, counts, 7 * column + row);
        if cell.Some? {
          var month := MonthOf(year, cell.value.day, 1);
          ghost var after := NextDay(year, starts, column, row, cell.value.day, month);
          if month !in starts { starts := starts[month := column]; }
        } else {
          NextBlank(year, counts, starts, 7 * column + row);
        }
      }
    }
    AllSeen(year, starts);
    spans := [];
    for month := 1 to 13
      invariant |spans| == month - 1 && forall m | 1 <= m < month :: spans[m - 1] == Span(year, m)
    {
      var end := if month < 12 then starts[month + 1] else |weeks|;
      spans := spans + [end - starts[month]];
    }
  }

  lemma AllSeen(year: nat, starts: map<nat, nat>)
    requires year >= 1 && Seen(year, starts, 7 * Weeks(year)) && SeenAt(year, starts)
    ensures forall m | 1 <= m <= 12 :: m in starts && starts[m] == HeadingAt(year, m)
  {
    forall m | 1 <= m <= 12 ensures m in starts {
      YearInMonths(year);
      StartsGrow(year, m, 13);
      assert 7 * Weeks(year) >= Leading(year) + DaysIn(year);
    }
    hide MonthStart, Leading, DaysIn;
  }

  lemma {:induction false} SpansUpTo(year: nat, month: nat)
    requires year >= 1 && 1 <= month <= 13
    ensures SumOf(year, month) == HeadingAt(year, month)
  {
    if month == 1 {
      assert Leading(year) < 7;
    } else {
      SpansUpTo(year, month - 1);
    }
    hide MonthStart, FirstWeekday, DaysIn;
  }

  /** The columns of the months before this one. */
  function SumOf(year: nat, month: nat): int
    requires year >= 1 && 1 <= month <= 13
  {
    if month == 1 then 0 else SumOf(year, month - 1) + Span(year, month - 1)
  }

  /** The headings fill the columns exactly, each taking from four to six of them. */
  lemma SpansFill(year: nat)
    requires year >= 1
    ensures SumOf(year, 13) == Weeks(year)
    ensures forall m | 1 <= m <= 12 :: 4 <= Span(year, m) <= 6
  {
    SpansUpTo(year, 13);
    forall m | 1 <= m <= 12 ensures 4 <= Span(year, m) <= 6 {
      MonthStep(year, m);
      YearInMonths(year);
      var from, n := Leading(year) + MonthStart(year, m), MonthLength(year, m);
      assert HeadingAt(year, m) == from / 7;
      assert HeadingAt(year, m + 1) == if m == 12 then CeilDiv(from + n, 7) else (from + n) / 7;
      hide MonthStart, Leading, DaysIn, MonthLength, HeadingAt;
    }
  }
}
