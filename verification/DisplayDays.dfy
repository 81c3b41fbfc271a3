/** The days an identity timeline is sampled on. */
module DisplayDays {
  import opened IntSets
  import opened Options
  import opened Timelines

  // ---- The calendar ----

  datatype Month = Month(year: int, month: int)

  predicate ValidMonth(m: Month) { 1 <= m.year && 1 <= m.month <= 12 }

  predicate Leap(year: int) { year % 4 == 0 && (year % 100 != 0 || year % 400 == 0) }

  function DaysIn(year: int, month: int): int {
    if month == 2 then if Leap(year) then 29 else 28
    else if month == 4 || month == 6 || month == 9 || month == 11 then 30
    else 31
  }

  function DaysBeforeYear(year: int): int
    requires 1 <= year
  {
    if year == 1 then 0 else DaysBeforeYear(year - 1) + if Leap(year - 1) then 366 else 365
  }

  function DaysBeforeMonth(year: int, month: int): (n: int)
    requires 1 <= month <= 12
    ensures 28 * (month - 1) <= n <= 31 * (month - 1)
  {
    if month == 1 then 0 else DaysBeforeMonth(year, month - 1) + DaysIn(year, month - 1)
  }

  /** `date(year, month, 1).toordinal()` */
  function FirstDay(m: Month): int
    requires ValidMonth(m)
  {
    DaysBeforeYear(m.year) + DaysBeforeMonth(m.year, m.month) + 1
  }

  function NextMonth(m: Month): Month {
    if m.month == 12 then Month(m.year + 1, 1) else Month(m.year, m.month + 1)
  }

  predicate Earlier(a: Month, b: Month) {
    a.year < b.year || (a.year == b.year && a.month < b.month)
  }

  lemma {:induction false} WholeYear(year: int)
    requires 1 <= year
    ensures DaysBeforeMonth(year, 12) + 31 == if Leap(year) then 366 else 365
  {
    assert DaysBeforeMonth(year, 3) == 31 + DaysIn(year, 2) by {
      assert DaysBeforeMonth(year, 2) == 31 by {
        assert DaysBeforeMonth(year, 1) == 0;
      }
    }
    assert DaysBeforeMonth(year, 5) == DaysBeforeMonth(year, 3) + 61 by {
      assert DaysBeforeMonth(year, 4) == DaysBeforeMonth(year, 3) + 31;
    }
    assert DaysBeforeMonth(year, 7) == DaysBeforeMonth(year, 5) + 61 by {
      assert DaysBeforeMonth(year, 6) == DaysBeforeMonth(year, 5) + 31;
    }
    assert DaysBeforeMonth(year, 9) == DaysBeforeMonth(year, 7) + 62 by {
      assert DaysBeforeMonth(year, 8) == DaysBeforeMonth(year, 7) + 31;
    }
    assert DaysBeforeMonth(year, 11) == DaysBeforeMonth(year, 9) + 61 by {
      assert DaysBeforeMonth(year, 10) == DaysBeforeMonth(year, 9) + 30;
    }
  }

  /** The next month begins as many days later as the month has. */
  lemma NextMonthBegins(m: Month)
    requires ValidMonth(m)
    ensures ValidMonth(NextMonth(m)) && FirstDay(NextMonth(m)) == FirstDay(m) + DaysIn(m.year, m.month)
  {
    if m.month == 12 {
      WholeYear(m.year);
    }
  }

  lemma {:induction false} EarlierBegins(a: Month, b: Month)
    requires ValidMonth(a) && ValidMonth(b) && Earlier(a, b)
    ensures FirstDay(NextMonth(a)) <= FirstDay(b)
    decreases b.year - a.year, 12 - a.month
  {
    var next := NextMonth(a);
    NextMonthBegins(a);
    if next != b {
      EarlierBegins(next, b);
      NextMonthBegins(next);
    }
  }

  lemma {:induction false} YearBegins(year: int)
    requires 1 <= year
    ensures var y := year - 1; DaysBeforeYear(year) == 365 * y + y / 4 - y / 100 + y / 400
  {
    if year > 1 {
      YearBegins(year - 1);
      Quotients(year - 1);
      Multiples(year - 1);
    }
  }

  lemma Quotients(y: int)
    requires 1 <= y
    ensures y / 4 == (y - 1) / 4 + if y % 4 == 0 then 1 else 0
    ensures y / 100 == (y - 1) / 100 + if y % 100 == 0 then 1 else 0
    ensures y / 400 == (y - 1) / 400 + if y % 400 == 0 then 1 else 0
  {
  }

  lemma Multiples(y: int)
    ensures y % 400 == 0 ==> y % 100 == 0
    ensures y % 100 == 0 ==> y % 4 == 0
  {
  }

  /** The days of the common year before each month. */
  const DAYS_BEFORE: seq<int> := [0, 31, 59, 90, 120, 151, 181, 212, 243, 273, 304, 334]

  lemma {:induction false} MonthBegins(year: int, month: int)
    requires 1 <= month <= 12
    ensures DaysBeforeMonth(year, month) ==
      DAYS_BEFORE[month - 1] + if month > 2 && year % 4 == 0 && (year % 100 != 0 || year % 400 == 0) then 1 else 0
  {
    if month > 1 {
      MonthBegins(year, month - 1);
    }
  }

  /** The ordinal of the first day of a month in the proleptic Gregorian calendar. */
  lemma FirstDayExactly(m: Month)
    requires ValidMonth(m)
    ensures var y := m.year - 1;
      FirstDay(m) == 365 * y + y / 4 - y / 100 + y / 400 + DAYS_BEFORE[m.month - 1] + 1
        + if m.month > 2 && m.year % 4 == 0 && (m.year % 100 != 0 || m.year % 400 == 0) then 1 else 0
  {
    YearBegins(m.year);
    MonthBegins(m.year, m.month);
  }

  ghost predicate MonthStart(day: int) {
    exists m: Month :: ValidMonth(m) && FirstDay(m) == day
  }

  lemma OutsideMonth(m: Month, o: Month)
    requires ValidMonth(m) && ValidMonth(o)
    ensures FirstDay(o) <= FirstDay(m) || FirstDay(NextMonth(m)) <= FirstDay(o)
  {
    if Earlier(o, m) {
      EarlierBegins(o, m);
      NextMonthBegins(o);
    } else if o != m {
      EarlierBegins(m, o);
    }
  }

  /** Between the first days of a month and the next no month begins. */
  lemma NoneBetween(m: Month, day: int)
    requires ValidMonth(m) && FirstDay(m) < day < FirstDay(NextMonth(m))
    ensures !MonthStart(day)
  {
    forall o: Month | ValidMonth(o) ensures FirstDay(o) != day {
      OutsideMonth(m, o);
    }
  }

  // ---- Display days ----

  /** A day an interval adds: its first and last, the day before and the day after. */
  predicate Boundary(x: Interval, start: int, end: int, day: int) {
    || (start <= x.from <= end && (day == x.from || (day == x.from - 1 && start < x.from)))
    || (x.to.Some? && start <= x.to.value <= end && (day == x.to.value || (day == x.to.value + 1 && x.to.value < end)))
  }

  ghost predicate Displayed(start: int, end: int, groups: seq<seq<Interval>>, day: int) {
    && start <= day <= end
    && (day == start || day == end || MonthStart(day) || exists g :: g in groups && BoundedBy(g, start, end, day))
  }

  ghost predicate BoundedBy(items: seq<Interval>, start: int, end: int, day: int) {
    exists x :: x in items && Boundary(x, start, end, day)
  }

  ghost predicate Greatest(days: seq<int>, day: int, shown: int) {
    shown in days && shown <= day && forall d :: d in days && d <= day ==> d <= shown
  }

  lemma {:induction false} GreatestExists(days: seq<int>, day: int)
    requires exists d :: d in days && d <= day
    ensures exists shown :: Greatest(days, day, shown)
  {
    var before := set d | d in days && d <= day;
    var d :| d in days && d <= day;
    assert d in before;
    var shown := Max(before);
    assert shown in before && forall d :: d in days && d <= day ==> d in before;
    assert Greatest(days, day, shown);
  }

  /** An interval covers a day when it covers the display day at or before it. */
  lemma CoverageSampled(days: seq<int>, start: int, end: int, groups: seq<seq<Interval>>, g: seq<Interval>, x: Interval,
                        day: int, shown: int)
    requires forall d :: d in days <==> Displayed(start, end, groups, d)
    requires start <= day <= end && Greatest(days, day, shown) && g in groups && x in g
    ensures x.Covers(day) <==> x.Covers(shown)
  {
    assert shown in days && Displayed(start, end, groups, shown);
    if start <= x.from <= day {
      BoundaryShown(days, start, end, groups, g, x, x.from);
      assert x.from <= shown;
    }
    if x.to.Some? && start <= x.to.value < day {
      BoundaryShown(days, start, end, groups, g, x, x.to.value + 1);
      assert x.to.value + 1 <= shown;
    }
  }

  lemma BoundaryShown(days: seq<int>, start: int, end: int, groups: seq<seq<Interval>>, g: seq<Interval>, x: Interval,
                      day: int)
    requires forall d :: d in days <==> Displayed(start, end, groups, d)
    requires g in groups && x in g && Boundary(x, start, end, day)
    ensures day in days
  {
    assert BoundedBy(g, start, end, day);
    assert Displayed(start, end, groups, day);
  }

  lemma {:induction false} SameCandidates(items: seq<Interval>, a: int, b: int)
    requires forall x :: x in items ==> (x.Covers(a) <==> x.Covers(b))
    ensures Candidates(items, a) == Candidates(items, b)
  {
    if items != [] {
      SameCandidates(items[..|items| - 1], a, b);
    }
  }

  /** Sampling loses nothing: what the timeline says of any day of the report is what
      it says of the last display day up to then. */
  lemma SamplingLosesNothing(days: seq<int>, start: int, end: int, groups: seq<seq<Interval>>, g: seq<Interval>,
                             day: int, shown: int)
    requires forall d :: d in days <==> Displayed(start, end, groups, d)
    requires start <= day <= end && Greatest(days, day, shown) && g in groups
    ensures IntervalForDay(g, day) == IntervalForDay(g, shown)
  {
    forall x | x in g ensures x.Covers(day) <==> x.Covers(shown) {
      CoverageSampled(days, start, end, groups, g, x, day, shown);
    }
    SameCandidates(g, day, shown);
  }

  /** Each day of the report has a last display day up to it, on which every group of
      intervals looks the same. */
  ghost predicate Sampled(days: seq<int>, start: int, end: int, groups: seq<seq<Interval>>) {
    forall day :: start <= day <= end ==> SampledAt(days, groups, day)
  }

  ghost predicate SampledAt(days: seq<int>, groups: seq<seq<Interval>>, day: int) {
    exists shown :: Greatest(days, day, shown) && SameLookups(groups, day, shown)
  }

  ghost predicate SameLookups(groups: seq<seq<Interval>>, a: int, b: int) {
    forall g :: g in groups ==> IntervalForDay(g, a) == IntervalForDay(g, b)
  }

  lemma DisplayDaysSample(days: seq<int>, start: int, end: int, groups: seq<seq<Interval>>)
    requires forall d :: d in days <==> start <= end && Displayed(start, end, groups, d)
    ensures Sampled(days, start, end, groups)
  {
    forall day | start <= day <= end ensures SampledAt(days, groups, day) {
      assert Displayed(start, end, groups, start);
      GreatestExists(days, day);
      var shown :| Greatest(days, day, shown);
      forall g | g in groups ensures IntervalForDay(g, day) == IntervalForDay(g, shown) {
        SamplingLosesNothing(days, start, end, groups, g, day, shown);
      }
    }
  }

  method AddBoundaries(days: set<int>, items: seq<Interval>, start: int, end: int) returns (r: set<int>)
    ensures forall d :: d in r <==> d in days || BoundedBy(items, start, end, d)
  {
    r := days;
    for i := 0 to |items|
      invariant forall d :: d in r <==> d in days || exists j :: 0 <= j < i && Boundary(items[j], start, end, d)
    {
      var x := items[i];
      ghost var before := r;
      if start <= x.from <= end {
        r := r + {x.from};
        if x.from > start {
          r := r + {x.from - 1};
        }
      }
      if x.to.Some? && start <= x.to.value <= end {
        r := r + {x.to.value};
        if x.to.value < end {
          r := r + {x.to.value + 1};
        }
      }
      assert forall d :: d in r <==> d in before || Boundary(items[i], start, end, d);
    }
  }

  method AddMonthStarts(days: set<int>, month: Month, start: int, end: int) returns (r: set<int>)
    requires ValidMonth(month) && FirstDay(month) <= start < FirstDay(NextMonth(month))
    ensures forall d :: start <= d <= end ==> (d in r <==> d in days || MonthStart(d))
    ensures forall d :: d in days ==> d in r
  {
    r := days;
    var cursor := month;
    NextMonthBegins(cursor);
    if FirstDay(cursor) < start {
      forall d | start <= d < FirstDay(NextMonth(cursor)) ensures !MonthStart(d) {
        NoneBetween(cursor, d);
      }
      cursor := NextMonth(cursor);
    }
    while FirstDay(cursor) <= end
      invariant ValidMonth(cursor) && start <= FirstDay(cursor)
      invariant forall d :: d in days ==> d in r
      invariant forall d :: start <= d < FirstDay(cursor) ==> (d in r <==> d in days || MonthStart(d))
      invariant forall d :: FirstDay(cursor) <= d ==> (d in r <==> d in days)
      decreases end - FirstDay(cursor)
    {
      r := r + {FirstDay(cursor)};
      NextMonthBegins(cursor);
      forall d | FirstDay(cursor) < d < FirstDay(NextMonth(cursor)) ensures !MonthStart(d) {
        NoneBetween(cursor, d);
      }
      cursor := NextMonth(cursor);
    }
  }

  /** `month` is the month of `start`. */
  method BuildDisplayDays(month: Month, start: int, end: int, groups: seq<seq<Interval>>) returns (days: seq<int>)
    requires ValidMonth(month) && FirstDay(month) <= start < FirstDay(NextMonth(month))
    ensures Ascending(days)
    ensures forall d :: d in days <==> start <= end && Displayed(start, end, groups, d)
    ensures Sampled(days, start, end, groups)
  {
    var all := {start, end};
    all := AddMonthStarts(all, month, start, end);
    ghost var before := all;
    for i := 0 to |groups|
      invariant forall d :: d in all <==> d in before || exists g :: g in groups[..i] && BoundedBy(g, start, end, d)
    {
      all := AddBoundaries(all, groups[i], start, end);
      assert groups[..i + 1] == groups[..i] + [groups[i]];
    }
    assert groups[..|groups|] == groups;
    days := Sorted(set d | d in all && start <= d <= end);
    DisplayDaysSample(days, start, end, groups);
  }
}
