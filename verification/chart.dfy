/**
 * The points of the haemoglobin chart and the chart's period choice. A point carries its time
 * (milliseconds since the epoch), its value, which series it belongs to and whether a chelator
 * was taken. Values are whole numbers here; the source draws floating-point values.
 */
module Chart {
  import opened Dates
  import opened Ordering

  /** `'analysis' | 'transfusion_before' | 'transfusion_after'`. */
  datatype Kind = Analysis | TransfusionBefore | TransfusionAfter

  datatype Point = Point(time: int, value: int, kind: Kind, hasChelator: bool)

  /** The sort key of the comparator `(a, b) => a.date.getTime() - b.date.getTime()`. */
  function Time(p: Point): int
  {
    p.time
  }

  /** `Math.min(...values)` of a non-empty list. */
  function MinValue(ps: seq<Point>): (m: int)
    requires ps != []
    ensures exists i :: 0 <= i < |ps| && ps[i].value == m
    ensures forall i :: 0 <= i < |ps| ==> m <= ps[i].value
  {
    if |ps| == 1 then ps[0].value
    else
      var r := MinValue(ps[1..]);
      assert forall i :: 1 <= i < |ps| ==> ps[i] == ps[1..][i - 1];
      if ps[0].value <= r then ps[0].value else r
  }

  /** `Math.max(...values)` of a non-empty list. */
  function MaxValue(ps: seq<Point>): (m: int)
    requires ps != []
    ensures exists i :: 0 <= i < |ps| && ps[i].value == m
    ensures forall i :: 0 <= i < |ps| ==> ps[i].value <= m
  {
    if |ps| == 1 then ps[0].value
    else
      var r := MaxValue(ps[1..]);
      assert forall i :: 1 <= i < |ps| ==> ps[i] == ps[1..][i - 1];
      if ps[0].value >= r then ps[0].value else r
  }

  /** The period buttons `'1M' | '3M' | '6M' | '1Y' | 'ALL'`. */
  datatype Period = OneMonth | ThreeMonths | SixMonths | OneYear | All

  /** How many months a period reaches back; a year is twelve (`setFullYear(y - 1)` keeps month and day). */
  function MonthsBack(p: Period): nat
  {
    match p
    case OneMonth => 1
    case ThreeMonths => 3
    case SixMonths => 6
    case OneYear => 12
    case All => 0
  }

  /** The first day of the month `k` months before the month of `d`; a negative month wraps into earlier years. */
  function MonthStartBack(d: LocalDate, k: nat): (r: LocalDate)
    ensures r.Valid() && r.day == 1
    ensures r.year * 12 + r.month == d.year * 12 + d.month - k
  {
    var total := d.year * 12 + d.month - k;
    LocalDate(total / 12, total % 12, 1)
  }

  /**
   * The cutoff instant: `new Date(0)` for all time; otherwise now with the month moved back,
   * keeping the day of the month and the time of day, so a day the shorter month lacks rolls
   * over into the month after it (`setMonth`). Daylight-saving changes are not modelled.
   */
  function CutoffMs(p: Period, c: Clock): (r: int)
    requires c.Valid()
    ensures p == All ==> r == 0
    ensures p != All ==> var b := MonthStartBack(c.today, MonthsBack(p)); var n := DaysInMonth(b.year, b.month);
      && (c.today.day <= n ==>
        r == LocalMidnightMs(LocalDate(b.year, b.month, c.today.day), c.offsetMinutes) + c.msOfDay)
      && (c.today.day > n ==> var next := NextMonthStart(b);
        r == LocalMidnightMs(LocalDate(next.year, next.month, c.today.day - n), c.offsetMinutes) + c.msOfDay)
  {
    if p == All then 0
    else
      var first := MonthStartBack(c.today, MonthsBack(p));
      DayOfMonth(first, c.today.day);
      (DayNumber(first) + c.today.day - 1) * DAY_MS + c.msOfDay - c.offsetMinutes * MINUTE_MS
  }

  /**
   * Day `day` of the month starting at `b` is `day - 1` days after `b`; a day past the month's
   * end is the day of the next month that many days after `b`, as `setMonth` rolls it over.
   */
  lemma DayOfMonth(b: LocalDate, day: int)
    requires b.Valid() && b.day == 1 && 1 <= day <= 31
    ensures var n := DaysInMonth(b.year, b.month);
      && (day <= n ==> DayNumber(LocalDate(b.year, b.month, day)) == DayNumber(b) + day - 1)
      && (day > n ==> var next := NextMonthStart(b);
        DayNumber(LocalDate(next.year, next.month, day - n)) == DayNumber(b) + day - 1)
  {
  }

  /** `setFullYear(y - 1)` keeps the month: the year period starts in the same month a year earlier. */
  lemma YearBackKeepsMonth(d: LocalDate)
    requires 0 <= d.month < 12
    ensures MonthStartBack(d, MonthsBack(OneYear)) == LocalDate(d.year - 1, d.month, 1)
  {
    var r := MonthStartBack(d, 12);
    assert r.year * 12 + r.month == (d.year - 1) * 12 + d.month;
  }

  /** `d.date >= cutoff`. */
  predicate InPeriod(x: Point, p: Period, c: Clock)
    requires c.Valid()
  {
    x.time >= CutoffMs(p, c)
  }

  /** The test of the `filter`, as a function value. */
  function KeepsPeriod(p: Period, c: Clock): Point -> bool
    requires c.Valid()
  {
    (x: Point) => InPeriod(x, p, c)
  }

  /** The points of the period, in their order: as many as there are points in the period. */
  function PeriodFilter(data: seq<Point>, p: Period, c: Clock): (r: seq<Point>)
    requires c.Valid()
    ensures forall x :: x in r ==> x in data && InPeriod(x, p, c)
    ensures forall x :: x in data && InPeriod(x, p, c) ==> x in r
    ensures |r| == Count(data, KeepsPeriod(p, c))
  {
    var keep := KeepsPeriod(p, c);
    var r := Filter(data, keep);
    assert forall x :: x in r ==> x in multiset(data);
    forall x | x in data && InPeriod(x, p, c) ensures x in r {
      FilterKeeps(data, keep, x);
    }
    FilterLength(data, keep);
    r
  }

  /** Months counted from year 0: the earlier month has the smaller first day. */
  lemma MonthStartsOrdered(d: LocalDate, k1: nat, k2: nat)
    requires k2 <= k1
    ensures DayNumber(MonthStartBack(d, k1)) <= DayNumber(MonthStartBack(d, k2))
  {
    var a, b := MonthStartBack(d, k1), MonthStartBack(d, k2);
    if k2 < k1 {
      var t1, t2 := d.year * 12 + d.month - k1, d.year * 12 + d.month - k2;
      assert a.year * 12 + a.month == t1 && b.year * 12 + b.month == t2;
      assert Before(a, b);
      BeforeHasSmallerDayNumber(a, b);
    }
  }

  /** A longer period reaches further back: its cutoff is no later, so it keeps every point a shorter one keeps. */
  lemma CutoffsNested(p: Period, q: Period, c: Clock)
    requires c.Valid() && p != All && q != All && MonthsBack(q) <= MonthsBack(p)
    ensures CutoffMs(p, c) <= CutoffMs(q, c)
  {
    MonthStartsOrdered(c.today, MonthsBack(p), MonthsBack(q));
    var a := DayNumber(MonthStartBack(c.today, MonthsBack(p))) + c.today.day - 1;
    var b := DayNumber(MonthStartBack(c.today, MonthsBack(q))) + c.today.day - 1;
    DayStep(a, b, c.msOfDay - c.offsetMinutes * MINUTE_MS);
  }

  /** Every cutoff but "all" lies before now: the period's first instant is at least a month ago. */
  lemma CutoffBeforeNow(p: Period, c: Clock)
    requires c.Valid() && p != All
    ensures CutoffMs(p, c) < NowMs(c)
  {
    var first := MonthStartBack(c.today, MonthsBack(p));
    var own := LocalDate(c.today.year, c.today.month, 1);
    assert DayNumber(c.today) == DayNumber(own) + c.today.day - 1;
    assert Before(first, own);
    BeforeHasSmallerDayNumber(first, own);
    DayStep(DayNumber(first) + c.today.day - 1, DayNumber(c.today), c.msOfDay - c.offsetMinutes * MINUTE_MS);
  }

  /** Whole days scale to milliseconds in the same order. */
  lemma DayStep(a: int, b: int, rest: int)
    requires a <= b
    ensures a * DAY_MS + rest <= b * DAY_MS + rest
    ensures a < b ==> a * DAY_MS + rest < b * DAY_MS + rest
  {
  }

  /** So a point kept by a shorter period is kept by every longer one. */
  lemma PeriodsNested(x: Point, p: Period, q: Period, c: Clock)
    requires c.Valid() && p != All && q != All && MonthsBack(q) <= MonthsBack(p)
    requires InPeriod(x, q, c)
    ensures InPeriod(x, p, c)
  {
    CutoffsNested(p, q, c);
  }
}
