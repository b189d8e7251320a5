/**
 * The single-file prototype of the app: its chart's period filter and render guard, its
 * calendar's click rule and "days since" count. Its month grid and month navigation are those of
 * the calendar screen (`Dates.MonthGrid`, `CalendarScreen.CalendarState`), and its shell has the
 * handlers of `Navigation.App`.
 */
module Prototype {
  import opened Wrappers
  import opened Dates
  import opened Ordering
  import opened Chart
  import CalendarScreen

  /** The prototype's records, with the fields the rules below read. */
  datatype Transfusion = Transfusion(id: string, date: string, hbBefore: int, hbAfter: int)

  datatype Reminder = Reminder(id: string, title: string, date: string, time: string)

  // ---------------------------------------------------------------- chart

  /** `filteredData`: the points of the period, sorted by time. */
  function FilteredData(data: seq<Point>, p: Period, c: Clock): (r: seq<Point>)
    requires c.Valid()
    ensures SortedBy(r, Time)
    ensures forall x :: x in r <==> x in data && InPeriod(x, p, c)
    ensures |r| == Count(data, KeepsPeriod(p, c))
  {
    var kept := PeriodFilter(data, p, c);
    var r := SortBy(kept, Time);
    assert forall x :: x in r <==> x in multiset(kept);
    r
  }

  /** The chart is drawn, rather than its empty state, when at least two points are in the period. */
  function ChartRenders(data: seq<Point>, p: Period, c: Clock): (b: bool)
    requires c.Valid()
    ensures b <==> Count(data, KeepsPeriod(p, c)) >= 2
  {
    |FilteredData(data, p, c)| >= 2
  }

  /** Switching to a longer period never empties a drawn chart: it keeps every point the shorter one did. */
  lemma LongerPeriodRendersToo(data: seq<Point>, p: Period, q: Period, c: Clock)
    requires c.Valid() && p != All && q != All && MonthsBack(q) <= MonthsBack(p)
    ensures |FilteredData(data, q, c)| <= |FilteredData(data, p, c)|
    ensures ChartRenders(data, q, c) ==> ChartRenders(data, p, c)
  {
    forall x | x in data && KeepsPeriod(q, c)(x) ensures KeepsPeriod(p, c)(x) {
      PeriodsNested(x, p, q, c);
    }
    CountWeaker(data, KeepsPeriod(q, c), KeepsPeriod(p, c));
  }

  // ---------------------------------------------------------------- click rule

  function TransfusionDate(t: Transfusion): string { t.date }

  function ReminderDate(r: Reminder): string { r.date }

  /** `find(x => x.date === key)`: the first element dated `key`. */
  function FindOn<T(==)>(s: seq<T>, date: T -> string, key: string): (r: Option<T>)
    ensures r.None? <==> forall x :: x in s ==> date(x) != key
    ensures r.Some? ==> exists i :: (0 <= i < |s| && s[i] == r.value && date(s[i]) == key
      && forall j :: 0 <= j < i ==> date(s[j]) != key)
  {
    if s == [] then None
    else if date(s[0]) == key then Some(s[0])
    else
      var r := FindOn(s[1..], date, key);
      assert forall x :: x in s ==> x == s[0] || x in s[1..];
      if r.Some? then
        var i :| 0 <= i < |s[1..]| && s[1..][i] == r.value && date(s[1..][i]) == key
          && forall j :: 0 <= j < i ==> date(s[1..][j]) != key;
        assert s[i + 1] == r.value;
        r
      else r
  }

  /** What a click on a day does; unlike the calendar screen, an empty day does nothing. */
  datatype ClickAction = EditTransfusion(t: Transfusion) | EditReminder(r: Reminder) | NoAction

  /** The click rule on the day text `key`: the first transfusion, else the first reminder, else nothing. */
  function ClickOnKey(ts: seq<Transfusion>, rs: seq<Reminder>, key: string): (a: ClickAction)
    ensures a.EditTransfusion? <==> exists t :: t in ts && t.date == key
    ensures a.EditTransfusion? ==> a == EditTransfusion(FindOn(ts, TransfusionDate, key).value)
    ensures a.EditReminder? <==> (forall t :: t in ts ==> t.date != key) && exists r :: r in rs && r.date == key
    ensures a.EditReminder? ==> a == EditReminder(FindOn(rs, ReminderDate, key).value)
    ensures a.NoAction? <==> (forall t :: t in ts ==> t.date != key) && (forall r :: r in rs ==> r.date != key)
  {
    var t := FindOn(ts, TransfusionDate, key);
    if t.Some? then EditTransfusion(t.value)
    else
      var r := FindOn(rs, ReminderDate, key);
      if r.Some? then EditReminder(r.value) else NoAction
  }

  /**
   * `date.toISOString().split('T')[0]` for the cell of local day `d`: the UTC day of its local
   * midnight. At UTC and west of it that is the clicked day; east of UTC it is the day before,
   * whose key differs from the clicked day's.
   */
  function ClickKey(d: LocalDate, offsetMinutes: int): (k: string)
    requires d.Valid() && -1440 < offsetMinutes < 1440
    ensures offsetMinutes <= 0 ==> k == DateKey(d)
    ensures offsetMinutes > 0 ==> k == DateKey(PrevDay(d)) && k != DateKey(d)
  {
    if offsetMinutes > 0 then DateKeyInjective(PrevDay(d), d); DateKey(UtcDayOfLocalMidnight(d, offsetMinutes))
    else DateKey(UtcDayOfLocalMidnight(d, offsetMinutes))
  }

  /** `handleDateClick` as written, on the cell of local day `d`: the click rule on `ClickKey`. */
  function ClickOn(d: LocalDate, ts: seq<Transfusion>, rs: seq<Reminder>, offsetMinutes: int): (a: ClickAction)
    requires d.Valid() && -1440 < offsetMinutes < 1440
    ensures a.EditTransfusion? ==> a.t in ts && a.t.date == ClickKey(d, offsetMinutes)
    ensures a.EditReminder? ==> (a.r in rs && a.r.date == ClickKey(d, offsetMinutes)
      && forall t :: t in ts ==> t.date != ClickKey(d, offsetMinutes))
    ensures a.NoAction? <==> ((forall t :: t in ts ==> t.date != ClickKey(d, offsetMinutes))
      && (forall r :: r in rs ==> r.date != ClickKey(d, offsetMinutes)))
  {
    ClickOnKey(ts, rs, ClickKey(d, offsetMinutes))
  }

  /**
   * So east of UTC a transfusion on the clicked day is not opened when nothing is recorded the
   * day before: the click does nothing, where the local key opens that transfusion.
   */
  lemma ClickMissesTheDayEastOfUtc(d: LocalDate, ts: seq<Transfusion>, rs: seq<Reminder>, offsetMinutes: int)
    requires d.Valid() && 0 < offsetMinutes < 1440
    requires exists t :: t in ts && t.date == DateKey(d)
    requires forall t :: t in ts ==> t.date != DateKey(PrevDay(d))
    requires forall r :: r in rs ==> r.date != DateKey(PrevDay(d))
    ensures ClickOn(d, ts, rs, offsetMinutes) == NoAction
    ensures LocalClickOn(d, ts, rs).EditTransfusion?
  {
  }

  /** The click rule on the local day's own key, as the calendar screen builds it. */
  function LocalClickOn(d: LocalDate, ts: seq<Transfusion>, rs: seq<Reminder>): (a: ClickAction)
    ensures a.EditTransfusion? ==> a.t in ts && a.t.date == DateKey(d)
    ensures a.EditReminder? ==> a.r in rs && a.r.date == DateKey(d)
    ensures a.NoAction? <==> (forall t :: t in ts ==> t.date != DateKey(d)) && (forall r :: r in rs ==> r.date != DateKey(d))
  {
    ClickOnKey(ts, rs, DateKey(d))
  }

  /** At UTC and west of it, the click as written agrees with the local key. */
  lemma ClickAgreesAtOrWestOfUtc(d: LocalDate, ts: seq<Transfusion>, rs: seq<Reminder>, offsetMinutes: int)
    requires d.Valid() && -1440 < offsetMinutes <= 0
    ensures ClickOn(d, ts, rs, offsetMinutes) == LocalClickOn(d, ts, rs)
  {
  }

  // ---------------------------------------------------------------- days since

  /** `daysSince`: whole days between now and the FIRST listed transfusion, taken to be the latest. */
  function DaysSinceFirst(ts: seq<Transfusion>, c: Clock): (r: nat)
    requires c.Valid()
    ensures ts == [] ==> r == 0
    ensures ts != [] ==> r * DAY_MS <= CalendarScreen.Abs(NowMs(c) - DateMs(ts[0].date)) < (r + 1) * DAY_MS
  {
    if ts == [] then 0
    else
      CalendarScreen.FloorDays(CalendarScreen.Abs(NowMs(c) - DateMs(ts[0].date)));
      CalendarScreen.Abs(NowMs(c) - DateMs(ts[0].date)) / DAY_MS
  }

  /** The list starts with its latest transfusion, as the prototype assumes. */
  predicate FirstIsLatest(ts: seq<Transfusion>)
  {
    forall i :: 0 <= i < |ts| ==> DateMs(ts[i].date) <= DateMs(ts[0].date)
  }

  /** A prototype record as the calendar screen's record (no creation time, no component). */
  function AsCalendar(t: Transfusion): CalendarScreen.Transfusion
  {
    CalendarScreen.Transfusion(t.id, t.date, 0, t.hbBefore, t.hbAfter, "")
  }

  function AllAsCalendar(ts: seq<Transfusion>): (r: seq<CalendarScreen.Transfusion>)
    ensures |r| == |ts| && forall i :: 0 <= i < |ts| ==> r[i] == AsCalendar(ts[i])
  {
    seq(|ts|, i requires 0 <= i < |ts| => AsCalendar(ts[i]))
  }

  /**
   * When the first transfusion is the latest, the prototype's count is the calendar screen's,
   * which sorts the list itself.
   */
  lemma DaysSinceAgreesWhenFirstIsLatest(ts: seq<Transfusion>, c: Clock)
    requires c.Valid() && FirstIsLatest(ts)
    ensures DaysSinceFirst(ts, c) == CalendarScreen.DaysSince(AllAsCalendar(ts), c)
  {
    if ts != [] {
      var ms := AllAsCalendar(ts);
      assert forall x :: x in ms ==> DateMs(x.date) <= DateMs(ms[0].date);
      SortingKeepsLatestDate(ms);
    }
  }

  /** Sorting latest-first puts a transfusion of the latest date first. */
  lemma SortingKeepsLatestDate(ms: seq<CalendarScreen.Transfusion>)
    requires ms != [] && forall x :: x in ms ==> DateMs(x.date) <= DateMs(ms[0].date)
    ensures DateMs(CalendarScreen.LatestFirst(ms)[0].date) == DateMs(ms[0].date)
  {
    var sorted := CalendarScreen.LatestFirst(ms);
    assert ms[0] in multiset(sorted);
    SortedFirstIsLeast(sorted, CalendarScreen.Later, ms[0]);
    assert sorted[0] in multiset(ms);
  }
}
