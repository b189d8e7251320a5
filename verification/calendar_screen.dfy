/**
 * The calendar screen: the "days since the last transfusion" counter, the five most recent
 * transfusions, today's reminders and their hide/show toggle, the month on display with its
 * grid and navigation, the marks on each day cell and what a click on a day opens.
 *
 * Records keep their day as the `YYYY-MM-DD` text the date picker writes. `new Date(key)` reads
 * such a text as midnight UTC of that day (`Dates.UtcMidnightMs`).
 */
module CalendarScreen {
  import opened Wrappers
  import opened Dates
  import opened Ordering

  datatype Transfusion = Transfusion(id: string, date: string, createdAt: int, hbBefore: int, hbAfter: int, component: string)

  datatype Reminder = Reminder(id: string, title: string, date: string, time: string)

  /** What a click on a day does: open a transfusion or a reminder for editing, or the add-transfusion screen. */
  datatype ClickAction = EditTransfusion(t: Transfusion) | EditReminder(r: Reminder) | AddTransfusion

  /** A line of the "recent transfusions" list: the day its date text names, hb after, the component. */
  datatype Recent = Recent(id: string, shown: LocalDate, hb: int, kind: string)

  const RECENT_COUNT: nat := 5

  /** The fallback component name. */
  const DEFAULT_KIND: string := "Гемоглобин"

  // ---------------------------------------------------------------------------
  // Clicking a day

  /** `reminders.find(r => r.date === key)`. */
  function FindReminder(rs: seq<Reminder>, key: string): (r: Option<Reminder>)
    ensures r.None? <==> forall x :: x in rs ==> x.date != key
    ensures r.Some? ==> exists i :: (0 <= i < |rs| && rs[i] == r.value && rs[i].date == key
      && forall j :: 0 <= j < i ==> rs[j].date != key)
  {
    if rs == [] then None
    else if rs[0].date == key then Some(rs[0])
    else
      var r := FindReminder(rs[1..], key);
      assert forall x :: x in rs ==> x == rs[0] || x in rs[1..];
      if r.Some? then
        var i :| 0 <= i < |rs[1..]| && rs[1..][i] == r.value && rs[1..][i].date == key
          && forall j :: 0 <= j < i ==> rs[1..][j].date != key;
        assert rs[i + 1] == r.value;
        r
      else r
  }

  /** The transfusions recorded on the day `key`, newest-created first (a stable sort). */
  function OnDateNewestFirst(ts: seq<Transfusion>, key: string): (r: seq<Transfusion>)
    ensures forall t :: t in r ==> t in ts && t.date == key
    ensures r == [] <==> forall t :: t in ts ==> t.date != key
    ensures r != [] ==> forall t :: t in ts && t.date == key ==> t.createdAt <= r[0].createdAt
  {
    MatchesOnKey(ts, key, OnKey(key), Newest);
    SortBy(Filter(ts, OnKey(key)), Newest)
  }

  /** The test of the `filter`: recorded on the day `key`. */
  function OnKey(key: string): Transfusion -> bool
  {
    (t: Transfusion) => t.date == key
  }

  /** The sort key of the comparator `(a, b) => b.createdAt - a.createdAt`: newest first. */
  function Newest(t: Transfusion): int
  {
    -t.createdAt
  }

  lemma MatchesOnKey(ts: seq<Transfusion>, key: string, onKey: Transfusion -> bool, newest: Transfusion -> int)
    requires forall t :: onKey(t) == (t.date == key)
    requires forall t :: newest(t) == -t.createdAt
    ensures var r := SortBy(Filter(ts, onKey), newest);
      && (forall t :: t in r ==> t in ts && t.date == key)
      && (r == [] <==> forall t :: t in ts ==> t.date != key)
      && (r != [] ==> forall t :: t in ts && t.date == key ==> t.createdAt <= r[0].createdAt)
  {
    SortedMatches(ts, onKey, newest);
  }

  /**
   * `handleDateClick` on the grid cell of local day `day`: a day with transfusions edits the one
   * created last among them, a day without them edits its first reminder, and a day with neither
   * opens the add-transfusion screen.
   */
  function ClickOn(day: LocalDate, ts: seq<Transfusion>, rs: seq<Reminder>): (a: ClickAction)
    ensures a.EditTransfusion? ==> (a.t in ts && a.t.date == DateKey(day)
      && forall t :: t in ts && t.date == DateKey(day) ==> t.createdAt <= a.t.createdAt)
    ensures a.EditReminder? ==> (NoTransfusionOn(ts, DateKey(day)) && FindReminder(rs, DateKey(day)) == Some(a.r))
    ensures a == AddTransfusion <==> NoTransfusionOn(ts, DateKey(day)) && NoReminderOn(rs, DateKey(day))
  {
    var key := DateKey(day);
    var onDate := OnDateNewestFirst(ts, key);
    if onDate != [] then
      assert onDate[0] in onDate;
      EditTransfusion(onDate[0])
    else match FindReminder(rs, key)
      case Some(r) => EditReminder(r)
      case None => AddTransfusion
  }

  /** No transfusion is recorded on the day `key`. */
  predicate NoTransfusionOn(ts: seq<Transfusion>, key: string)
  {
    forall t :: t in ts ==> t.date != key
  }

  /** No reminder is set for the day `key`. */
  predicate NoReminderOn(rs: seq<Reminder>, key: string)
  {
    forall r :: r in rs ==> r.date != key
  }

  /**
   * Of the day's transfusions created last, the click opens the one listed first: it sits at
   * index `i`, and every transfusion of the day listed before it was created earlier.
   */
  lemma ClickOpensFirstListedNewest(day: LocalDate, ts: seq<Transfusion>, rs: seq<Reminder>) returns (i: nat)
    requires ClickOn(day, ts, rs).EditTransfusion?
    ensures i < |ts| && ts[i] == ClickOn(day, ts, rs).t
    ensures forall j :: 0 <= j < i && ts[j].date == DateKey(day) ==> ts[j].createdAt < ts[i].createdAt
  {
    var key := DateKey(day);
    assert ClickOn(day, ts, rs).t == OnDateNewestFirst(ts, key)[0];
    i := NewestListedFirst(ts, key, OnKey(key), Newest);
    forall j | 0 <= j < i && ts[j].date == key ensures ts[j].createdAt < ts[i].createdAt {
      assert ts[j] in ts;
    }
  }

  /** The head of the day's newest-first list is at index `i`, after no transfusion of the day created at the same time. */
  lemma NewestListedFirst(ts: seq<Transfusion>, key: string, onKey: Transfusion -> bool, newest: Transfusion -> int)
    returns (i: nat)
    requires forall t :: onKey(t) == (t.date == key)
    requires forall t :: newest(t) == -t.createdAt
    requires SortBy(Filter(ts, onKey), newest) != []
    ensures i < |ts| && ts[i] == SortBy(Filter(ts, onKey), newest)[0]
    ensures forall j :: 0 <= j < i && ts[j].date == key ==> ts[j].createdAt != ts[i].createdAt
  {
    i := SortedMatchesFirst(ts, onKey, newest);
    forall j | 0 <= j < i && ts[j].date == key ensures ts[j].createdAt != ts[i].createdAt {
      assert onKey(ts[j]) && newest(ts[j]) != newest(ts[i]);
    }
  }

  // ---------------------------------------------------------------------------
  // The day cells

  /** The marks on the cell of `day`: a transfusion dot, a reminder dot, the "today" highlight. */
  datatype Marks = Marks(hasTransfusion: bool, hasReminder: bool, isToday: bool)

  function CellMarks(day: LocalDate, ts: seq<Transfusion>, rs: seq<Reminder>, today: LocalDate): (m: Marks)
    ensures m.hasTransfusion <==> exists t :: t in ts && t.date == DateKey(day)
    ensures m.hasReminder <==> exists r :: r in rs && r.date == DateKey(day)
    ensures m.isToday <==> day == today
  {
    var key := DateKey(day);
    Marks(exists t :: t in ts && t.date == key, exists r :: r in rs && r.date == key, day == today)
  }

  /** A click opens the add screen exactly on the cells that carry no dot. */
  lemma UnmarkedCellsOpenAdd(day: LocalDate, ts: seq<Transfusion>, rs: seq<Reminder>, today: LocalDate)
    ensures var m := CellMarks(day, ts, rs, today);
      ClickOn(day, ts, rs) == AddTransfusion <==> !m.hasTransfusion && !m.hasReminder
  {
  }

  // ---------------------------------------------------------------------------
  // Days since the last transfusion, recent transfusions

  ghost predicate AllDatesParse(ts: seq<Transfusion>)
  {
    forall t :: t in ts ==> ParseDateKey(t.date).Some?
  }

  /** The comparator `(a, b) => time(b) - time(a)`: latest date first. */
  function Later(t: Transfusion): int
  {
    -DateMs(t.date)
  }

  function LatestFirst(ts: seq<Transfusion>): seq<Transfusion>
  {
    SortBy(ts, Later)
  }

  function Abs(x: int): nat
  {
    if x < 0 then -x else x
  }

  /**
   * `daysSince`: 0 without transfusions, otherwise the whole days between now and midnight UTC of
   * the latest transfusion date (the fraction of a day is dropped).
   */
  function DaysSince(ts: seq<Transfusion>, c: Clock): (r: nat)
    requires c.Valid()
    ensures ts == [] ==> r == 0
    ensures ts != [] ==> exists t :: (t in ts
      && (forall u :: u in ts ==> DateMs(u.date) <= DateMs(t.date))
      && r * DAY_MS <= Abs(NowMs(c) - DateMs(t.date)) < (r + 1) * DAY_MS)
  {
    if ts == [] then 0
    else
      var t := LatestFirst(ts)[0];
      LatestIsFirst(ts);
      FloorDays(Abs(NowMs(c) - DateMs(t.date)));
      Abs(NowMs(c) - DateMs(t.date)) / DAY_MS
  }

  /** The head of the latest-first order is a transfusion with the latest date. */
  lemma LatestIsFirst(ts: seq<Transfusion>)
    requires ts != []
    ensures LatestFirst(ts)[0] in ts
    ensures forall u :: u in ts ==> DateMs(u.date) <= DateMs(LatestFirst(ts)[0].date)
  {
    var s := LatestFirst(ts);
    assert s[0] in multiset(ts);
    forall u | u in ts ensures DateMs(u.date) <= DateMs(s[0].date) {
      assert u in multiset(s);
      SortedFirstIsLeast(s, Later, u);
    }
  }

  /** `Math.floor(a / DAY_MS)` brackets `a` between two whole days. */
  lemma FloorDays(a: nat)
    ensures (a / DAY_MS) * DAY_MS <= a < (a / DAY_MS + 1) * DAY_MS
  {
  }

  /** The transfusions the list shows: the first five of the latest-first order. */
  function Chosen(ts: seq<Transfusion>): (c: seq<Transfusion>)
    ensures |c| == if |ts| < RECENT_COUNT then |ts| else RECENT_COUNT
  {
    var s := LatestFirst(ts);
    s[..if |s| < RECENT_COUNT then |s| else RECENT_COUNT]
  }

  /** The chosen ones come from the list, latest first, and none left out is later than one chosen. */
  lemma ChosenAreTheLatest(ts: seq<Transfusion>)
    ensures multiset(Chosen(ts)) <= multiset(ts)
    ensures SortedBy(Chosen(ts), Later)
    ensures forall u, t :: u in multiset(ts) - multiset(Chosen(ts)) && t in Chosen(ts) ==> DateMs(u.date) <= DateMs(t.date)
  {
    SortedPrefix(LatestFirst(ts), Later, |Chosen(ts)|);
  }

  lemma ChosenParse(ts: seq<Transfusion>)
    requires AllDatesParse(ts)
    ensures AllDatesParse(Chosen(ts))
  {
    ChosenAreTheLatest(ts);
    forall t | t in Chosen(ts) ensures ParseDateKey(t.date).Some? {
      assert t in multiset(Chosen(ts));
      assert t in multiset(ts);
    }
  }

  function Kind(t: Transfusion): string
  {
    if t.component == "" then DEFAULT_KIND else t.component
  }

  /**
   * A line of `recentTransfusions` as written: the date text goes through `new Date(key)`, which
   * reads it as midnight UTC, and `toLocaleDateString` names the local day of that instant.
   */
  function RecentLine(t: Transfusion, offsetMinutes: int): (r: Recent)
    requires ParseDateKey(t.date).Some? && -1440 < offsetMinutes < 1440
    ensures r.id == t.id && r.hb == t.hbAfter && r.kind == Kind(t)
  {
    Recent(t.id, LocalDayOfUtcMidnight(ParseDateKey(t.date).value, offsetMinutes), t.hbAfter, Kind(t))
  }

  /** West of UTC a line names the day before the transfusion's own day. */
  lemma RecentLineShiftsWestOfUtc(t: Transfusion, offsetMinutes: int)
    requires ParseDateKey(t.date).Some? && -1440 < offsetMinutes < 0
    requires ParseDateKey(t.date).value.year >= 1000
    ensures DateKey(RecentLine(t, offsetMinutes).shown) != t.date
    ensures DayNumber(RecentLine(t, offsetMinutes).shown) == DayNumber(ParseDateKey(t.date).value) - 1
  {
    var d := ParseDateKey(t.date).value;
    ParseDateKeyInverse(t.date, d);
    var shown := RecentLine(t, offsetMinutes).shown;
    if DateKey(shown) == t.date {
      DateKeyInjective(shown, d);
    }
  }

  /** A line that reads the date text as a local day, as the calendar cells do. */
  function RecentLineLocal(t: Transfusion): (r: Recent)
    requires ParseDateKey(t.date).Some?
    ensures r.id == t.id && r.hb == t.hbAfter && r.kind == Kind(t)
  {
    Recent(t.id, ParseDateKey(t.date).value, t.hbAfter, Kind(t))
  }

  /** Read as a local day, every line names exactly the day of its date text, in every zone. */
  lemma RecentLineLocalNamesItsDay(t: Transfusion)
    requires ParseDateKey(t.date).Some? && ParseDateKey(t.date).value.year >= 1000
    ensures DateKey(RecentLineLocal(t).shown) == t.date
  {
    ParseDateKeyInverse(t.date, ParseDateKey(t.date).value);
  }

  /** The lines of `recentTransfusions` as written, for the chosen transfusions `c`. */
  function RecentLines(c: seq<Transfusion>, offsetMinutes: int): (r: seq<Recent>)
    requires AllDatesParse(c) && -1440 < offsetMinutes < 1440
    ensures |r| == |c| && forall i :: 0 <= i < |c| ==> r[i] == RecentLine(c[i], offsetMinutes)
  {
    if c == [] then [] else [RecentLine(c[0], offsetMinutes)] + RecentLines(c[1..], offsetMinutes)
  }

  /** The lines with each date read as a local day. */
  function RecentLinesLocal(c: seq<Transfusion>): (r: seq<Recent>)
    requires AllDatesParse(c)
    ensures |r| == |c| && forall i :: 0 <= i < |c| ==> r[i] == RecentLineLocal(c[i])
  {
    if c == [] then [] else [RecentLineLocal(c[0])] + RecentLinesLocal(c[1..])
  }

  /**
   * The list as written: up to five lines, for the latest transfusions, latest first; west of
   * UTC every line names the day before its transfusion's day.
   */
  lemma RecentListWestOfUtc(ts: seq<Transfusion>, offsetMinutes: int, i: int)
    requires AllDatesParse(ts) && -1440 < offsetMinutes < 0
    ensures AllDatesParse(Chosen(ts)) && |Chosen(ts)| <= RECENT_COUNT
    ensures 0 <= i < |Chosen(ts)| && ParseDateKey(Chosen(ts)[i].date).value.year >= 1000 ==>
      DateKey(RecentLines(Chosen(ts), offsetMinutes)[i].shown) != Chosen(ts)[i].date
  {
    ChosenParse(ts);
    if 0 <= i < |Chosen(ts)| && ParseDateKey(Chosen(ts)[i].date).value.year >= 1000 {
      RecentLineShiftsWestOfUtc(Chosen(ts)[i], offsetMinutes);
    }
  }

  /** Read as local days, every line of the list names its transfusion's day. */
  lemma RecentListLocal(ts: seq<Transfusion>, i: int)
    requires AllDatesParse(ts)
    ensures AllDatesParse(Chosen(ts)) && |Chosen(ts)| <= RECENT_COUNT
    ensures 0 <= i < |Chosen(ts)| && ParseDateKey(Chosen(ts)[i].date).value.year >= 1000 ==>
      DateKey(RecentLinesLocal(Chosen(ts))[i].shown) == Chosen(ts)[i].date
  {
    ChosenParse(ts);
    if 0 <= i < |Chosen(ts)| && ParseDateKey(Chosen(ts)[i].date).value.year >= 1000 {
      RecentLineLocalNamesItsDay(Chosen(ts)[i]);
    }
  }

  // ---------------------------------------------------------------------------
  // Today's reminders

  /** The reminders whose date text is today's local key. */
  function TodayReminders(rs: seq<Reminder>, today: LocalDate): (r: seq<Reminder>)
    ensures forall x :: x in r ==> x in rs && x.date == DateKey(today)
  {
    var p := (x: Reminder) => x.date == DateKey(today);
    FilterFrom(rs, p);
    Filter(rs, p)
  }

  /** Every reminder of today is in the widget, in the order of the list. */
  lemma TodayRemindersComplete(rs: seq<Reminder>, today: LocalDate, x: Reminder)
    requires x in rs && x.date == DateKey(today)
    ensures x in TodayReminders(rs, today)
  {
    FilterKeeps(rs, (y: Reminder) => y.date == DateKey(today), x);
  }

  /** The widget shows when it is not hidden and some reminder falls today. */
  predicate WidgetShown(hidden: bool, rs: seq<Reminder>, today: LocalDate)
  {
    !hidden && |TodayReminders(rs, today)| > 0
  }

  /** The "show reminders" button appears when the widget is hidden and some reminder falls today. */
  predicate ShowButtonShown(hidden: bool, rs: seq<Reminder>, today: LocalDate)
  {
    hidden && exists r :: r in rs && r.date == DateKey(today)
  }

  /**
   * With a reminder today exactly one of the widget and the button is on screen, whichever way
   * the toggle stands; without one neither is.
   */
  lemma WidgetOrButton(hidden: bool, rs: seq<Reminder>, today: LocalDate)
    ensures (exists r :: r in rs && r.date == DateKey(today)) ==>
      (WidgetShown(hidden, rs, today) <==> !ShowButtonShown(hidden, rs, today))
    ensures !(exists r :: r in rs && r.date == DateKey(today)) ==>
      !WidgetShown(hidden, rs, today) && !ShowButtonShown(hidden, rs, today)
  {
    if r :| r in rs && r.date == DateKey(today) {
      TodayRemindersComplete(rs, today, r);
    } else {
      FilterNone(rs, (x: Reminder) => x.date == DateKey(today));
    }
  }

  // ---------------------------------------------------------------------------
  // The screen's state

  /** The month on display (as a day inside it) and the hide toggle of the reminders widget. */
  class CalendarState {
    var current: LocalDate
    var hideReminders: bool

    ghost predicate Valid()
      reads this
    {
      current.Valid()
    }

    /** The screen opens on today, with the widget not hidden. */
    constructor (c: Clock)
      requires c.Valid()
      ensures Valid() && current == c.today && !hideReminders
    {
      current, hideReminders := c.today, false;
    }

    /** `nextMonth`: the first day of the following month. */
    method NextMonth()
      requires Valid()
      modifies this
      ensures Valid() && current == NextMonthStart(old(current)) && hideReminders == old(hideReminders)
    {
      current := NextMonthStart(current);
    }

    /** `prevMonth`: the first day of the previous month. */
    method PrevMonth()
      requires Valid()
      modifies this
      ensures Valid() && current == PrevMonthStart(old(current)) && hideReminders == old(hideReminders)
    {
      current := PrevMonthStart(current);
    }

    /** The "hide" button of the widget. */
    method Hide()
      modifies this
      ensures hideReminders && current == old(current)
    {
      hideReminders := true;
    }

    /** The "show reminders" button. */
    method Show()
      modifies this
      ensures !hideReminders && current == old(current)
    {
      hideReminders := false;
    }

    /** `days`: the grid of the month on display. */
    method Days() returns (grid: seq<Option<LocalDate>>)
      requires Valid()
      ensures grid == MonthGridCells(current.year, current.month)
    {
      grid := MonthGrid(current.year, current.month);
    }
  }

  /** Forward then back returns to the first day of the month that was on display. */
  method NextThenPrevMonth(c: Clock) returns (cal: CalendarState)
    requires c.Valid()
    ensures cal.current == LocalDate(c.today.year, c.today.month, 1) && !cal.hideReminders
  {
    cal := new CalendarState(c);
    cal.NextMonth();
    cal.PrevMonth();
    PrevAfterNextMonth(c.today);
  }

  /** Hiding the widget on a day with reminders replaces it with the button, and showing brings it back. */
  method HideThenShow(c: Clock, rs: seq<Reminder>) returns (cal: CalendarState)
    requires c.Valid() && exists r :: r in rs && r.date == DateKey(c.today)
    ensures WidgetShown(cal.hideReminders, rs, c.today)
  {
    cal := new CalendarState(c);
    cal.Hide();
    WidgetOrButton(cal.hideReminders, rs, c.today);
    assert ShowButtonShown(cal.hideReminders, rs, c.today);
    cal.Show();
    WidgetOrButton(cal.hideReminders, rs, c.today);
  }
}
