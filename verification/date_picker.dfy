/**
 * The date picker: a button showing the chosen day and a popup with a month grid, the
 * "today" and "close" buttons. It reports a choice as the `YYYY-MM-DD` key of a local day.
 *
 * The popup's month and the button's text go through `new Date(key)`, which reads a key as
 * midnight UTC of that day; the local fields of that instant name the day before wherever
 * the zone is west of UTC.
 */
module DatePicker {
  import opened Wrappers
  import opened Dates
  import opened Text

  /** What the button shows: a fixed text, or the day a locale formatter names. */
  datatype Shown = Label(text: string) | Day(day: LocalDate)

  const TODAY_LABEL: string := "Сегодня"

  /** What `toLocaleDateString` prints for `new Date(s)` when `s` does not read as a date. */
  const INVALID_DATE: string := "Invalid Date"

  /** The local day `today`, as a key. */
  function TodayKey(c: Clock): string
  {
    DateKey(c.today)
  }

  /** `selectedDate = value || today`. */
  function SelectedDate(value: string, c: Clock): (s: string)
    ensures s != ""
    ensures value != "" ==> s == value
    ensures value == "" ==> s == TodayKey(c)
  {
    KeyNonEmpty(c.today);
    if value == "" then TodayKey(c) else value
  }

  lemma KeyNonEmpty(d: LocalDate)
    ensures DateKey(d) != ""
  {
    assert DateKey(d) == IntStr(d.year) + "-" + Pad2(d.month + 1) + "-" + Pad2(d.day);
  }

  /** The day `new Date(s)` names in local time, as written: the local day of midnight UTC. */
  function DateOf(s: string, offsetMinutes: int): Option<LocalDate>
    requires -1440 < offsetMinutes < 1440
  {
    match ParseDateKey(s)
    case Some(d) => Some(LocalDayOfUtcMidnight(d, offsetMinutes))
    case None => None
  }

  /** `formatDate` (full) and `formatCompactDate` (compact): a fallback for the empty text, else the day `new Date` names. */
  function Format(s: string, compact: bool, offsetMinutes: int): (r: Shown)
    requires -1440 < offsetMinutes < 1440
    ensures s == "" ==> r == Label(if compact then "" else TODAY_LABEL)
    ensures s != "" && ParseDateKey(s).None? ==> r == Label(INVALID_DATE)
  {
    if s == "" then Label(if compact then "" else TODAY_LABEL)
    else match DateOf(s, offsetMinutes)
      case Some(d) => Day(d)
      case None => Label(INVALID_DATE)
  }

  /** The button shows `selectedDate`, which is never empty, so neither fallback text ever shows. */
  lemma ButtonNeverShowsFallback(value: string, compact: bool, c: Clock)
    requires c.Valid()
    ensures Format(SelectedDate(value, c), compact, c.offsetMinutes) != Label("")
    ensures Format(SelectedDate(value, c), compact, c.offsetMinutes) != Label(TODAY_LABEL)
  {
  }

  /**
   * The button as written: for a key the picker itself produced, west of UTC it names the day
   * before, and east of UTC (or at UTC) the day itself.
   */
  lemma ButtonShowsDayBeforeWestOfUtc(d: LocalDate, compact: bool, offsetMinutes: int)
    requires d.Valid() && 1000 <= d.year <= 9999 && -1440 < offsetMinutes < 1440
    ensures offsetMinutes < 0 ==> Format(DateKey(d), compact, offsetMinutes) == Day(PrevDay(d))
    ensures offsetMinutes >= 0 ==> Format(DateKey(d), compact, offsetMinutes) == Day(d)
  {
    ParseDateKeyRoundTrip(d);
    KeyNonEmpty(d);
  }

  /** The button with the key read as a local day. */
  function FormatLocal(s: string, compact: bool): (r: Shown)
    ensures s == "" ==> r == Label(if compact then "" else TODAY_LABEL)
  {
    if s == "" then Label(if compact then "" else TODAY_LABEL)
    else match ParseDateKey(s)
      case Some(d) => Day(d)
      case None => Label(INVALID_DATE)
  }

  /** Read as a local day, a key the picker produced shows as that very day, in every zone. */
  lemma LocalButtonShowsChosenDay(d: LocalDate, compact: bool)
    requires d.Valid() && 1000 <= d.year <= 9999
    ensures FormatLocal(DateKey(d), compact) == Day(d)
  {
    ParseDateKeyRoundTrip(d);
    KeyNonEmpty(d);
  }

  /** `date > new Date()` for the cell of local day `day`: its local midnight is later than now. */
  predicate IsFuture(day: LocalDate, c: Clock)
    requires day.Valid() && c.Valid()
  {
    LocalMidnightMs(day, c.offsetMinutes) > NowMs(c)
  }

  /** `isDisabled = !allowFuture && isFuture`. */
  predicate IsDisabled(day: LocalDate, c: Clock, allowFuture: bool)
    requires day.Valid() && c.Valid()
  {
    !allowFuture && IsFuture(day, c)
  }

  /** A cell is in the future exactly when its day comes after today; today itself never is. */
  lemma FutureIffAfterToday(day: LocalDate, c: Clock)
    requires day.Valid() && c.Valid()
    ensures IsFuture(day, c) <==> Before(c.today, day)
  {
    DayNumberOrder(c.today, day);
    var a, b := DayNumber(day), DayNumber(c.today);
    if a > b {
      MoreDaysLater(a, b, c.msOfDay);
    } else {
      FewerDaysEarlier(a, b, c.msOfDay);
    }
  }

  lemma MoreDaysLater(a: int, b: int, ms: int)
    requires a > b && 0 <= ms < DAY_MS
    ensures a * DAY_MS > b * DAY_MS + ms
  {
    assert a * DAY_MS >= (b + 1) * DAY_MS;
  }

  lemma FewerDaysEarlier(a: int, b: int, ms: int)
    requires a <= b && 0 <= ms
    ensures a * DAY_MS <= b * DAY_MS + ms
  {
  }

  /** The marks of a day cell: chosen, today, greyed out. */
  datatype CellMarks = CellMarks(selected: bool, isToday: bool, disabled: bool)

  function Cell(day: LocalDate, value: string, c: Clock, allowFuture: bool): (m: CellMarks)
    requires day.Valid() && c.Valid()
    ensures m.disabled <==> !allowFuture && Before(c.today, day)
    ensures m.isToday <==> day == c.today
  {
    FutureIffAfterToday(day, c);
    DateKeyInjective(day, c.today);
    CellMarks(DateKey(day) == SelectedDate(value, c), DateKey(day) == TodayKey(c), IsDisabled(day, c, allowFuture))
  }

  /** With no value the highlighted cell is today's; with a key of a day, it is that day's. */
  lemma SelectedCell(day: LocalDate, value: string, c: Clock, allowFuture: bool)
    requires day.Valid() && c.Valid()
    ensures value == "" ==> (Cell(day, value, c, allowFuture).selected <==> day == c.today)
    ensures forall d: LocalDate :: d.Valid() && value == DateKey(d) ==> (Cell(day, value, c, allowFuture).selected <==> day == d)
  {
    DateKeyInjective(day, c.today);
    forall d: LocalDate | d.Valid() && value == DateKey(d)
      ensures Cell(day, value, c, allowFuture).selected <==> day == d
    {
      KeyNonEmpty(d);
      DateKeyInjective(day, d);
    }
  }

  /** The picker's own state; `value` and the clock are inputs of each call. */
  class Picker {
    var isOpen: bool
    /** The month the popup shows, as a day inside it; `None` is an invalid `Date`. */
    var currentMonth: Option<LocalDate>
    const allowFuture: bool

    ghost predicate Valid()
      reads this
    {
      currentMonth.Some? ==> currentMonth.value.Valid()
    }

    /** Closed, on the month of `new Date(value || today)` in local time. */
    constructor (value: string, allowFuture: bool, c: Clock)
      requires c.Valid()
      ensures Valid() && !isOpen && this.allowFuture == allowFuture
      ensures currentMonth == DateOf(SelectedDate(value, c), c.offsetMinutes)
    {
      isOpen := false;
      this.allowFuture := allowFuture;
      currentMonth := DateOf(SelectedDate(value, c), c.offsetMinutes);
    }

    /** A click on the button. */
    method Toggle()
      modifies this
      ensures isOpen == !old(isOpen) && currentMonth == old(currentMonth)
    {
      isOpen := !isOpen;
    }

    /** The "close" button, or a press outside the picker. */
    method Close()
      modifies this
      ensures !isOpen && currentMonth == old(currentMonth)
    {
      isOpen := false;
    }

    /** `nextMonth`; an invalid date stays invalid. */
    method NextMonth()
      requires Valid()
      modifies this
      ensures Valid() && isOpen == old(isOpen)
      ensures currentMonth == (if old(currentMonth).Some? then Some(NextMonthStart(old(currentMonth).value)) else None)
    {
      if currentMonth.Some? {
        currentMonth := Some(NextMonthStart(currentMonth.value));
      }
    }

    /** `prevMonth`; an invalid date stays invalid. */
    method PrevMonth()
      requires Valid()
      modifies this
      ensures Valid() && isOpen == old(isOpen)
      ensures currentMonth == (if old(currentMonth).Some? then Some(PrevMonthStart(old(currentMonth).value)) else None)
    {
      if currentMonth.Some? {
        currentMonth := Some(PrevMonthStart(currentMonth.value));
      }
    }

    /** `days`: the grid of the month on display; an invalid date gives no cells. */
    method Days() returns (grid: seq<Option<LocalDate>>)
      requires Valid()
      ensures currentMonth.Some? ==> grid == MonthGridCells(currentMonth.value.year, currentMonth.value.month)
      ensures currentMonth.None? ==> grid == []
    {
      if currentMonth.Some? {
        grid := MonthGrid(currentMonth.value.year, currentMonth.value.month);
      } else {
        grid := [];
      }
    }

    /**
     * A click on the cell of `day`: a disabled cell does nothing; otherwise the key of the
     * local day is emitted and the popup closes.
     */
    method ClickDay(day: LocalDate, c: Clock) returns (emitted: Option<string>)
      requires day.Valid() && c.Valid()
      modifies this
      ensures currentMonth == old(currentMonth)
      ensures IsDisabled(day, c, allowFuture) ==> emitted == None && isOpen == old(isOpen)
      ensures !IsDisabled(day, c, allowFuture) ==> emitted == Some(DateKey(day)) && !isOpen
    {
      if IsDisabled(day, c, allowFuture) {
        emitted := None;
      } else {
        emitted := Some(DateKey(day));
        isOpen := false;
      }
    }

    /** The "today" button: today's key, and the popup closes. */
    method ClickToday(c: Clock) returns (emitted: string)
      requires c.Valid()
      modifies this
      ensures emitted == TodayKey(c) && !isOpen && currentMonth == old(currentMonth)
    {
      emitted := TodayKey(c);
      isOpen := false;
    }
  }

  /**
   * The emitted key of a day that can be chosen reads back as that day, and, unless future
   * days are allowed, that day is never after today.
   */
  method ChosenKeyReadsBack(p: Picker, day: LocalDate, c: Clock) returns (emitted: Option<string>)
    requires day.Valid() && c.Valid() && 1000 <= day.year <= 9999
    modifies p
    ensures emitted.Some? ==> ParseDateKey(emitted.value) == Some(day)
    ensures emitted.Some? && !p.allowFuture ==> !Before(c.today, day)
    ensures emitted.None? <==> !p.allowFuture && Before(c.today, day)
  {
    emitted := p.ClickDay(day, c);
    FutureIffAfterToday(day, c);
    ParseDateKeyRoundTrip(day);
  }

  /** The popup as written opens on the month before for a value on the first of a month west of UTC. */
  lemma PopupOpensOnPreviousMonth(d: LocalDate, c: Clock)
    requires d.Valid() && 1000 <= d.year <= 9999 && d.day == 1 && c.Valid() && c.offsetMinutes < 0
    ensures DateOf(SelectedDate(DateKey(d), c), c.offsetMinutes) == Some(PrevDay(d))
    ensures PrevDay(d).month != d.month
  {
    KeyNonEmpty(d);
    ParseDateKeyRoundTrip(d);
  }

  /** The popup's month with the key read as a local day: the month of the chosen day itself. */
  function InitialMonthLocal(value: string, c: Clock): (r: Option<LocalDate>)
    requires c.Valid()
    ensures r.Some? ==> r.value.Valid()
  {
    ParseDateKey(SelectedDate(value, c))
  }

  /** Read as a local day, the popup opens on the month of the chosen day, or of today with no value. */
  lemma LocalPopupOpensOnChosenMonth(value: string, c: Clock)
    requires c.Valid() && 1000 <= c.today.year <= 9999
    ensures value == "" ==> InitialMonthLocal(value, c) == Some(c.today)
    ensures forall d: LocalDate :: d.Valid() && 1000 <= d.year <= 9999 && value == DateKey(d) ==> InitialMonthLocal(value, c) == Some(d)
  {
    ParseDateKeyRoundTrip(c.today);
    forall d: LocalDate | d.Valid() && 1000 <= d.year <= 9999 && value == DateKey(d)
      ensures InitialMonthLocal(value, c) == Some(d)
    {
      KeyNonEmpty(d);
      ParseDateKeyRoundTrip(d);
    }
  }
}
