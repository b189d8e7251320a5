/**
 * The calendar arithmetic the screens get from JavaScript's `Date`: local calendar days
 * with a 0-based month (as `getMonth()` returns it), days since 1970-01-01, weekdays,
 * the zero-padded `YYYY-MM-DD` key, month navigation and the month grid.
 *
 * "Now" is never read: it is a `Clock` value, a local calendar day and a time of day
 * together with the zone offset (minutes east of UTC), passed in by the caller.
 */
module Dates {
  import opened Wrappers
  import opened Text

  const DAY_MS: int := 86_400_000
  const MINUTE_MS: int := 60_000

  predicate IsLeap(year: int)
  {
    (year % 4 == 0 && year % 100 != 0) || year % 400 == 0
  }

  /** `new Date(year, month + 1, 0).getDate()`: the length of the 0-based month `month`. */
  function DaysInMonth(year: int, month: int): (n: int)
    requires 0 <= month < 12
    ensures 28 <= n <= 31
    ensures n == 29 <==> month == 1 && IsLeap(year)
  {
    if month == 1 then (if IsLeap(year) then 29 else 28)
    else if month == 3 || month == 5 || month == 8 || month == 10 then 30
    else 31
  }

  /** A local calendar day: `getFullYear()`, `getMonth()` (0..11) and `getDate()`. */
  datatype LocalDate = LocalDate(year: int, month: int, day: int)
  {
    predicate Valid()
    {
      0 <= month < 12 && 1 <= day <= DaysInMonth(year, month)
    }
  }

  function YearLength(year: int): int
  {
    if IsLeap(year) then 366 else 365
  }

  /** The number of leap years among 1..n (an offset that works for every n). */
  function LeapsThrough(n: int): int
  {
    n / 4 - n / 100 + n / 400
  }

  /** Days from 1970-01-01 to 1 January of `year`. */
  function DaysBeforeYear(year: int): int
  {
    365 * (year - 1970) + LeapsThrough(year - 1) - LeapsThrough(1969)
  }

  /** Days from 1 January to the first day of the 0-based month `month` (12 gives the year's length). */
  function DaysBeforeMonth(year: int, month: int): int
    requires 0 <= month <= 12
  {
    [0, 31, 59, 90, 120, 151, 181, 212, 243, 273, 304, 334, 365][month]
      + (if IsLeap(year) && month >= 2 then 1 else 0)
  }

  /** Days since 1970-01-01 (negative before it): the `Date` time value of the day divided by a day. */
  function DayNumber(d: LocalDate): int
    requires 0 <= d.month < 12
  {
    DaysBeforeYear(d.year) + DaysBeforeMonth(d.year, d.month) + d.day - 1
  }

  /** `getDay()`: 0 for Sunday .. 6 for Saturday; 1970-01-01 was a Thursday. */
  function Weekday(d: LocalDate): (w: int)
    requires 0 <= d.month < 12
    ensures 0 <= w < 7
  {
    (DayNumber(d) + 4) % 7
  }

  // ---------------------------------------------------------------------------
  // Lemmas on the day count

  lemma DivStep(y: int)
    ensures y / 4 - (y - 1) / 4 == if y % 4 == 0 then 1 else 0
    ensures y / 100 - (y - 1) / 100 == if y % 100 == 0 then 1 else 0
    ensures y / 400 - (y - 1) / 400 == if y % 400 == 0 then 1 else 0
  {
  }

  lemma NextYear(year: int)
    ensures DaysBeforeYear(year + 1) == DaysBeforeYear(year) + YearLength(year)
  {
    DivStep(year);
  }

  lemma MonthSteps(year: int, month: int)
    requires 0 <= month < 12
    ensures DaysBeforeMonth(year, month + 1) == DaysBeforeMonth(year, month) + DaysInMonth(year, month)
    ensures DaysBeforeMonth(year, 12) == YearLength(year)
  {
  }

  lemma MonthsOrdered(year: int, m1: int, m2: int)
    requires 0 <= m1 < m2 <= 12
    ensures DaysBeforeMonth(year, m1) + DaysInMonth(year, m1) <= DaysBeforeMonth(year, m2)
  {
    MonthSteps(year, m1);
  }

  lemma {:induction false} YearsOrdered(y1: int, y2: int)
    requires y1 < y2
    ensures DaysBeforeYear(y1) + YearLength(y1) <= DaysBeforeYear(y2)
    decreases y2 - y1
  {
    NextYear(y1);
    if y1 + 1 < y2 {
      YearsOrdered(y1 + 1, y2);
    }
  }

  /** Calendar order: year, then month, then day. */
  predicate Before(a: LocalDate, b: LocalDate)
  {
    a.year < b.year
    || (a.year == b.year && (a.month < b.month || (a.month == b.month && a.day < b.day)))
  }

  lemma BeforeHasSmallerDayNumber(a: LocalDate, b: LocalDate)
    requires a.Valid() && b.Valid() && Before(a, b)
    ensures DayNumber(a) < DayNumber(b)
  {
    MonthSteps(a.year, a.month);
    if a.year < b.year {
      MonthsOrdered(a.year, a.month, 12);
      YearsOrdered(a.year, b.year);
    } else if a.month < b.month {
      MonthsOrdered(a.year, a.month, b.month);
    }
  }

  /** The day count orders valid days exactly as the calendar does, and tells different days apart. */
  lemma DayNumberOrder(a: LocalDate, b: LocalDate)
    requires a.Valid() && b.Valid()
    ensures Before(a, b) <==> DayNumber(a) < DayNumber(b)
    ensures a == b <==> DayNumber(a) == DayNumber(b)
  {
    if Before(a, b) {
      BeforeHasSmallerDayNumber(a, b);
    } else if Before(b, a) {
      BeforeHasSmallerDayNumber(b, a);
    }
  }

  // ---------------------------------------------------------------------------
  // The `YYYY-MM-DD` key

  /**
   * The key the screens build from a local day:
   * `${getFullYear()}-${String(getMonth() + 1).padStart(2, '0')}-${String(getDate()).padStart(2, '0')}`.
   */
  function DateKey(d: LocalDate): string
  {
    JoinKey(IntStr(d.year), Pad2(d.month + 1), Pad2(d.day))
  }

  /** Year, month and day joined by dashes. */
  function JoinKey(y: string, mm: string, dd: string): string
  {
    y + "-" + mm + "-" + dd
  }

  lemma NatStrInjective(a: nat, b: nat)
    requires NatStr(a) == NatStr(b)
    ensures a == b
  {
    NatStrValue(a);
    NatStrValue(b);
  }

  lemma IntStrInjective(a: int, b: int)
    requires IntStr(a) == IntStr(b)
    ensures a == b
  {
    if a < 0 && b < 0 {
      assert IntStr(a)[1..] == NatStr(-a) && IntStr(b)[1..] == NatStr(-b);
      NatStrInjective(-a, -b);
    } else if a >= 0 && b >= 0 {
      NatStrInjective(a, b);
    }
  }

  /** The year part of a key: everything before the last six characters. */
  function KeyYear(k: string): string
    requires |k| >= 6
  {
    k[..|k| - 6]
  }

  /** The month part of a key: the two characters between the dashes. */
  function KeyMonth(k: string): string
    requires |k| >= 6
  {
    k[|k| - 5..|k| - 3]
  }

  /** The day part of a key: its last two characters. */
  function KeyDay(k: string): string
    requires |k| >= 6
  {
    k[|k| - 2..]
  }

  /** The dashes before the month and before the day. */
  predicate KeyDashes(k: string)
  {
    |k| >= 6 && k[|k| - 6] == '-' && k[|k| - 3] == '-'
  }

  /** Joining a year, a two-character month and a two-character day with dashes, and reading the parts back. */
  lemma ConcatParts(y: string, mm: string, dd: string)
    requires |mm| == 2 && |dd| == 2
    ensures var k := JoinKey(y, mm, dd);
      && |k| == |y| + 6 && KeyYear(k) == y && KeyMonth(k) == mm && KeyDay(k) == dd && KeyDashes(k)
  {
    var k := y + "-" + mm + "-" + dd;
    assert k == (y + "-" + mm + "-") + dd;
    assert k[..|y| + 4] == y + "-" + mm + "-";
    assert (y + "-" + mm + "-")[..|y| + 3] == y + "-" + mm;
  }

  /** The parts of a key: the year before the last six characters, then month and day. */
  lemma KeyParts(d: LocalDate)
    requires 0 <= d.month < 12 && 1 <= d.day <= 31
    ensures |DateKey(d)| == |IntStr(d.year)| + 6
    ensures KeyYear(DateKey(d)) == IntStr(d.year)
    ensures KeyMonth(DateKey(d)) == Pad2(d.month + 1)
    ensures KeyDay(DateKey(d)) == Pad2(d.day)
    ensures KeyDashes(DateKey(d))
  {
    Pad2Length(d.month + 1);
    Pad2Length(d.day);
    ConcatParts(IntStr(d.year), Pad2(d.month + 1), Pad2(d.day));
  }

  /** Two valid days have the same key only when they are the same day. */
  lemma DateKeyInjective(a: LocalDate, b: LocalDate)
    requires a.Valid() && b.Valid()
    ensures DateKey(a) == DateKey(b) <==> a == b
  {
    if DateKey(a) == DateKey(b) {
      assert DaysInMonth(a.year, a.month) <= 31 && DaysInMonth(b.year, b.month) <= 31;
      SameKeySameDay(a, b);
    }
  }

  lemma SameKeySameDay(a: LocalDate, b: LocalDate)
    requires 0 <= a.month < 12 && 1 <= a.day <= 31 && 0 <= b.month < 12 && 1 <= b.day <= 31
    requires DateKey(a) == DateKey(b)
    ensures a == b
  {
    KeyParts(a);
    KeyParts(b);
    Pad2Injective(a.day, b.day);
    Pad2Injective(a.month + 1, b.month + 1);
    IntStrInjective(a.year, b.year);
  }

  lemma FourDigits(n: nat)
    requires 1000 <= n <= 9999
    ensures |NatStr(n)| == 4
  {
    assert |NatStr(n / 10 / 10)| == 2;
  }

  /**
   * `new Date(s)` for a date-only string reads exactly `YYYY-MM-DD` with a four-digit year;
   * a string of another shape, or naming a day that does not exist, is an invalid date.
   */
  function ParseDateKey(s: string): (r: Option<LocalDate>)
    ensures r.Some? ==> r.value.Valid() && r.value.year >= 0
  {
    if |s| == 10 && s[4] == '-' && s[7] == '-'
       && AllDigits(s[..4]) && AllDigits(s[5..7]) && AllDigits(s[8..])
    then
      var d := LocalDate(DigitsValue(s[..4]), DigitsValue(s[5..7]) - 1, DigitsValue(s[8..]));
      if 0 <= d.month < 12 && 1 <= d.day <= DaysInMonth(d.year, d.month) then Some(d) else None
    else None
  }

  /** The key of every day of years 1000..9999 reads back as that day. */
  lemma ParseDateKeyRoundTrip(d: LocalDate)
    requires d.Valid() && 1000 <= d.year <= 9999
    ensures ParseDateKey(DateKey(d)) == Some(d)
  {
    FourDigitKeyFields(d);
  }

  /** With a four-digit year the key has the fixed shape, and each field reads back as its number. */
  lemma FourDigitKeyFields(d: LocalDate)
    requires d.Valid() && 1000 <= d.year <= 9999
    ensures var k := DateKey(d);
      && |k| == 10 && k[4] == '-' && k[7] == '-'
      && AllDigits(k[..4]) && DigitsValue(k[..4]) == d.year
      && AllDigits(k[5..7]) && DigitsValue(k[5..7]) == d.month + 1
      && AllDigits(k[8..]) && DigitsValue(k[8..]) == d.day
  {
    var k := DateKey(d);
    KeyParts(d);
    FourDigits(d.year);
    assert k[..4] == KeyYear(k) == NatStr(d.year);
    NatStrValue(d.year);
    assert k[5..7] == KeyMonth(k) == Pad2(d.month + 1);
    Pad2TwoDigits(d.month + 1);
    assert k[8..] == KeyDay(k) == Pad2(d.day);
    Pad2TwoDigits(d.day);
  }

  /** A text that reads as a day of a four-digit year is exactly that day's key. */
  lemma ParseDateKeyInverse(s: string, d: LocalDate)
    requires ParseDateKey(s) == Some(d) && d.year >= 1000
    ensures DateKey(d) == s
  {
    DigitsBelow(s[..4]);
    assert Pow10(4) == 10000;
    FourDigitKeyFields(d);
    var k := DateKey(d);
    DigitsInjective(k[..4], s[..4]);
    DigitsInjective(k[5..7], s[5..7]);
    DigitsInjective(k[8..], s[8..]);
    SameFields(k, s);
  }

  /** Two ten-character texts that agree on the three fields and the two separators are equal. */
  lemma SameFields(k: string, s: string)
    requires |k| == |s| == 10 && k[4] == s[4] && k[7] == s[7]
    requires k[..4] == s[..4] && k[5..7] == s[5..7] && k[8..] == s[8..]
    ensures k == s
  {
    forall i | 0 <= i < 10 ensures k[i] == s[i] {
      if i < 4 {
        assert k[..4][i] == s[..4][i];
      } else if 5 <= i < 7 {
        assert k[5..7][i - 5] == s[5..7][i - 5];
      } else if 8 <= i {
        assert k[8..][i - 8] == s[8..][i - 8];
      }
    }
  }

  /** A year below 1000 is written with fewer than four digits, so its key does not read back. */
  lemma ShortYearKeyDoesNotParse(d: LocalDate)
    requires d.Valid() && 0 <= d.year < 1000
    ensures ParseDateKey(DateKey(d)) == None
  {
    KeyParts(d);
    if d.year >= 10 {
      assert |NatStr(d.year / 10)| <= 2 by {
        if d.year >= 100 {
          assert |NatStr(d.year / 10 / 10)| == 1;
        }
      }
    }
  }

  // ---------------------------------------------------------------------------
  // Neighbouring days and months

  /** The day before `d`. */
  function PrevDay(d: LocalDate): (r: LocalDate)
    requires d.Valid()
    ensures r.Valid() && DayNumber(r) == DayNumber(d) - 1
  {
    NextYear(d.year - 1);
    if d.day > 1 then LocalDate(d.year, d.month, d.day - 1)
    else if d.month > 0 then
      MonthSteps(d.year, d.month - 1);
      LocalDate(d.year, d.month - 1, DaysInMonth(d.year, d.month - 1))
    else LocalDate(d.year - 1, 11, 31)
  }

  /** `new Date(y, m + 1, 1)`: the first day of the following month. */
  function NextMonthStart(d: LocalDate): (r: LocalDate)
    requires d.Valid()
    ensures r.Valid() && r.day == 1
    ensures DayNumber(r) == DayNumber(LocalDate(d.year, d.month, 1)) + DaysInMonth(d.year, d.month)
  {
    MonthSteps(d.year, d.month);
    NextYear(d.year);
    if d.month == 11 then LocalDate(d.year + 1, 0, 1) else LocalDate(d.year, d.month + 1, 1)
  }

  /** `new Date(y, m - 1, 1)`: the first day of the preceding month. */
  function PrevMonthStart(d: LocalDate): (r: LocalDate)
    requires d.Valid()
    ensures r.Valid() && r.day == 1
    ensures DayNumber(r) + DaysInMonth(r.year, r.month) == DayNumber(LocalDate(d.year, d.month, 1))
  {
    NextYear(d.year - 1);
    if d.month == 0 then LocalDate(d.year - 1, 11, 1)
    else
      MonthSteps(d.year, d.month - 1);
      LocalDate(d.year, d.month - 1, 1)
  }

  /** Going forward a month and back again lands on the first day of the month one started in. */
  lemma PrevAfterNextMonth(d: LocalDate)
    requires d.Valid()
    ensures PrevMonthStart(NextMonthStart(d)) == LocalDate(d.year, d.month, 1)
    ensures NextMonthStart(PrevMonthStart(d)) == LocalDate(d.year, d.month, 1)
  {
  }

  // ---------------------------------------------------------------------------
  // The month grid

  /** `getFirstDayOfMonth`: the weekday of the first day of the month. */
  function FirstWeekday(year: int, month: int): (w: int)
    requires 0 <= month < 12
    ensures 0 <= w < 7
  {
    Weekday(LocalDate(year, month, 1))
  }

  /** The grid the calendar draws: one blank per weekday before the 1st, then the days in order. */
  function MonthGridCells(year: int, month: int): seq<Option<LocalDate>>
    requires 0 <= month < 12
  {
    var pad := FirstWeekday(year, month);
    seq(pad, _ => None)
      + seq(DaysInMonth(year, month), i => Some(LocalDate(year, month, i + 1)))
  }

  /**
   * The `days` memo of the calendar screens: a loop pushing `null` once per leading blank,
   * then a loop pushing the days 1..numDays.
   */
  method MonthGrid(year: int, month: int) returns (grid: seq<Option<LocalDate>>)
    requires 0 <= month < 12
    ensures grid == MonthGridCells(year, month)
  {
    var numDays := DaysInMonth(year, month);
    var padding := FirstWeekday(year, month);
    grid := [];
    var i := 0;
    while i < padding
      invariant 0 <= i <= padding
      invariant grid == seq(i, _ => None)
    {
      grid := grid + [None];
      i := i + 1;
    }
    i := 1;
    while i <= numDays
      invariant 1 <= i <= numDays + 1
      invariant grid == seq(padding, _ => None) + seq(i - 1, k => Some(LocalDate(year, month, k + 1)))
    {
      grid := grid + [Some(LocalDate(year, month, i))];
      i := i + 1;
    }
  }

  lemma ModShift(a: int, b: int)
    ensures (a % 7 + b) % 7 == (a + b) % 7
  {
    var q := a / 7;
    assert a == 7 * q + a % 7;
    assert a + b == 7 * q + (a % 7 + b);
  }

  /**
   * The grid has blanks exactly before the 1st, every cell after them holds a valid day of the
   * month in ascending order, day k sits at index blanks + k - 1, every cell's column
   * (index mod 7, Sunday first) is the weekday of its day, and six weeks always suffice.
   */
  lemma MonthGridLayout(year: int, month: int)
    requires 0 <= month < 12
    ensures var g := MonthGridCells(year, month);
      var pad := FirstWeekday(year, month);
      && |g| == pad + DaysInMonth(year, month) <= 42
      && (forall i :: 0 <= i < |g| ==> (g[i].None? <==> i < pad))
      && (forall i :: pad <= i < |g| ==>
            g[i].value.Valid() && g[i].value.year == year && g[i].value.month == month
            && g[i].value.day == i - pad + 1 && Weekday(g[i].value) == i % 7)
  {
    var g := MonthGridCells(year, month);
    var pad := FirstWeekday(year, month);
    forall i | pad <= i < |g|
      ensures Weekday(g[i].value) == i % 7
    {
      var first := LocalDate(year, month, 1);
      assert DayNumber(g[i].value) == DayNumber(first) + (i - pad);
      ModShift(DayNumber(first) + 4, i - pad);
    }
  }

  // ---------------------------------------------------------------------------
  // The clock and time zones

  /** "Now": a local day and time of day, and the zone's offset in minutes east of UTC. */
  datatype Clock = Clock(today: LocalDate, msOfDay: int, offsetMinutes: int)
  {
    predicate Valid()
    {
      today.Valid() && 0 <= msOfDay < DAY_MS && -1440 < offsetMinutes < 1440
    }
  }

  /** `new Date().getTime()`: milliseconds since the epoch, in UTC. */
  function NowMs(c: Clock): int
    requires c.Valid()
  {
    DayNumber(c.today) * DAY_MS + c.msOfDay - c.offsetMinutes * MINUTE_MS
  }

  /** `new Date(key)`: a date-only key is read as midnight UTC of that day. */
  function UtcMidnightMs(d: LocalDate): int
    requires 0 <= d.month < 12
  {
    DayNumber(d) * DAY_MS
  }

  /**
   * `new Date(key).getTime()` for a key that parses. Any other text gives an invalid date (NaN),
   * which this model replaces by 0; the ordering claims built on it assume every key parses.
   */
  function DateMs(key: string): (r: int)
    ensures r % DAY_MS == 0
    ensures ParseDateKey(key).Some? ==> r / DAY_MS == DayNumber(ParseDateKey(key).value)
    ensures ParseDateKey(key).None? ==> r == 0
  {
    match ParseDateKey(key)
    case Some(d) => WholeDays(DayNumber(d)); UtcMidnightMs(d)
    case None => 0
  }

  lemma WholeDays(n: int)
    ensures (n * DAY_MS) % DAY_MS == 0 && (n * DAY_MS) / DAY_MS == n
  {
  }

  /** `new Date(y, m, d)`: midnight of that day in the local zone, as a UTC time value. */
  function LocalMidnightMs(d: LocalDate, offsetMinutes: int): int
    requires 0 <= d.month < 12
  {
    DayNumber(d) * DAY_MS - offsetMinutes * MINUTE_MS
  }

  /** `toISOString().split('T')[0]` of local midnight of `d`: the UTC day of that instant. */
  function UtcDayOfLocalMidnight(d: LocalDate, offsetMinutes: int): (r: LocalDate)
    requires d.Valid() && -1440 < offsetMinutes < 1440
    ensures r.Valid() && DayNumber(r) == LocalMidnightMs(d, offsetMinutes) / DAY_MS
  {
    if offsetMinutes > 0 then PrevDay(d) else d
  }

  /** `getFullYear()/getMonth()/getDate()` of `new Date(key)`: the local day of midnight UTC of `d`. */
  function LocalDayOfUtcMidnight(d: LocalDate, offsetMinutes: int): (r: LocalDate)
    requires d.Valid() && -1440 < offsetMinutes < 1440
    ensures r.Valid() && DayNumber(r) == (UtcMidnightMs(d) + offsetMinutes * MINUTE_MS) / DAY_MS
  {
    if offsetMinutes < 0 then PrevDay(d) else d
  }

  /** The time of a day's key is midnight UTC of that day, so later days have larger times. */
  lemma DateMsOfKey(a: LocalDate, b: LocalDate)
    requires a.Valid() && 1000 <= a.year <= 9999 && b.Valid() && 1000 <= b.year <= 9999
    ensures DateMs(DateKey(a)) == UtcMidnightMs(a)
    ensures DateMs(DateKey(a)) < DateMs(DateKey(b)) <==> Before(a, b)
  {
    ParseDateKeyRoundTrip(a);
    ParseDateKeyRoundTrip(b);
    DayNumberOrder(a, b);
  }
}
