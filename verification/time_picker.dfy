/**
 * The time picker: the value is an `HH:MM` text; the popup offers the hours 0..23 and the
 * minutes 0, 5, .., 55, and a choice emits the text with that part replaced and both parts
 * padded to two digits.
 */
module TimePicker {
  import opened Text

  /** The two numbers `value.split(':').map(Number)` destructures into `[hours, minutes]`. */
  datatype Parsed = Parsed(hours: JsValue, minutes: JsValue)

  /** Hours and minutes of a value; a value without a ':' has no minutes (`undefined`). */
  function Parse(value: string): (p: Parsed)
    ensures p.minutes.Undefined? <==> ':' !in value
    ensures !p.hours.Undefined?
  {
    var parts := Split(value, ':');
    Parsed(NumberOf(parts[0]), if |parts| > 1 then NumberOf(parts[1]) else Undefined)
  }

  /** A value without a ':' is all hours: its minutes are `undefined`. */
  lemma NoColonNoMinutes(value: string)
    requires ':' !in value
    ensures Parse(value) == Parsed(NumberOf(value), Undefined)
  {
    SplitWithoutSeparator(value, ':');
  }

  /** `hourOptions`: `Array.from({length: 24}, (_, i) => i)`. */
  function HourOptions(): (r: seq<int>)
    ensures |r| == 24 && forall i :: 0 <= i < 24 ==> r[i] == i
  {
    seq(24, i => i)
  }

  /** `minuteOptions`: `Array.from({length: 12}, (_, i) => i * 5)`. */
  function MinuteOptions(): (r: seq<int>)
    ensures |r| == 12 && forall i :: 0 <= i < 12 ==> r[i] == 5 * i
  {
    seq(12, i => 5 * i)
  }

  /** The hour options are exactly 0..23, ascending. */
  lemma HourOptionsAreTheDay(h: int)
    ensures h in HourOptions() <==> 0 <= h < 24
  {
    if 0 <= h < 24 {
      assert HourOptions()[h] == h;
    }
  }

  /** The minute options are exactly the multiples of five below an hour, ascending. */
  lemma MinuteOptionsAreFiveMinuteSteps(m: int)
    ensures m in MinuteOptions() <==> 0 <= m < 60 && m % 5 == 0
  {
    if 0 <= m < 60 && m % 5 == 0 {
      assert MinuteOptions()[m / 5] == m;
    }
  }

  /** `String(v).padStart(2, '0')`. */
  function PadPart(v: JsValue): string
  {
    PadStart2(JsString(v))
  }

  /** The text `HH:MM` the handlers build from two numbers. */
  function Format(h: int, m: int): (r: string)
    ensures 0 <= h < 100 && 0 <= m < 100 ==>
      && |r| == 5 && r[2] == ':'
      && AllDigits(r[..2]) && DigitsValue(r[..2]) == h
      && AllDigits(r[3..]) && DigitsValue(r[3..]) == m
  {
    var r := Pad2(h) + ":" + Pad2(m);
    if 0 <= h < 100 && 0 <= m < 100 then
      Pad2TwoDigits(h);
      Pad2TwoDigits(m);
      JoinParts(Pad2(h), Pad2(m));
      r
    else r
  }

  /** The two halves of `a:b` when `a` has two characters. */
  lemma JoinParts(a: string, b: string)
    requires |a| == 2
    ensures var r := a + ":" + b; |r| == 3 + |b| && r[2] == ':' && r[..2] == a && r[3..] == b
  {
  }

  /** `handleHourChange(hour)`: the new hour with the minutes parsed from the current value. */
  function HourChange(value: string, hour: int): (r: string)
    ensures Parse(value).minutes.Num? ==> r == Format(hour, Parse(value).minutes.n)
  {
    Pad2(hour) + ":" + PadPart(Parse(value).minutes)
  }

  /** `handleMinuteChange(minute)`: the hours parsed from the current value with the new minute. */
  function MinuteChange(value: string, minute: int): (r: string)
    ensures Parse(value).hours.Num? ==> r == Format(Parse(value).hours.n, minute)
  {
    PadPart(Parse(value).hours) + ":" + Pad2(minute)
  }

  /** Two colon-free parts joined by a ':' read back as the numbers of the two parts. */
  lemma ParseParts(a: string, b: string)
    requires ':' !in a && ':' !in b
    ensures Parse(a + [':'] + b) == Parsed(NumberOf(a), NumberOf(b))
  {
    SplitAtFirst(a, ':', b);
    SplitWithoutSeparator(b, ':');
  }

  /** A formatted time reads back as its two numbers. */
  lemma ParseFormat(h: int, m: int)
    requires 0 <= h < 100 && 0 <= m < 100
    ensures Parse(Format(h, m)) == Parsed(Num(h), Num(m))
  {
    var a, b := Pad2(h), Pad2(m);
    Pad2TwoDigits(h);
    Pad2TwoDigits(m);
    NoColon(a);
    NoColon(b);
    ParseParts(a, b);
    assert Format(h, m) == a + [':'] + b;
  }

  lemma NoColon(s: string)
    requires AllDigits(s)
    ensures ':' !in s
  {
    forall i | 0 <= i < |s| ensures s[i] != ':' {
      assert IsDigit(s[i]);
    }
  }

  /**
   * Choosing an hour on a well-formed value keeps its minutes, and the result reads back as the
   * chosen hour and those minutes.
   */
  lemma HourChangeRoundTrip(h0: int, m0: int, hour: int)
    requires 0 <= h0 < 24 && 0 <= m0 < 60 && 0 <= hour < 24
    ensures HourChange(Format(h0, m0), hour) == Format(hour, m0)
    ensures Parse(HourChange(Format(h0, m0), hour)) == Parsed(Num(hour), Num(m0))
  {
    ParseFormat(h0, m0);
    ParseFormat(hour, m0);
  }

  /**
   * Choosing a minute on a well-formed value keeps its hours, and the result reads back as
   * those hours and the chosen minute.
   */
  lemma MinuteChangeRoundTrip(h0: int, m0: int, minute: int)
    requires 0 <= h0 < 24 && 0 <= m0 < 60 && 0 <= minute < 60
    ensures MinuteChange(Format(h0, m0), minute) == Format(h0, minute)
    ensures Parse(MinuteChange(Format(h0, m0), minute)) == Parsed(Num(h0), Num(minute))
  {
    ParseFormat(h0, m0);
    ParseFormat(h0, minute);
  }

  /** On a value without a ':', choosing an hour writes the missing minutes as `undefined`. */
  lemma NoMinutesHourChange(value: string, hour: int)
    requires ':' !in value
    ensures HourChange(value, hour) == Pad2(hour) + ":" + "undefined"
  {
    NoColonNoMinutes(value);
  }

  lemma UndefinedIsNoNumber()
    ensures ':' !in "undefined" && !AllDigits("undefined")
  {
    assert !IsDigit("undefined"[0]);
  }

  /**
   * On an empty value (no ':'), choosing an hour writes the minutes as `undefined`, a text that
   * then reads back with NaN minutes.
   */
  lemma EmptyValueHourChange(hour: int)
    requires 0 <= hour < 24
    ensures HourChange("", hour) == Pad2(hour) + ":undefined"
    ensures Parse(HourChange("", hour)).minutes == NaN
  {
    NoMinutesHourChange("", hour);
    var a := Pad2(hour);
    JoinUndefined(a);
    Pad2TwoDigits(hour);
    UndefinedMinutesParse(a);
  }

  lemma JoinUndefined(a: string)
    ensures a + ":" + "undefined" == a + ":undefined"
  {
    assert ":" + "undefined" == ":undefined";
    assert a + ":" + "undefined" == a + (":" + "undefined");
  }

  /** Digits followed by `:undefined` read back with NaN minutes. */
  lemma UndefinedMinutesParse(a: string)
    requires AllDigits(a)
    ensures Parse(a + ":undefined").minutes == NaN
  {
    NoColon(a);
    UndefinedIsNoNumber();
    assert a + ":undefined" == a + [':'] + "undefined";
    ParseParts(a, "undefined");
  }

  /** On an empty value, choosing a minute writes hour `00`: `Number("")` is 0. */
  lemma EmptyValueMinuteChange(minute: int)
    ensures MinuteChange("", minute) == Format(0, minute)
  {
    NoColonNoMinutes("");
  }
}
