/**
 * The data screen's chart: the points it builds from the transfusions and analyses, and how it
 * hands them to the chart component. The analyses it reads are the fixed sample list
 * `MOCK_ANALYSES`, not the records passed to the screen.
 */
module DataScreen {
  import opened Wrappers
  import opened Text
  import opened Dates
  import opened Ordering
  import opened Lists
  import opened Chart
  import opened HemoglobinChart

  datatype Transfusion = Transfusion(date: string, hbBefore: int, hbAfter: int)

  datatype AnalysisItem = AnalysisItem(name: string, value: string, unit: string)

  datatype AnalysisRecord = AnalysisRecord(date: string, items: seq<AnalysisItem>)

  /** The name fragment that marks a haemoglobin item, in lower case. */
  const HB_FRAGMENT: string := "гемоглобин"

  /** The sample analyses the screen reads. */
  const MOCK_ANALYSES: seq<AnalysisRecord> := [
    AnalysisRecord("2025-09-10", [AnalysisItem("Гемоглобин", "14.5", "г/дл"), AnalysisItem("Ферритин", "1200", "нг/мл")])
  ]

  predicate IsHb(i: AnalysisItem)
  {
    Contains(Lower(i.name), HB_FRAGMENT)
  }

  /** `items[k]` is `x`, a haemoglobin item, and no item before it is one. */
  predicate FirstHbAt(items: seq<AnalysisItem>, k: int, x: AnalysisItem)
  {
    0 <= k < |items| && items[k] == x && IsHb(x) && forall j :: 0 <= j < k ==> !IsHb(items[j])
  }

  /** `items.find(i => i.name.toLowerCase().includes('гемоглобин'))`. */
  function FindHb(items: seq<AnalysisItem>): (r: Option<AnalysisItem>)
    ensures r.None? <==> forall x :: x in items ==> !IsHb(x)
    ensures r.Some? ==> exists k :: FirstHbAt(items, k, r.value)
  {
    if items == [] then None
    else if IsHb(items[0]) then
      assert FirstHbAt(items, 0, items[0]);
      Some(items[0])
    else
      var r := FindHb(items[1..]);
      assert forall x :: x in items ==> x == items[0] || x in items[1..];
      if r.Some? then
        var k :| FirstHbAt(items[1..], k, r.value);
        FirstHbAfterMiss(items, k, r.value);
        r
      else r
  }

  /** The first haemoglobin item of the tail, after a head that is none, is the first of the whole. */
  lemma FirstHbAfterMiss(items: seq<AnalysisItem>, k: int, x: AnalysisItem)
    requires items != [] && !IsHb(items[0]) && FirstHbAt(items[1..], k, x)
    ensures FirstHbAt(items, k + 1, x)
  {
    forall j | 0 <= j < k + 1 ensures !IsHb(items[j]) {
      if j > 0 {
        assert items[j] == items[1..][j - 1];
      }
    }
  }

  /** The two points a transfusion pushes: the value before and the value after, on its day. */
  function TransfusionPoints(t: Transfusion): seq<Point>
  {
    [Point(DateMs(t.date), t.hbBefore, TransfusionBefore, false), Point(DateMs(t.date), t.hbAfter, TransfusionAfter, false)]
  }

  /** The point an analysis pushes, if it has a haemoglobin item; `parse` stands for `parseFloat`. */
  function AnalysisPoints(a: AnalysisRecord, parse: string -> int): seq<Point>
  {
    match FindHb(a.items)
    case Some(i) => [Point(DateMs(a.date), parse(i.value), Chart.Analysis, false)]
    case None => []
  }

  function AnalysisPointsWith(parse: string -> int): AnalysisRecord -> seq<Point>
  {
    a => AnalysisPoints(a, parse)
  }

  /**
   * The points in the order the two `forEach` loops push them: the transfusions' before and after
   * values come first, the analysis points after them, and none is marked with a chelator.
   */
  function Pushed(ts: seq<Transfusion>, analyses: seq<AnalysisRecord>, parse: string -> int): (r: seq<Point>)
    ensures |r| >= 2 * |ts|
    ensures forall k :: 0 <= k < |r| ==> (r[k].kind == Chart.Analysis <==> 2 * |ts| <= k)
    ensures forall k :: 0 <= k < |r| ==> !r[k].hasChelator
  {
    PushedParts(ts, analyses, parse);
    FlatMap(ts, TransfusionPoints) + FlatMap(analyses, AnalysisPointsWith(parse))
  }

  /** The transfusion part has two points each, none an analysis; the analysis part has only analyses. */
  lemma PushedParts(ts: seq<Transfusion>, analyses: seq<AnalysisRecord>, parse: string -> int)
    ensures var r := FlatMap(ts, TransfusionPoints) + FlatMap(analyses, AnalysisPointsWith(parse));
      && |r| >= 2 * |ts|
      && (forall k :: 0 <= k < |r| ==> (r[k].kind == Chart.Analysis <==> 2 * |ts| <= k))
      && (forall k :: 0 <= k < |r| ==> !r[k].hasChelator)
  {
    var a: seq<Point>, b: seq<Point> := FlatMap(ts, TransfusionPoints), FlatMap(analyses, AnalysisPointsWith(parse));
    FlatMapUniform(ts, TransfusionPoints, 2);
    FlatMapAll(ts, TransfusionPoints, (p: Point) => p.kind != Chart.Analysis && !p.hasChelator);
    FlatMapAll(analyses, AnalysisPointsWith(parse), (p: Point) => p.kind == Chart.Analysis && !p.hasChelator);
    forall k | 0 <= k < |a + b|
      ensures ((a + b)[k].kind == Chart.Analysis <==> 2 * |ts| <= k) && !(a + b)[k].hasChelator
    {
      if k < |a| {
        assert (a + b)[k] == a[k];
      } else {
        assert (a + b)[k] == b[k - |a|];
      }
    }
  }

  /** `chartData`: the two loops, then the sort by time. */
  method ChartData(ts: seq<Transfusion>, analyses: seq<AnalysisRecord>, parse: string -> int) returns (points: seq<Point>)
    ensures multiset(points) == multiset(Pushed(ts, analyses, parse))
    ensures SortedBy(points, Time)
    ensures points == SortBy(Pushed(ts, analyses, parse), Time)
  {
    var raw: seq<Point> := [];
    var i := 0;
    while i < |ts|
      invariant 0 <= i <= |ts|
      invariant raw == FlatMap(ts[..i], TransfusionPoints)
    {
      FlatMapSnoc(ts, TransfusionPoints, i);
      raw := raw + [Point(DateMs(ts[i].date), ts[i].hbBefore, TransfusionBefore, false)];
      raw := raw + [Point(DateMs(ts[i].date), ts[i].hbAfter, TransfusionAfter, false)];
      i := i + 1;
    }
    assert ts[..i] == ts;
    var pts := raw;
    var f := AnalysisPointsWith(parse);
    var j := 0;
    while j < |analyses|
      invariant 0 <= j <= |analyses|
      invariant raw == pts + FlatMap(analyses[..j], f)
    {
      FlatMapSnoc(analyses, f, j);
      var hb := FindHb(analyses[j].items);
      if hb.Some? {
        raw := raw + [Point(DateMs(analyses[j].date), parse(hb.value.value), Chart.Analysis, false)];
      }
      j := j + 1;
    }
    assert analyses[..j] == analyses;
    points := SortBy(raw, Time);
  }

  /** The indices of the analyses that have a haemoglobin item. */
  function WithHb(analyses: seq<AnalysisRecord>): set<int>
  {
    set k | 0 <= k < |analyses| && FindHb(analyses[k].items).Some?
  }

  /** Two points per transfusion and one per analysis with a haemoglobin item. */
  lemma PointCount(ts: seq<Transfusion>, analyses: seq<AnalysisRecord>, parse: string -> int)
    ensures |Pushed(ts, analyses, parse)| == 2 * |ts| + |WithHb(analyses)|
  {
    var f := AnalysisPointsWith(parse);
    FlatMapUniform(ts, TransfusionPoints, 2);
    assert forall a :: |f(a)| == (if FindHb(a.items).Some? then 1 else 0);
    FlatMapAtMostOne(analyses, f);
    assert GivingOne(analyses, f) == WithHb(analyses);
  }

  /** Transfusion `i` pushes its before-value at `2 * i` and its after-value at `2 * i + 1`. */
  lemma TransfusionPairs(ts: seq<Transfusion>, analyses: seq<AnalysisRecord>, parse: string -> int, i: int)
    requires 0 <= i < |ts|
    ensures 2 * i + 1 < |Pushed(ts, analyses, parse)|
    ensures Pushed(ts, analyses, parse)[2 * i] == Point(DateMs(ts[i].date), ts[i].hbBefore, TransfusionBefore, false)
    ensures Pushed(ts, analyses, parse)[2 * i + 1] == Point(DateMs(ts[i].date), ts[i].hbAfter, TransfusionAfter, false)
  {
    var front: seq<Point>, back: seq<Point> := FlatMap(ts, TransfusionPoints), FlatMap(analyses, AnalysisPointsWith(parse));
    assert Pushed(ts, analyses, parse) == front + back;
    TransfusionFront(ts, i);
    PrefixPair(front, back, 2 * i);
  }

  /** In the transfusion part, transfusion `i` sits at `2 * i` and `2 * i + 1`. */
  lemma TransfusionFront(ts: seq<Transfusion>, i: int)
    requires 0 <= i < |ts|
    ensures 2 * i + 1 < |FlatMap(ts, TransfusionPoints)|
    ensures FlatMap(ts, TransfusionPoints)[2 * i] == TransfusionPoints(ts[i])[0]
    ensures FlatMap(ts, TransfusionPoints)[2 * i + 1] == TransfusionPoints(ts[i])[1]
  {
    FlatMapPairAt(ts, TransfusionPoints, i, 0);
    FlatMapPairAt(ts, TransfusionPoints, i, 1);
  }

  /** Appending keeps the two points at `n` and `n + 1` of the front. */
  lemma PrefixPair(front: seq<Point>, back: seq<Point>, n: int)
    requires 0 <= n && n + 1 < |front|
    ensures (front + back)[n] == front[n] && (front + back)[n + 1] == front[n + 1]
  {
  }

  /**
   * An analysis with a haemoglobin item pushes one analysis point on its day, valued at that
   * item, the first one found; and every analysis point comes from such an analysis.
   */
  lemma AnalysisPointsAreFirstHb(ts: seq<Transfusion>, analyses: seq<AnalysisRecord>, parse: string -> int)
    ensures forall a :: a in analyses && FindHb(a.items).Some? ==>
      Point(DateMs(a.date), parse(FindHb(a.items).value.value), Chart.Analysis, false) in Pushed(ts, analyses, parse)
    ensures forall x :: x in Pushed(ts, analyses, parse) && x.kind == Chart.Analysis ==>
      exists a :: (a in analyses && FindHb(a.items).Some?
        && x == Point(DateMs(a.date), parse(FindHb(a.items).value.value), Chart.Analysis, false))
  {
    var f := AnalysisPointsWith(parse);
    var front: seq<Point>, back: seq<Point> := FlatMap(ts, TransfusionPoints), FlatMap(analyses, f);
    assert Pushed(ts, analyses, parse) == front + back;
    FlatMapMember(analyses, f);
    FlatMapAll(ts, TransfusionPoints, (p: Point) => p.kind != Chart.Analysis);
    HbPointsOfBack(analyses, parse, back);
    AnalysisPointsInBack(front, back);
  }

  /** The analysis part holds exactly the points of the analyses with a haemoglobin item. */
  lemma HbPointsOfBack(analyses: seq<AnalysisRecord>, parse: string -> int, back: seq<Point>)
    requires forall a, x :: a in analyses && x in AnalysisPointsWith(parse)(a) ==> x in back
    requires forall x :: x in back ==> exists a :: a in analyses && x in AnalysisPointsWith(parse)(a)
    ensures forall a :: a in analyses && FindHb(a.items).Some? ==>
      Point(DateMs(a.date), parse(FindHb(a.items).value.value), Chart.Analysis, false) in back
    ensures forall x :: x in back ==>
      exists a :: (a in analyses && FindHb(a.items).Some?
        && x == Point(DateMs(a.date), parse(FindHb(a.items).value.value), Chart.Analysis, false))
  {
    var f := AnalysisPointsWith(parse);
    forall a | a in analyses && FindHb(a.items).Some?
      ensures Point(DateMs(a.date), parse(FindHb(a.items).value.value), Chart.Analysis, false) in back
    {
      assert f(a)[0] in f(a);
    }
    forall x | x in back
      ensures exists a :: (a in analyses && FindHb(a.items).Some?
        && x == Point(DateMs(a.date), parse(FindHb(a.items).value.value), Chart.Analysis, false))
    {
      var a :| a in analyses && x in f(a);
    }
  }

  /** With no analysis point in front, every analysis point of the whole lies in the back part. */
  lemma AnalysisPointsInBack(front: seq<Point>, back: seq<Point>)
    requires forall i :: 0 <= i < |front| ==> front[i].kind != Chart.Analysis
    ensures forall x :: x in front + back && x.kind == Chart.Analysis ==> x in back
  {
  }

  /** The sample list has one analysis, and it has a haemoglobin item. */
  lemma SampleHasOneHbAnalysis()
    ensures |MOCK_ANALYSES| == 1 && FindHb(MOCK_ANALYSES[0].items).Some?
  {
    var name := Lower("Гемоглобин");
    assert name == HB_FRAGMENT;
    assert HB_FRAGMENT <= name;
    assert IsHb(MOCK_ANALYSES[0].items[0]);
  }

  /**
   * The chart as the screen renders it: the points of all time, handed over without the three
   * switches, which are then undefined and so off.
   */
  function ScreenChart(ts: seq<Transfusion>, parse: string -> int): View
  {
    Render(SortBy(Pushed(ts, MOCK_ANALYSES, parse), Time), false, false, false)
  }

  /**
   * Whatever the transfusions, the screen's chart draws no series, no dot and no band: with at
   * least one transfusion only the grid appears, and the period buttons change nothing.
   */
  lemma ScreenChartDrawsNoSeries(ts: seq<Transfusion>, parse: string -> int)
    ensures var v := ScreenChart(ts, parse);
      v.NotEnoughData? || (v.beforePath == [] && v.afterPath == [] && v.beforeDots == [] && v.afterDots == [] && v.bands == [])
    ensures |ts| >= 1 ==> ScreenChart(ts, parse).Drawn?
  {
    PointCount(ts, MOCK_ANALYSES, parse);
  }

  /** The chart with the period applied and both series and the bands switched on. */
  function IntendedChart(ts: seq<Transfusion>, parse: string -> int, period: Period, c: Clock): View
    requires c.Valid()
  {
    Render(PeriodFilter(SortBy(Pushed(ts, MOCK_ANALYSES, parse), Time), period, c), true, true, true)
  }

  /**
   * With the period applied and the switches on, each point of the period is drawn as a dot of
   * exactly one series, and no point outside the period is.
   */
  lemma IntendedChartShowsThePeriod(ts: seq<Transfusion>, parse: string -> int, period: Period, c: Clock, x: Point)
    requires c.Valid()
    ensures var v := IntendedChart(ts, parse, period, c);
      v.Drawn? ==> (x in v.beforeDots || x in v.afterDots <==> x in Pushed(ts, MOCK_ANALYSES, parse) && InPeriod(x, period, c))
  {
    var pushed := Pushed(ts, MOCK_ANALYSES, parse);
    var all := SortBy(pushed, Time);
    var kept := PeriodFilter(all, period, c);
    if |kept| >= 2 {
      DotsAreTheData(kept, true, x);
      assert x in all <==> x in multiset(pushed);
    }
  }
}
