/**
 * The haemoglobin chart component: it sorts a copy of its points by time, refuses to draw fewer
 * than two, and otherwise draws a grey series (values before a transfusion and analyses), a red
 * series (values after a transfusion) and a green band at each point where a chelator was taken,
 * each only when its switch is on. Coordinates are floating point in the source and are not
 * modelled; a path is the sequence of its pen moves.
 */
module HemoglobinChart {
  import opened Ordering
  import opened Chart

  /** One command of an SVG path: `M x,y` for the first point, `L x,y` for each later one. */
  datatype Step = MoveTo(p: Point) | LineTo(p: Point)

  /** `generatePath`: the `reduce` that starts with `M` and adds an `L` per further point. */
  function PathOf(ps: seq<Point>): (r: seq<Step>)
    ensures |r| == |ps|
    ensures forall i :: 0 <= i < |ps| ==> r[i].p == ps[i] && (r[i].MoveTo? <==> i == 0)
  {
    if ps == [] then []
    else
      var n := |ps| - 1;
      PathOf(ps[..n]) + [if n == 0 then MoveTo(ps[n]) else LineTo(ps[n])]
  }

  /** `sortedData`: a sorted copy, so the caller's list is left as it was. */
  function SortedData(data: seq<Point>): (s: seq<Point>)
    ensures multiset(s) == multiset(data) && SortedBy(s, Time)
  {
    SortBy(data, Time)
  }

  /** The grey series: values before a transfusion, and analyses. */
  predicate InBefore(x: Point)
  {
    x.kind == TransfusionBefore || x.kind == Analysis
  }

  /** The red series: values after a transfusion. */
  predicate InAfter(x: Point)
  {
    x.kind == TransfusionAfter
  }

  predicate WithChelator(x: Point)
  {
    x.hasChelator
  }

  /**
   * What is drawn: the empty state, or the value and time ranges of the axes with the paths and
   * dots of the two series and the chelator bands (each empty when its switch is off).
   */
  datatype View =
    | NotEnoughData
    | Drawn(minVal: int, maxVal: int, minTime: int, maxTime: int,
            beforePath: seq<Step>, afterPath: seq<Step>,
            beforeDots: seq<Point>, afterDots: seq<Point>, bands: seq<Point>)

  function Render(data: seq<Point>, showBefore: bool, showAfter: bool, showChelators: bool): (v: View)
    ensures v.NotEnoughData? <==> |data| < 2
    ensures v.Drawn? ==> v.maxVal - v.minVal >= 10 && v.minTime <= v.maxTime
    ensures v.Drawn? ==> forall x :: x in data ==> v.minVal < x.value < v.maxVal && v.minTime <= x.time <= v.maxTime
  {
    var s := SortedData(data);
    if |s| < 2 then NotEnoughData
    else
      var before, after := Filter(s, InBefore), Filter(s, InAfter);
      var minVal, maxVal := MinValue(s) - 5, MaxValue(s) + 5;
      Bounds(data, s);
      Drawn(minVal, maxVal, s[0].time, s[|s| - 1].time,
            if showBefore then PathOf(before) else [],
            if showAfter then PathOf(after) else [],
            if showBefore then before else [],
            if showAfter then after else [],
            if showChelators then Filter(s, WithChelator) else [])
  }

  /** Every point lies inside the value range and between the first and last time of the sorted copy. */
  lemma Bounds(data: seq<Point>, s: seq<Point>)
    requires |s| >= 2 && multiset(s) == multiset(data) && SortedBy(s, Time)
    ensures MaxValue(s) + 5 - (MinValue(s) - 5) >= 10
    ensures forall x :: x in data ==> MinValue(s) - 5 < x.value < MaxValue(s) + 5
    ensures forall x :: x in data ==> s[0].time <= x.time <= s[|s| - 1].time
  {
    var i :| 0 <= i < |s| && s[i].value == MinValue(s);
    assert MinValue(s) <= MaxValue(s);
    forall x | x in data ensures MinValue(s) - 5 < x.value < MaxValue(s) + 5 && s[0].time <= x.time <= s[|s| - 1].time {
      assert x in multiset(s);
      var j :| 0 <= j < |s| && s[j] == x;
      assert Time(s[0]) <= Time(s[j]);
      assert Time(s[j]) <= Time(s[|s| - 1]);
    }
  }

  /**
   * The two series split the points: each point is in exactly one of them, and each series keeps
   * the time order.
   */
  lemma SeriesPartition(data: seq<Point>)
    ensures var s := SortedData(data);
      multiset(Filter(s, InBefore)) + multiset(Filter(s, InAfter)) == multiset(data)
      && SortedBy(Filter(s, InBefore), Time) && SortedBy(Filter(s, InAfter), Time)
  {
    var s := SortedData(data);
    FilterPartition(s, InAfter, InBefore);
    FilterSorted(s, InBefore, Time);
    FilterSorted(s, InAfter, Time);
  }

  /** With both series switched on, every point is drawn as a dot of exactly one series, in time order. */
  lemma BothSeriesShowEveryPoint(data: seq<Point>, showChelators: bool)
    requires |data| >= 2
    ensures var v := Render(data, true, true, showChelators);
      multiset(v.beforeDots) + multiset(v.afterDots) == multiset(data)
      && SortedBy(v.beforeDots, Time) && SortedBy(v.afterDots, Time)
      && |v.beforePath| == |v.beforeDots| && |v.afterPath| == |v.afterDots|
  {
    SeriesPartition(data);
  }

  /** With both series switched on, a point is drawn as a dot exactly when it is one of the data. */
  lemma DotsAreTheData(data: seq<Point>, showChelators: bool, x: Point)
    requires |data| >= 2
    ensures var v := Render(data, true, true, showChelators);
      x in v.beforeDots || x in v.afterDots <==> x in data
  {
    var v := Render(data, true, true, showChelators);
    BothSeriesShowEveryPoint(data, showChelators);
    assert x in multiset(v.beforeDots) + multiset(v.afterDots) <==> x in multiset(data);
  }

  /** A band is drawn exactly at the points with a chelator, and only when the switch is on. */
  lemma BandsAtChelators(data: seq<Point>, showBefore: bool, showAfter: bool, showChelators: bool, x: Point)
    requires |data| >= 2
    ensures var v := Render(data, showBefore, showAfter, showChelators);
      x in v.bands <==> showChelators && x in data && x.hasChelator
  {
    var s := SortedData(data);
    if showChelators {
      var bands := Filter(s, WithChelator);
      if x in bands {
        assert x in multiset(s);
      }
      if x in data && x.hasChelator {
        assert x in multiset(s);
        FilterKeeps(s, WithChelator, x);
      }
    }
  }

  /** With a switch off, its series draws neither a path nor a dot. */
  lemma SwitchedOffSeriesDrawsNothing(data: seq<Point>, showChelators: bool)
    requires |data| >= 2
    ensures var v := Render(data, false, false, showChelators);
      v.beforePath == [] && v.afterPath == [] && v.beforeDots == [] && v.afterDots == []
  {
  }
}
