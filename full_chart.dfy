/**
 * The four full-width history charts (640 x 220): every timeline sample of
 * one metric projected onto the canvas, spread evenly left to right and
 * scaled against a zero-based axis.
 */
module FullChart {
  import opened Telemetry
  import opened Geometry
  import opened Scale

  const Width: real := 640.0
  const Height: real := 220.0
  const Pad: Padding := Padding(20.0, 20.0, 40.0, 50.0)
  const InnerWidth: real := Width - Pad.left - Pad.right
  const InnerHeight: real := Height - Pad.top - Pad.bottom

  /** Canvas y of value `v`: the axis bottom on the x axis, larger values higher up. */
  function ProjectY(v: real, axis: Axis): real
    requires axis.range > 0.0
  {
    Pad.top + InnerHeight - ((v - axis.min) / axis.range) * InnerHeight
  }

  /** `createChart(key)` applied to the (timestamp, value) series of one metric. */
  function CreateChart(series: seq<(string, real)>): Chart {
    var values := Values(series);
    var axis := FullScale(values);
    var points := seq(|series|, i requires 0 <= i < |series| =>
      Point(SpreadX(i, |series|, Pad.left, InnerWidth), ProjectY(values[i], axis), series[i].0, values[i]));
    Chart(Width, Height, Pad, points, PathOf(points), axis.min, axis.max)
  }

  /**
   * One point per sample, in timeline order, carrying the sample's timestamp
   * and value; the path visits exactly those points, `M` first.
   */
  lemma ChartFollowsSeries(series: seq<(string, real)>)
    ensures var g := CreateChart(series);
      && g.width == 640.0 && g.height == 220.0 && g.padding == Padding(20.0, 20.0, 40.0, 50.0)
      && |g.points| == |series| == |g.path|
      && (forall i :: 0 <= i < |series| ==> g.points[i].timestamp == series[i].0 && g.points[i].value == series[i].1)
      && WellFormedPath(g.path) && Vertices(g.path) == Positions(g.points)
  {
    var g := CreateChart(series);
    assert |g.path| == |Vertices(g.path)| == |Positions(g.points)|;
  }

  /** The axis under the chart: from 0 up to a multiple of ten above every sample. */
  lemma ChartAxis(series: seq<(string, real)>)
    ensures var g := CreateChart(series);
      && g.min == 0.0 && g.max >= 10.0 && g.max.Floor % 10 == 0 && g.max == g.max.Floor as real
      && forall i :: 0 <= i < |series| ==> series[i].1 <= g.max
  {
    var g := CreateChart(series);
    var values := Values(series);
    forall i | 0 <= i < |series| ensures series[i].1 <= g.max {
      assert values[i] == series[i].1;
    }
  }

  /**
   * x runs from 50 (also for a single sample) to 620, strictly increasing
   * from one sample to the next.
   */
  lemma ChartX(series: seq<(string, real)>)
    ensures var g := CreateChart(series);
      && (forall i :: 0 <= i < |g.points| ==> 50.0 <= g.points[i].x <= 620.0)
      && (|series| >= 1 ==> g.points[0].x == 50.0)
      && (|series| >= 2 ==> g.points[|series| - 1].x == 620.0)
      && (forall i, j :: 0 <= i < j < |g.points| ==> g.points[i].x < g.points[j].x)
  {
    var g := CreateChart(series);
    var n := |series|;
    SpreadXLayout(n, Pad.left, InnerWidth);
    assert forall i :: 0 <= i < n ==> g.points[i].x == SpreadX(i, n, Pad.left, InnerWidth);
  }

  /**
   * y stays between 20 and 180 for every non-negative sample, 0 lies on the
   * x axis at 180, and a larger value is never drawn lower.
   */
  lemma ChartY(series: seq<(string, real)>)
    ensures var g := CreateChart(series);
      && |g.points| == |series|
      && (forall i :: 0 <= i < |series| && series[i].1 >= 0.0 ==> 20.0 <= g.points[i].y <= 180.0)
      && (forall i :: 0 <= i < |series| && series[i].1 == 0.0 ==> g.points[i].y == 180.0)
      && (forall i, j :: 0 <= i < |series| && 0 <= j < |series| && series[i].1 <= series[j].1 ==>
            g.points[j].y <= g.points[i].y)
  {
    var g := CreateChart(series);
    var values := Values(series);
    var axis := FullScale(values);
    forall i | 0 <= i < |series| && series[i].1 >= 0.0
      ensures 20.0 <= g.points[i].y <= 180.0
    {
      assert values[i] == series[i].1 <= axis.max;
      YInCanvas(values[i], axis);
    }
    forall i, j | 0 <= i < |series| && 0 <= j < |series| && series[i].1 <= series[j].1
      ensures g.points[j].y <= g.points[i].y
    {
      YAntitone(values[i], values[j], axis);
    }
  }

  lemma YInCanvas(v: real, axis: Axis)
    requires axis.min == 0.0 && axis.range == axis.max > 0.0
    requires 0.0 <= v <= axis.max
    ensures 20.0 <= ProjectY(v, axis) <= 180.0
  {
    var f := v / axis.range;
    assert 0.0 <= f <= 1.0;
    assert f * InnerHeight <= InnerHeight;
  }

  lemma YAntitone(v: real, w: real, axis: Axis)
    requires axis.range > 0.0 && v <= w
    ensures ProjectY(w, axis) <= ProjectY(v, axis)
  {
    assert (w - axis.min) / axis.range - (v - axis.min) / axis.range == (w - v) / axis.range;
    assert ((w - v) / axis.range) * InnerHeight >= 0.0;
  }

  /** The scenario 50, 120, 90: axis top 140, first point at (50, 20 + 160 * (1 - 50/140)). */
  lemma ChartExample()
    ensures var g := CreateChart([("10:00", 50.0), ("10:05", 120.0), ("10:10", 90.0)]);
      && g.max == 140.0
      && g.points[0].x == 50.0 && g.points[0].y == 20.0 + 160.0 * (1.0 - 50.0 / 140.0)
      && g.points[2].x == 620.0
  {
    var series := [("10:00", 50.0), ("10:05", 120.0), ("10:10", 90.0)];
    assert Values(series) == [50.0, 120.0, 90.0];
    FullScaleExample();
  }

  /** The metric list covers every metric. */
  lemma EveryMetricCharted()
    ensures forall m: Metric :: m in ChartMetrics
  {
    forall m: Metric ensures m in ChartMetrics {
      match m
      case Velocita => assert ChartMetrics[0] == m;
      case PotenzaKw => assert ChartMetrics[1] == m;
      case EnergiaKwh => assert ChartMetrics[2] == m;
      case Massa => assert ChartMetrics[3] == m;
    }
  }

  /**
   * `chartGeometry`: nothing for an empty timeline, otherwise one chart per
   * metric, each built from that metric's series.
   */
  function ChartGeometryOf(timeline: seq<Sample>): (charts: map<Metric, Chart>)
    ensures |timeline| == 0 <==> charts == map[]
    ensures |timeline| > 0 ==> forall m: Metric :: m in charts && charts[m] == CreateChart(Series(timeline, m))
  {
    if |timeline| == 0 then map[]
    else
      EveryMetricCharted();
      var charts := map m | m in ChartMetrics :: CreateChart(Series(timeline, m));
      assert Velocita in charts;
      charts
  }

  /** The `reduce` that fills the per-metric accumulator, metric by metric. */
  method ChartGeometry(timeline: seq<Sample>) returns (acc: map<Metric, Chart>)
    ensures acc == ChartGeometryOf(timeline)
  {
    acc := map[];
    if |timeline| == 0 {
      return;
    }
    var k := 0;
    while k < |ChartMetrics|
      invariant 0 <= k <= |ChartMetrics|
      invariant forall j :: 0 <= j < k ==> ChartMetrics[j] in acc
      invariant forall m :: m in acc ==> acc[m] == CreateChart(Series(timeline, m))
    {
      var m := ChartMetrics[k];
      acc := acc[m := CreateChart(Series(timeline, m))];
      k := k + 1;
    }
    FilledAccumulator(timeline, acc);
  }

  /** An accumulator holding every listed metric's chart is the whole geometry. */
  lemma FilledAccumulator(timeline: seq<Sample>, acc: map<Metric, Chart>)
    requires |timeline| > 0
    requires forall j :: 0 <= j < |ChartMetrics| ==> ChartMetrics[j] in acc
    requires forall m :: m in acc ==> acc[m] == CreateChart(Series(timeline, m))
    ensures acc == ChartGeometryOf(timeline)
  {
    ListedKeysAreAll(acc);
    var expected := ChartGeometryOf(timeline);
    assert forall m :: m in acc <==> m in expected;
  }

  /** Holding every listed metric means holding every metric. */
  lemma ListedKeysAreAll(acc: map<Metric, Chart>)
    requires forall j :: 0 <= j < |ChartMetrics| ==> ChartMetrics[j] in acc
    ensures forall m: Metric :: m in acc
  {
    forall m: Metric ensures m in acc {
      if m == Velocita {
        assert ChartMetrics[0] == m;
      } else if m == PotenzaKw {
        assert ChartMetrics[1] == m;
      } else if m == EnergiaKwh {
        assert ChartMetrics[2] == m;
      } else {
        assert ChartMetrics[3] == m;
      }
    }
  }
}
