/**
 * The compact energy chart (280 x 130): only the most recent six samples,
 * scaled between the window's own lowest and highest energy reading
 * (not rounded to a multiple of ten, unlike the full charts).
 */
module EnergyChart {
  import opened Wrappers
  import opened Telemetry
  import opened Geometry

  const Width: real := 280.0
  const Height: real := 130.0
  const Pad: Padding := Padding(12.0, 12.0, 20.0, 12.0)
  const InnerWidth: real := Width - Pad.left - Pad.right
  const InnerHeight: real := Height - Pad.top - Pad.bottom
  const WindowSize: nat := 6

  /** `timeline.slice(-6)`: the last six samples, or all of them when fewer. */
  function Recent(timeline: seq<Sample>): (w: seq<Sample>)
    ensures |w| == if |timeline| < WindowSize then |timeline| else WindowSize
    ensures forall i :: 0 <= i < |w| ==> w[i] == timeline[|timeline| - |w| + i]
  {
    var start := if |timeline| - WindowSize > 0 then |timeline| - WindowSize else 0;
    timeline[start..]
  }

  /** `Math.min(...values)` of a non-empty list. */
  function SeqMin(values: seq<real>): (r: real)
    requires |values| > 0
    ensures forall i :: 0 <= i < |values| ==> r <= values[i]
    ensures exists i :: 0 <= i < |values| && values[i] == r
  {
    if |values| == 1 then values[0]
    else
      var rest := SeqMin(values[1..]);
      assert forall i :: 1 <= i < |values| ==> values[i] == values[1..][i - 1];
      Min(values[0], rest)
  }

  /** `Math.max(...values)` of a non-empty list. */
  function SeqMax(values: seq<real>): (r: real)
    requires |values| > 0
    ensures forall i :: 0 <= i < |values| ==> values[i] <= r
    ensures exists i :: 0 <= i < |values| && values[i] == r
  {
    if |values| == 1 then values[0]
    else
      var rest := SeqMax(values[1..]);
      assert forall i :: 1 <= i < |values| ==> values[i] == values[1..][i - 1];
      Max(values[0], rest)
  }

  /** Energy readings of the samples, missing ones as 0. */
  function Energies(samples: seq<Sample>): (values: seq<real>)
    ensures |values| == |samples|
    ensures forall i :: 0 <= i < |samples| ==> values[i] == Coerce(samples[i].energiaKwh)
  {
    seq(|samples|, i requires 0 <= i < |samples| => Coerce(samples[i].energiaKwh))
  }

  /** Canvas y of `v` between `min` (bottom, 110) and `min + range` (top, 12). */
  function ProjectY(v: real, min: real, range: real): real
    requires range > 0.0
  {
    Pad.top + (1.0 - (v - min) / range) * InnerHeight
  }

  /** The chart of a non-empty window of samples. */
  function WindowChart(recent: seq<Sample>): Chart
    requires |recent| > 0
  {
    var values := Energies(recent);
    var min := SeqMin(values);
    var max := SeqMax(values);
    var range := Max(max - min, 1.0);
    var points := seq(|recent|, i requires 0 <= i < |recent| =>
      Point(SpreadX(i, |values|, Pad.left, InnerWidth), ProjectY(values[i], min, range),
            recent[i].timestamp, values[i]));
    Chart(Width, Height, Pad, points, PathOf(points), min, max)
  }

  /** `energyConsumptionChart`: no chart for an empty timeline. */
  function EnergyChartOf(timeline: seq<Sample>): (r: Option<Chart>)
    ensures r.None? <==> |timeline| == 0
  {
    if |timeline| == 0 then None else Some(WindowChart(Recent(timeline)))
  }

  /**
   * The chart shows exactly the last min(6, n) samples, in order, with their
   * timestamps and energy readings, and a path through them drawn like the
   * full charts' paths.
   */
  lemma EnergyChartWindow(timeline: seq<Sample>)
    requires |timeline| > 0
    ensures var g := EnergyChartOf(timeline).value;
      var w := if |timeline| < 6 then |timeline| else 6;
      && g.width == 280.0 && g.height == 130.0 && g.padding == Padding(12.0, 12.0, 20.0, 12.0)
      && |g.points| == w == |g.path|
      && (forall i :: 0 <= i < w ==>
            g.points[i].timestamp == timeline[|timeline| - w + i].timestamp
            && g.points[i].value == Coerce(timeline[|timeline| - w + i].energiaKwh))
      && WellFormedPath(g.path) && Vertices(g.path) == Positions(g.points)
  {
    var recent := Recent(timeline);
    var g := WindowChart(recent);
    assert EnergyChartOf(timeline) == Some(g);
    WindowChartFollowsSamples(recent);
  }

  lemma WindowChartFollowsSamples(recent: seq<Sample>)
    requires |recent| > 0
    ensures var g := WindowChart(recent);
      && g.width == 280.0 && g.height == 130.0 && g.padding == Padding(12.0, 12.0, 20.0, 12.0)
      && |g.points| == |recent| == |g.path|
      && (forall i :: 0 <= i < |recent| ==>
            g.points[i].timestamp == recent[i].timestamp && g.points[i].value == Coerce(recent[i].energiaKwh))
      && WellFormedPath(g.path) && Vertices(g.path) == Positions(g.points)
  {
    var g := WindowChart(recent);
    assert |g.path| == |Vertices(g.path)| == |Positions(g.points)|;
  }

  /**
   * Every point of `g` lies inside the 12..268 by 12..110 drawing rectangle;
   * x runs from 12 to 268 and grows from one sample to the next.
   */
  predicate InCanvas(g: Chart) {
    && |g.points| >= 1
      && (forall i :: 0 <= i < |g.points| ==>
            12.0 <= g.points[i].x <= 268.0 && 12.0 <= g.points[i].y <= 110.0)
      && g.points[0].x == 12.0
      && (|g.points| >= 2 ==> g.points[|g.points| - 1].x == 268.0)
      && (forall i, j :: 0 <= i < j < |g.points| ==> g.points[i].x < g.points[j].x)
  }

  lemma EnergyChartInCanvas(timeline: seq<Sample>)
    requires |timeline| > 0
    ensures InCanvas(EnergyChartOf(timeline).value)
  {
    var recent := Recent(timeline);
    WindowChartInCanvas(recent);
    assert EnergyChartOf(timeline).value == WindowChart(recent);
  }

  lemma WindowChartInCanvas(recent: seq<Sample>)
    requires |recent| > 0
    ensures InCanvas(WindowChart(recent))
  {
    var g := WindowChart(recent);
    var values := Energies(recent);
    var min := SeqMin(values);
    var max := SeqMax(values);
    var n := |values|;
    assert forall i :: 0 <= i < n ==> g.points[i].x == SpreadX(i, n, Pad.left, InnerWidth);
    assert forall i :: 0 <= i < n ==> g.points[i].y == ProjectY(values[i], min, Max(max - min, 1.0));
    SpreadXLayout(n, Pad.left, InnerWidth);
    forall i | 0 <= i < n ensures 12.0 <= g.points[i].y <= 110.0 {
      YInCanvas(values[i], min, max);
    }
  }

  lemma YInCanvas(v: real, min: real, max: real)
    requires min <= v <= max
    ensures 12.0 <= ProjectY(v, min, Max(max - min, 1.0)) <= 110.0
  {
    var range := Max(max - min, 1.0);
    var f := (v - min) / range;
    assert v - min <= range;
    assert 0.0 <= f <= 1.0;
    assert (1.0 - f) * InnerHeight <= InnerHeight;
  }

  /** The lowest reading sits on the bottom edge; the highest on the top edge when the spread is at least 1. */
  lemma YAtExtremes(min: real, max: real)
    ensures ProjectY(min, min, Max(max - min, 1.0)) == 110.0
    ensures max - min >= 1.0 ==> ProjectY(max, min, Max(max - min, 1.0)) == 12.0
  {
    if max - min >= 1.0 {
      assert (max - min) / (max - min) == 1.0;
    }
  }

  /**
   * The axis bounds of `g` are its points' own extremes: some point reaches
   * each; the lowest sits on the bottom edge (y = 110) and, once the spread is
   * at least 1, the highest on the top edge (y = 12).
   */
  predicate ExtremesOnEdges(g: Chart) {
      && (forall i :: 0 <= i < |g.points| ==> g.min <= g.points[i].value <= g.max)
      && (exists i :: 0 <= i < |g.points| && g.points[i].value == g.min)
      && (exists i :: 0 <= i < |g.points| && g.points[i].value == g.max)
      && (forall i :: 0 <= i < |g.points| && g.points[i].value == g.min ==> g.points[i].y == 110.0)
      && (forall i :: 0 <= i < |g.points| && g.points[i].value == g.max && g.max - g.min >= 1.0 ==>
            g.points[i].y == 12.0)
  }

  lemma EnergyChartExtremes(timeline: seq<Sample>)
    requires |timeline| > 0
    ensures ExtremesOnEdges(EnergyChartOf(timeline).value)
  {
    var recent := Recent(timeline);
    WindowChartExtremes(recent);
    assert EnergyChartOf(timeline).value == WindowChart(recent);
  }

  lemma WindowChartExtremes(recent: seq<Sample>)
    requires |recent| > 0
    ensures ExtremesOnEdges(WindowChart(recent))
  {
    var g := WindowChart(recent);
    var values := Energies(recent);
    var min := SeqMin(values);
    var max := SeqMax(values);
    assert g.min == min && g.max == max;
    assert forall i :: 0 <= i < |g.points| ==> g.points[i].value == values[i];
    assert forall i :: 0 <= i < |g.points| ==> g.points[i].y == ProjectY(values[i], min, Max(max - min, 1.0));
    YAtExtremes(min, max);
    var lo :| 0 <= lo < |values| && values[lo] == min;
    assert g.points[lo].value == min;
    var hi :| 0 <= hi < |values| && values[hi] == max;
    assert g.points[hi].value == max;
  }
}
