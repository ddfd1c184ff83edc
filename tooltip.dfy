/**
 * The full charts' hover tooltip: which hovered point is shown, and where
 * the 120-wide tooltip box is anchored so that it stays on the canvas.
 */
module Tooltip {
  import opened Wrappers
  import opened Telemetry
  import opened Geometry
  import FullChart

  const TooltipWidth: real := 120.0

  /** Horizontal centre and top edge of the tooltip box. */
  datatype Anchor = Anchor(centerX: real, topY: real)

  /** The leftmost and rightmost centre that keep the box inside the padding. */
  function MinCenter(g: Chart): real { g.padding.left + TooltipWidth / 2.0 }
  function MaxCenter(g: Chart): real { g.width - g.padding.right - TooltipWidth / 2.0 }

  /**
   * The anchor for hovered point `p`: its x clamped between the two extreme
   * centres, and 46 above it but never above `padding.top + 4`.
   */
  function AnchorFor(p: Point, g: Chart): (a: Anchor)
    ensures MinCenter(g) <= p.x <= MaxCenter(g) ==> a.centerX == p.x
    ensures p.x < MinCenter(g) <= MaxCenter(g) ==> a.centerX == MinCenter(g)
    ensures MaxCenter(g) < p.x ==> a.centerX == MaxCenter(g)
    ensures MinCenter(g) <= MaxCenter(g) ==> MinCenter(g) <= a.centerX <= MaxCenter(g)
    ensures a.topY >= p.y - 46.0 && a.topY >= g.padding.top + 4.0
    ensures a.topY == p.y - 46.0 || a.topY == g.padding.top + 4.0
  {
    var centerX := Min(Max(p.x, MinCenter(g)), MaxCenter(g));
    var topY := Max(p.y - 46.0, g.padding.top + 4.0);
    Anchor(centerX, topY)
  }

  /**
   * Whenever the canvas is wide enough for the box, the box never crosses
   * the left or right padding and never rises above the top padding.
   */
  lemma TooltipStaysInside(p: Point, g: Chart)
    requires MinCenter(g) <= MaxCenter(g)
    ensures var a := AnchorFor(p, g);
      && g.padding.left <= a.centerX - TooltipWidth / 2.0
      && a.centerX + TooltipWidth / 2.0 <= g.width - g.padding.right
      && g.padding.top < a.topY
  {
  }

  /** On a full chart the centre stays in [110, 560], edge points included, and the top at 24 or below. */
  lemma FullChartAnchor(series: seq<(string, real)>, p: Point)
    ensures var a := AnchorFor(p, FullChart.CreateChart(series));
      && 110.0 <= a.centerX <= 560.0 && a.topY >= 24.0
      && (p.x <= 110.0 ==> a.centerX == 110.0)
      && (p.x >= 560.0 ==> a.centerX == 560.0)
      && (110.0 <= p.x <= 560.0 ==> a.centerX == p.x)
  {
    var g := FullChart.CreateChart(series);
    assert MinCenter(g) == 110.0 && MaxCenter(g) == 560.0;
  }

  /** The stored hover: which metric's chart, and which of its points. */
  datatype Hover = Hover(metric: Metric, point: Point)

  /** A hover that is drawn, with its anchor. */
  datatype ActiveHover = ActiveHover(hover: Hover, anchor: Anchor)

  /**
   * `activeHover`: a stored hover is drawn only on the chart of its own
   * metric, when that metric is selected and its chart exists.
   */
  function ResolveHover(hover: Option<Hover>, selected: Metric, charts: map<Metric, Chart>): (r: Option<ActiveHover>)
    ensures r.Some? <==> hover.Some? && hover.value.metric == selected && selected in charts
    ensures r.Some? ==> r.value.hover == hover.value && r.value.anchor == AnchorFor(hover.value.point, charts[selected])
  {
    match hover
    case Some(h) =>
      if h.metric == selected && selected in charts
      then Some(ActiveHover(h, AnchorFor(h.point, charts[selected])))
      else None
    case None => None
  }

  /**
   * Over the charts built from a timeline, a hover is drawn exactly when it
   * belongs to the selected metric and the timeline is not empty, and its
   * box then sits within the full chart's bounds.
   */
  lemma ResolveHoverOnTimeline(timeline: seq<Sample>, hover: Option<Hover>, selected: Metric)
    ensures var r := ResolveHover(hover, selected, FullChart.ChartGeometryOf(timeline));
      && (r.Some? <==> hover.Some? && hover.value.metric == selected && |timeline| > 0)
      && (r.Some? ==> 110.0 <= r.value.anchor.centerX <= 560.0 && r.value.anchor.topY >= 24.0)
  {
    var charts := FullChart.ChartGeometryOf(timeline);
    if hover.Some? && hover.value.metric == selected && |timeline| > 0 {
      FullChartAnchor(Series(timeline, selected), hover.value.point);
    }
  }

  /** The dashboard's hover slot and selected chart tab. */
  class HoverState {
    var hover: Option<Hover>
    var selectedMetric: Metric

    /** Initially nothing is hovered and the speed chart is selected. */
    constructor()
      ensures hover == None && selectedMetric == Velocita
    {
      hover := None;
      selectedMetric := Velocita;
    }

    /** The tooltip drawn for the current state over `charts`, if any. */
    function Active(charts: map<Metric, Chart>): Option<ActiveHover>
      reads this
    {
      ResolveHover(hover, selectedMetric, charts)
    }

    /** The mouse enters a point of `metric`'s chart: that point becomes the hover. */
    method MouseEnter(metric: Metric, point: Point)
      modifies this
      ensures hover == Some(Hover(metric, point)) && selectedMetric == old(selectedMetric)
      ensures forall charts :: metric == selectedMetric && metric in charts ==>
        Active(charts) == Some(ActiveHover(Hover(metric, point), AnchorFor(point, charts[metric])))
    {
      hover := Some(Hover(metric, point));
    }

    /** The mouse leaves a point: no tooltip is drawn. */
    method MouseLeave()
      modifies this
      ensures hover == None && selectedMetric == old(selectedMetric)
      ensures forall charts :: Active(charts) == None
    {
      hover := None;
    }

    /** A tab click selects a metric and drops any hover, so no stale tooltip survives. */
    method SelectTab(metric: Metric)
      modifies this
      ensures selectedMetric == metric && hover == None
      ensures forall charts :: Active(charts) == None
    {
      selectedMetric := metric;
      hover := None;
    }
  }
}
