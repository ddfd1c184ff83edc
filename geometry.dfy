/**
 * What both dashboard charts share: projected points, the `M`/`L` path
 * through them, the chart record, and the even left-to-right spreading of
 * sample indices along the x axis.
 */
module Geometry {
  import opened Telemetry

  datatype Padding = Padding(top: real, right: real, bottom: real, left: real)

  /** A projected sample: canvas position plus the sample it came from. */
  datatype Point = Point(x: real, y: real, timestamp: string, value: real)

  /** One path command: move to the first point, line to every later one. */
  datatype Cmd = MoveTo | LineTo
  datatype PathCmd = PathCmd(cmd: Cmd, x: real, y: real)

  /** The geometry of one chart, as handed to the drawing code. */
  datatype Chart = Chart(
    width: real,
    height: real,
    padding: Padding,
    points: seq<Point>,
    path: seq<PathCmd>,
    min: real,
    max: real)

  /**
   * The x coordinate of sample `i` of `n`: `left + (i / max(n - 1, 1)) * inner`.
   * Spacing is by index, not by timestamp.
   */
  function SpreadX(i: nat, n: nat, left: real, inner: real): (x: real)
    ensures i == 0 ==> x == left
    ensures n >= 2 && i == n - 1 ==> x == left + inner
  {
    left + (i as real / Max(n as real - 1.0, 1.0)) * inner
  }

  /** A share `a / d` of a positive whole `d` lies in [0, 1], reaching 1 at `a == d`. */
  lemma ShareInUnit(a: real, d: real)
    requires d > 0.0 && 0.0 <= a <= d
    ensures 0.0 <= a / d <= 1.0
    ensures a == d ==> a / d == 1.0
  {
    var q := a / d;
    assert q * d == a;
    FactorSign(q, d);
    assert (1.0 - q) * d == d - a;
    FactorSign(1.0 - q, d);
    if a == d {
      assert (q - 1.0) * d == 0.0;
      FactorSign(q - 1.0, d);
    }
  }

  /** A product with a positive factor is non-negative only when the other factor is. */
  lemma FactorSign(x: real, d: real)
    requires d > 0.0 && x * d >= 0.0
    ensures x >= 0.0
  {
  }

  /** A share of a non-negative width stays within that width. */
  lemma ScaledWithin(f: real, w: real)
    requires 0.0 <= f <= 1.0 && w >= 0.0
    ensures 0.0 <= f * w <= w
  {
    assert (1.0 - f) * w >= 0.0;
  }

  lemma SpreadXBounds(i: nat, n: nat, left: real, inner: real)
    requires i < n && inner >= 0.0
    ensures left <= SpreadX(i, n, left, inner) <= left + inner
    ensures i == 0 ==> SpreadX(i, n, left, inner) == left
    ensures n >= 2 && i == n - 1 ==> SpreadX(i, n, left, inner) == left + inner
  {
    var d := Max(n as real - 1.0, 1.0);
    assert i as real <= d;
    ShareInUnit(i as real, d);
    ScaledWithin(i as real / d, inner);
  }

  lemma SpreadXIncreasing(i: nat, j: nat, n: nat, left: real, inner: real)
    requires i < j < n && inner > 0.0
    ensures SpreadX(i, n, left, inner) < SpreadX(j, n, left, inner)
  {
    var d := Max(n as real - 1.0, 1.0);
    assert j as real / d - i as real / d == (j - i) as real / d;
    assert (j - i) as real / d > 0.0;
    assert (j as real / d - i as real / d) * inner > 0.0;
  }

  /** Every x a chart of `n` points uses lies inside its drawing rectangle, in order. */
  lemma SpreadXLayout(n: nat, left: real, inner: real)
    requires inner > 0.0
    ensures forall i :: 0 <= i < n ==> left <= SpreadX(i, n, left, inner) <= left + inner
    ensures n >= 1 ==> SpreadX(0, n, left, inner) == left
    ensures n >= 2 ==> SpreadX(n - 1, n, left, inner) == left + inner
    ensures forall i, j :: 0 <= i < j < n ==> SpreadX(i, n, left, inner) < SpreadX(j, n, left, inner)
  {
    forall i | 0 <= i < n
      ensures left <= SpreadX(i, n, left, inner) <= left + inner
    {
      SpreadXBounds(i, n, left, inner);
    }
    if n >= 1 { SpreadXBounds(0, n, left, inner); }
    if n >= 2 { SpreadXBounds(n - 1, n, left, inner); }
    forall i, j | 0 <= i < j < n
      ensures SpreadX(i, n, left, inner) < SpreadX(j, n, left, inner)
    {
      SpreadXIncreasing(i, j, n, left, inner);
    }
  }

  /** A path as drawn: one command per vertex, `M` first and `L` after. */
  predicate WellFormedPath(path: seq<PathCmd>) {
    forall k :: 0 <= k < |path| ==> (path[k].cmd == MoveTo <==> k == 0)
  }

  /** The vertices a path visits, in order. */
  function Vertices(path: seq<PathCmd>): seq<(real, real)> {
    seq(|path|, k requires 0 <= k < |path| => (path[k].x, path[k].y))
  }

  /** The positions of a chart's points, in order. */
  function Positions(points: seq<Point>): seq<(real, real)> {
    seq(|points|, k requires 0 <= k < |points| => (points[k].x, points[k].y))
  }

  /**
   * The path through `points`, `M` to the first and `L` to every later one
   * (the drawing string, with the number formatting left out).
   */
  function PathOf(points: seq<Point>): (path: seq<PathCmd>)
    ensures WellFormedPath(path)
    ensures Vertices(path) == Positions(points)
  {
    seq(|points|, k requires 0 <= k < |points| =>
      PathCmd(if k == 0 then MoveTo else LineTo, points[k].x, points[k].y))
  }

  /** A well-formed path is determined by its vertices: PathOf is the only way to draw them. */
  lemma PathOfUnique(points: seq<Point>, path: seq<PathCmd>)
    requires WellFormedPath(path) && Vertices(path) == Positions(points)
    ensures path == PathOf(points)
  {
    var p := PathOf(points);
    assert |path| == |Vertices(path)| == |points|;
    forall k | 0 <= k < |path| ensures path[k] == p[k] {
      assert Vertices(path)[k] == Positions(points)[k];
      assert Vertices(p)[k] == Positions(points)[k];
    }
  }
}
