/**
 * The full charts' axis: zero at the bottom and, at the top, the largest
 * sample plus 10% headroom rounded up to a multiple of ten.
 */
module Scale {
  import opened Telemetry

  datatype Axis = Axis(min: real, max: real, range: real)

  /** `Math.ceil`: the least integer not below `x`. */
  function Ceil(x: real): (c: int)
    ensures x <= c as real < x + 1.0
  {
    if x.Floor as real == x then x.Floor else x.Floor + 1
  }

  /** `Math.max(...values, 1)`: the largest sample, or 1 if no sample exceeds 1. */
  function RawMax(values: seq<real>): (r: real)
    ensures r >= 1.0
    ensures forall i :: 0 <= i < |values| ==> values[i] <= r
    ensures r == 1.0 || exists i :: 0 <= i < |values| && values[i] == r
  {
    if values == [] then 1.0
    else
      var rest := RawMax(values[1..]);
      assert forall i :: 1 <= i < |values| ==> values[i] == values[1..][i - 1];
      Max(values[0], rest)
  }

  /**
   * The axis of a full chart. Its top is the least multiple of ten that is at
   * least 1.1 times the raw maximum; its bottom is 0, so its range is its top.
   */
  function FullScale(values: seq<real>): (a: Axis)
    ensures a.min == 0.0 && a.range == a.max - a.min
    ensures a.max == a.max.Floor as real && a.max.Floor % 10 == 0
    ensures 1.1 * RawMax(values) <= a.max < 1.1 * RawMax(values) + 10.0
    ensures a.max >= 10.0
    ensures forall i :: 0 <= i < |values| ==> values[i] <= a.max
  {
    var rawMax := RawMax(values);
    var max := (Ceil(rawMax * 1.1 / 10.0) * 10) as real;
    var min := 0.0;
    Axis(min, max, Max(max - min, 1.0))
  }

  /** The scenario 50, 120, 90 gets an axis from 0 to 140. */
  lemma FullScaleExample()
    ensures FullScale([50.0, 120.0, 90.0]) == Axis(0.0, 140.0, 140.0)
  {
    var v := [50.0, 120.0, 90.0];
    assert RawMax(v[2..]) == 90.0;
    assert RawMax(v[1..]) == 120.0;
    assert RawMax(v) == 120.0;
    assert Ceil(120.0 * 1.1 / 10.0) == 14;
  }
}
