/**
 * The telemetry samples the dashboard receives: one timeline entry per
 * sample, with the four charted metrics.
 */
module Telemetry {
  import opened Wrappers

  /** The four charted metrics, in the order the dashboard lists them. */
  datatype Metric = Velocita | PotenzaKw | EnergiaKwh | Massa

  const ChartMetrics: seq<Metric> := [Velocita, PotenzaKw, EnergiaKwh, Massa]

  /**
   * One timeline sample. A metric is `None` when the JSON field is missing
   * or not a number.
   */
  datatype Sample = Sample(
    timestamp: string,
    velocita: Option<real>,
    potenzaKw: Option<real>,
    energiaKwh: Option<real>,
    massa: Option<real>)

  function Reading(s: Sample, m: Metric): Option<real> {
    match m
    case Velocita => s.velocita
    case PotenzaKw => s.potenzaKw
    case EnergiaKwh => s.energiaKwh
    case Massa => s.massa
  }

  /** `Number(x) || 0`: a missing or non-numeric reading counts as 0. */
  function Coerce(o: Option<real>): (v: real)
    ensures o.Some? ==> v == o.value
    ensures o.None? ==> v == 0.0
  {
    o.GetOr(0.0)
  }

  /** The (timestamp, value) series of one metric, in timeline order. */
  function Series(timeline: seq<Sample>, m: Metric): (series: seq<(string, real)>)
    ensures |series| == |timeline|
    ensures forall i :: 0 <= i < |timeline| ==>
      series[i] == (timeline[i].timestamp, Coerce(Reading(timeline[i], m)))
  {
    seq(|timeline|, i requires 0 <= i < |timeline| =>
      (timeline[i].timestamp, Coerce(Reading(timeline[i], m))))
  }

  /** The values of a series, in order. */
  function Values(series: seq<(string, real)>): seq<real> {
    seq(|series|, i requires 0 <= i < |series| => series[i].1)
  }

  function Max(a: real, b: real): real { if a >= b then a else b }

  function Min(a: real, b: real): real { if a <= b then a else b }
}
