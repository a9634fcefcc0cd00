/**
 * The second percentile of the repository, `percentile` in scripts/staging_capacity_probe.py,
 * and its agreement with `_percentile` of backend/app/region_stats.py.
 */
module ProbePercentile {
  import opened Common
  import RegionStats

  function Ceiling(x: real): (n: int)
    ensures x <= n as real < x + 1.0
  {
    -((-x).Floor)
  }

  /** `percentile`: out-of-range arguments are an error, no values give 0.0. */
  function Percentile(values: seq<real>, percentileValue: real): Result<real, ()> {
    if !(0.0 <= percentileValue <= 100.0) then Err(())
    else if values == [] then Ok(0.0)
    else
      var ordered := RegionStats.Sort(values);
      var position := Place(|ordered|, percentileValue);
      var lower := position.Floor;
      var upper := Ceiling(position);
      if lower == upper then Ok(ordered[lower])
      else Ok(RegionStats.Interpolate(ordered[lower], ordered[upper], position - lower as real))
  }

  function Place(n: nat, percentileValue: real): (p: real)
    requires n > 0 && 0.0 <= percentileValue <= 100.0
    ensures 0.0 <= p <= (n - 1) as real
  {
    PlaceIsPosition(n, percentileValue / 100.0);
    (n - 1) as real * percentileValue / 100.0
  }

  lemma PlaceIsPosition(n: nat, fraction: real)
    requires n > 0 && 0.0 <= fraction <= 1.0
    ensures (n - 1) as real * (100.0 * fraction) / 100.0 == RegionStats.Position(n, fraction)
  {
    var m := (n - 1) as real;
    assert m * (100.0 * fraction) == 100.0 * (m * fraction);
  }

  /** Both implementations compute the same interpolated value, for every non-empty list of
      samples in any order and every fraction. */
  lemma PercentilesAgree(values: seq<real>, fraction: real)
    requires values != [] && 0.0 <= fraction <= 1.0
    ensures Percentile(values, 100.0 * fraction)
         == Ok(RegionStats.Percentile(RegionStats.Sort(values), fraction))
  {
    hide RegionStats.Sort, RegionStats.Sorted, RegionStats.Interpolate, RegionStats.Position;
    var ordered := RegionStats.Sort(values);
    PlaceIsPosition(|ordered|, fraction);
    var position := RegionStats.Position(|ordered|, fraction);
    assert Place(|ordered|, 100.0 * fraction) == position;
    RegionStats.PercentileBetween(ordered, fraction);
  }

  /** The reported latency summary is ordered: p50 <= p95 <= p99 <= max, and all lie among the samples. */
  lemma LatencySummaryOrdered(values: seq<real>, least: real, greatest: real)
    requires RegionStats.IsLeast(least, values) && RegionStats.IsGreatest(greatest, values)
    ensures var p50, p95, p99 := Percentile(values, 50.0), Percentile(values, 95.0), Percentile(values, 99.0);
            && p50.Ok? && p95.Ok? && p99.Ok?
            && least <= p50.value <= p95.value <= p99.value <= greatest
  {
    hide RegionStats.Sort, RegionStats.Sorted, RegionStats.Percentile;
    var ordered := RegionStats.Sort(values);
    PercentilesAgree(values, 0.5);
    PercentilesAgree(values, 0.95);
    PercentilesAgree(values, 0.99);
    RegionStats.EndsOfSorted(values, least, greatest);
    RegionStats.PercentileEnds(ordered);
    RegionStats.PercentileMonotone(ordered, 0.0, 0.5);
    RegionStats.PercentileMonotone(ordered, 0.5, 0.95);
    RegionStats.PercentileMonotone(ordered, 0.95, 0.99);
    RegionStats.PercentileMonotone(ordered, 0.99, 1.0);
  }

  /** Outside 0 to 100 the probe refuses, and without samples it reports zero. */
  lemma PercentileEdges(values: seq<real>, percentileValue: real)
    ensures Percentile(values, percentileValue).Err? <==> percentileValue < 0.0 || percentileValue > 100.0
    ensures values == [] && 0.0 <= percentileValue <= 100.0 ==> Percentile(values, percentileValue) == Ok(0.0)
  {
    hide RegionStats.Sort, RegionStats.Interpolate;
  }
}
