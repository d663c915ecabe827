/** The GPU estimator: the mean of the power samples logged inside the
    measurement window, multiplied by the window's length in seconds. */
module Gpu {
  import opened Wrappers
  import opened Reals
  import opened Windowing
  import opened Rapl

  /** One row of the GPU power log: its timestamp and `power_usage(W)`. */
  datatype GpuRow = GpuRow(t: real, power: real)

  function GpuStamp(row: GpuRow): real
  {
    row.t
  }

  /** The `power_usage(W)` column. */
  function Powers(rows: seq<GpuRow>): (p: seq<real>)
    ensures |p| == |rows|
    ensures forall i :: 0 <= i < |rows| ==> p[i] == rows[i].power
  {
    seq(|rows|, i requires 0 <= i < |rows| => rows[i].power)
  }

  /** The rows of the power log that fall in the measurement's window. */
  function WindowedGpu(res: RaplResult, rows: seq<GpuRow>): seq<GpuRow>
  {
    Filter(rows, GpuStamp, WindowOf(res))
  }

  /** Energy in joules estimated from the power log, or None when no sample
      lies in the window (the mean of an empty column is NaN). */
  function GpuEnergy(res: RaplResult, rows: seq<GpuRow>): (e: Option<real>)
    ensures e.None? <==> forall i :: 0 <= i < |rows| ==> !InWindow(WindowOf(res), rows[i].t)
    ensures e.Some? ==> e.value * |WindowedGpu(res, rows)| as real == Sum(Powers(WindowedGpu(res, rows))) * DurationSeconds(res)
  {
    FilterEmpty(rows, GpuStamp, WindowOf(res));
    var m := Mean(Powers(WindowedGpu(res, rows)));
    if m.None? then None else Some(m.value * res.durationUs * Micro)
  }

  /** Every sample in the window is one of the log's rows and is in the window. */
  lemma WindowedGpuRows(res: RaplResult, rows: seq<GpuRow>, k: nat)
    requires k < |WindowedGpu(res, rows)|
    ensures WindowedGpu(res, rows)[k] in rows
    ensures InWindow(WindowOf(res), WindowedGpu(res, rows)[k].t)
  {
    var x := WindowedGpu(res, rows)[k];
    FilterMembership(rows, GpuStamp, WindowOf(res), x);
  }

  /** Under a constant power draw P during the window the estimate is exactly
      P times the duration: the rectangle rule is exact. */
  lemma ConstantPower(res: RaplResult, rows: seq<GpuRow>, p: real)
    requires exists i :: 0 <= i < |rows| && InWindow(WindowOf(res), rows[i].t)
    requires forall i :: 0 <= i < |rows| && InWindow(WindowOf(res), rows[i].t) ==> rows[i].power == p
    ensures GpuEnergy(res, rows) == Some(p * DurationSeconds(res))
  {
    var powers := Powers(WindowedGpu(res, rows));
    forall k | 0 <= k < |powers|
      ensures powers[k] == p
    {
      WindowedGpuRows(res, rows, k);
    }
    var e := GpuEnergy(res, rows);
    assert e.Some?;
    MeanConstant(powers, p);
    var v := p * DurationSeconds(res);
    assert e.value == v;
  }

  /** When every sample in the window lies in [lo, hi] watts and the
      duration is non-negative, the estimate lies between lo and hi times the
      duration. */
  lemma EnergyBounds(res: RaplResult, rows: seq<GpuRow>, lo: real, hi: real)
    requires res.durationUs >= 0.0
    requires forall i :: 0 <= i < |rows| && InWindow(WindowOf(res), rows[i].t) ==> lo <= rows[i].power <= hi
    ensures GpuEnergy(res, rows).Some? ==>
      lo * DurationSeconds(res) <= GpuEnergy(res, rows).value <= hi * DurationSeconds(res)
  {
    var powers := Powers(WindowedGpu(res, rows));
    if powers != [] {
      forall k | 0 <= k < |powers|
        ensures lo <= powers[k] <= hi
      {
        WindowedGpuRows(res, rows, k);
      }
      MeanBounds(powers, lo, hi);
      var m := Mean(powers).value;
      var d := DurationSeconds(res);
      MulNonNegative(m - lo, d);
      MulNonNegative(hi - m, d);
    }
  }
}
