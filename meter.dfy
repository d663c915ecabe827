/** EnergyMeter: the session object. It holds the disk constants, fixed at
    construction, and the current pyRAPL measurement, which `Begin` replaces
    and `End` closes. Every estimate reads the closed measurement's result. */
module Meter {
  import opened Wrappers
  import opened Reals
  import opened Rapl
  import opened Gpu
  import opened Disk
  import opened Components

  /** Label used when none, or an empty one, is given. */
  const DefaultLabel: string := "Meter"

  /** Using the session out of order: there is no measurement yet, or the
      measurement has not been ended and so has no result. */
  datatype MeterError = NotBegun | NotEnded

  /** A pyRAPL measurement: its label and, once ended, its result. */
  datatype Measurement = Measurement(name: string, result: Option<RaplResult>)

  class EnergyMeter {
    const diskAvgSpeed: real
    const diskActivePower: real
    const diskIdlePower: real
    const meterLabel: string
    var meter: Option<Measurement>

    constructor (diskAvgSpeed: real, diskActivePower: real, diskIdlePower: real, meterLabel: Option<string>)
      ensures this.diskAvgSpeed == diskAvgSpeed
      ensures this.diskActivePower == diskActivePower
      ensures this.diskIdlePower == diskIdlePower
      ensures meterLabel.Some? && meterLabel.value != "" ==> this.meterLabel == meterLabel.value
      ensures meterLabel.None? || meterLabel.value == "" ==> this.meterLabel == DefaultLabel
      ensures meter == None
    {
      this.diskAvgSpeed := diskAvgSpeed;
      this.diskActivePower := diskActivePower;
      this.diskIdlePower := diskIdlePower;
      this.meterLabel := if meterLabel.Some? && meterLabel.value != "" then meterLabel.value else DefaultLabel;
      meter := None;
    }

    function Params(): DiskParams
    {
      DiskParams(diskAvgSpeed, diskActivePower, diskIdlePower)
    }

    /** Starts a fresh measurement, discarding any previous one, open or
        closed: there is no guard against beginning twice. */
    method Begin()
      modifies this
      ensures meter == Some(Measurement(meterLabel, None))
    {
      meter := Some(Measurement(meterLabel, None));
    }

    /** Closes the current measurement with the counters' snapshot; fails,
        changing nothing, when no measurement was begun. */
    method End(snapshot: RaplResult) returns (outcome: Outcome<MeterError>)
      modifies this
      ensures old(meter).None? ==> outcome == Fail(NotBegun) && meter == None
      ensures old(meter).Some? ==> outcome == Pass && meter == Some(Measurement(old(meter).value.name, Some(snapshot)))
    {
      if meter.None? {
        outcome := Fail(NotBegun);
      } else {
        meter := Some(meter.value.(result := Some(snapshot)));
        outcome := Pass;
      }
    }

    /** The closed measurement's result, which every estimate reads. */
    function Closed(): (r: Result<RaplResult, MeterError>)
      reads this
      ensures r.Success? <==> meter.Some? && meter.value.result.Some?
      ensures meter.None? ==> r == Failure(NotBegun)
      ensures meter.Some? && meter.value.result.None? ==> r == Failure(NotEnded)
    {
      match meter
      case None => Failure(NotBegun)
      case Some(m) => if m.result.None? then Failure(NotEnded) else Success(m.result.value)
    }

    function TotalJoulesCpu(): (r: Result<seq<real>, MeterError>)
      reads this
      ensures r.Success? <==> Closed().Success?
      ensures r.Failure? ==> r.error == Closed().error
      ensures r.Success? ==> r.value == ToJoules(Closed().value.pkg)
    {
      var res :- Closed();
      Success(ToJoules(res.pkg))
    }

    function TotalJoulesDram(): (r: Result<seq<real>, MeterError>)
      reads this
      ensures r.Success? <==> Closed().Success?
      ensures r.Failure? ==> r.error == Closed().error
      ensures r.Success? ==> r.value == ToJoules(Closed().value.dram)
    {
      var res :- Closed();
      Success(ToJoules(res.dram))
    }

    function TotalJoulesGpu(rows: seq<GpuRow>): (r: Result<Option<real>, MeterError>)
      reads this
      ensures r.Success? <==> Closed().Success?
      ensures r.Failure? ==> r.error == Closed().error
      ensures r.Success? ==> r.value == GpuEnergy(Closed().value, rows)
    {
      var res :- Closed();
      Success(GpuEnergy(res, rows))
    }

    function TotalJoulesDisk(rows: seq<DiskRow>): (r: Result<real, MeterError>)
      reads this
      requires diskAvgSpeed != 0.0
      ensures r.Success? <==> Closed().Success?
      ensures r.Failure? ==> r.error == Closed().error
      ensures r.Success? ==> r.value == DiskEnergy(Params(), Closed().value, rows)
    {
      var res :- Closed();
      Success(DiskEnergy(Params(), res, rows))
    }

    function TotalJoulesPerComponent(gpuRows: seq<GpuRow>, diskRows: seq<DiskRow>): (r: Result<Report, MeterError>)
      reads this
      requires diskAvgSpeed != 0.0
      ensures r.Success? <==> Closed().Success?
      ensures r.Failure? ==> r.error == Closed().error
      ensures r.Success? ==> r.value.Keys == ComponentKeys
      ensures r.Success? ==>
        && r.value["cpu"] == PerSocket(TotalJoulesCpu().value)
        && r.value["dram"] == PerSocket(TotalJoulesDram().value)
        && r.value["disk"] == Scalar(TotalJoulesDisk(diskRows).value)
        && r.value["gpu"] == Scalar(if TotalJoulesGpu(gpuRows).value.Some? then TotalJoulesGpu(gpuRows).value.value else 0.0)
    {
      var res :- Closed();
      Success(PerComponent(Params(), res, gpuRows, diskRows))
    }

    /** The data the bar chart shows: the report plus its "total" entry. */
    function PlotTotalJoulesPerComponent(gpuRows: seq<GpuRow>, diskRows: seq<DiskRow>): (r: Result<Report, MeterError>)
      reads this
      requires diskAvgSpeed != 0.0
      ensures r.Success? <==> Closed().Success?
      ensures r.Failure? ==> r.error == Closed().error
      ensures r.Success? ==> r.value.Keys == ComponentKeys + {"total"}
      ensures r.Success? ==> forall k :: k in ComponentKeys ==> r.value[k] == TotalJoulesPerComponent(gpuRows, diskRows).value[k]
      ensures r.Success? ==> (r.value["total"] ==
        Scalar((Sum(Closed().value.pkg) + Sum(Closed().value.dram)) * Micro
               + TotalJoulesDisk(diskRows).value
               + (if TotalJoulesGpu(gpuRows).value.Some? then TotalJoulesGpu(gpuRows).value.value else 0.0)))
    {
      var res :- Closed();
      TotalOfSession(Params(), res, gpuRows, diskRows);
      Success(WithTotal(PerComponent(Params(), res, gpuRows, diskRows)))
    }
  }

  /** What a caller can rely on across a session's life: estimates fail before
      `Begin` and between `Begin` and `End`, succeed after `End`, and a second
      `Begin` discards the closed measurement. */
  method SessionLifecycle(snapshot: RaplResult)
  {
    var m := new EnergyMeter(200000000.0, 6.0, 1.0, None);
    assert m.meterLabel == DefaultLabel;
    assert m.TotalJoulesCpu() == Failure(NotBegun);
    var outcome := m.End(snapshot);
    assert outcome == Fail(NotBegun);
    m.Begin();
    assert m.TotalJoulesDram() == Failure(NotEnded);
    outcome := m.End(snapshot);
    assert outcome == Pass;
    assert m.TotalJoulesCpu() == Success(ToJoules(snapshot.pkg));
    m.Begin();
    assert m.TotalJoulesCpu() == Failure(NotEnded);
  }
}
