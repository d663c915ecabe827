/** The per-component report and the total drawn in the bar chart. */
module Components {
  import opened Reals
  import opened Rapl
  import opened Gpu
  import opened Disk

  /** A report entry: the per-socket CPU and DRAM arrays, or a single number. */
  datatype Joules = PerSocket(values: seq<real>) | Scalar(value: real)

  type Report = map<string, Joules>

  const ComponentKeys: set<string> := {"cpu", "dram", "gpu", "disk"}

  /** The reduction `np.sum` applies to one entry. */
  function Reduce(j: Joules): real
  {
    match j
    case PerSocket(values) => Sum(values)
    case Scalar(value) => value
  }

  /** get_total_jules_per_component: the four estimates under their keys,
      with an undefined GPU estimate replaced by 0. */
  function PerComponent(p: DiskParams, res: RaplResult, gpuRows: seq<GpuRow>, diskRows: seq<DiskRow>): (r: Report)
    requires p.avgSpeed != 0.0
    ensures r.Keys == ComponentKeys
    ensures r["cpu"] == PerSocket(ToJoules(res.pkg))
    ensures r["dram"] == PerSocket(ToJoules(res.dram))
    ensures r["disk"] == Scalar(DiskEnergy(p, res, diskRows))
    ensures GpuEnergy(res, gpuRows).Some? ==> r["gpu"] == Scalar(GpuEnergy(res, gpuRows).value)
    ensures GpuEnergy(res, gpuRows).None? ==> r["gpu"] == Scalar(0.0)
  {
    var gpu := GpuEnergy(res, gpuRows);
    map["cpu" := PerSocket(ToJoules(res.pkg)),
        "dram" := PerSocket(ToJoules(res.dram)),
        "gpu" := Scalar(if gpu.Some? then gpu.value else 0.0),
        "disk" := Scalar(DiskEnergy(p, res, diskRows))]
  }

  /** The report extended with "total": the CPU and DRAM arrays summed, plus
      the disk and GPU numbers. The other entries are unchanged. */
  function WithTotal(r: Report): (t: Report)
    requires ComponentKeys <= r.Keys
    requires r["gpu"].Scalar? && r["disk"].Scalar?
    ensures t.Keys == r.Keys + {"total"}
    ensures forall k :: k in r && k != "total" ==> t[k] == r[k]
    ensures t["total"] == Scalar(Reduce(r["cpu"]) + Reduce(r["dram"]) + r["disk"].value + r["gpu"].value)
  {
    r["total" := Scalar(Reduce(r["cpu"]) + Reduce(r["dram"]) + r["disk"].value + r["gpu"].value)]
  }

  /** The total of a session's report is the summed package and DRAM
      counters in joules, plus the disk estimate, plus the GPU estimate or 0. */
  lemma TotalOfSession(p: DiskParams, res: RaplResult, gpuRows: seq<GpuRow>, diskRows: seq<DiskRow>)
    requires p.avgSpeed != 0.0
    ensures WithTotal(PerComponent(p, res, gpuRows, diskRows))["total"] ==
      Scalar((Sum(res.pkg) + Sum(res.dram)) * Micro
             + DiskEnergy(p, res, diskRows)
             + (if GpuEnergy(res, gpuRows).Some? then GpuEnergy(res, gpuRows).value else 0.0))
  {
    SumToJoules(res.pkg);
    SumToJoules(res.dram);
  }
}
