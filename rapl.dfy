/** The RAPL measurement result that a closed session holds, the window it
    defines, and the conversion of its micro-joule counters to joules. */
module Rapl {
  import opened Reals
  import opened Windowing

  /** 1e-6: microseconds to seconds and micro-joules to joules. */
  const Micro: real := 0.000001

  /** The injected result of a closed measurement: its wall-clock start
      (seconds since the epoch), its duration in microseconds, and the
      per-socket package and DRAM energy deltas in micro-joules. */
  datatype RaplResult = RaplResult(timestamp: real, durationUs: real, pkg: seq<real>, dram: seq<real>)

  function DurationSeconds(res: RaplResult): real
  {
    res.durationUs * Micro
  }

  /** The window [timestamp, timestamp + duration·1e-6) of a measurement. */
  function WindowOf(res: RaplResult): (w: Window)
    ensures w.start == res.timestamp
    ensures (w.end - w.start) * 1000000.0 == res.durationUs
    ensures w.start < w.end <==> res.durationUs > 0.0
  {
    Window(res.timestamp, res.timestamp + DurationSeconds(res))
  }

  /** Element-wise scaling of per-socket micro-joule readings to joules;
      the shape is kept and nothing is summed. */
  function ToJoules(microJoules: seq<real>): (r: seq<real>)
    ensures |r| == |microJoules|
    ensures forall i :: 0 <= i < |r| ==> r[i] == microJoules[i] * Micro
  {
    seq(|microJoules|, i requires 0 <= i < |microJoules| => microJoules[i] * Micro)
  }

  /** Summing the joule readings equals scaling the summed micro-joules. */
  lemma {:induction false} SumToJoules(microJoules: seq<real>)
    ensures Sum(ToJoules(microJoules)) == Sum(microJoules) * Micro
  {
    if microJoules != [] {
      assert ToJoules(microJoules)[1..] == ToJoules(microJoules[1..]);
      SumToJoules(microJoules[1..]);
    }
  }
}
