/** The disk estimator: the bytes the measured process moved inside the
    window give an active time at the configured average speed; the rest of
    the window is idle time; each is charged at its own power. */
module Disk {
  import opened Reals
  import opened Windowing
  import opened Rapl

  /** One row of the block-I/O log: timestamp, the tag column (which names
      the process) and the byte count of the transfer. */
  datatype DiskRow = DiskRow(t: real, tag: string, bytes: int)

  /** The operator-supplied disk constants: average speed in bytes per
      second, active and idle power in watts. */
  datatype DiskParams = DiskParams(avgSpeed: real, activePower: real, idlePower: real)

  /** Rows whose tag contains this text are the measured process's I/O. */
  const ProcessMarker: string := "python"

  function DiskStamp(row: DiskRow): real
  {
    row.t
  }

  ghost predicate OccursAt(s: string, sub: string, i: nat)
  {
    i + |sub| <= |s| && s[i..i + |sub|] == sub
  }

  /** Substring search, as pandas' `str.contains` with a pattern that has no
      regular-expression metacharacters. */
  function ContainsText(s: string, sub: string): bool
    decreases |s|
  {
    if |sub| > |s| then false
    else if s[..|sub|] == sub then true
    else ContainsText(s[1..], sub)
  }

  lemma {:induction false} ContainsTextSpec(s: string, sub: string)
    ensures ContainsText(s, sub) <==> exists i: nat :: OccursAt(s, sub, i)
    decreases |s|
  {
    if |sub| > |s| {
      forall i: nat ensures !OccursAt(s, sub, i) {}
    } else if s[..|sub|] == sub {
      assert OccursAt(s, sub, 0);
    } else {
      ContainsTextSpec(s[1..], sub);
      if ContainsText(s[1..], sub) {
        var j: nat :| OccursAt(s[1..], sub, j);
        assert s[1..][j..j + |sub|] == s[j + 1..j + 1 + |sub|];
        assert OccursAt(s, sub, j + 1);
      } else {
        forall i: nat | OccursAt(s, sub, i) ensures false {
          assert i != 0;
          assert s[1..][i - 1..i - 1 + |sub|] == s[i..i + |sub|];
          assert OccursAt(s[1..], sub, i - 1);
        }
      }
    }
  }

  predicate IsProcessRow(row: DiskRow)
  {
    ContainsText(row.tag, ProcessMarker)
  }

  /** Total of the byte column over the rows tagged with the process marker. */
  function MarkedBytes(rows: seq<DiskRow>): int
  {
    if rows == [] then 0
    else (if IsProcessRow(rows[0]) then rows[0].bytes else 0) + MarkedBytes(rows[1..])
  }

  /** The process's bytes transferred inside the measurement window. */
  function DiskBytes(res: RaplResult, rows: seq<DiskRow>): int
  {
    MarkedBytes(Filter(rows, DiskStamp, WindowOf(res)))
  }

  lemma {:induction false} MarkedBytesAppend(xs: seq<DiskRow>, ys: seq<DiskRow>)
    ensures MarkedBytes(xs + ys) == MarkedBytes(xs) + MarkedBytes(ys)
  {
    if xs == [] {
      assert xs + ys == ys;
    } else {
      assert (xs + ys)[1..] == xs[1..] + ys;
      MarkedBytesAppend(xs[1..], ys);
    }
  }

  /** The byte total is additive over a split of the log ... */
  lemma DiskBytesAppend(res: RaplResult, xs: seq<DiskRow>, ys: seq<DiskRow>)
    ensures DiskBytes(res, xs + ys) == DiskBytes(res, xs) + DiskBytes(res, ys)
  {
    FilterAppend(xs, ys, DiskStamp, WindowOf(res));
    MarkedBytesAppend(Filter(xs, DiskStamp, WindowOf(res)), Filter(ys, DiskStamp, WindowOf(res)));
  }

  /** ... and a single row contributes its bytes exactly when it lies in the
      window and carries the process marker, and nothing otherwise. */
  lemma DiskBytesOfRow(res: RaplResult, row: DiskRow)
    ensures DiskBytes(res, [row]) ==
      if InWindow(WindowOf(res), row.t) && ContainsText(row.tag, ProcessMarker) then row.bytes else 0
  {
    var w := WindowOf(res);
    var kept := Filter([row], DiskStamp, w);
    assert [row] != [] && [row][0] == row && [row][1..] == [];
    assert kept == (if InWindow(w, DiskStamp(row)) then [row] else []) + Filter([], DiskStamp, w);
    if InWindow(WindowOf(res), row.t) {
      assert kept == [row];
      assert MarkedBytes(kept) == (if IsProcessRow(row) then row.bytes else 0) + MarkedBytes([]);
    } else {
      assert kept == [];
    }
  }

  lemma {:induction false} MarkedBytesNonNegative(rows: seq<DiskRow>)
    requires forall i :: 0 <= i < |rows| ==> rows[i].bytes >= 0
    ensures MarkedBytes(rows) >= 0
  {
    if rows != [] {
      MarkedBytesNonNegative(rows[1..]);
    }
  }

  /** With non-negative byte counts the byte total is non-negative. */
  lemma DiskBytesNonNegative(res: RaplResult, rows: seq<DiskRow>)
    requires forall i :: 0 <= i < |rows| ==> rows[i].bytes >= 0
    ensures DiskBytes(res, rows) >= 0
  {
    var kept := Filter(rows, DiskStamp, WindowOf(res));
    forall k | 0 <= k < |kept| ensures kept[k].bytes >= 0 {
      FilterMembership(rows, DiskStamp, WindowOf(res), kept[k]);
    }
    MarkedBytesNonNegative(kept);
  }

  /** Seconds the disk spent transferring the process's bytes. */
  function ActiveTime(p: DiskParams, res: RaplResult, rows: seq<DiskRow>): real
    requires p.avgSpeed != 0.0
  {
    DiskBytes(res, rows) as real / p.avgSpeed
  }

  /** The rest of the window; not clamped, so negative whenever the active
      time exceeds the window. */
  function IdleTime(p: DiskParams, res: RaplResult, rows: seq<DiskRow>): (idle: real)
    requires p.avgSpeed != 0.0
    ensures idle + ActiveTime(p, res, rows) == DurationSeconds(res)
    ensures idle < 0.0 <==> ActiveTime(p, res, rows) > DurationSeconds(res)
  {
    DurationSeconds(res) - ActiveTime(p, res, rows)
  }

  /** get_total_jules_disk: active time at active power plus idle time at
      idle power. Equivalently, the whole window at idle power plus the active
      time at the difference of the two powers. */
  function DiskEnergy(p: DiskParams, res: RaplResult, rows: seq<DiskRow>): (e: real)
    requires p.avgSpeed != 0.0
    ensures e == DurationSeconds(res) * p.idlePower + ActiveTime(p, res, rows) * (p.activePower - p.idlePower)
  {
    ActiveTime(p, res, rows) * p.activePower + IdleTime(p, res, rows) * p.idlePower
  }

  /** With no process traffic in the window the disk is charged idle power
      for the whole window. */
  lemma NoTrafficIsIdle(p: DiskParams, res: RaplResult, rows: seq<DiskRow>)
    requires p.avgSpeed != 0.0
    requires forall i :: 0 <= i < |rows| && InWindow(WindowOf(res), rows[i].t) ==> !IsProcessRow(rows[i])
    ensures DiskBytes(res, rows) == 0
    ensures DiskEnergy(p, res, rows) == DurationSeconds(res) * p.idlePower
  {
    var kept := Filter(rows, DiskStamp, WindowOf(res));
    forall k | 0 <= k < |kept| ensures !IsProcessRow(kept[k]) {
      FilterMembership(rows, DiskStamp, WindowOf(res), kept[k]);
    }
    NoMarkedRows(kept);
  }

  lemma {:induction false} NoMarkedRows(rows: seq<DiskRow>)
    requires forall i :: 0 <= i < |rows| ==> !IsProcessRow(rows[i])
    ensures MarkedBytes(rows) == 0
  {
    if rows != [] {
      NoMarkedRows(rows[1..]);
    }
  }

  /** When the active power is at least the idle power, more process bytes in
      the window never yield less energy. */
  lemma EnergyMonotone(p: DiskParams, res: RaplResult, rows1: seq<DiskRow>, rows2: seq<DiskRow>)
    requires p.avgSpeed > 0.0 && p.activePower >= p.idlePower
    requires DiskBytes(res, rows1) <= DiskBytes(res, rows2)
    ensures DiskEnergy(p, res, rows1) <= DiskEnergy(p, res, rows2)
  {
    var a1, a2 := ActiveTime(p, res, rows1), ActiveTime(p, res, rows2);
    var d := (DiskBytes(res, rows2) - DiskBytes(res, rows1)) as real;
    assert a2 - a1 == d / p.avgSpeed;
    DivNonNegative(d, p.avgSpeed);
    MulNonNegative(a2 - a1, p.activePower - p.idlePower);
  }

  /** A ten-second window with two process transfers of 500 MB and 300 MB,
      at 200 MB/s, 6 W active and 1 W idle: 4 s active, 6 s idle, 30 J. */
  lemma TwoTransfersExample()
    ensures var res := RaplResult(0.0, 10000000.0, [], []);
            var rows := [DiskRow(1.0, "python", 500000000), DiskRow(2.0, "python", 300000000)];
            var p := DiskParams(200000000.0, 6.0, 1.0);
            && ActiveTime(p, res, rows) == 4.0
            && IdleTime(p, res, rows) == 6.0
            && DiskEnergy(p, res, rows) == 30.0
  {
    var res := RaplResult(0.0, 10000000.0, [], []);
    var r1, r2 := DiskRow(1.0, "python", 500000000), DiskRow(2.0, "python", 300000000);
    assert ContainsText("python", ProcessMarker);
    DiskBytesOfRow(res, r1);
    DiskBytesOfRow(res, r2);
    DiskBytesAppend(res, [r1], [r2]);
    assert [r1] + [r2] == [r1, r2];
  }

  /** The idle time is not clamped: the same transfers at 50 MB/s take 16 s
      of a 10 s window, the idle time is -6 s and the estimate is
      16·6 + (-6)·1 = 90 J rather than the 96 J a clamp to zero would give. */
  lemma IdleTimeCanBeNegative()
    ensures var res := RaplResult(0.0, 10000000.0, [], []);
            var rows := [DiskRow(1.0, "python", 500000000), DiskRow(2.0, "python", 300000000)];
            var p := DiskParams(50000000.0, 6.0, 1.0);
            && ActiveTime(p, res, rows) == 16.0
            && IdleTime(p, res, rows) == -6.0
            && DiskEnergy(p, res, rows) == 90.0
  {
    var res := RaplResult(0.0, 10000000.0, [], []);
    var r1, r2 := DiskRow(1.0, "python", 500000000), DiskRow(2.0, "python", 300000000);
    assert ContainsText("python", ProcessMarker);
    DiskBytesOfRow(res, r1);
    DiskBytesOfRow(res, r2);
    DiskBytesAppend(res, [r1], [r2]);
    assert [r1] + [r2] == [r1, r2];
  }
}
