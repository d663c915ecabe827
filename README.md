# EnergyMeter, modelled in Dafny

`energy_meter.py` measures the energy a span of Python code uses and splits
it over four components:

- **CPU and DRAM**: read from Intel RAPL through pyRAPL. The closed
  measurement holds per-socket energy deltas in micro-joules, and the meter
  scales them to joules element by element.
- **GPU**: a power log sampled by an external script. The meter keeps the
  samples stamped inside the measurement window `[start, start + duration)`,
  averages their power and multiplies by the duration in seconds. When no
  sample falls in the window the mean is undefined, and the per-component
  report uses 0 instead.
- **Disk**: a block-I/O log written by a bpftrace probe. The meter sums the
  byte counts of the rows that are in the window and whose tag contains
  `python`. Active time is that sum divided by the configured disk speed.
  Idle time is the duration minus the active time. Energy is
  `active · P_active + idle · P_idle`.

The report maps `cpu`, `dram`, `gpu` and `disk` to their estimates. The plot
adds `total = sum(cpu) + sum(dram) + disk + gpu`.

The model uses exact `real` arithmetic and sequences of parsed rows in place
of floats and DataFrames. Modules:

- `Windowing` (windowing.dfy): the half-open window and the row filter that
  both logs use.
- `Rapl` (rapl.dfy): the injected pyRAPL result, the window it defines, and
  the micro-joule to joule scaling.
- `Reals` (reals.dfy): sum and mean.
- `Gpu` (gpu.dfy): the power-integral estimate.
- `Disk` (disk.dfy): the active/idle disk model.
- `Components` (components.dfy): the report and its total.
- `Meter` (meter.dfy): the `EnergyMeter` class.
- `Wrappers` (wrappers.dfy): Option, Result and Outcome.

`EnergyMeter` is a class. Its disk constants and label are `const` fields,
fixed by the constructor. `meter` is the one mutable field: `None` after
construction, replaced by `Begin`, closed by `End`. An estimate read from a
meter that was never begun, or begun but not ended, is an error. In Python
it raises `AttributeError`; here it is `Failure(NotBegun)` or
`Failure(NotEnded)`.

Behaviour of the code that the model keeps as it is:

- The code does not clamp a negative idle time. `Disk.IdleTimeCanBeNegative`
  shows a 10 s window with 16 s of transfers: the idle time is -6 s and the
  estimate is 90 J.
- `begin` has no guard against a measurement that is already open. A second
  `Begin` silently replaces the measurement, and `Meter.SessionLifecycle`
  shows this.
- `end` without `begin` fails, here as `Fail(NotBegun)`.
- Disk rows are selected by a substring match on the tag column. The code
  reads the byte count from a column named `Operation` and the tag from a
  column named `ByteSize`, because the header is misread. Here these are the
  fields `bytes` and `tag`.
- An empty GPU window and a GPU drawing 0 W both report 0 in the
  per-component report. The GPU estimate itself is an `Option`: undefined,
  or a value.

## Model

| member | source | states |
|---|---|---|
| `Windowing.Filter` | energy_meter.py:103 | the pandas mask `start <= t < end` over a log, keeping row order; what it keeps is stated by the lemmas below |
| `Windowing.FilterIsSubsequence` | energy_meter.py:103 | every kept row lies in `[start, end)`, and the kept rows are an order-preserving subsequence of the log |
| `Windowing.FilterCount` | energy_meter.py:103 | each row value occurs in the output as often as in the input when its timestamp is in the window, and never otherwise |
| `Windowing.FilterMembership` | energy_meter.py:146 | a row is kept if and only if it is in the log and `start <= t < end` |
| `Windowing.Boundaries` | energy_meter.py:103 | a row stamped exactly at the start is kept (non-empty window); a row stamped exactly at the end is dropped |
| `Windowing.FilterEmpty` | energy_meter.py:146 | the filter yields nothing exactly when no row is stamped in the window |
| `Windowing.FilterAppend` | energy_meter.py:103 | filtering a concatenated log is concatenating the filtered parts |
| `Windowing.FilterIdempotent` | energy_meter.py:103 | filtering an already filtered log changes nothing |
| `Rapl.DurationSeconds` | energy_meter.py:101-102 | the measurement's duration in µs times 1e-6, the seconds used for the window end, the idle time (line 111) and the GPU estimate (line 147) |
| `Rapl.WindowOf` | energy_meter.py:100-102 | the window starts at the result's timestamp; its length times 1e6 is the duration in µs; it is non-empty exactly when the duration is positive |
| `Rapl.ToJoules` | energy_meter.py:121 | the joule readings have the counters' length and order, each reading scaled by 1e-6, with no reduction |
| `Rapl.SumToJoules` | energy_meter.py:121 | summing the joule readings equals scaling the summed micro-joules |
| `Reals.Sum` | energy_meter.py:174 | `np.sum` over a column; its behaviour under scaling is `Rapl.SumToJoules` |
| `Reals.Mean` | energy_meter.py:146 | the mean is defined exactly for a non-empty column, and mean × count = sum |
| `Reals.MeanBounds` | energy_meter.py:146 | the mean of values in `[lo, hi]` lies in `[lo, hi]` |
| `Reals.MeanConstant` | energy_meter.py:146 | the mean of a column of identical values is that value |
| `Gpu.WindowedGpu` | energy_meter.py:146 | the GPU rows inside the measurement's window; `Gpu.WindowedGpuRows` states what it keeps |
| `Gpu.Powers` | energy_meter.py:146 | the `power_usage(W)` column: one value per row, in order, each the row's power |
| `Gpu.GpuEnergy` | energy_meter.py:141-147 | the estimate is undefined exactly when no power sample lies in the window; otherwise estimate × sample count = summed windowed power × duration in seconds |
| `Gpu.WindowedGpuRows` | energy_meter.py:146 | every sample used is a row of the log and lies in the window |
| `Gpu.ConstantPower` | energy_meter.py:135-136 | under a constant draw of P watts in the window, the estimate is P × duration |
| `Gpu.EnergyBounds` | energy_meter.py:146-147 | with windowed powers in `[lo, hi]` and a non-negative duration, the estimate lies in `[lo × duration, hi × duration]` |
| `Disk.ContainsText` | energy_meter.py:105 | the `str.contains("python")` test on a tag; `Disk.ContainsTextSpec` characterises it |
| `Disk.MarkedBytes` | energy_meter.py:105 | the `Operation` sum over rows whose tag contains the marker; `Disk.MarkedBytesAppend` states its additivity |
| `Disk.DiskBytes` | energy_meter.py:103-105 | the process bytes inside the window; `Disk.DiskBytesOfRow` and `Disk.DiskBytesAppend` fix it row by row |
| `Disk.ActiveTime` | energy_meter.py:108 | the process bytes divided by the disk speed; its relation to the window is `Disk.IdleTime` |
| `Disk.ContainsTextSpec` | energy_meter.py:105 | the tag test holds exactly when the marker occurs at some position of the tag |
| `Disk.MarkedBytesAppend` | energy_meter.py:105 | the byte sum over marked rows is additive over a split of the rows |
| `Disk.DiskBytesAppend` | energy_meter.py:103-105 | the windowed byte total is additive over a split of the log |
| `Disk.DiskBytesOfRow` | energy_meter.py:103-105 | one row adds its bytes exactly when it is in the window and its tag contains `python`, and adds 0 otherwise |
| `Disk.DiskBytesNonNegative` | energy_meter.py:105 | with non-negative byte counts the byte total is non-negative |
| `Disk.IdleTime` | energy_meter.py:110-111 | idle + active = duration in seconds; idle is negative exactly when active exceeds the duration, with no clamp |
| `Disk.DiskEnergy` | energy_meter.py:107-114 | energy = duration × P_idle + active time × (P_active − P_idle) |
| `Disk.NoTrafficIsIdle` | energy_meter.py:39-43 | with no marked row in the window, the byte total is 0 and the energy is duration × P_idle |
| `Disk.EnergyMonotone` | energy_meter.py:113-114 | when P_active ≥ P_idle and the speed is positive, more windowed process bytes never give less energy |
| `Disk.TwoTransfersExample` | energy_meter.py:107-114 | 500 MB + 300 MB in a 10 s window at 200 MB/s, 6 W and 1 W: 4 s active, 6 s idle, 30 J |
| `Disk.IdleTimeCanBeNegative` | energy_meter.py:110-111 | the same transfers at 50 MB/s: active 16 s, idle −6 s, energy 90 J |
| `Components.Reduce` | energy_meter.py:174 | `np.sum` of one report entry: the sum of a per-socket array, or the number itself |
| `Components.PerComponent` | energy_meter.py:155-166 | the report has exactly the keys cpu, dram, gpu and disk; each is its estimator's value unchanged, and an undefined GPU estimate becomes 0 |
| `Components.WithTotal` | energy_meter.py:174 | adds only `total`, leaves the other entries unchanged, and `total` = sum(cpu) + sum(dram) + disk + gpu |
| `Components.TotalOfSession` | energy_meter.py:174 | a session's total = (Σ pkg + Σ dram) × 1e-6 + disk estimate + (GPU estimate or 0) |
| `Meter.EnergyMeter.constructor` | energy_meter.py:47-70 | stores the three disk constants; the label is the given one unless missing or empty, else `"Meter"`; no measurement |
| `Meter.EnergyMeter.Begin` | energy_meter.py:72-78 | replaces the measurement with a fresh one without a result, whatever was there before |
| `Meter.EnergyMeter.End` | energy_meter.py:80-86 | fails with `NotBegun` and changes nothing when no measurement exists; otherwise gives the measurement the snapshot as its result |
| `Meter.EnergyMeter.Closed` | energy_meter.py:100 | the result is available exactly when a measurement was begun and ended, else `NotBegun` or `NotEnded` |
| `Meter.EnergyMeter.TotalJoulesCpu` | energy_meter.py:116-121 | succeeds exactly on a closed measurement and then returns its package counters in joules |
| `Meter.EnergyMeter.TotalJoulesDram` | energy_meter.py:124-129 | succeeds exactly on a closed measurement and then returns its DRAM counters in joules |
| `Meter.EnergyMeter.TotalJoulesGpu` | energy_meter.py:132-147 | succeeds exactly on a closed measurement and then returns the GPU estimate for its window |
| `Meter.EnergyMeter.TotalJoulesDisk` | energy_meter.py:88-114 | succeeds exactly on a closed measurement and then returns the disk estimate with the meter's own constants |
| `Meter.EnergyMeter.TotalJoulesPerComponent` | energy_meter.py:149-166 | succeeds exactly on a closed measurement; exactly four keys, each the matching getter's value, GPU 0 when undefined |
| `Meter.EnergyMeter.PlotTotalJoulesPerComponent` | energy_meter.py:168-174 | the data handed to the plot is the report plus `total`, which equals the summed counters in joules plus disk plus GPU-or-0; the `float()` conversion of line 176 is not modelled |
| `Meter.SessionLifecycle` | energy_meter.py:66-86 | a client run: estimates fail before `Begin` and between `Begin` and `End`, succeed after `End`, and a second `Begin` discards the closed measurement with no guard |

## Left out

- `pyRAPL.setup()` and the work inside pyRAPL's `Measurement.begin` and `end`: the clock and the RAPL register reads. `End` takes the finished result (timestamp, duration in µs, per-socket pkg and dram deltas) as a parameter.
- Reading the CSV files. This covers `pd.read_csv` with `skiprows` and separators, `pd.to_datetime`, `datetime.fromtimestamp` with its local time zone and microsecond rounding, and the missing-file errors. The estimators take the parsed rows, with timestamps as real seconds on the same clock as the measurement's timestamp. The `filename` and `foldername` parameters therefore have no counterpart.
- IEEE floating point: the model uses exact reals. NaN appears only as the undefined mean of an empty window (`None`). NaN cells inside the power or tag columns are not modelled.
- Disk.ContainsText: plain substring search. pandas treats the pattern as a regular expression, and `python` contains no metacharacters, so the two agree for this marker.
- Meter.EnergyMeter.TotalJoulesDisk: requires a non-zero disk speed. With speed 0 the source divides by zero: Python raises or numpy returns inf/nan, depending on the operand types. This is not modelled. `Disk.DiskEnergy`, `Components.PerComponent`, `Meter.EnergyMeter.TotalJoulesPerComponent` and `Meter.EnergyMeter.PlotTotalJoulesPerComponent` carry the same requirement.
- The `label` argument may be any truthy Python object. Here it is `Option<string>`, and `Some("")` counts as missing, as the empty string is falsy.
- The matplotlib rendering (energy_meter.py:175-183) and its title. `PlotTotalJoulesPerComponent` returns the data it would draw.
- Meter.EnergyMeter.PlotTotalJoulesPerComponent: succeeds on every closed measurement. Line 176 converts each value with `float()`, which raises TypeError when `pkg` or `dram` does not hold exactly one reading, so the source then draws nothing; `PlotTotalJoulesPerComponent` returns the data in that case as well.
- The sampling scripts that produce the logs (`start_meters.sh`, the bpftrace probe, the nvidia-smi sampler) are not part of this model.
