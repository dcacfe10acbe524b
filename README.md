# Radiation alert block

A model of `RadiationAlertSystem` in `radiacao.py`: a synchronous monitoring
block that, on every radiation reading, updates a saturating running dose, a
three-tier alert mode (safe, moderate, critical), a protection flag, an
exposure counter, and an alert that trips on long exposure or high dose. On
every trip it records the reading and its tier in two parallel fixed-size
event logs that share a circular cursor.

The model has three layers:

- `AlertRules` (`alert_rules.dfy`): the per-tick rule as pure functions —
  the clamp, the classifier, the protection and exposure updates, the trip
  condition — and `Step`, one whole tick on a `State` value.
- `AlertSystem` (`alert_system.dfy`): the block as a class. Its signals are
  fields and its two logs are arrays written in place. `Tick` runs the four
  blocks of `check_radiation` in order and is proved to produce exactly
  `Step` of the old state.
- `AlertRuns` (`alert_runs.dfy`): what any sequence of ticks does. The dose
  is the clamped total. The exposure counter counts the trailing readings
  above the limit. Protection is decided by the last non-moderate reading.
  The logs hold the most recent trips in ring order.

`AlertScenario` replays the test bench's readings. `AlertFindings` models the
pre-tick-read variant described under Findings.

Choices the source leaves open:

- **Step order.** Each step uses the value the step before it has just
  computed. The exposure test sees the new alert mode. The trip test sees the
  new exposure count and the new dose. This follows the order of the code and
  its doc comment. A simulator's read-before-commit behaviour is modelled
  separately as `AlertFindings.StepAsWritten`.
- **Moderate readings.** The moderate branch leaves `protection_mode`
  unassigned (radiacao.py:33-34), so it keeps its value from the tick before.
- **Exposure counter width.** `exposure_time + 1` is unguarded in the source
  (radiacao.py:40) on a 4-bit signal (radiacao.py:60). The model clamps it at
  `bound - 1` with the same rule as the dose. A precondition was not an
  option: a long run of unsafe readings does reach 15, because a trip does not
  reset the counter.
- **Widths.** The `.max` bounds of the dose and exposure signals are
  configuration (`Config`). `DefaultConfig` is the test bench's sizing of the
  signals: limit 100, a 16-bit dose and a 4-bit counter. `DefaultLogCapacity`
  is the bench's ten log slots.
- **What the logs hold.** The doc comment speaks of logging critical
  levels (radiacao.py:13), but a trip logs the reading and its tier whatever
  the tier is, safe and moderate included (radiacao.py:44-47). The bench's
  first log entry is (90, safe).
- **Bench scenario.** With sequential reads, 150 is moderate (150 is not
  above 100 + 50), and the first trip is at the fourth reading, when the dose
  reaches 360 (`AlertScenario.BenchScenario`).

## Model

| member | source | states |
|---|---|---|
| `AlertRules.Saturate` | radiacao.py:24-28 | the new dose is below the field's bound, never above the true sum, and equals the sum unless it was clamped to bound − 1 |
| `AlertRules.Classify` | radiacao.py:18-36 | critical iff the reading is above limit + 50; moderate iff above limit and at most limit + 50; safe iff at most limit; so exactly one tier applies |
| `AlertRules.NextProtection` | radiacao.py:30-37 | a critical reading turns protection on, a safe one turns it off, a moderate one leaves it as it was |
| `AlertRules.NextExposure` | radiacao.py:39-42 | a safe tick resets the counter to 0; any other tick adds one, or holds at bound − 1 when the counter is full; the counter stays inside its width |
| `AlertRules.NextSlot` | radiacao.py:48 | the next cursor position stays inside the ring; it is the following slot, or slot 0 after the last |
| `AlertRules.NextSlotIsMod` | radiacao.py:48 | the cursor advance used by the model is the source's `(log_index + 1) % len` |
| `AlertRules.Initial` | radiacao.py:56-65 | the bench's start state: every signal zero, safe, off, with equal-length zeroed logs and the cursor at 0 |
| `AlertRules.Step` | radiacao.py:21-50 | one tick keeps every width, the shared non-zero log length and the cursor range |
| `AlertRules.StepBehaviour` | radiacao.py:24-50 | one tick: the dose grows by the reading, or clamps, and never decreases; the tier depends on this reading alone; critical means protection on, safe means protection off with the counter at 0; the alert is recomputed each tick and holds iff the new count ≥ 3 or the new dose ≥ 300; a trip writes both logs at the cursor and advances it; no trip leaves logs and cursor unchanged |
| `AlertSystem.RadiationAlertSystem.constructor` | radiacao.py:56-65 | a new block is valid, owns two fresh arrays of the given length, and is in the initial state |
| `AlertSystem.RadiationAlertSystem.Tick` | radiacao.py:21-50 | after a tick the object's fields and arrays equal `Step` of its old state; the block stays valid |
| `AlertSystem.RadiationAlertSystem.AccumulateDose` | radiacao.py:23-28 | the dose field becomes the clamped sum of the old dose and the reading |
| `AlertSystem.RadiationAlertSystem.ClassifyReading` | radiacao.py:30-37 | the mode field becomes the reading's tier; protection is updated only by the critical and safe branches |
| `AlertSystem.RadiationAlertSystem.CountExposure` | radiacao.py:39-42 | the counter field is incremented with the clamp, or reset on a safe mode |
| `AlertSystem.RadiationAlertSystem.CheckTrip` | radiacao.py:44-50 | the alert field is the trip condition; on a trip the two arrays change exactly at the old cursor and the cursor moves to the next slot; otherwise arrays and cursor are unchanged |
| `AlertRuns.Run` | radiacao.py:21-50 | any sequence of ticks keeps the invariant and never lowers the dose |
| `AlertRuns.Logged` | radiacao.py:44-48 | a run writes at most one log entry per reading |
| `AlertRuns.TrailingUnsafe` | radiacao.py:39-42 | the count of trailing readings above the limit: all of them are above it, and the one before them is not |
| `AlertRuns.RunAccumulated` | radiacao.py:24-28 | after any run the dose is the start dose plus the sum of all readings, clamped once to bound − 1; it never wraps |
| `AlertRuns.RunExposure` | radiacao.py:39-42 | after any run the counter is the number of trailing readings above the limit (added to the start count when every reading was above it), clamped to the counter's width |
| `AlertRuns.RunProtection` | radiacao.py:30-37 | after any run protection is on iff the last reading that was not moderate was critical, or every reading was moderate and it was on at the start |
| `AlertRuns.StepLogSlot` | radiacao.py:44-48 | a tick overwrites only the slot at the cursor, and only on a trip; every other slot keeps its contents |
| `AlertRuns.RunLogIndex` | radiacao.py:19-48 | after any run the cursor has advanced once per logged trip around the ring |
| `AlertRuns.LogHoldsRecentTrips` | radiacao.py:44-48 | each of the last `capacity` logged trips sits in the slot the cursor held when it was logged, with its reading in one log and its tier in the other |
| `AlertRuns.LogKeepsUnwrittenSlots` | radiacao.py:44-48 | slots the cursor has not reached since the start of a run keep their old contents |
| `AlertRuns.LogWrapsAround` | radiacao.py:19-48 | from the initial state, after capacity + k trips (k < capacity) the cursor is at k |
| `AlertRuns.RunTrips` | radiacao.py:17-44 | from the initial state the alert is up after a run iff the last three readings were all above the limit (when the counter can hold 3) or the readings sum to at least 300 (when the dose can hold 300) |
| `AlertRuns.DoseTripPersists` | radiacao.py:24-47 | once the dose has reached 300 the alert never clears: every later tick trips and logs its reading, one entry per reading in order |
| `AlertRuns.AdvanceDistinct` | radiacao.py:48 | trips fewer than `capacity` apart use different slots |
| `AlertScenario.BenchScenario` | radiacao.py:74 | on the bench readings 45, 75, 150, 90: safe, safe, moderate, safe, with doses 45, 120, 270, 360; the alert first trips at the fourth reading, logging (90, safe) in slot 0; a fifth reading 200 is critical, turns protection on and is logged in slot 1 |
| `AlertScenario.BenchRun` | radiacao.py:74 | the first four bench readings log exactly one entry, (90, safe) |
| `AlertFindings.StepAsWritten` | radiacao.py:39-47 | with pre-tick reads, dose and tier are as in `Step`, but the counter is updated by the previous tick's tier, the alert is decided by the previous tick's count and dose, and a trip logs the previous tick's tier |
| `AlertFindings.ReadsLagOneTick` | radiacao.py:39-47 | with pre-tick reads, a reading that takes the dose from 250 to 310 does not raise the alert, and a first moderate reading is not counted; `Step` raises the alert and counts the tick |

## Left out

- The test bench `test_radiation_alert` (radiacao.py:54-98): its stimulus loop, `delay(10)` timing and console messages are a driver and I/O. Only its signal widths, log size and readings are used, as `DefaultConfig`, `Initial` and `AlertScenario`.
- Simulation plumbing: `Simulation`, `traceSignals` waveform tracing, `StopSimulation`, `@block`, `@instance` (radiacao.py:1, 100-104) are foreign library calls.
- `@always_comb` re-evaluation, delta cycles and sensitivity inference (radiacao.py:21). The model makes one discrete tick per reading. MyHDL's `@always_comb` refuses, at elaboration, a process that both reads and drives the same signal; `check_radiation` does that with `accumulated_radiation`, `alert_mode`, `exposure_time` and `log_index` (radiacao.py:24-48). The model does not reproduce that refusal: `Step` gives the process the meaning its step order describes, and `AlertFindings.StepAsWritten` is one evaluation per reading in which every read of a driven signal sees its value from before the tick. Neither models the further evaluations such a process would trigger on its own outputs.
- `limit` as a changing signal. In the source `limit` is a port signal (radiacao.py:4, 57); the model fixes it in `Config`. If it changed during a run, radiacao.py:33 would see the new value while `critical_limit` (radiacao.py:18) kept the value computed at elaboration. That divergence is not modelled: the critical test in `Classify` is always against `limit` + 50.
- MyHDL `intbv` range errors. The widths of the dose and counter are explicit bounds with clamping. The reading's width and the log entries' widths are not bounded: a log slot receives the reading itself.
- The event-log signals are caller-supplied lists in the source. In the model they are arrays the block allocates, so aliasing between the two lists or with other signals is not modelled.
- `AlertRules.NextExposure`: states a clamp at bound − 1 where the source's 4-bit signal would raise a range error on overflow. The source does not define that case.

## Findings

| source | as written | input that shows it | evidently intended | confidence | as-written member | corrected member |
|---|---|---|---|---|---|---|
| radiacao.py:39-47 | inside the process, reading `alert_mode`, `exposure_time` and `accumulated_radiation` gives their values from before this tick's `.next` assignments, so the counter and the trip test lag one tick and the log records the previous tier | a state with dose 250 and reading 60: the new dose is 310 but the alert stays off; from a safe state, a reading of 120 (moderate) leaves the counter at 0 | each test sees the value computed earlier in the same tick, as the step order and the doc comment describe | medium, not executed | `AlertFindings.ReadsLagOneTick` | `AlertRules.StepBehaviour` |
