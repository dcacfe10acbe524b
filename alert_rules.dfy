/** The per-tick update rule of the radiation alert block, as pure functions.
 *
 *  Reading of the source's step order: each step uses the value the previous
 *  step has just computed (the exposure test sees the new alert mode, the trip
 *  test sees the new exposure time and the new accumulated dose). A hardware
 *  simulator would instead let every test see the values from before the tick;
 *  this model follows the sequential reading of the code and its doc comment.
 */
module AlertRules {

  /** Ticks above the safe limit after which the alert trips (radiacao.py:17). */
  const MaxExposureTime: nat := 3
  /** Accumulated dose at which the alert trips (radiacao.py:44). */
  const AccumulatedTripThreshold: nat := 300
  /** Distance between the safe limit and the critical limit (radiacao.py:18). */
  const CriticalMargin: nat := 50

  /** The three alert tiers; the source encodes them as 0, 1 and 2. */
  datatype AlertMode = Safe | Moderate | Critical

  /** The fixed parameters of one block: the safe limit and the exclusive
   *  upper bounds (`.max`) of the accumulator and exposure-counter signals. */
  datatype Config = Config(limit: nat, accumulatedBound: nat, exposureBound: nat)
  {
    predicate Valid() {
      accumulatedBound > 0 && exposureBound > 0
    }
  }

  /** The sizing of the source's test bench: limit 100, a 16-bit accumulator
   *  and a 4-bit exposure counter (radiacao.py:57, 60, 61). */
  const DefaultConfig: Config := Config(100, 0x1_0000, 0x10)

  /** Ten slots in each event log (radiacao.py:64-65). */
  const DefaultLogCapacity: nat := 10

  /** The overflow guard: a sum that does not fit below `bound` is clamped to
   *  `bound - 1` instead of wrapping. The result is the largest representable
   *  value not above `sum`. */
  function Saturate(sum: nat, bound: nat): (r: nat)
    requires bound > 0
    ensures r < bound && r <= sum
    ensures r == sum || r == bound - 1
  {
    if sum < bound then sum else bound - 1
  }

  /** Three-way classification of one reading; exactly one tier applies. */
  function Classify(level: nat, limit: nat): (m: AlertMode)
    ensures m == Critical <==> level > limit + CriticalMargin
    ensures m == Moderate <==> limit < level <= limit + CriticalMargin
    ensures m == Safe <==> level <= limit
  {
    if level > limit + CriticalMargin then Critical
    else if level > limit then Moderate
    else Safe
  }

  /** Protection mode after a tick classified as `mode`: switched on by a
   *  critical reading, off by a safe one, and left as it was by a moderate one,
   *  whose branch does not assign it. */
  function NextProtection(mode: AlertMode, protection: bool): (p: bool)
    ensures mode == Critical ==> p
    ensures mode == Safe ==> !p
    ensures mode == Moderate ==> p == protection
  {
    match mode
    case Critical => true
    case Moderate => protection
    case Safe => false
  }

  /** Exposure counter after a tick classified as `mode`: reset by a safe tick,
   *  otherwise one more, held at `bound - 1` once the counter is full. */
  function NextExposure(mode: AlertMode, exposure: nat, bound: nat): (e: nat)
    requires exposure < bound
    ensures e < bound
    ensures mode == Safe ==> e == 0
    ensures mode != Safe ==> exposure <= e <= exposure + 1
    ensures mode != Safe && e == exposure ==> e == bound - 1
  {
    if mode != Safe then Saturate(exposure + 1, bound) else 0
  }

  /** The trip condition, on the freshly updated counter and dose. */
  function Trips(exposure: nat, accumulated: nat): (b: bool)
    ensures exposure >= MaxExposureTime ==> b
    ensures accumulated >= AccumulatedTripThreshold ==> b
    ensures b ==> exposure >= MaxExposureTime || accumulated >= AccumulatedTripThreshold
  {
    exposure >= MaxExposureTime || accumulated >= AccumulatedTripThreshold
  }

  /** The cursor position after `i` in a ring of `n` slots; NextSlotIsMod
   *  shows it is the source's `(i + 1) % n`. */
  function NextSlot(i: nat, n: nat): (r: nat)
    requires i < n
    ensures r < n
    ensures i + 1 < n ==> r == i + 1
    ensures i + 1 == n ==> r == 0
  {
    if i + 1 < n then i + 1 else 0
  }

  lemma NextSlotIsMod(i: nat, n: nat)
    requires i < n
    ensures NextSlot(i, n) == (i + 1) % n
  {
  }

  /** The block's whole state: the output signals, the log cursor and the two
   *  parallel event logs (readings and alert modes). */
  datatype State = State(
    accumulated: nat,
    mode: AlertMode,
    protection: bool,
    exposure: nat,
    alert: bool,
    logIndex: nat,
    radiationLog: seq<nat>,
    alertLog: seq<AlertMode>)

  /** What every reachable state satisfies: the counters fit their widths, the
   *  two logs share one non-zero length, and the cursor indexes both. */
  predicate Inv(c: Config, s: State) {
    && c.Valid()
    && s.accumulated < c.accumulatedBound
    && s.exposure < c.exposureBound
    && 0 < |s.radiationLog|
    && |s.alertLog| == |s.radiationLog|
    && s.logIndex < |s.radiationLog|
  }

  /** The state the test bench starts from: every signal and log slot zero. */
  function Initial(c: Config, capacity: nat): (s: State)
    requires c.Valid() && capacity > 0
    ensures Inv(c, s) && |s.radiationLog| == capacity
    ensures s.accumulated == 0 && s.exposure == 0 && s.logIndex == 0
    ensures s.mode == Safe && !s.protection && !s.alert
    ensures forall i :: 0 <= i < capacity ==> s.radiationLog[i] == 0 && s.alertLog[i] == Safe
  {
    State(0, Safe, false, 0, false, 0, seq(capacity, _ => 0), seq(capacity, _ => Safe))
  }

  /** One tick of `check_radiation` on the reading `level`; what it does is
   *  stated by StepBehaviour below. */
  function Step(c: Config, s: State, level: nat): (t: State)
    requires Inv(c, s)
    ensures Inv(c, t) && |t.radiationLog| == |s.radiationLog|
  {
    var accumulated := Saturate(s.accumulated + level, c.accumulatedBound);
    var mode := Classify(level, c.limit);
    var protection := NextProtection(mode, s.protection);
    var exposure := NextExposure(mode, s.exposure, c.exposureBound);
    if Trips(exposure, accumulated) then
      State(accumulated, mode, protection, exposure, true,
            NextSlot(s.logIndex, |s.radiationLog|),
            s.radiationLog[s.logIndex := level],
            s.alertLog[s.logIndex := mode])
    else
      State(accumulated, mode, protection, exposure, false,
            s.logIndex, s.radiationLog, s.alertLog)
  }

  /** Everything one tick promises, in terms of the state `s` before it. */
  lemma StepBehaviour(c: Config, s: State, level: nat)
    requires Inv(c, s)
    ensures var t := Step(c, s, level);
      // the dose never decreases, and grows by exactly `level` while that fits
      && s.accumulated <= t.accumulated
      && (s.accumulated + level < c.accumulatedBound ==> t.accumulated == s.accumulated + level)
      && (s.accumulated + level >= c.accumulatedBound ==> t.accumulated == c.accumulatedBound - 1)
      // the tier depends on this reading alone; protection follows the extreme tiers
      && t.mode == Classify(level, c.limit)
      && (t.mode == Critical ==> t.protection)
      && (t.mode == Safe ==> !t.protection && t.exposure == 0)
      && (t.mode == Moderate ==> t.protection == s.protection)
      && (t.mode != Safe ==> t.exposure == s.exposure + 1 || t.exposure == s.exposure == c.exposureBound - 1)
      // the alert is recomputed from this tick's counter and dose
      && (t.alert <==> t.exposure >= MaxExposureTime || t.accumulated >= AccumulatedTripThreshold)
      // a trip writes both logs at the cursor and advances it around the ring
      && (t.alert ==> && t.radiationLog == s.radiationLog[s.logIndex := level]
                      && t.alertLog == s.alertLog[s.logIndex := t.mode]
                      && t.logIndex == (s.logIndex + 1) % |s.radiationLog|)
      && (!t.alert ==> && t.radiationLog == s.radiationLog
                       && t.alertLog == s.alertLog
                       && t.logIndex == s.logIndex)
  {
    NextSlotIsMod(s.logIndex, |s.radiationLog|);
  }
}
