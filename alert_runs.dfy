/** What a sequence of ticks does: the dose is the clamped total of all
 *  readings, the exposure counter counts the trailing readings above the safe
 *  limit, protection remembers the last non-moderate tier, and the event logs
 *  behave as a ring holding the most recent trips. */
module AlertRuns {
  import opened AlertRules

  /** The state after feeding `levels` to the block, one tick per reading. */
  function Run(c: Config, s: State, levels: seq<nat>): (t: State)
    requires Inv(c, s)
    ensures Inv(c, t) && |t.radiationLog| == |s.radiationLog|
    ensures s.accumulated <= t.accumulated
    decreases |levels|
  {
    if levels == [] then s
    else Step(c, Run(c, s, levels[..|levels| - 1]), levels[|levels| - 1])
  }

  /** Total dose of a sequence of readings. */
  function Sum(levels: seq<nat>): nat {
    if levels == [] then 0 else Sum(levels[..|levels| - 1]) + levels[|levels| - 1]
  }

  /** One entry of the event logs: a reading and its alert tier. */
  datatype LogEntry = LogEntry(level: nat, mode: AlertMode)

  /** The entries a run writes to the logs, oldest first: one per tripping tick. */
  function Logged(c: Config, s: State, levels: seq<nat>): (e: seq<LogEntry>)
    requires Inv(c, s)
    ensures |e| <= |levels|
    decreases |levels|
  {
    if levels == [] then []
    else
      var prefix := levels[..|levels| - 1];
      var last := levels[|levels| - 1];
      var t := Step(c, Run(c, s, prefix), last);
      Logged(c, s, prefix) + (if t.alert then [LogEntry(last, t.mode)] else [])
  }

  /** The number of readings at the end of `levels` that are above `limit`. */
  function TrailingUnsafe(levels: seq<nat>, limit: nat): (n: nat)
    ensures n <= |levels|
    ensures forall j :: |levels| - n <= j < |levels| ==> levels[j] > limit
    ensures n < |levels| ==> levels[|levels| - 1 - n] <= limit
    decreases |levels|
  {
    if levels == [] then 0
    else if levels[|levels| - 1] > limit then TrailingUnsafe(levels[..|levels| - 1], limit) + 1
    else 0
  }

  /** Every reading after position `i` is moderate. */
  ghost predicate OnlyModerateAfter(c: Config, levels: seq<nat>, i: int) {
    forall j :: 0 <= j < |levels| && i < j ==> Classify(levels[j], c.limit) == Moderate
  }

  /** Clamping twice is clamping once: saturating sums of non-negative
   *  readings compose. */
  lemma SaturateCompose(x: nat, y: nat, bound: nat)
    requires bound > 0
    ensures Saturate(Saturate(x, bound) + y, bound) == Saturate(x + y, bound)
  {
  }

  /** The accumulator after a run is the start dose plus every reading, clamped
   *  once: saturation never loses dose except at the top, and never wraps. */
  lemma {:induction false} RunAccumulated(c: Config, s: State, levels: seq<nat>)
    requires Inv(c, s)
    ensures Run(c, s, levels).accumulated == Saturate(s.accumulated + Sum(levels), c.accumulatedBound)
    decreases |levels|
  {
    if levels != [] {
      var prefix := levels[..|levels| - 1];
      RunAccumulated(c, s, prefix);
      SaturateCompose(s.accumulated + Sum(prefix), levels[|levels| - 1], c.accumulatedBound);
    }
  }

  /** The exposure counter after a run counts the trailing readings above the
   *  safe limit (continuing the start count when every reading was), clamped
   *  to the counter's width. */
  lemma {:induction false} RunExposure(c: Config, s: State, levels: seq<nat>)
    requires Inv(c, s)
    ensures var n := TrailingUnsafe(levels, c.limit);
            Run(c, s, levels).exposure ==
              if n == |levels| then Saturate(s.exposure + n, c.exposureBound)
              else Saturate(n, c.exposureBound)
    decreases |levels|
  {
    if levels != [] {
      var prefix := levels[..|levels| - 1];
      RunExposure(c, s, prefix);
      var n' := TrailingUnsafe(prefix, c.limit);
      if levels[|levels| - 1] > c.limit {
        if n' == |prefix| {
          SaturateCompose(s.exposure + n', 1, c.exposureBound);
        } else {
          SaturateCompose(n', 1, c.exposureBound);
        }
      }
    }
  }

  /** The protection flag a run of `levels` should end with when it starts
   *  with `start`: on exactly when the last reading that was not moderate was
   *  critical, or, when every reading was moderate, as it was at the start. */
  ghost predicate ProtectedAfter(c: Config, levels: seq<nat>, start: bool) {
    || (exists i :: 0 <= i < |levels| && Classify(levels[i], c.limit) == Critical
                                       && OnlyModerateAfter(c, levels, i))
    || (start && OnlyModerateAfter(c, levels, -1))
  }

  /** A safe last reading leaves nothing to protect against. */
  lemma ProtectedAfterSafe(c: Config, levels: seq<nat>, start: bool)
    requires levels != [] && Classify(levels[|levels| - 1], c.limit) == Safe
    ensures !ProtectedAfter(c, levels, start)
  {
    var k := |levels| - 1;
    forall i | -1 <= i < |levels|
      ensures !(OnlyModerateAfter(c, levels, i) && (i >= 0 ==> Classify(levels[i], c.limit) == Critical))
    {
      if i < k {
        assert Classify(levels[k], c.limit) != Moderate;
      }
    }
  }

  /** A moderate last reading changes nothing. */
  lemma ProtectedAfterModerate(c: Config, levels: seq<nat>, start: bool)
    requires levels != [] && Classify(levels[|levels| - 1], c.limit) == Moderate
    ensures ProtectedAfter(c, levels, start) == ProtectedAfter(c, levels[..|levels| - 1], start)
  {
    var k := |levels| - 1;
    var prefix := levels[..k];
    forall i | -1 <= i < k
      ensures OnlyModerateAfter(c, levels, i) <==> OnlyModerateAfter(c, prefix, i)
    {
      if OnlyModerateAfter(c, prefix, i) {
        forall j | 0 <= j < |levels| && i < j
          ensures Classify(levels[j], c.limit) == Moderate
        {
          if j < k { assert levels[j] == prefix[j]; }
        }
      } else {
        var j :| 0 <= j < |prefix| && i < j && Classify(prefix[j], c.limit) != Moderate;
        assert levels[j] == prefix[j];
      }
    }
    if exists i :: 0 <= i < |levels| && Classify(levels[i], c.limit) == Critical
                                      && OnlyModerateAfter(c, levels, i)
    {
      var i :| 0 <= i < |levels| && Classify(levels[i], c.limit) == Critical
                                  && OnlyModerateAfter(c, levels, i);
      assert i < k && prefix[i] == levels[i];
    }
    if exists i :: 0 <= i < |prefix| && Classify(prefix[i], c.limit) == Critical
                                      && OnlyModerateAfter(c, prefix, i)
    {
      var i :| 0 <= i < |prefix| && Classify(prefix[i], c.limit) == Critical
                                  && OnlyModerateAfter(c, prefix, i);
      assert levels[i] == prefix[i];
    }
  }

  /** Protection after a run is decided by the last non-moderate reading. */
  lemma {:induction false} RunProtection(c: Config, s: State, levels: seq<nat>)
    requires Inv(c, s)
    ensures Run(c, s, levels).protection == ProtectedAfter(c, levels, s.protection)
    decreases |levels|
  {
    if levels != [] {
      var k := |levels| - 1;
      var prefix := levels[..k];
      RunProtection(c, s, prefix);
      match Classify(levels[k], c.limit)
      case Critical =>
        assert OnlyModerateAfter(c, levels, k);
      case Safe =>
        ProtectedAfterSafe(c, levels, s.protection);
      case Moderate =>
        ProtectedAfterModerate(c, levels, s.protection);
    }
  }

  /** The cursor after `k` trips starting from slot `i` of a ring of `n`. */
  function Advance(i: nat, k: nat, n: nat): (r: nat)
    requires i < n
    ensures r < n
    decreases k
  {
    if k == 0 then i else NextSlot(Advance(i, k - 1, n), n)
  }

  /** Advancing in two legs is advancing once by their total. */
  lemma {:induction false} AdvanceCompose(i: nat, a: nat, b: nat, n: nat)
    requires i < n
    ensures Advance(i, a + b, n) == Advance(Advance(i, a, n), b, n)
    decreases b
  {
    if b > 0 {
      AdvanceCompose(i, a, b - 1, n);
    }
  }

  /** Less than once around the ring, advancing `d` slots adds `d` and wraps
   *  at most once. */
  lemma {:induction false} AdvanceShort(i: nat, d: nat, n: nat)
    requires i < n && d < n
    ensures Advance(i, d, n) == if i + d < n then i + d else i + d - n
    decreases d
  {
    if d > 0 {
      AdvanceShort(i, d - 1, n);
    }
  }

  /** Going once around the ring returns to the start slot. */
  lemma AdvanceFullCircle(i: nat, n: nat)
    requires i < n
    ensures Advance(i, n, n) == i
  {
    AdvanceShort(i, n - 1, n);
  }

  /** Fewer than `n` trips apart, two trips use different slots. */
  lemma AdvanceDistinct(i: nat, m: nat, m': nat, n: nat)
    requires i < n && m < m' < m + n
    ensures Advance(i, m, n) != Advance(i, m', n)
  {
    AdvanceCompose(i, m, m' - m, n);
    AdvanceShort(Advance(i, m, n), m' - m, n);
  }

  /** The cursor after a run has advanced once per logged trip. */
  lemma {:induction false} RunLogIndex(c: Config, s: State, levels: seq<nat>)
    requires Inv(c, s)
    ensures Run(c, s, levels).logIndex == Advance(s.logIndex, |Logged(c, s, levels)|, |s.radiationLog|)
    decreases |levels|
  {
    if levels != [] {
      var prefix := levels[..|levels| - 1];
      RunLogIndex(c, s, prefix);
    }
  }

  /** What one tick does to a single log slot: a trip overwrites the slot at
   *  the cursor, and every other slot keeps its contents. */
  lemma StepLogSlot(c: Config, p: State, level: nat, slot: nat)
    requires Inv(c, p) && slot < |p.radiationLog|
    ensures var t := Step(c, p, level);
            if t.alert && slot == p.logIndex
            then t.radiationLog[slot] == level && t.alertLog[slot] == t.mode
            else t.radiationLog[slot] == p.radiationLog[slot] && t.alertLog[slot] == p.alertLog[slot]
  {
  }

  /** The logs hold the most recent trips in circular order: trip number `m`,
   *  if it is among the last `capacity` trips, sits in the slot the cursor had
   *  reached after `m` trips. */
  lemma {:induction false} LogHoldsRecentTrips(c: Config, s: State, levels: seq<nat>, m: nat)
    requires Inv(c, s)
    requires m < |Logged(c, s, levels)| <= m + |s.radiationLog|
    ensures var t, e := Run(c, s, levels), Logged(c, s, levels);
            var slot := Advance(s.logIndex, m, |s.radiationLog|);
            t.radiationLog[slot] == e[m].level && t.alertLog[slot] == e[m].mode
    decreases |levels|
  {
    var k := |levels| - 1;
    var prefix := levels[..k];
    var p := Run(c, s, prefix);
    var t := Step(c, p, levels[k]);
    var e', e := Logged(c, s, prefix), Logged(c, s, levels);
    var cap := |s.radiationLog|;
    assert Run(c, s, levels) == t;
    StepLogSlot(c, p, levels[k], Advance(s.logIndex, m, cap));
    if t.alert {
      assert e == e' + [LogEntry(levels[k], t.mode)];
      RunLogIndex(c, s, prefix);
      if m < |e'| {
        LogHoldsRecentTrips(c, s, prefix, m);
        AdvanceDistinct(s.logIndex, m, |e'|, cap);
        assert e[m] == e'[m];
      }
    } else {
      assert e == e';
      LogHoldsRecentTrips(c, s, prefix, m);
    }
  }

  /** Slots the cursor has not yet reached since the start keep their contents. */
  lemma {:induction false} LogKeepsUnwrittenSlots(c: Config, s: State, levels: seq<nat>, k: nat)
    requires Inv(c, s)
    requires |Logged(c, s, levels)| <= k < |s.radiationLog|
    ensures var t, slot := Run(c, s, levels), Advance(s.logIndex, k, |s.radiationLog|);
            t.radiationLog[slot] == s.radiationLog[slot] && t.alertLog[slot] == s.alertLog[slot]
    decreases |levels|
  {
    if levels != [] {
      var prefix := levels[..|levels| - 1];
      var n' := |Logged(c, s, prefix)|;
      LogKeepsUnwrittenSlots(c, s, prefix, k);
      StepLogSlot(c, Run(c, s, prefix), levels[|levels| - 1], Advance(s.logIndex, k, |s.radiationLog|));
      if Step(c, Run(c, s, prefix), levels[|levels| - 1]).alert {
        RunLogIndex(c, s, prefix);
        AdvanceDistinct(s.logIndex, n', k, |s.radiationLog|);
      }
    }
  }

  /** Wrap-around from the initial state: after `capacity + k` trips the cursor
   *  is back at `k`. */
  lemma LogWrapsAround(c: Config, capacity: nat, levels: seq<nat>, k: nat)
    requires c.Valid() && capacity > 0 && k < capacity
    requires |Logged(c, Initial(c, capacity), levels)| == capacity + k
    ensures Run(c, Initial(c, capacity), levels).logIndex == k
  {
    RunLogIndex(c, Initial(c, capacity), levels);
    AdvanceCompose(0, capacity, k, capacity);
    AdvanceFullCircle(0, capacity);
    AdvanceShort(0, k, capacity);
  }

  /** At least `m` trailing readings are above `limit` exactly when the last
   *  `m` readings all are. */
  lemma TrailingAtLeast(levels: seq<nat>, limit: nat, m: nat)
    ensures TrailingUnsafe(levels, limit) >= m <==>
              m <= |levels| && forall j :: |levels| - m <= j < |levels| ==> levels[j] > limit
  {
    var n := TrailingUnsafe(levels, limit);
    if n < m <= |levels| {
      assert levels[|levels| - 1 - n] <= limit;
    }
  }

  /** From the initial state, the alert after a run is up exactly when the last
   *  three readings were all above the safe limit, or when the readings add
   *  up to 300; either test is possible only when its signal is wide enough
   *  to hold the threshold. */
  lemma RunTrips(c: Config, capacity: nat, levels: seq<nat>)
    requires c.Valid() && capacity > 0
    ensures var k := |levels|;
      Run(c, Initial(c, capacity), levels).alert <==>
        || (&& c.exposureBound > MaxExposureTime && k >= MaxExposureTime
            && forall j :: k - MaxExposureTime <= j < k ==> levels[j] > c.limit)
        || (c.accumulatedBound > AccumulatedTripThreshold && Sum(levels) >= AccumulatedTripThreshold)
  {
    if levels != [] {
      var s := Initial(c, capacity);
      StepBehaviour(c, Run(c, s, levels[..|levels| - 1]), levels[|levels| - 1]);
      RunExposure(c, s, levels);
      RunAccumulated(c, s, levels);
      TrailingAtLeast(levels, c.limit, MaxExposureTime);
    }
  }

  /** A dose trip never clears: the dose cannot fall, so once it has reached
   *  300 every later tick raises the alert and writes its reading to the
   *  logs. */
  lemma {:induction false} DoseTripPersists(c: Config, s: State, levels: seq<nat>)
    requires Inv(c, s) && s.accumulated >= AccumulatedTripThreshold
    ensures levels != [] ==> Run(c, s, levels).alert
    ensures |Logged(c, s, levels)| == |levels|
    ensures forall i :: 0 <= i < |levels| ==> Logged(c, s, levels)[i].level == levels[i]
    decreases |levels|
  {
    if levels != [] {
      var prefix := levels[..|levels| - 1];
      DoseTripPersists(c, s, prefix);
      StepBehaviour(c, Run(c, s, prefix), levels[|levels| - 1]);
    }
  }
}
