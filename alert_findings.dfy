/** The tick as the simulator would run it: reading a signal inside the
 *  process yields its value from before the tick, so the exposure test, the
 *  trip test and the logged tier all see the previous tick's values. The rest
 *  of the model uses AlertRules.Step, where each step sees the value just
 *  computed. */
module AlertFindings {
  import opened AlertRules

  /** `check_radiation` with every read of a driven signal taking its pre-tick
   *  value (radiacao.py:39, 44, 47). */
  function StepAsWritten(c: Config, s: State, level: nat): (t: State)
    requires Inv(c, s)
    ensures Inv(c, t)
    ensures t.accumulated == Step(c, s, level).accumulated
    ensures t.mode == Step(c, s, level).mode
    ensures t.alert <==> s.exposure >= MaxExposureTime || s.accumulated >= AccumulatedTripThreshold
    ensures t.exposure == NextExposure(s.mode, s.exposure, c.exposureBound)
    ensures t.alert ==> t.alertLog == s.alertLog[s.logIndex := s.mode]
  {
    var accumulated := Saturate(s.accumulated + level, c.accumulatedBound);
    var mode := Classify(level, c.limit);
    var protection := NextProtection(mode, s.protection);
    var exposure := NextExposure(s.mode, s.exposure, c.exposureBound);
    if Trips(s.exposure, s.accumulated) then
      State(accumulated, mode, protection, exposure, true,
            NextSlot(s.logIndex, |s.radiationLog|),
            s.radiationLog[s.logIndex := level],
            s.alertLog[s.logIndex := s.mode])
    else
      State(accumulated, mode, protection, exposure, false,
            s.logIndex, s.radiationLog, s.alertLog)
  }

  /** With pre-tick reads the block lags by one tick: a reading that takes the
   *  dose from 250 to 310 does not raise the alert, and a first moderate
   *  reading leaves the exposure counter at 0; the sequential Step raises the
   *  alert and counts the tick. */
  lemma ReadsLagOneTick()
    ensures var c := DefaultConfig;
      var s := State(250, Safe, false, 0, false, 0, seq(10, _ => 0), seq(10, _ => Safe));
      && StepAsWritten(c, s, 60).accumulated == 310 && !StepAsWritten(c, s, 60).alert
      && Step(c, s, 60).accumulated == 310 && Step(c, s, 60).alert
      && StepAsWritten(c, s, 120).mode == Moderate && StepAsWritten(c, s, 120).exposure == 0
      && Step(c, s, 120).mode == Moderate && Step(c, s, 120).exposure == 1
  {
  }
}
