/** The radiation alert block as an object whose signals are fields and whose
 *  two event logs are fixed-size arrays written in place by each tick. */
module AlertSystem {
  import opened AlertRules

  class RadiationAlertSystem {
    const config: Config

    var accumulatedRadiation: nat
    var alertMode: AlertMode
    var protectionMode: bool
    var exposureTime: nat
    var alert: bool
    var logIndex: nat

    /** Readings and alert modes of tripping ticks, indexed by one cursor. */
    const eventRadiationLog: array<nat>
    const eventAlertLog: array<AlertMode>

    /** The current signals and log contents as a value. */
    function View(): State
      reads this, eventRadiationLog, eventAlertLog
    {
      State(accumulatedRadiation, alertMode, protectionMode, exposureTime, alert,
            logIndex, eventRadiationLog[..], eventAlertLog[..])
    }

    ghost predicate Valid()
      reads this, eventRadiationLog, eventAlertLog
    {
      Inv(config, View())
    }

    /** A block with all signals zero and `capacity` zeroed slots in each log. */
    constructor (config: Config, capacity: nat)
      requires config.Valid() && capacity > 0
      ensures Valid() && fresh(eventRadiationLog) && fresh(eventAlertLog)
      ensures this.config == config
      ensures View() == Initial(config, capacity)
    {
      this.config := config;
      accumulatedRadiation, alertMode, protectionMode, exposureTime, alert, logIndex :=
        0, Safe, false, 0, false, 0;
      eventRadiationLog := new nat[capacity](_ => 0);
      eventAlertLog := new AlertMode[capacity](_ => Safe);
    }

    /** One evaluation of `check_radiation` on the reading `level`: the four
     *  blocks of the source, in order, each reading what the one before it
     *  has just written. */
    method Tick(level: nat)
      requires Valid()
      modifies this, eventRadiationLog, eventAlertLog
      ensures Valid()
      ensures View() == Step(config, old(View()), level)
      ensures old(accumulatedRadiation) <= accumulatedRadiation < config.accumulatedBound
      ensures alertMode == Classify(level, config.limit)
      ensures alert <==> exposureTime >= MaxExposureTime || accumulatedRadiation >= AccumulatedTripThreshold
      ensures !alert ==> logIndex == old(logIndex)
    {
      AccumulateDose(level);
      ClassifyReading(level);
      CountExposure();
      CheckTrip(level);
    }

    /** First step of `Tick`: adds the reading to the running dose, clamping
     *  below the field's bound instead of wrapping. The four steps are called
     *  only from `Tick`, which re-establishes `Valid()` after the last one. */
    method AccumulateDose(level: nat)
      requires config.Valid()
      modifies this`accumulatedRadiation
      ensures accumulatedRadiation == Saturate(old(accumulatedRadiation) + level, config.accumulatedBound)
    {
      var newAccumulated := accumulatedRadiation + level;
      if newAccumulated < config.accumulatedBound {
        accumulatedRadiation := newAccumulated;
      } else {
        accumulatedRadiation := config.accumulatedBound - 1;
      }
    }

    /** Second step of `Tick`: sets the alert tier of the reading; protection
     *  is assigned by the critical and safe branches only. */
    method ClassifyReading(level: nat)
      modifies this`alertMode, this`protectionMode
      ensures alertMode == Classify(level, config.limit)
      ensures protectionMode == NextProtection(alertMode, old(protectionMode))
    {
      if level > config.limit + CriticalMargin {
        alertMode := Critical;
        protectionMode := true;
      } else if level > config.limit {
        alertMode := Moderate;
      } else {
        alertMode := Safe;
        protectionMode := false;
      }
    }

    /** Third step of `Tick`: counts one more tick above the safe limit, or
     *  resets on a safe tick; the counter is clamped at its width exactly like
     *  the dose. */
    method CountExposure()
      requires config.Valid() && exposureTime < config.exposureBound
      modifies this`exposureTime
      ensures exposureTime == NextExposure(alertMode, old(exposureTime), config.exposureBound)
    {
      if alertMode != Safe {
        if exposureTime + 1 < config.exposureBound {
          exposureTime := exposureTime + 1;
        } else {
          exposureTime := config.exposureBound - 1;
        }
      } else {
        exposureTime := 0;
      }
    }

    /** Last step of `Tick`: raises or clears the alert; on a trip records the
     *  reading and its tier at the cursor and moves the cursor on around the
     *  ring. */
    method CheckTrip(level: nat)
      requires 0 < eventRadiationLog.Length == eventAlertLog.Length
      requires logIndex < eventRadiationLog.Length
      modifies this`alert, this`logIndex, eventRadiationLog, eventAlertLog
      ensures alert == Trips(exposureTime, accumulatedRadiation)
      ensures alert ==> && eventRadiationLog[..] == old(eventRadiationLog[..])[old(logIndex) := level]
                        && eventAlertLog[..] == old(eventAlertLog[..])[old(logIndex) := alertMode]
                        && logIndex == NextSlot(old(logIndex), eventRadiationLog.Length)
      ensures !alert ==> && eventRadiationLog[..] == old(eventRadiationLog[..])
                         && eventAlertLog[..] == old(eventAlertLog[..])
                         && logIndex == old(logIndex)
    {
      if exposureTime >= MaxExposureTime || accumulatedRadiation >= AccumulatedTripThreshold {
        alert := true;
        eventRadiationLog[logIndex] := level;
        eventAlertLog[logIndex] := alertMode;
        NextSlotIsMod(logIndex, eventRadiationLog.Length);
        logIndex := (logIndex + 1) % eventRadiationLog.Length;
      } else {
        alert := false;
      }
    }
  }
}
