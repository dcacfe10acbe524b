/** The block on the test bench's stimulus: limit 100, a 16-bit accumulator,
 *  a 4-bit exposure counter, ten log slots, and the readings 45, 75, 150, 90,
 *  200 in that order. */
module AlertScenario {
  import opened AlertRules
  import opened AlertRuns

  /** The first four readings stay below the critical limit (150 is not above
   *  100 + 50, so it is moderate), and the fourth trips the alert on the dose
   *  alone: 45 + 75 + 150 + 90 = 360 >= 300. The stimulus stops there; a fifth
   *  reading of 200 would be critical and be logged in the second slot. */
  lemma BenchScenario()
    ensures var c, s0 := DefaultConfig, Initial(DefaultConfig, DefaultLogCapacity);
      var s1 := Step(c, s0, 45);
      var s2 := Step(c, s1, 75);
      var s3 := Step(c, s2, 150);
      var s4 := Step(c, s3, 90);
      var s5 := Step(c, s4, 200);
      && s1.mode == Safe && s1.accumulated == 45 && !s1.alert
      && s2.mode == Safe && s2.accumulated == 120 && !s2.alert
      && s3.mode == Moderate && !s3.protection && s3.exposure == 1 && s3.accumulated == 270 && !s3.alert
      && s4.mode == Safe && s4.exposure == 0 && s4.accumulated == 360 && s4.alert
      && s4.radiationLog[0] == 90 && s4.alertLog[0] == Safe && s4.logIndex == 1
      && s5.mode == Critical && s5.protection && s5.accumulated == 560 && s5.alert
      && s5.radiationLog[1] == 200 && s5.alertLog[1] == Critical && s5.logIndex == 2
  {
  }

  /** The same four readings as one run: one trip, logged first. */
  lemma BenchRun()
    ensures var c, s0 := DefaultConfig, Initial(DefaultConfig, DefaultLogCapacity);
      Logged(c, s0, [45, 75, 150, 90]) == [LogEntry(90, Safe)]
  {
    var c, s0 := DefaultConfig, Initial(DefaultConfig, DefaultLogCapacity);
    assert [45, 75, 150, 90][..3] == [45, 75, 150];
    assert [45, 75, 150][..2] == [45, 75];
    assert [45, 75][..1] == [45];
    assert [45][..0] == [];
  }
}
