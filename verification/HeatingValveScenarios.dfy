/** Multi-scan behaviour of the heating block: the start-up values of the
    test fixture, the three unit-test scenarios, and traces in which the
    driver sets enable, demand, freeze stat, feedback and the timer bit
    before every scan. The valve command is never set by the driver: each
    scan reads the one the previous scan wrote. */
module HeatingValveScenarios {
  import opened TagStore
  import opened HeatingValve

  /** The tag values the fixture seeds before each scenario. */
  function SetUp(): (s: Store)
    ensures Ready(s) && InputsOf(s) == HeatInputs(false, 0.0, false, 0.0, 0.0)
    ensures Shows(s, HeatOutputs(0.0, false, false))
  {
    map[Enable := B(false), Demand := R(0.0), FreezeStat := B(false), ValveCmd := R(0.0),
        ValveFdbk := R(0.0), FreezeAlm := B(false), ValveFailureAlm := B(false)]
  }

  /** Scenario "valve pass-through": enabled, the command follows a demand of 50.0. */
  lemma ValvePassthrough()
    ensures var s0 := SetTag(SetTag(SetUp(), Enable, B(true)), Demand, R(50.0));
            GetTag(HeatScan(s0, false).value, ValveCmd) == Some(R(50.0))
  {
    var s0 := SetTag(SetTag(SetUp(), Enable, B(true)), Demand, R(50.0));
    assert InputsOf(s0) == HeatInputs(true, 50.0, false, 0.0, 0.0);
  }

  /** Scenario "freeze safety trip": a demand of 80.0 passes through until
      the freeze stat trips, which closes the valve and raises the alarm
      although the block stays enabled. */
  lemma FreezeSafetyTrip()
    ensures var s0 := SetTag(SetTag(SetUp(), Enable, B(true)), Demand, R(80.0));
            var s1 := HeatScan(s0, false).value;
            && GetTag(s1, ValveCmd) == Some(R(80.0))
            && var s2 := HeatScan(SetTag(s1, FreezeStat, B(true)), false).value;
               GetTag(s2, FreezeAlm) == Some(B(true)) && GetTag(s2, ValveCmd) == Some(R(0.0))
  {
    var s0 := SetTag(SetTag(SetUp(), Enable, B(true)), Demand, R(80.0));
    assert InputsOf(s0) == HeatInputs(true, 80.0, false, 0.0, 0.0);
    var s1 := HeatScan(s0, false).value;
    HeatScanKeepsInputs(s0, false);
    var t := SetTag(s1, FreezeStat, B(true));
    assert InputsOf(t) == HeatInputs(true, 80.0, true, 80.0, 0.0);
  }

  /** Scenario "valve failure alarm": with the command at 50.0 and the
      feedback stuck at 10.0 the alarm stays off while the timer runs and
      comes on once it is done; the command stays at 50.0 throughout. */
  lemma ValveFailureAlarm()
    ensures var s0 := SetTag(SetTag(SetUp(), Enable, B(true)), Demand, R(50.0));
            var s1 := HeatScan(s0, false).value;
            var s2 := HeatScan(SetTag(s1, ValveFdbk, R(10.0)), false).value;
            && GetTag(s2, ValveFailureAlm) == Some(B(false))
            && GetTag(s2, ValveCmd) == Some(R(50.0))
            && var s3 := HeatScan(s2, true).value;
               GetTag(s3, ValveFailureAlm) == Some(B(true)) && GetTag(s3, ValveCmd) == Some(R(50.0))
  {
    var s0 := SetTag(SetTag(SetUp(), Enable, B(true)), Demand, R(50.0));
    assert InputsOf(s0) == HeatInputs(true, 50.0, false, 0.0, 0.0);
    var s1 := HeatScan(s0, false).value;
    HeatScanKeepsInputs(s0, false);
    var t := SetTag(s1, ValveFdbk, R(10.0));
    assert InputsOf(t) == HeatInputs(true, 50.0, false, 50.0, 10.0);
    var s2 := HeatScan(t, false).value;
    HeatScanKeepsInputs(t, false);
    assert InputsOf(s2) == HeatInputs(true, 50.0, false, 50.0, 10.0);
    assert Mismatch(50.0, 10.0);
  }

  /** What the driver does before a scan. */
  datatype HeatStep = HeatStep(enable: bool, demand: real, freezeStat: bool, fdbk: real, q: bool)

  /** The command a step produces, stated from the block's rules: closed
      on freeze, the demand while enabled, closed otherwise. */
  function StepCommand(st: HeatStep): real {
    if st.freezeStat then 0.0
    else if st.enable then st.demand
    else 0.0
  }

  /** True when the valve command tag holds an analog value, so that the
      driver's writes make the store ready. */
  predicate Seeded(s: Store) {
    ValveCmd in s && s[ValveCmd].R?
  }

  /** Writes the four driver-owned inputs; the valve command is untouched. */
  function SetInputs(s: Store, st: HeatStep): (r: Store)
    ensures Ready(r) <==> Seeded(s)
    ensures Seeded(s) ==> InputsOf(r) == HeatInputs(st.enable, st.demand, st.freezeStat, s[ValveCmd].r, st.fdbk)
    ensures forall k :: k !in {Enable, Demand, FreezeStat, ValveFdbk} ==> GetTag(r, k) == GetTag(s, k)
  {
    var s1 := SetTag(s, Enable, B(st.enable));
    var s2 := SetTag(s1, Demand, R(st.demand));
    var s3 := SetTag(s2, FreezeStat, B(st.freezeStat));
    var r := SetTag(s3, ValveFdbk, R(st.fdbk));
    assert GetTag(r, ValveCmd) == GetTag(s, ValveCmd);
    r
  }

  /** One driver step: set the inputs, then scan. */
  function ApplyStep(s: Store, st: HeatStep): (r: Result<Store>)
    ensures r.Success? <==> Seeded(s)
    ensures r.Success? ==> Seeded(r.value) && r.value[ValveCmd] == R(StepCommand(st))
    ensures r.Success? ==>
              (GetTag(r.value, ValveFailureAlm) == Some(B(true)) <==>
                 st.enable && !st.freezeStat && Mismatch(s[ValveCmd].r, st.fdbk) && st.q)
    ensures r.Success? ==> GetTag(r.value, FreezeAlm) == Some(B(st.freezeStat))
  {
    HeatScan(SetInputs(s, st), st.q)
  }

  /** The store after a whole trace of driver steps; a scan error stops the trace. */
  function Run(s: Store, steps: seq<HeatStep>): Result<Store>
    decreases |steps|
  {
    if |steps| == 0 then Success(s)
    else
      var t :- Run(s, steps[..|steps| - 1]);
      ApplyStep(t, steps[|steps| - 1])
  }

  /** A trace from a seeded store never fails, and after a non-empty trace
      the command is the one the last step asks for, whatever came before. */
  lemma {:induction false} RunSucceeds(s: Store, steps: seq<HeatStep>)
    requires Seeded(s)
    ensures Run(s, steps).Success? && Seeded(Run(s, steps).value)
    ensures |steps| > 0 ==> Run(s, steps).value[ValveCmd] == R(StepCommand(steps[|steps| - 1]))
    decreases |steps|
  {
    if |steps| > 0 {
      RunSucceeds(s, steps[..|steps| - 1]);
    }
  }

  /** The valve-failure alarm after a trace of two or more steps compares the
      command the second-to-last step produced with the last feedback; the
      last demand plays no part in it. */
  lemma RunAlarmUsesPreviousCommand(s: Store, steps: seq<HeatStep>)
    requires Seeded(s) && |steps| >= 2
    ensures Run(s, steps).Success?
    ensures var last := steps[|steps| - 1];
            GetTag(Run(s, steps).value, ValveFailureAlm) == Some(B(true)) <==>
              last.enable && !last.freezeStat && Mismatch(StepCommand(steps[|steps| - 2]), last.fdbk) && last.q
  {
    var prefix := steps[..|steps| - 1];
    RunSucceeds(s, prefix);
    assert prefix[|prefix| - 1] == steps[|steps| - 2];
  }

  /** If the command starts within 0..100 percent and every demand of the
      trace is within 0..100, the command never leaves that range. */
  lemma {:induction false} RunKeepsCommandInRange(s: Store, steps: seq<HeatStep>)
    requires Seeded(s) && 0.0 <= s[ValveCmd].r <= 100.0
    requires forall j :: 0 <= j < |steps| ==> 0.0 <= steps[j].demand <= 100.0
    ensures Run(s, steps).Success?
    ensures 0.0 <= Run(s, steps).value[ValveCmd].r <= 100.0
  {
    RunSucceeds(s, steps);
    if |steps| > 0 {
      var last := steps[|steps| - 1];
      assert 0.0 <= last.demand <= 100.0;
    }
  }

  /** While the freeze stat is made the valve is closed and the freeze
      alarm is on after every step, whatever else the step says. */
  lemma RunFreezeClosesValve(s: Store, steps: seq<HeatStep>)
    requires Seeded(s) && |steps| > 0 && steps[|steps| - 1].freezeStat
    ensures Run(s, steps).Success?
    ensures Run(s, steps).value[ValveCmd] == R(0.0)
    ensures GetTag(Run(s, steps).value, FreezeAlm) == Some(B(true))
    ensures GetTag(Run(s, steps).value, ValveFailureAlm) == Some(B(false))
  {
    RunSucceeds(s, steps);
    RunSucceeds(s, steps[..|steps| - 1]);
  }
}
