/** Multi-scan behaviour of the supply-fan block: the start-up values of
    the test fixture, the three unit-test scenarios, and traces in which
    the driver sets the three inputs and the timer bit before every scan. */
module SupplyFanScenarios {
  import opened TagStore
  import opened SupplyFan

  /** The tag values the fixture seeds before each scenario: everything off. */
  function SetUp(): (s: Store)
    ensures Ready(s) && InputsOf(s) == FanInputs(false, false, false)
    ensures Shows(s, AllOff)
    ensures GetTag(s, AirflowStatus) == Some(B(false))
  {
    map[Enable := B(false), RunFdbk := B(false), AirflowStatus := B(false), VfdFault := B(false),
        StartCmd := B(false), FanFailureAlm := B(false), VfdFaultAlm := B(false), IsRunning := B(false)]
  }

  /** Scenario "normal start sequence": enabling starts the fan; once run
      feedback arrives it reads as running with no failure alarm. */
  lemma NormalStartSequence()
    ensures var s1 := FanScan(SetTag(SetUp(), Enable, B(true)), false).value;
            && GetTag(s1, StartCmd) == Some(B(true))
            && var s2 := FanScan(SetTag(s1, RunFdbk, B(true)), false).value;
               GetTag(s2, IsRunning) == Some(B(true)) && GetTag(s2, FanFailureAlm) == Some(B(false))
  {
    var s0 := SetTag(SetUp(), Enable, B(true));
    assert InputsOf(s0) == FanInputs(true, false, false);
    var s1 := FanScan(s0, false).value;
    var t := SetTag(s1, RunFdbk, B(true));
    assert InputsOf(t) == FanInputs(true, true, false);
  }

  /** Scenario "fan failure with delay": without run feedback the fan is
      commanded while the timer runs, and tripped with the failure alarm
      once the timer is done. */
  lemma FanFailureWithDelay()
    ensures var s0 := SetTag(SetTag(SetUp(), Enable, B(true)), RunFdbk, B(false));
            var s1 := FanScan(s0, false).value;
            && GetTag(s1, StartCmd) == Some(B(true))
            && GetTag(s1, FanFailureAlm) == Some(B(false))
            && var s2 := FanScan(s1, true).value;
               GetTag(s2, FanFailureAlm) == Some(B(true)) && GetTag(s2, StartCmd) == Some(B(false))
  {
    var s0 := SetTag(SetTag(SetUp(), Enable, B(true)), RunFdbk, B(false));
    assert InputsOf(s0) == FanInputs(true, false, false);
    var s1 := FanScan(s0, false).value;
    assert InputsOf(s1) == FanInputs(true, false, false);
  }

  /** Scenario "VFD fault trip": a running fan stops in the very scan the
      VFD fault appears, with the VFD alarm raised. */
  lemma VfdFaultTrip()
    ensures var s0 := SetTag(SetTag(SetUp(), Enable, B(true)), RunFdbk, B(true));
            var s1 := FanScan(s0, false).value;
            && GetTag(s1, IsRunning) == Some(B(true))
            && var s2 := FanScan(SetTag(s1, VfdFault, B(true)), false).value;
               && GetTag(s2, StartCmd) == Some(B(false))
               && GetTag(s2, IsRunning) == Some(B(false))
               && GetTag(s2, VfdFaultAlm) == Some(B(true))
  {
    var s0 := SetTag(SetTag(SetUp(), Enable, B(true)), RunFdbk, B(true));
    assert InputsOf(s0) == FanInputs(true, true, false);
    var s1 := FanScan(s0, false).value;
    var t := SetTag(s1, VfdFault, B(true));
    assert InputsOf(t) == FanInputs(true, true, true);
  }

  /** What the driver does before a scan: set the three inputs and the timer bit. */
  datatype FanStep = FanStep(inputs: FanInputs, q: bool)

  /** Writes the three input tags. */
  function SetInputs(s: Store, i: FanInputs): (r: Store)
    ensures Ready(r) && InputsOf(r) == i
    ensures forall k :: k !in InputTags ==> GetTag(r, k) == GetTag(s, k)
  {
    SetTag(SetTag(SetTag(s, Enable, B(i.enable)), RunFdbk, B(i.runFdbk)), VfdFault, B(i.vfdFault))
  }

  /** One driver step: set the inputs, then scan; such a scan always succeeds. */
  function ApplyStep(s: Store, st: FanStep): (r: Store)
    ensures FanScan(SetInputs(s, st.inputs), st.q) == Success(r)
  {
    WriteOutputs(SetInputs(s, st.inputs), FanLogic(st.inputs, st.q))
  }

  /** The store after a whole trace of driver steps. */
  function Run(s: Store, steps: seq<FanStep>): Store
    decreases |steps|
  {
    if |steps| == 0 then s
    else ApplyStep(Run(s, steps[..|steps| - 1]), steps[|steps| - 1])
  }

  /** Non-latching: after any trace the outputs are those of the last step
      alone; no earlier step leaves a trace in them. */
  lemma RunLastStepDecides(s: Store, steps: seq<FanStep>)
    requires |steps| > 0
    ensures Shows(Run(s, steps), FanLogic(steps[|steps| - 1].inputs, steps[|steps| - 1].q))
  {
    var before := Run(s, steps[..|steps| - 1]);
    var last := steps[|steps| - 1];
    assert InputsOf(SetInputs(before, last.inputs)) == last.inputs;
  }

  /** Two traces that end in the same step leave the same outputs. */
  lemma RunForgetsHistory(s: Store, t: Store, xs: seq<FanStep>, ys: seq<FanStep>, st: FanStep)
    ensures AgreeOn(Run(s, xs + [st]), Run(t, ys + [st]), OutputTags)
  {
    var a := Run(s, xs + [st]);
    var b := Run(t, ys + [st]);
    RunLastStepDecides(s, xs + [st]);
    RunLastStepDecides(t, ys + [st]);
    assert (xs + [st])[|xs + [st]| - 1] == st;
    assert (ys + [st])[|ys + [st]| - 1] == st;
    ShowsDeterminesOutputs(a, b, FanLogic(st.inputs, st.q));
  }

  /** A fan trace never changes a tag outside the block's inputs and
      outputs, Airflow_Status_DI included. */
  lemma {:induction false} RunKeepsOtherTags(s: Store, steps: seq<FanStep>, k: string)
    requires k !in InputTags && k !in OutputTags
    ensures GetTag(Run(s, steps), k) == GetTag(s, k)
    decreases |steps|
  {
    if |steps| > 0 {
      RunKeepsOtherTags(s, steps[..|steps| - 1], k);
    }
  }

  /** After any non-empty trace the two alarms are not both raised, and
      the fan only reads as running while it is commanded. */
  lemma RunAlarmsExclusive(s: Store, steps: seq<FanStep>)
    requires |steps| > 0
    ensures !(GetTag(Run(s, steps), FanFailureAlm) == Some(B(true)) &&
              GetTag(Run(s, steps), VfdFaultAlm) == Some(B(true)))
    ensures GetTag(Run(s, steps), IsRunning) == Some(B(true)) ==>
              GetTag(Run(s, steps), StartCmd) == Some(B(true))
  {
    RunLastStepDecides(s, steps);
  }
}
