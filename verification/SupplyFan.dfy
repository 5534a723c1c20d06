/** One scan of the FB100_EM_SupplyFan block: enable, run feedback and the
    VFD fault input decide the start command, the running status and two
    alarms. The fault-delay timer is external; only its done bit `q` enters
    a scan. Alarms are recomputed every scan and never latch. */
module SupplyFan {
  import opened TagStore

  // Tag names of the block instance.
  const Enable := "FB100_EM_SupplyFan.Enable"
  const RunFdbk := "FB100_EM_SupplyFan.UDT.Run_Fdbk_DI"
  const AirflowStatus := "FB100_EM_SupplyFan.UDT.Airflow_Status_DI"
  const VfdFault := "FB100_EM_SupplyFan.UDT.VFD_Fault_DI"
  const StartCmd := "FB100_EM_SupplyFan.UDT.Start_Cmd_DO"
  const FanFailureAlm := "FB100_EM_SupplyFan.UDT.Fan_Failure_Alm"
  const VfdFaultAlm := "FB100_EM_SupplyFan.UDT.VFD_Fault_Alm"
  const IsRunning := "FB100_EM_SupplyFan.UDT.Is_Running"

  /** The tags a scan reads (Airflow_Status_DI is not among them). */
  const InputTags: set<string> := {Enable, RunFdbk, VfdFault}
  /** The tags a scan writes. */
  const OutputTags: set<string> := {StartCmd, IsRunning, FanFailureAlm, VfdFaultAlm}

  datatype FanInputs = FanInputs(enable: bool, runFdbk: bool, vfdFault: bool)

  datatype FanOutputs = FanOutputs(startCmd: bool, isRunning: bool, fanFailureAlm: bool, vfdFaultAlm: bool)

  const AllOff := FanOutputs(false, false, false, false)

  /** The scan decision. Disabled wins over everything, a VFD fault trips
      the fan, otherwise the fan is started unless the timer reports that
      run feedback has been missing too long. */
  function FanLogic(i: FanInputs, q: bool): (o: FanOutputs)
    ensures !i.enable ==> o == AllOff
    ensures i.enable && i.vfdFault ==>
              o.vfdFaultAlm && !o.startCmd && !o.isRunning && !o.fanFailureAlm
    ensures i.enable && !i.vfdFault ==>
              && !o.vfdFaultAlm
              && (o.fanFailureAlm <==> !i.runFdbk && q)
              && (o.startCmd <==> !o.fanFailureAlm)
    ensures o.isRunning <==> o.startCmd && i.runFdbk
    ensures o.isRunning ==> i.enable && !i.vfdFault && !o.fanFailureAlm
    ensures !(o.fanFailureAlm && o.vfdFaultAlm)
  {
    if !i.enable then AllOff
    else if i.vfdFault then
      FanOutputs(startCmd := false, isRunning := false, fanFailureAlm := false, vfdFaultAlm := true)
    else
      // the start command is asserted at this point, so the timer input
      // "commanded but not running" reduces to missing feedback
      var timerIn := !i.runFdbk;
      var failed := timerIn && q;
      var start := !failed;
      FanOutputs(startCmd := start, isRunning := start && i.runFdbk,
                 fanFailureAlm := failed, vfdFaultAlm := false)
  }

  /** The operating states of the sequencer. */
  datatype FanState = Disabled | Starting | Running | FaultTripped | FailureAlarmed

  /** The state the inputs put the sequencer in, by priority. */
  function Classify(i: FanInputs, q: bool): FanState {
    if !i.enable then Disabled
    else if i.vfdFault then FaultTripped
    else if !i.runFdbk && q then FailureAlarmed
    else if i.runFdbk then Running
    else Starting
  }

  /** What the output tags show in each state. */
  function Indication(st: FanState): FanOutputs {
    match st
    case Disabled => AllOff
    case Starting => FanOutputs(true, false, false, false)
    case Running => FanOutputs(true, true, false, false)
    case FaultTripped => FanOutputs(false, false, false, true)
    case FailureAlarmed => FanOutputs(false, false, true, false)
  }

  /** Reads the state back from the output tags alone. */
  function ObservedState(o: FanOutputs): FanState {
    if o.vfdFaultAlm then FaultTripped
    else if o.fanFailureAlm then FailureAlarmed
    else if o.isRunning then Running
    else if o.startCmd then Starting
    else Disabled
  }

  /** Every state has its own indication: the outputs identify the state. */
  lemma IndicationIdentifiesState(st: FanState)
    ensures ObservedState(Indication(st)) == st
  {
  }

  /** The scan shows exactly the indication of the state its inputs select,
      so an operator reading the four outputs knows which rule applied. */
  lemma FanLogicFollowsStateMachine(i: FanInputs, q: bool)
    ensures FanLogic(i, q) == Indication(Classify(i, q))
    ensures ObservedState(FanLogic(i, q)) == Classify(i, q)
  {
  }

  /** True when the three input tags hold booleans, as the scan needs. */
  predicate Ready(s: Store) {
    && Enable in s && s[Enable].B?
    && RunFdbk in s && s[RunFdbk].B?
    && VfdFault in s && s[VfdFault].B?
  }

  /** The scan inputs held by a ready store. */
  function InputsOf(s: Store): FanInputs
    requires Ready(s)
  {
    FanInputs(s[Enable].b, s[RunFdbk].b, s[VfdFault].b)
  }

  /** Reads the inputs in the order the block reads them, stopping at the first
      missing or non-boolean tag. */
  function ReadInputs(s: Store): (r: Result<FanInputs>)
    ensures r.Success? <==> Ready(s)
    ensures r.Success? ==> r.value == InputsOf(s)
    ensures r.Failure? ==> r.error.name in InputTags
  {
    var enable :- ReadBool(s, Enable);
    var runFdbk :- ReadBool(s, RunFdbk);
    var vfdFault :- ReadBool(s, VfdFault);
    Success(FanInputs(enable, runFdbk, vfdFault))
  }

  /** True when the output tags of `s` hold exactly `o`. */
  predicate Shows(s: Store, o: FanOutputs) {
    && GetTag(s, StartCmd) == Some(B(o.startCmd))
    && GetTag(s, IsRunning) == Some(B(o.isRunning))
    && GetTag(s, FanFailureAlm) == Some(B(o.fanFailureAlm))
    && GetTag(s, VfdFaultAlm) == Some(B(o.vfdFaultAlm))
  }

  /** Stores showing the same outputs agree on every output tag. */
  lemma ShowsDeterminesOutputs(s: Store, t: Store, o: FanOutputs)
    requires Shows(s, o) && Shows(t, o)
    ensures AgreeOn(s, t, OutputTags)
  {
  }

  /** Writes the four outputs, in the order the block writes them. */
  function WriteOutputs(s: Store, o: FanOutputs): (r: Store)
    ensures Shows(r, o)
    ensures r.Keys == s.Keys + OutputTags
    ensures forall k :: k !in OutputTags ==> GetTag(r, k) == GetTag(s, k)
  {
    var s1 := SetTag(s, StartCmd, B(o.startCmd));
    var s2 := SetTag(s1, IsRunning, B(o.isRunning));
    var s3 := SetTag(s2, FanFailureAlm, B(o.fanFailureAlm));
    SetTag(s3, VfdFaultAlm, B(o.vfdFaultAlm))
  }

  /** One scan over the tag store. A scan whose inputs cannot be read
      commits nothing; otherwise it writes the four outputs computed from
      the inputs and `q`, and leaves every other tag (the inputs and
      Airflow_Status_DI included) as it was. */
  function FanScan(s: Store, q: bool): (r: Result<Store>)
    ensures r.Success? <==> Ready(s)
    ensures r.Success? ==> Shows(r.value, FanLogic(InputsOf(s), q))
    ensures r.Success? ==> r.value.Keys == s.Keys + OutputTags
    ensures r.Success? ==> forall k :: k !in OutputTags ==> GetTag(r.value, k) == GetTag(s, k)
  {
    var i :- ReadInputs(s);
    Success(WriteOutputs(s, FanLogic(i, q)))
  }

  lemma InputAndOutputTagsDisjoint()
    ensures InputTags !! OutputTags
    ensures AirflowStatus !in InputTags + OutputTags
  {
  }

  /** Outputs depend only on the three input tags and `q`: stores that
      agree on the inputs give the same outputs, whatever their previous
      outputs, Airflow_Status_DI or any other tag hold. */
  lemma OutputsDependOnlyOnInputs(s: Store, t: Store, q: bool)
    requires Ready(s) && AgreeOn(s, t, InputTags)
    ensures FanScan(t, q).Success?
    ensures AgreeOn(FanScan(s, q).value, FanScan(t, q).value, OutputTags)
  {
    assert GetTag(s, Enable) == GetTag(t, Enable);
    assert GetTag(s, RunFdbk) == GetTag(t, RunFdbk);
    assert GetTag(s, VfdFault) == GetTag(t, VfdFault);
  }

  /** The value a scan leaves at one tag: the computed output for an
      output tag, the previous value for any other tag. */
  lemma FanScanAt(s: Store, q: bool, k: string)
    requires Ready(s)
    ensures k in OutputTags ==> GetTag(FanScan(s, q).value, k) == GetTag(WriteOutputs(map[], FanLogic(InputsOf(s), q)), k)
    ensures k !in OutputTags ==> GetTag(FanScan(s, q).value, k) == GetTag(s, k)
  {
  }

  /** Running the scan twice with the same inputs and `q` leaves the same
      store as running it once: the outputs never feed back. */
  lemma FanScanIdempotent(s: Store, q: bool)
    requires Ready(s)
    ensures FanScan(FanScan(s, q).value, q) == FanScan(s, q)
  {
    var s1 := FanScan(s, q).value;
    InputAndOutputTagsDisjoint();
    assert InputsOf(s1) == InputsOf(s) by {
      FanScanAt(s, q, Enable);
      FanScanAt(s, q, RunFdbk);
      FanScanAt(s, q, VfdFault);
    }
    var s2 := FanScan(s1, q).value;
    forall k ensures GetTag(s2, k) == GetTag(s1, k) {
      FanScanAt(s, q, k);
      FanScanAt(s1, q, k);
    }
    StoreExtensionality(s2, s1);
  }

  /** Writing a tag the scan does not read leaves the scan inputs alone. */
  lemma InputsUnaffectedByOtherWrite(s: Store, k: string, v: Value)
    requires Ready(s)
    requires k !in InputTags
    ensures Ready(SetTag(s, k, v)) && InputsOf(SetTag(s, k, v)) == InputsOf(s)
  {
    var t := SetTag(s, k, v);
    assert GetTag(t, Enable) == GetTag(s, Enable);
    assert GetTag(t, RunFdbk) == GetTag(s, RunFdbk);
    assert GetTag(t, VfdFault) == GetTag(s, VfdFault);
  }

  /** A write to any tag the scan neither reads nor writes (such as
      Airflow_Status_DI) commutes with the scan: that tag is never read and
      never changed. */
  lemma FanScanIgnoresOtherTags(s: Store, q: bool, k: string, v: Value)
    requires Ready(s)
    requires k !in InputTags && k !in OutputTags
    ensures FanScan(SetTag(s, k, v), q) == Success(SetTag(FanScan(s, q).value, k, v))
  {
    InputAndOutputTagsDisjoint();
    var t := SetTag(s, k, v);
    InputsUnaffectedByOtherWrite(s, k, v);
    var a := FanScan(t, q).value;
    var b := SetTag(FanScan(s, q).value, k, v);
    forall k' ensures GetTag(a, k') == GetTag(b, k') {
      FanScanAt(s, q, k');
      FanScanAt(t, q, k');
      if k' == k {
        assert GetTag(a, k') == Some(v);
      } else if k' in OutputTags {
        assert GetTag(b, k') == GetTag(FanScan(s, q).value, k');
      } else {
        assert GetTag(a, k') == GetTag(t, k') == GetTag(s, k');
      }
    }
    StoreExtensionality(a, b);
  }

  /** In particular the airflow-status input has no influence on a scan. */
  lemma AirflowStatusNeverRead(s: Store, q: bool, v: Value)
    requires Ready(s)
    ensures FanScan(SetTag(s, AirflowStatus, v), q) == Success(SetTag(FanScan(s, q).value, AirflowStatus, v))
  {
    InputAndOutputTagsDisjoint();
    FanScanIgnoresOtherTags(s, q, AirflowStatus, v);
  }
}
