/** One scan of the FB300_EM_Heating block: the hot-water valve command
    follows the demand while enabled, a timer-gated dead-band check raises a
    valve-failure alarm, and the freeze stat overrides everything last. The
    failure-delay timer is external; only its done bit `q` enters a scan.
    The mismatch check reads the valve command tag as the previous scan left
    it, so this block, unlike the fan, carries one value between scans. */
module HeatingValve {
  import opened TagStore

  // Tag names of the block instance.
  const Enable := "FB300_EM_Heating.Enable"
  const Demand := "FB300_EM_Heating.Valve_Demand_In"
  const FreezeStat := "FB300_EM_Heating.UDT.HW_Freeze_Stat_DI"
  const ValveCmd := "FB300_EM_Heating.UDT.HW_Valve_Cmd_AO"
  const ValveFdbk := "FB300_EM_Heating.UDT.HW_Valve_Fdbk_AI"
  const FreezeAlm := "FB300_EM_Heating.UDT.HW_Freeze_Alm"
  const ValveFailureAlm := "FB300_EM_Heating.UDT.Valve_Failure_Alm"

  /** The tags a scan reads; the valve command is both read and written. */
  const InputTags: set<string> := {Enable, Demand, FreezeStat, ValveCmd, ValveFdbk}
  /** The tags a scan writes. */
  const OutputTags: set<string> := {ValveCmd, FreezeAlm, ValveFailureAlm}

  /** Allowed disagreement between command and feedback, in percent. */
  const DeadBand: real := 5.0

  function Abs(x: real): (r: real)
    ensures r >= 0.0
    ensures r == x || r == -x
  {
    if x < 0.0 then -x else x
  }

  /** `prevCmd` is the valve command tag as read at the start of the scan. */
  datatype HeatInputs = HeatInputs(enable: bool, demand: real, freezeStat: bool, prevCmd: real, fdbk: real)

  datatype HeatOutputs = HeatOutputs(valveCmd: real, freezeAlm: bool, valveFailureAlm: bool)

  /** True when command and feedback disagree by more than the dead band. */
  predicate Mismatch(cmd: real, fdbk: real) {
    Abs(cmd - fdbk) > DeadBand
  }

  /** The scan decision: the enable branch first, the freeze override last. */
  function HeatLogic(i: HeatInputs, q: bool): (o: HeatOutputs)
    ensures i.freezeStat ==> o.valveCmd == 0.0 && o.freezeAlm
    ensures i.enable && !i.freezeStat ==> o.valveCmd == i.demand
    ensures !i.enable && !i.freezeStat ==> o == HeatOutputs(0.0, false, false)
    ensures o.freezeAlm <==> i.freezeStat
    ensures o.valveFailureAlm <==> i.enable && !i.freezeStat && Mismatch(i.prevCmd, i.fdbk) && q
    ensures !(o.freezeAlm && o.valveFailureAlm)
  {
    var enabledCmd := if i.enable && !i.freezeStat then i.demand else 0.0;
    var failure := i.enable && !i.freezeStat && Mismatch(i.prevCmd, i.fdbk) && q;
    if i.freezeStat then HeatOutputs(0.0, true, failure)
    else HeatOutputs(enabledCmd, false, failure)
  }

  /** The command does not depend on the timer, the previous command or the
      feedback: the valve-failure alarm is informational and never moves the
      valve. */
  lemma AlarmNeverChangesCommand(i: HeatInputs, prevCmd: real, fdbk: real, q: bool, q': bool)
    ensures HeatLogic(i, q).valveCmd == HeatLogic(i.(prevCmd := prevCmd, fdbk := fdbk), q').valveCmd
  {
  }

  /** With the freeze stat made the outputs are the same whatever the
      enable, demand, feedback and timer say: the override always wins. */
  lemma FreezeOverridesAll(i: HeatInputs, j: HeatInputs, q: bool, q': bool)
    requires i.freezeStat && j.freezeStat
    ensures HeatLogic(i, q) == HeatLogic(j, q') == HeatOutputs(0.0, true, false)
  {
  }

  /** A command within 0..100 percent stays there as long as the demand does. */
  lemma CommandWithinDemandRange(i: HeatInputs, q: bool)
    requires 0.0 <= i.demand <= 100.0
    ensures 0.0 <= HeatLogic(i, q).valveCmd <= 100.0
  {
  }

  /** True when the five input tags hold values of the right type. */
  predicate Ready(s: Store) {
    && Enable in s && s[Enable].B?
    && Demand in s && s[Demand].R?
    && FreezeStat in s && s[FreezeStat].B?
    && ValveCmd in s && s[ValveCmd].R?
    && ValveFdbk in s && s[ValveFdbk].R?
  }

  /** The scan inputs held by a ready store. */
  function InputsOf(s: Store): HeatInputs
    requires Ready(s)
  {
    HeatInputs(s[Enable].b, s[Demand].r, s[FreezeStat].b, s[ValveCmd].r, s[ValveFdbk].r)
  }

  /** Reads the inputs in the order the block reads them, stopping at the first
      missing or wrongly typed tag. */
  function ReadInputs(s: Store): (r: Result<HeatInputs>)
    ensures r.Success? <==> Ready(s)
    ensures r.Success? ==> r.value == InputsOf(s)
    ensures r.Failure? ==> r.error.name in InputTags
  {
    var enable :- ReadBool(s, Enable);
    var demand :- ReadReal(s, Demand);
    var freezeStat :- ReadBool(s, FreezeStat);
    var cmd :- ReadReal(s, ValveCmd);
    var fdbk :- ReadReal(s, ValveFdbk);
    Success(HeatInputs(enable, demand, freezeStat, cmd, fdbk))
  }

  /** True when the output tags of `s` hold exactly `o`. */
  predicate Shows(s: Store, o: HeatOutputs) {
    && GetTag(s, ValveCmd) == Some(R(o.valveCmd))
    && GetTag(s, FreezeAlm) == Some(B(o.freezeAlm))
    && GetTag(s, ValveFailureAlm) == Some(B(o.valveFailureAlm))
  }

  /** Writes the three outputs, in the order the block writes them. */
  function WriteOutputs(s: Store, o: HeatOutputs): (r: Store)
    ensures Shows(r, o)
    ensures r.Keys == s.Keys + OutputTags
    ensures forall k :: k !in OutputTags ==> GetTag(r, k) == GetTag(s, k)
  {
    var s1 := SetTag(s, ValveCmd, R(o.valveCmd));
    var s2 := SetTag(s1, FreezeAlm, B(o.freezeAlm));
    SetTag(s2, ValveFailureAlm, B(o.valveFailureAlm))
  }

  /** One scan over the tag store. A scan whose inputs cannot be read
      commits nothing. Otherwise the valve-failure alarm is computed from
      the command tag as it was BEFORE this scan, and only the command and
      the two alarms are written. */
  function HeatScan(s: Store, q: bool): (r: Result<Store>)
    ensures r.Success? <==> Ready(s)
    ensures r.Success? ==> Shows(r.value, HeatLogic(InputsOf(s), q))
    ensures r.Success? ==>
              (GetTag(r.value, ValveFailureAlm) == Some(B(true)) <==>
                 s[Enable].b && !s[FreezeStat].b && Mismatch(s[ValveCmd].r, s[ValveFdbk].r) && q)
    ensures r.Success? ==> r.value.Keys == s.Keys + {FreezeAlm, ValveFailureAlm}
    ensures r.Success? ==> forall k :: k !in OutputTags ==> GetTag(r.value, k) == GetTag(s, k)
  {
    var i :- ReadInputs(s);
    Success(WriteOutputs(s, HeatLogic(i, q)))
  }

  /** The value a scan leaves at one tag. */
  lemma HeatScanAt(s: Store, q: bool, k: string)
    requires Ready(s)
    ensures k in OutputTags ==> GetTag(HeatScan(s, q).value, k) == GetTag(WriteOutputs(map[], HeatLogic(InputsOf(s), q)), k)
    ensures k !in OutputTags ==> GetTag(HeatScan(s, q).value, k) == GetTag(s, k)
  {
  }

  /** A scan keeps the store ready for the next one and leaves the four
      pure inputs (enable, demand, freeze stat, feedback) untouched. */
  lemma HeatScanKeepsInputs(s: Store, q: bool)
    requires Ready(s)
    ensures Ready(HeatScan(s, q).value)
    ensures var t := InputsOf(HeatScan(s, q).value);
            t == InputsOf(s).(prevCmd := HeatLogic(InputsOf(s), q).valveCmd)
  {
    var s1 := HeatScan(s, q).value;
    HeatScanAt(s, q, Enable);
    HeatScanAt(s, q, Demand);
    HeatScanAt(s, q, FreezeStat);
    HeatScanAt(s, q, ValveCmd);
    HeatScanAt(s, q, ValveFdbk);
  }

  /** Repeating a scan with unchanged inputs and `q` is stable from the
      SECOND scan on: the first repetition can still change the
      valve-failure alarm, because it compares the newly written command
      with the feedback. */
  lemma HeatScanStableAfterTwo(s: Store, q: bool)
    requires Ready(s)
    ensures var s1 := HeatScan(s, q).value;
            var s2 := HeatScan(s1, q).value;
            HeatScan(s2, q) == Success(s2)
  {
    var s1 := HeatScan(s, q).value;
    HeatScanKeepsInputs(s, q);
    var s2 := HeatScan(s1, q).value;
    HeatScanKeepsInputs(s1, q);
    assert InputsOf(s2) == InputsOf(s1);
    var s3 := HeatScan(s2, q).value;
    forall k ensures GetTag(s3, k) == GetTag(s2, k) {
      HeatScanAt(s1, q, k);
      HeatScanAt(s2, q, k);
    }
    StoreExtensionality(s3, s2);
  }

  /** The single scan is not idempotent: from the block's initial values,
      enabled with demand 50.0 and the timer done, the first scan raises no
      alarm but repeating it does. */
  lemma HeatScanNotIdempotent()
    ensures var s := map[Enable := B(true), Demand := R(50.0), FreezeStat := B(false),
                         ValveCmd := R(0.0), ValveFdbk := R(0.0),
                         FreezeAlm := B(false), ValveFailureAlm := B(false)];
            var s1 := HeatScan(s, true).value;
            && Ready(s)
            && GetTag(s1, ValveFailureAlm) == Some(B(false))
            && GetTag(HeatScan(s1, true).value, ValveFailureAlm) == Some(B(true))
  {
    var s := map[Enable := B(true), Demand := R(50.0), FreezeStat := B(false),
                 ValveCmd := R(0.0), ValveFdbk := R(0.0),
                 FreezeAlm := B(false), ValveFailureAlm := B(false)];
    assert Ready(s);
    HeatScanKeepsInputs(s, true);
  }

  /** Writing a tag the scan does not read leaves the scan inputs alone. */
  lemma InputsUnaffectedByOtherWrite(s: Store, k: string, v: Value)
    requires Ready(s)
    requires k !in InputTags
    ensures Ready(SetTag(s, k, v)) && InputsOf(SetTag(s, k, v)) == InputsOf(s)
  {
    var t := SetTag(s, k, v);
    assert GetTag(t, Enable) == GetTag(s, Enable);
    assert GetTag(t, Demand) == GetTag(s, Demand);
    assert GetTag(t, FreezeStat) == GetTag(s, FreezeStat);
    assert GetTag(t, ValveCmd) == GetTag(s, ValveCmd);
    assert GetTag(t, ValveFdbk) == GetTag(s, ValveFdbk);
  }

  /** A write to any tag the scan neither reads nor writes commutes with the scan. */
  lemma HeatScanIgnoresOtherTags(s: Store, q: bool, k: string, v: Value)
    requires Ready(s)
    requires k !in InputTags && k !in OutputTags
    ensures HeatScan(SetTag(s, k, v), q) == Success(SetTag(HeatScan(s, q).value, k, v))
  {
    var t := SetTag(s, k, v);
    InputsUnaffectedByOtherWrite(s, k, v);
    var a := HeatScan(t, q).value;
    var b := SetTag(HeatScan(s, q).value, k, v);
    forall k' ensures GetTag(a, k') == GetTag(b, k') {
      HeatScanAt(s, q, k');
      HeatScanAt(t, q, k');
    }
    StoreExtensionality(a, b);
  }
}
