/** The two blocks sharing one register bank. Their tag names live under
    different instance prefixes, so neither scan reads or writes a tag of
    the other, and a driver may run them in either order within a scan
    cycle. */
module ScanComposition {
  import opened TagStore
  import SupplyFan
  import HeatingValve

  /** Every tag the fan block reads, writes or owns. */
  const FanTags: set<string> :=
    SupplyFan.InputTags + SupplyFan.OutputTags + {SupplyFan.AirflowStatus}

  /** Every tag the heating block reads or writes. */
  const HeatTags: set<string> := HeatingValve.InputTags + HeatingValve.OutputTags

  lemma TagSetsDisjoint()
    ensures FanTags !! HeatTags
  {
  }

  /** A fan scan leaves the heating block's inputs as they were. */
  lemma FanScanKeepsHeatingInputs(s: Store, q: bool)
    requires SupplyFan.Ready(s) && HeatingValve.Ready(s)
    ensures HeatingValve.Ready(SupplyFan.FanScan(s, q).value)
    ensures HeatingValve.InputsOf(SupplyFan.FanScan(s, q).value) == HeatingValve.InputsOf(s)
  {
    TagSetsDisjoint();
    SupplyFan.FanScanAt(s, q, HeatingValve.Enable);
    SupplyFan.FanScanAt(s, q, HeatingValve.Demand);
    SupplyFan.FanScanAt(s, q, HeatingValve.FreezeStat);
    SupplyFan.FanScanAt(s, q, HeatingValve.ValveCmd);
    SupplyFan.FanScanAt(s, q, HeatingValve.ValveFdbk);
  }

  /** A heating scan leaves the fan block's inputs as they were. */
  lemma HeatScanKeepsFanInputs(s: Store, q: bool)
    requires SupplyFan.Ready(s) && HeatingValve.Ready(s)
    ensures SupplyFan.Ready(HeatingValve.HeatScan(s, q).value)
    ensures SupplyFan.InputsOf(HeatingValve.HeatScan(s, q).value) == SupplyFan.InputsOf(s)
  {
    TagSetsDisjoint();
    HeatingValve.HeatScanAt(s, q, SupplyFan.Enable);
    HeatingValve.HeatScanAt(s, q, SupplyFan.RunFdbk);
    HeatingValve.HeatScanAt(s, q, SupplyFan.VfdFault);
  }

  /** Running the fan scan then the heating scan leaves the same store as
      the other order: the blocks do not interfere. */
  lemma ScansCommute(s: Store, qFan: bool, qHeat: bool)
    requires SupplyFan.Ready(s) && HeatingValve.Ready(s)
    ensures HeatingValve.HeatScan(SupplyFan.FanScan(s, qFan).value, qHeat).Success?
    ensures SupplyFan.FanScan(HeatingValve.HeatScan(s, qHeat).value, qFan).Success?
    ensures HeatingValve.HeatScan(SupplyFan.FanScan(s, qFan).value, qHeat) ==
            SupplyFan.FanScan(HeatingValve.HeatScan(s, qHeat).value, qFan)
  {
    TagSetsDisjoint();
    FanScanKeepsHeatingInputs(s, qFan);
    HeatScanKeepsFanInputs(s, qHeat);
    var f := SupplyFan.FanScan(s, qFan).value;
    var h := HeatingValve.HeatScan(s, qHeat).value;
    var fh := HeatingValve.HeatScan(f, qHeat).value;
    var hf := SupplyFan.FanScan(h, qFan).value;
    forall k ensures GetTag(fh, k) == GetTag(hf, k) {
      SupplyFan.FanScanAt(s, qFan, k);
      SupplyFan.FanScanAt(h, qFan, k);
      HeatingValve.HeatScanAt(s, qHeat, k);
      HeatingValve.HeatScanAt(f, qHeat, k);
    }
    StoreExtensionality(fh, hf);
  }
}
