# Air-handling unit scan logic — a Dafny model

This project models two per-scan PLC control routines of an HVAC air-handling
unit, as the repository simulates them in Python, and the tag store they read
and write:

- **Tag store** (`MockPLC`): a dictionary register bank. `set_tag` overwrites
  unconditionally; `get_tag` of an unknown tag returns `None`.
- **Supply-fan sequencer** (`FB100_EM_SupplyFan`, `run_fan_logic`): from
  Enable, run feedback, the VFD fault input and the fault-delay timer's done
  bit `Q`, it computes the start command, the running status, a fan-failure
  alarm and a VFD-fault alarm. Priority: disabled, then VFD fault, then the
  start/feedback check.
- **Heating-valve controller** (`FB300_EM_Heating`, `run_heating_logic`):
  while enabled the valve command is the demand; a timer-gated dead-band check
  (|previous command − feedback| > 5.0) raises a valve-failure alarm; a
  freeze-stat override, applied last, closes the valve and raises a freeze
  alarm.

The model is functional. A store is `map<string, Value>` with
`Value = B(bool) | R(real)`. A scan is a pure function from (store, `Q`) to a
`Result` that holds the new store, or a scan error when an input tag is
missing or has the wrong type. Each block's decision is also a pure function
from an input record to an output record (`FanLogic`, `HeatLogic`). The
repository's unit tests become lemmas over short scan sequences. Traces of
driver steps (set the inputs, then scan) carry the multi-scan properties.

Modules:

- `TagStore`: values, stores, reads and writes, and the `Result`/`ScanError`
  types.
- `SupplyFan`, `SupplyFanScenarios`: the fan block, its unit-test scenarios
  and its traces.
- `HeatingValve`, `HeatingValveScenarios`: the same for the heating block.
- `ScanComposition`: both blocks on one shared store.

## Model

| member | source | states |
|---|---|---|
| TagStore.NewStore | TestSuiteFiles/test_em100_supply_fan.py:6-7 | a new register bank holds no tags: every tag reads as None |
| TagStore.GetTag | TestSuiteFiles/test_em100_supply_fan.py:12-13 | a read gives None exactly when the tag was never stored, and the stored value otherwise |
| TagStore.SetTag | TestSuiteFiles/test_em100_supply_fan.py:9-10 | after a write the tag reads the written value; every other tag reads as before; the write adds the tag if it was missing |
| TagStore.SetTagOverwrites | TestSuiteFiles/test_em100_supply_fan.py:9-10 | a write overwrites unconditionally: an earlier write to the same tag leaves no trace |
| TagStore.GetAfterSetTags | TestSuiteFiles/test_em100_supply_fan.py:9-13 | after any sequence of writes, a tag reads its last written value; a tag never written reads as before, so a never-set tag of a fresh store reads None (proved by induction) |
| TagStore.ReadBool | TestSuiteFiles/test_em100_supply_fan.py:38-40 | a boolean input read succeeds exactly when the tag exists and holds a BOOL; otherwise it names the tag as undefined or mistyped |
| TagStore.ReadReal | TestSuiteFiles/test_em300_heating.py:38-41 | an analog input read succeeds exactly when the tag exists and holds a REAL; otherwise it names the tag as undefined or mistyped |
| SupplyFan.FanLogic | TestSuiteFiles/test_em100_supply_fan.py:42-63 | disabled gives all four outputs off; enabled with a VFD fault gives only the VFD alarm; otherwise the failure alarm is on iff feedback is missing and Q is done, and the start command is on iff the failure alarm is off; Is_Running iff start and feedback; running implies enabled, no fault, no failure alarm; the two alarms are never both on |
| SupplyFan.FanLogicFollowsStateMachine | TestSuiteFiles/test_em100_supply_fan.py:48-63 | the outputs are exactly the indication of the state (Disabled, Starting, Running, FaultTripped, FailureAlarmed) that the inputs select by priority, and reading the state back from the outputs recovers it |
| SupplyFan.IndicationIdentifiesState | TestSuiteFiles/test_em100_supply_fan.py:42-63 | the five states have pairwise different output patterns |
| SupplyFan.ReadInputs | TestSuiteFiles/test_em100_supply_fan.py:38-40 | the three inputs are read successfully iff all three tags hold booleans; a failure names one of the three input tags |
| SupplyFan.WriteOutputs | TestSuiteFiles/test_em100_supply_fan.py:66-69 | the four output tags hold the given outputs and no other tag changes |
| SupplyFan.FanScan | TestSuiteFiles/test_em100_supply_fan.py:36-69 | a scan succeeds iff the inputs are readable; it then shows FanLogic of the inputs and Q on the output tags and leaves every other tag (the inputs and Airflow_Status_DI included) unchanged |
| SupplyFan.OutputsDependOnlyOnInputs | TestSuiteFiles/test_em100_supply_fan.py:38-46 | two stores that agree on the three input tags give the same outputs, whatever their previous outputs or other tags hold |
| SupplyFan.FanScanIdempotent | TestSuiteFiles/test_em100_supply_fan.py:36-69 | scanning twice with the same inputs and Q leaves exactly the store one scan leaves |
| SupplyFan.FanScanIgnoresOtherTags | TestSuiteFiles/test_em100_supply_fan.py:36-69 | a write to any tag outside the block's inputs and outputs commutes with the scan: the scan neither reads nor changes it |
| SupplyFan.AirflowStatusNeverRead | TestSuiteFiles/test_em100_supply_fan.py:38-40 | Airflow_Status_DI has no influence on a scan and is never written by it |
| SupplyFanScenarios.SetUp | TestSuiteFiles/test_em100_supply_fan.py:19-30 | the fixture seeds a ready store with all inputs and outputs off |
| SupplyFanScenarios.NormalStartSequence | TestSuiteFiles/test_em100_supply_fan.py:71-80 | enabling commands the fan; with feedback it reads as running with no failure alarm |
| SupplyFanScenarios.FanFailureWithDelay | TestSuiteFiles/test_em100_supply_fan.py:82-97 | without feedback the fan is commanded while Q is false; with Q done the failure alarm is on and the command off |
| SupplyFanScenarios.VfdFaultTrip | TestSuiteFiles/test_em100_supply_fan.py:99-112 | a running fan loses its command and running status, and raises the VFD alarm, in the scan the fault appears |
| SupplyFanScenarios.SetInputs | TestSuiteFiles/test_em100_supply_fan.py:84-85 | writing the three inputs makes the store ready with exactly those inputs and changes no other tag |
| SupplyFanScenarios.ApplyStep | TestSuiteFiles/test_em100_supply_fan.py:84-89 | a scan after the driver has written the inputs always succeeds |
| SupplyFanScenarios.RunLastStepDecides | TestSuiteFiles/test_em100_supply_fan.py:42-46 | non-latching: after any trace the outputs are FanLogic of the last step alone |
| SupplyFanScenarios.RunForgetsHistory | TestSuiteFiles/test_em100_supply_fan.py:42-46 | two traces from any stores that end in the same step agree on all outputs |
| SupplyFanScenarios.RunKeepsOtherTags | TestSuiteFiles/test_em100_supply_fan.py:66-69 | no fan trace changes a tag outside the block's inputs and outputs (proved by induction) |
| SupplyFanScenarios.RunAlarmsExclusive | TestSuiteFiles/test_em100_supply_fan.py:50-63 | after any trace the two alarms are not both on, and running status implies the start command |
| HeatingValve.HeatLogic | TestSuiteFiles/test_em300_heating.py:43-57 | freeze stat gives command 0.0 and the freeze alarm; enabled without freeze gives command = demand; neither gives command 0.0 and no alarms; freeze alarm iff freeze stat; valve-failure alarm iff enabled, no freeze, abs(previous command − feedback) > 5.0 and Q; never both alarms |
| HeatingValve.AlarmNeverChangesCommand | TestSuiteFiles/test_em300_heating.py:47-53 | the command does not depend on Q, the previous command or the feedback, so the valve-failure alarm never moves the valve |
| HeatingValve.FreezeOverridesAll | TestSuiteFiles/test_em300_heating.py:55-57 | with the freeze stat made the outputs are command 0.0, freeze alarm on, failure alarm off, whatever enable, demand, feedback and Q say |
| HeatingValve.CommandWithinDemandRange | TestSuiteFiles/test_em300_heating.py:47-57 | a demand within 0..100 percent gives a command within 0..100 percent |
| HeatingValve.ReadInputs | TestSuiteFiles/test_em300_heating.py:37-41 | the five inputs are read successfully iff each tag exists with its type; a failure names one of the five input tags |
| HeatingValve.WriteOutputs | TestSuiteFiles/test_em300_heating.py:59-61 | the three output tags hold the given outputs and no other tag changes |
| HeatingValve.HeatScan | TestSuiteFiles/test_em300_heating.py:35-61 | a scan succeeds iff the inputs are readable; the valve-failure alarm it writes is on iff enabled, no freeze, abs(command tag as read before the scan − feedback) > 5.0 and Q; it writes only the command and the two alarms |
| HeatingValve.HeatScanKeepsInputs | TestSuiteFiles/test_em300_heating.py:59-61 | after a scan the store is still ready, with enable, demand, freeze stat and feedback unchanged and the new command in place of the previous one |
| HeatingValve.HeatScanStableAfterTwo | TestSuiteFiles/test_em300_heating.py:40-53 | with unchanged inputs and Q, a third scan leaves exactly the store the second left |
| HeatingValve.HeatScanNotIdempotent | TestSuiteFiles/test_em300_heating.py:40-53 | from the fixture values, enabled with demand 50.0 and Q done, the first scan raises no valve-failure alarm and a repeat of it does |
| HeatingValve.HeatScanIgnoresOtherTags | TestSuiteFiles/test_em300_heating.py:35-61 | a write to any tag outside the block's inputs and outputs commutes with the scan |
| HeatingValveScenarios.SetUp | TestSuiteFiles/test_em300_heating.py:23-29 | the fixture seeds a ready store with everything off and at 0.0 |
| HeatingValveScenarios.ValvePassthrough | TestSuiteFiles/test_em300_heating.py:63-68 | enabled with demand 50.0, the command becomes 50.0 |
| HeatingValveScenarios.FreezeSafetyTrip | TestSuiteFiles/test_em300_heating.py:70-82 | demand 80.0 passes through; when the freeze stat trips, the command drops to 0.0 and the freeze alarm comes on although the block stays enabled |
| HeatingValveScenarios.ValveFailureAlarm | TestSuiteFiles/test_em300_heating.py:84-100 | with the command at 50.0 and feedback 10.0 the alarm is off while Q is false and on once Q is done; the command stays 50.0 |
| HeatingValveScenarios.SetInputs | TestSuiteFiles/test_em300_heating.py:86-90 | the driver's writes make the store ready iff the command tag already holds an analog value; the previous command is kept |
| HeatingValveScenarios.ApplyStep | TestSuiteFiles/test_em300_heating.py:35-61 | on a store whose command tag holds an analog value the driver step succeeds (and fails otherwise); the new command is the step's rule-based command (closed on freeze, demand when enabled, closed otherwise) and the alarm compares the previous command with the step's feedback |
| HeatingValveScenarios.RunSucceeds | TestSuiteFiles/test_em300_heating.py:47-57 | a trace from a seeded store never fails, and afterwards the command is the one the last step asks for (proved by induction) |
| HeatingValveScenarios.RunAlarmUsesPreviousCommand | TestSuiteFiles/test_em300_heating.py:40-53 | after two or more steps, the valve-failure alarm compares the second-to-last step's command, not the last demand, with the last feedback |
| HeatingValveScenarios.RunKeepsCommandInRange | TestSuiteFiles/test_em300_heating.py:47-57 | if the command starts within 0..100 and every demand is within 0..100, the command stays within 0..100 over any trace |
| HeatingValveScenarios.RunFreezeClosesValve | TestSuiteFiles/test_em300_heating.py:55-57 | after a step with the freeze stat made, the valve is closed, the freeze alarm is on and the failure alarm is off, whatever the history |
| ScanComposition.TagSetsDisjoint | TestSuiteFiles/test_em300_heating.py:23-29 | the heating block's tags and the fan block's tags are disjoint |
| ScanComposition.FanScanKeepsHeatingInputs | TestSuiteFiles/test_em100_supply_fan.py:66-69 | a fan scan leaves the heating inputs readable and unchanged |
| ScanComposition.HeatScanKeepsFanInputs | TestSuiteFiles/test_em300_heating.py:59-61 | a heating scan leaves the fan inputs readable and unchanged |
| ScanComposition.ScansCommute | TestSuiteFiles/test_em300_heating.py:35-61 | on a store ready for both blocks, the fan and heating scans give the same store in either order |

## Behaviour worth noting

- The heating scan is not idempotent. Its mismatch check reads the command
  tag the previous scan wrote (test_em300_heating.py:40, 51), so repeating a
  scan with unchanged inputs can raise the valve-failure alarm
  (`HeatingValve.HeatScanNotIdempotent`). From the second repeat on the store
  is stable (`HeatingValve.HeatScanStableAfterTwo`). The fan scan is
  idempotent (`SupplyFan.FanScanIdempotent`).
- The valve-failure check compares the command tag as read at the start of
  the scan with the feedback, not the newly computed demand
  (test_em300_heating.py:40, 48, 51;
  `HeatingValveScenarios.RunAlarmUsesPreviousCommand`).
- `get_tag` returns `None` for an unknown tag rather than failing
  (test_em100_supply_fan.py:12-13). See "Left out" for how the scans treat
  a missing input.
- The fan does not oscillate while `Q` stays true. Every enabled scan without
  a VFD fault sets `start_cmd` true before the failure check
  (test_em100_supply_fan.py:55-61), so with `Q` held true the failure alarm
  holds scan after scan.

## Left out

- The on-delay timer: in the repository it is a test mock whose `Q` the tests
  set by hand. Each scan takes `Q` as a boolean parameter. No accumulating
  timer semantics is modelled, so neither is the fan's alarm/restart
  oscillation that such a timer would produce.
- The `unittest` harness and assertions. The six test methods are restated as
  lemmas over scan sequences instead.
- TagStore.ReadBool, TagStore.ReadReal, SupplyFan.ReadInputs, HeatingValve.ReadInputs, SupplyFan.FanScan, HeatingValve.HeatScan, HeatingValveScenarios.ApplyStep: Python treats a missing tag as `None`, and a value of the wrong type by its truthiness. The model refuses such a scan with `UndefinedTag` or `TypeMismatch` and commits nothing. It does not reproduce Python's coercions, such as `None` reading as false or `True - 0.0` evaluating to `1.0`. On stores seeded as the test fixtures seed them, the two behaviours agree. For the same reason a heating driver step fails on a store whose command tag is missing; Python would raise a `TypeError` there only when the block is enabled without freeze (it evaluates `abs(None - fdbk)`), and would otherwise write 0.0 and the alarms as usual.
- The economizer controller (`MAC HVAC/TestSuiteFiles/EM400_Test_Script.py`):
  a separate routine with its own register bank. It is not part of this
  model.
- IEEE floating point (NaN, rounding, infinities). Analog values are Dafny
  `real`, since the code only copies them, subtracts, takes `abs` and compares
  with 5.0.
- The unused `PLC_INSTANCE_NAME` constant, the value logging of the other
  script's register bank, and any real TIA Portal or PLC I/O.
