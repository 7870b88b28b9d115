/** anesthesia_machine_gas_mixer.c: the anesthetic gas percentage follows
    the patient setting; low oxygen supply pressure shuts the gas off
    whatever the setting. The percentage stays in [0, 8]. */
module GasMixer {
  import opened Saturation

  const MaxAnestheticPercent := 8
  const MinAnestheticPercent := 0
  const LowO2PressureThreshold := 30

  datatype Sensors = Sensors(
    o2SupplyPressure: int,
    targetAnestheticPercent: int)   // the mode variable of interest

  /** is_o2_pressure_low */
  predicate IsO2PressureLow(s: Sensors) {
    s.o2SupplyPressure < LowO2PressureThreshold
  }

  /** get_normal_anesthetic_percent: the patient setting, unchanged. */
  function NormalAnestheticPercent(s: Sensors): int
  {
    s.targetAnestheticPercent
  }

  /** apply_concentration_limits is the clamp to [0, 8]. */
  function ConcentrationLimits(percent: int): (r: int)
    ensures r == Clamp(percent, MinAnestheticPercent, MaxAnestheticPercent)
  {
    if percent > MaxAnestheticPercent then MaxAnestheticPercent
    else if percent < MinAnestheticPercent then MinAnestheticPercent
    else percent
  }

  /** step_control_logic */
  function Step(s: Sensors): (r: int)
    ensures MinAnestheticPercent <= r <= MaxAnestheticPercent
    ensures IsO2PressureLow(s) ==> r == MinAnestheticPercent
    ensures !IsO2PressureLow(s) ==> r == Clamp(s.targetAnestheticPercent, MinAnestheticPercent, MaxAnestheticPercent)
  {
    var newPercent := if IsO2PressureLow(s) then MinAnestheticPercent else NormalAnestheticPercent(s);
    ConcentrationLimits(newPercent)
  }

  /** A setting within [0, 8] is delivered as set when the oxygen supply is
      adequate. */
  lemma InRangeSettingDelivered(s: Sensors)
    requires !IsO2PressureLow(s) && MinAnestheticPercent <= s.targetAnestheticPercent <= MaxAnestheticPercent
    ensures Step(s) == s.targetAnestheticPercent
  {
  }

  /** Low oxygen pressure ignores the patient setting. */
  lemma LowO2IgnoresSetting(s: Sensors, target: int)
    requires IsO2PressureLow(s)
    ensures Step(s.(targetAnestheticPercent := target)) == Step(s)
  {
  }

  /** With adequate oxygen the setting does matter. */
  lemma SettingIsRelevant()
    ensures exists s: Sensors :: !IsO2PressureLow(s) && Step(s) != Step(s.(targetAnestheticPercent := 0))
  {
    var s := Sensors(40, 3);
    assert Step(s) == 3;
    assert Step(s.(targetAnestheticPercent := 0)) == 0;
  }
}
