/** hvac_damper_controller.c: an air damper opened fully on a call for
    cooling. A fire alarm closes it whatever the thermostat asks. The
    position stays in [0, 100]; the temperatures read each cycle play no part
    in the step. */
module HvacDamper {
  import opened Saturation

  const DamperMaxOpen := 100
  const DamperMinOpen := 0
  const DamperFireSafePosition := 0

  datatype Sensors = Sensors(
    fireAlarmActive: bool,
    callForCooling: bool,   // the mode variable of interest
    systemOn: bool)

  /** is_fire_alarm_triggered */
  predicate IsFireAlarmTriggered(s: Sensors) {
    s.fireAlarmActive
  }

  /** calculate_nominal_damper_position: fully open exactly when the system
      is on and cooling is called for, closed otherwise. */
  function NominalDamperPosition(s: Sensors): (r: int)
    ensures r == DamperMaxOpen <==> s.systemOn && s.callForCooling
    ensures r == DamperMinOpen <==> !(s.systemOn && s.callForCooling)
  {
    if !s.systemOn then DamperMinOpen
    else if s.callForCooling then DamperMaxOpen
    else DamperMinOpen
  }

  /** apply_position_saturation is the clamp to [0, 100]. */
  function PositionSaturation(position: int): (r: int)
    ensures r == Clamp(position, DamperMinOpen, DamperMaxOpen)
  {
    if position > DamperMaxOpen then DamperMaxOpen
    else if position < DamperMinOpen then DamperMinOpen
    else position
  }

  /** step */
  function Step(s: Sensors, lastDamperPosition: int): (r: int)
    ensures r == DamperMinOpen || r == DamperMaxOpen
    ensures IsFireAlarmTriggered(s) ==> r == DamperFireSafePosition
  {
    var newPosition := if IsFireAlarmTriggered(s) then DamperFireSafePosition else NominalDamperPosition(s);
    PositionSaturation(newPosition)
  }

  /** The damper is open exactly when there is no fire, the system is on and
      cooling is called for. */
  lemma OpenExactlyWhenCoolingWithoutFire(s: Sensors, last: int)
    ensures Step(s, last) == DamperMaxOpen <==> !s.fireAlarmActive && s.systemOn && s.callForCooling
  {
  }

  /** A fire alarm ignores the call for cooling. */
  lemma FireAlarmIgnoresCooling(s: Sensors, last: int, cooling: bool)
    requires IsFireAlarmTriggered(s)
    ensures Step(s.(callForCooling := cooling), last) == Step(s, last)
  {
  }

  /** Without a fire the call for cooling does matter. */
  lemma CoolingIsRelevant()
    ensures exists s: Sensors, last: int ::
              !IsFireAlarmTriggered(s) && Step(s, last) != Step(s.(callForCooling := !s.callForCooling), last)
  {
    var s := Sensors(false, true, true);
    assert Step(s, 0) == 100;
    assert Step(s.(callForCooling := false), 0) == 0;
  }
}
