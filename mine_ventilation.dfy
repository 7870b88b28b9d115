/** mining_ventilation_fan_controller.c: ventilation fans at normal speed
    during a work shift and idle otherwise; methane above 500 ppm runs them
    flat out whatever the shift. The speed is 20, 60 or 100. */
module MineVentilation {

  const FanSpeedMax := 100
  const FanSpeedNormal := 60
  const FanSpeedIdle := 20
  const MethaneThreshold := 500

  datatype Sensors = Sensors(
    methaneLevelPpm: int,
    isWorkShiftActive: bool)   // the mode variable of interest

  /** step_control_logic */
  function Step(s: Sensors): (r: int)
    ensures r in {FanSpeedIdle, FanSpeedNormal, FanSpeedMax}
    ensures FanSpeedIdle <= r <= FanSpeedMax
    ensures r == FanSpeedMax <==> s.methaneLevelPpm > MethaneThreshold
    ensures r == FanSpeedNormal <==> s.methaneLevelPpm <= MethaneThreshold && s.isWorkShiftActive
    ensures r == FanSpeedIdle <==> s.methaneLevelPpm <= MethaneThreshold && !s.isWorkShiftActive
  {
    if s.methaneLevelPpm > MethaneThreshold then FanSpeedMax
    else if s.isWorkShiftActive then FanSpeedNormal
    else FanSpeedIdle
  }

  /** High methane ignores the work shift. */
  lemma MethaneIgnoresShift(s: Sensors, shift: bool)
    requires s.methaneLevelPpm > MethaneThreshold
    ensures Step(s.(isWorkShiftActive := shift)) == Step(s)
  {
  }

  /** More methane never slows the fans. */
  lemma SpeedMonotoneInMethane(s: Sensors, more: int)
    requires s.methaneLevelPpm <= more
    ensures Step(s) <= Step(s.(methaneLevelPpm := more))
  {
  }

  /** Below the threshold the shift does matter. */
  lemma ShiftIsRelevant()
    ensures exists s: Sensors :: s.methaneLevelPpm <= MethaneThreshold && Step(s) != Step(s.(isWorkShiftActive := !s.isWorkShiftActive))
  {
    var s := Sensors(100, true);
    assert Step(s) == FanSpeedNormal;
    assert Step(s.(isWorkShiftActive := false)) == FanSpeedIdle;
  }
}
