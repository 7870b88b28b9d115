/** satellite_solar_array_positioner.c: the array angle tracks the sun; an
    overheating battery turns it edge-on (90 degrees) whatever the sun's
    position. The angle stays in [-90, 90]. */
module SolarArray {
  import opened Saturation

  const SafeModeAngle := 90
  const MaxAngle := 90
  const MinAngle := -90
  const HighBatteryTempThreshold := 60

  datatype Sensors = Sensors(
    batteryTemperature: int,
    sunPositionAngle: int)   // the mode variable of interest

  /** is_battery_overheating */
  predicate IsBatteryOverheating(s: Sensors) {
    s.batteryTemperature > HighBatteryTempThreshold
  }

  /** get_sun_tracking_angle: the sun's angle, unchanged. */
  function SunTrackingAngle(s: Sensors): int
  {
    s.sunPositionAngle
  }

  /** apply_angle_limits is the clamp to [-90, 90]. */
  function AngleLimits(angle: int): (r: int)
    ensures r == Clamp(angle, MinAngle, MaxAngle)
  {
    if angle > MaxAngle then MaxAngle
    else if angle < MinAngle then MinAngle
    else angle
  }

  /** The limits leave every angle in [-90, 90] alone. */
  lemma AngleLimitsIdentityInRange(angle: int)
    requires MinAngle <= angle <= MaxAngle
    ensures AngleLimits(angle) == angle
  {
  }

  /** step_control_logic */
  function Step(s: Sensors): (r: int)
    ensures MinAngle <= r <= MaxAngle
    ensures IsBatteryOverheating(s) ==> r == SafeModeAngle
    ensures !IsBatteryOverheating(s) ==> r == Clamp(s.sunPositionAngle, MinAngle, MaxAngle)
  {
    var newArrayAngle := if IsBatteryOverheating(s) then SafeModeAngle else SunTrackingAngle(s);
    AngleLimits(newArrayAngle)
  }

  /** Overheating ignores the sun's position. */
  lemma OverheatIgnoresSunAngle(s: Sensors, angle: int)
    requires IsBatteryOverheating(s)
    ensures Step(s.(sunPositionAngle := angle)) == Step(s)
  {
  }

  /** With a cool battery the sun's position does matter. */
  lemma SunAngleIsRelevant()
    ensures exists s: Sensors :: !IsBatteryOverheating(s) && Step(s) != Step(s.(sunPositionAngle := 0))
  {
    var s := Sensors(50, 45);
    assert Step(s) == 45;
    assert Step(s.(sunPositionAngle := 0)) == 0;
  }
}
