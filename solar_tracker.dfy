/** solar_panel_tracker.c: the actuator speed that turns a panel toward the
    sun. High wind drives the panel to the flat stow position at full speed,
    whatever tracking mode is selected. The speed stays in [-100, 100]. */
module SolarTracker {
  import opened Saturation

  const MaxActuatorSpeed := 100
  const WindSpeedStowMph := 50
  const StowPositionDegrees := 0
  const LdrThreshold := 50

  datatype Sensors = Sensors(
    panelAngleDeg: int,
    windSpeedMph: int,
    ldrEastLumens: int,
    ldrWestLumens: int,
    trackingMode: int)   // the mode variable of interest

  /** is_wind_speed_critical */
  predicate IsWindSpeedCritical(s: Sensors) {
    s.windSpeedMph > WindSpeedStowMph
  }

  /** calculate_stow_speed: full speed back toward 0 degrees, and nothing
      once there. */
  function StowSpeed(s: Sensors): (r: int)
    ensures r == -MaxActuatorSpeed <==> s.panelAngleDeg > StowPositionDegrees
    ensures r == MaxActuatorSpeed <==> s.panelAngleDeg < StowPositionDegrees
    ensures r == 0 <==> s.panelAngleDeg == StowPositionDegrees
  {
    if s.panelAngleDeg > StowPositionDegrees then -MaxActuatorSpeed
    else if s.panelAngleDeg < StowPositionDegrees then MaxActuatorSpeed
    else 0
  }

  function AbsInt(x: int): int { if x < 0 then -x else x }

  /** calculate_normal_tracking_speed: the light-sensor mode (0) turns at 50
      toward the brighter side once the two sensors differ by more than the
      threshold, and holds still otherwise; any other mode turns at 10. */
  function NormalTrackingSpeed(s: Sensors): (r: int)
    ensures s.trackingMode != 0 ==> r == 10
    ensures s.trackingMode == 0 && s.ldrEastLumens - s.ldrWestLumens > LdrThreshold ==> r == 50
    ensures s.trackingMode == 0 && s.ldrWestLumens - s.ldrEastLumens > LdrThreshold ==> r == -50
    ensures s.trackingMode == 0 && AbsInt(s.ldrEastLumens - s.ldrWestLumens) <= LdrThreshold ==> r == 0
  {
    if s.trackingMode == 0 then
      var lightDiff := s.ldrEastLumens - s.ldrWestLumens;
      if AbsInt(lightDiff) > LdrThreshold then (if lightDiff > 0 then 50 else -50)
      else 0
    else 10
  }

  /** apply_speed_saturation is the clamp to [-100, 100]. */
  function SpeedSaturation(speed: int): (r: int)
    ensures r == Clamp(speed, -MaxActuatorSpeed, MaxActuatorSpeed)
  {
    if speed > MaxActuatorSpeed then MaxActuatorSpeed
    else if speed < -MaxActuatorSpeed then -MaxActuatorSpeed
    else speed
  }

  /** step */
  function Step(s: Sensors, lastActuatorSpeed: int): (r: int)
    ensures -MaxActuatorSpeed <= r <= MaxActuatorSpeed
    ensures IsWindSpeedCritical(s) ==> r == StowSpeed(s)
    ensures !IsWindSpeedCritical(s) ==> r in {-50, 0, 10, 50}
  {
    var newSpeed := if IsWindSpeedCritical(s) then StowSpeed(s) else NormalTrackingSpeed(s);
    SpeedSaturation(newSpeed)
  }

  /** In high wind the tracking mode and the light sensors play no part,
      and the panel is always driven toward the stow position. */
  lemma HighWindIgnoresTrackingMode(s: Sensors, last: int, mode: int, east: int, west: int)
    requires IsWindSpeedCritical(s)
    ensures Step(s.(trackingMode := mode, ldrEastLumens := east, ldrWestLumens := west), last) == Step(s, last)
    ensures Step(s, last) * s.panelAngleDeg <= 0
  {
  }

  /** In calm wind the tracking mode does matter. */
  lemma TrackingModeIsRelevant()
    ensures exists s: Sensors, last: int ::
              !IsWindSpeedCritical(s) && Step(s, last) != Step(s.(trackingMode := 1), last)
  {
    var s := Sensors(0, 0, 0, 0, 0);
    assert Step(s, 0) == 0;
    assert Step(s.(trackingMode := 1), 0) == 10;
  }
}
