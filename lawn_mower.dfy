/** autonomous_lawn_mower_controller.c: the blade motor runs while the
    mower follows its GPS path; a tilt above 30 degrees stops it whatever
    the path. The state is always 0 or 1. */
module LawnMower {

  const BladeOff := 0
  const BladeOn := 1
  const MaxTiltAngle := 30

  datatype Sensors = Sensors(
    tiltAngle: int,
    followGpsPath: bool)   // the mode variable of interest

  /** is_tilt_hazard_detected */
  predicate IsTiltHazardDetected(s: Sensors) {
    s.tiltAngle > MaxTiltAngle
  }

  /** calculate_normal_blade_state: ON exactly while following the path. */
  function NormalBladeState(s: Sensors): (r: int)
    ensures r == BladeOn <==> s.followGpsPath
    ensures r == BladeOff <==> !s.followGpsPath
  {
    if s.followGpsPath then BladeOn else BladeOff
  }

  /** step_control_logic */
  function Step(s: Sensors): (r: int)
    ensures r == BladeOff || r == BladeOn
    ensures IsTiltHazardDetected(s) ==> r == BladeOff
    ensures r == BladeOn <==> s.tiltAngle <= MaxTiltAngle && s.followGpsPath
  {
    if IsTiltHazardDetected(s) then BladeOff else NormalBladeState(s)
  }

  /** A tilt hazard ignores the GPS path. */
  lemma TiltIgnoresPath(s: Sensors, follow: bool)
    requires IsTiltHazardDetected(s)
    ensures Step(s.(followGpsPath := follow)) == Step(s)
  {
  }

  /** On level ground the path does matter. */
  lemma PathIsRelevant()
    ensures exists s: Sensors :: !IsTiltHazardDetected(s) && Step(s) != Step(s.(followGpsPath := !s.followGpsPath))
  {
    var s := Sensors(0, true);
    assert Step(s) == BladeOn;
    assert Step(s.(followGpsPath := false)) == BladeOff;
  }
}
