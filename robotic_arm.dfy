/** robotic_arm_controller.c: motor torque toward a target position, at a
    magnitude set by the speed profile. A collision force above 50 N cuts the
    torque whatever the profile. The command stays in [0, 100]; the
    saturation turns every negative torque into 0, so motion toward a lower
    position is never commanded. The force sensor is a C `float`, modelled as
    a real number. */
module RoboticArm {
  import opened Saturation

  const MaxMotorTorque := 100
  const CollisionForceNewtons := 50
  const TorqueProfileFast := 80
  const TorqueProfilePrecise := 30

  datatype Sensors = Sensors(
    targetPosition: int,
    currentPosition: int,
    forceSensorN: real,
    speedProfile: int,   // the mode variable of interest
    motionEnabled: bool)

  /** is_collision_detected */
  predicate IsCollisionDetected(s: Sensors) {
    s.forceSensorN > CollisionForceNewtons as real
  }

  /** calculate_nominal_torque: nothing when disabled or at the target;
      otherwise 30 (profile 0) or 80 (any other profile), positive toward a
      higher target and negative toward a lower one. */
  function NominalTorque(s: Sensors): (r: int)
    ensures !s.motionEnabled || s.targetPosition == s.currentPosition ==> r == 0
    ensures s.motionEnabled && s.targetPosition != s.currentPosition ==>
              (if s.speedProfile == 0 then r == TorqueProfilePrecise || r == -TorqueProfilePrecise
               else r == TorqueProfileFast || r == -TorqueProfileFast)
    ensures r > 0 ==> s.targetPosition > s.currentPosition
    ensures r < 0 ==> s.targetPosition < s.currentPosition
  {
    if !s.motionEnabled || s.targetPosition == s.currentPosition then 0
    else
      var targetTorque := if s.speedProfile == 0 then TorqueProfilePrecise else TorqueProfileFast;
      if s.targetPosition > s.currentPosition then targetTorque else -targetTorque
  }

  /** apply_torque_saturation is the clamp to [0, 100]. */
  function TorqueSaturation(torque: int): (r: int)
    ensures r == Clamp(torque, 0, MaxMotorTorque)
  {
    if torque > MaxMotorTorque then MaxMotorTorque
    else if torque < 0 then 0
    else torque
  }

  /** step */
  function Step(s: Sensors, lastTorqueCommand: int): (r: int)
    ensures r in {0, TorqueProfilePrecise, TorqueProfileFast}
    ensures IsCollisionDetected(s) ==> r == 0
    ensures r != 0 ==> s.targetPosition > s.currentPosition
  {
    var newTorque := if IsCollisionDetected(s) then 0 else NominalTorque(s);
    TorqueSaturation(newTorque)
  }

  /** A collision ignores the speed profile. */
  lemma CollisionIgnoresProfile(s: Sensors, last: int, profile: int)
    requires IsCollisionDetected(s)
    ensures Step(s.(speedProfile := profile), last) == Step(s, last)
  {
  }

  /** Without a collision the profile does matter. */
  lemma ProfileIsRelevant()
    ensures exists s: Sensors, last: int ::
              !IsCollisionDetected(s) && Step(s, last) != Step(s.(speedProfile := 1), last)
  {
    var s := Sensors(10, 0, 0.0, 0, true);
    assert Step(s, 0) == 30;
    assert Step(s.(speedProfile := 1), 0) == 80;
  }
}
