/** conveyor_belt_speed_controller.c: belt speed chosen by the item
    weight; a jam stops the belt whatever the weight. The speed stays in
    [0, 100]. */
module ConveyorBelt {
  import opened Saturation

  const MaxSpeed := 100
  const MinSpeed := 0
  const StopSpeed := 0

  datatype Sensors = Sensors(
    jamDetected: bool,
    itemWeight: int)   // the mode variable of interest

  /** calculate_normal_speed: 50 for items over 30 kg, else 90. */
  function NormalSpeed(s: Sensors): (r: int)
    ensures r == 50 <==> s.itemWeight > 30
    ensures r == 90 <==> s.itemWeight <= 30
  {
    if s.itemWeight > 30 then 50 else 90
  }

  /** apply_speed_limits is the clamp to [0, 100]. */
  function SpeedLimits(speed: int): (r: int)
    ensures r == Clamp(speed, MinSpeed, MaxSpeed)
  {
    if speed > MaxSpeed then MaxSpeed
    else if speed < MinSpeed then MinSpeed
    else speed
  }

  /** The limits leave every speed in [0, 100] alone. */
  lemma SpeedLimitsIdentityInRange(speed: int)
    requires MinSpeed <= speed <= MaxSpeed
    ensures SpeedLimits(speed) == speed
  {
  }

  /** step_control_logic */
  function Step(s: Sensors): (r: int)
    ensures r in {StopSpeed, 50, 90}
    ensures MinSpeed <= r <= MaxSpeed
    ensures s.jamDetected ==> r == StopSpeed
    ensures !s.jamDetected ==> r == NormalSpeed(s)
  {
    var newMotorSpeed := if s.jamDetected then StopSpeed else NormalSpeed(s);
    SpeedLimits(newMotorSpeed)
  }

  /** A jam ignores the item weight. */
  lemma JamIgnoresWeight(s: Sensors, weight: int)
    requires s.jamDetected
    ensures Step(s.(itemWeight := weight)) == Step(s)
  {
  }

  /** Without a jam the weight does matter. */
  lemma WeightIsRelevant()
    ensures exists s: Sensors :: !s.jamDetected && Step(s) != Step(s.(itemWeight := 0))
  {
    var s := Sensors(false, 40);
    assert Step(s) == 50;
    assert Step(s.(itemWeight := 0)) == 90;
  }
}
