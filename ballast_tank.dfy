/** submarine_ballast_tank_controller.c: the ballast pump fills to dive
    toward the target depth and empties to rise; near crush depth it blows
    the tanks whatever the target. The action is always -1, 0 or 1. */
module BallastTank {

  const PumpActionFill := 1
  const PumpActionEmpty := -1
  const PumpActionHold := 0
  const CrushDepthPressure := 1000

  datatype Sensors = Sensors(
    hullPressure: int,
    currentDepth: int,
    targetDepth: int)   // the mode variable of interest

  /** The sign of an integer. */
  function Sign(x: int): int {
    if x > 0 then 1 else if x < 0 then -1 else 0
  }

  /** is_crush_depth_imminent */
  predicate IsCrushDepthImminent(s: Sensors) {
    s.hullPressure > CrushDepthPressure
  }

  /** calculate_normal_pump_action: the sign of the remaining distance to
      the target depth. */
  function NormalPumpAction(s: Sensors): (r: int)
    ensures r == Sign(s.targetDepth - s.currentDepth)
    ensures r == PumpActionFill <==> s.currentDepth < s.targetDepth
    ensures r == PumpActionEmpty <==> s.currentDepth > s.targetDepth
    ensures r == PumpActionHold <==> s.currentDepth == s.targetDepth
  {
    if s.currentDepth < s.targetDepth then PumpActionFill
    else if s.currentDepth > s.targetDepth then PumpActionEmpty
    else PumpActionHold
  }

  /** step_control_logic */
  function Step(s: Sensors): (r: int)
    ensures PumpActionEmpty <= r <= PumpActionFill
    ensures IsCrushDepthImminent(s) ==> r == PumpActionEmpty
    ensures !IsCrushDepthImminent(s) ==> r == Sign(s.targetDepth - s.currentDepth)
  {
    if IsCrushDepthImminent(s) then PumpActionEmpty else NormalPumpAction(s)
  }

  /** Near crush depth the target depth plays no part. */
  lemma CrushDepthIgnoresTarget(s: Sensors, target: int)
    requires IsCrushDepthImminent(s)
    ensures Step(s.(targetDepth := target)) == Step(s)
  {
  }

  /** Otherwise the target depth does matter. */
  lemma TargetIsRelevant()
    ensures exists s: Sensors :: !IsCrushDepthImminent(s) && Step(s) != Step(s.(targetDepth := s.currentDepth))
  {
    var s := Sensors(900, 90, 120);
    assert Step(s) == PumpActionFill;
    assert Step(s.(targetDepth := 90)) == PumpActionHold;
  }
}
