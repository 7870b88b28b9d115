/** dam_spillway_gate_controller.c: a spillway gate opening set from the
    reservoir level and the seasonal demand. An upstream flood opens the
    gate fully whatever the demand. The opening stays in [0, 100]. */
module DamSpillway {
  import opened Saturation
  import opened CArith

  const MaxGateOpening := 100
  const MinGateOpening := 0
  const EmergencyOpening := 100

  datatype Sensors = Sensors(
    upstreamFloodDetected: bool,
    reservoirLevel: int,          // percent full
    seasonalWaterDemand: int)     // the mode variable of interest

  /** calculate_normal_opening: above 95% full, 75 plus a quarter of the
      demand, rounded toward zero as C does; otherwise the demand itself.
      For a demand in [0, 100], a high reservoir never opens the gate less
      than the demand would on its own, up to the gate's full travel. */
  function NormalOpening(s: Sensors): (r: int)
    ensures s.reservoirLevel > 95 && s.seasonalWaterDemand >= 0 ==>
              4 * (r - 75) <= s.seasonalWaterDemand < 4 * (r - 75) + 4
    ensures s.reservoirLevel > 95 && s.seasonalWaterDemand < 0 ==>
              4 * (r - 75) - 4 < s.seasonalWaterDemand <= 4 * (r - 75)
    ensures s.reservoirLevel <= 95 ==> r == s.seasonalWaterDemand
    ensures s.reservoirLevel > 95 && 0 <= s.seasonalWaterDemand <= 100 ==> s.seasonalWaterDemand <= r <= MaxGateOpening
  {
    if s.reservoirLevel > 95 then 75 + CDiv(s.seasonalWaterDemand, 4)
    else s.seasonalWaterDemand
  }

  /** apply_safety_saturation is the clamp to [0, 100]. */
  function SafetySaturation(opening: int): (r: int)
    ensures r == Clamp(opening, MinGateOpening, MaxGateOpening)
  {
    if opening > MaxGateOpening then MaxGateOpening
    else if opening < MinGateOpening then MinGateOpening
    else opening
  }

  /** The saturation is the identity on [0, 100] and applying it twice is
      applying it once. */
  lemma SafetySaturationIdentityAndIdempotent(opening: int)
    ensures MinGateOpening <= opening <= MaxGateOpening ==> SafetySaturation(opening) == opening
    ensures SafetySaturation(SafetySaturation(opening)) == SafetySaturation(opening)
  {
    ClampIdempotent(opening, MinGateOpening, MaxGateOpening);
  }

  /** step_control_logic */
  function Step(s: Sensors): (r: int)
    ensures MinGateOpening <= r <= MaxGateOpening
    ensures s.upstreamFloodDetected ==> r == EmergencyOpening
    ensures !s.upstreamFloodDetected ==> r == Clamp(NormalOpening(s), MinGateOpening, MaxGateOpening)
  {
    var newGateOpening := if s.upstreamFloodDetected then EmergencyOpening else NormalOpening(s);
    SafetySaturation(newGateOpening)
  }

  /** A flood ignores the seasonal demand and the reservoir level. */
  lemma FloodIgnoresDemand(s: Sensors, demand: int, level: int)
    requires s.upstreamFloodDetected
    ensures Step(s.(seasonalWaterDemand := demand, reservoirLevel := level)) == Step(s)
  {
  }

  /** Without a flood the demand does matter. */
  lemma DemandIsRelevant()
    ensures exists s: Sensors :: !s.upstreamFloodDetected && Step(s) != Step(s.(seasonalWaterDemand := 0))
  {
    var s := Sensors(false, 80, 40);
    assert Step(s) == 40;
    assert Step(s.(seasonalWaterDemand := 0)) == 0;
  }
}
