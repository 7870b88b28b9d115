/** pipeline_pressure_regulator.c: a valve that follows downstream demand;
    upstream over-pressure closes it whatever the demand. The position stays
    in [0, 100]. */
module PipelineRegulator {
  import opened Saturation

  const MaxValvePosition := 100
  const MinValvePosition := 0
  const OverpressureThreshold := 800

  datatype Sensors = Sensors(
    upstreamPressure: int,
    downstreamDemand: int)   // the mode variable of interest

  /** is_overpressure_detected */
  predicate IsOverpressureDetected(s: Sensors) {
    s.upstreamPressure > OverpressureThreshold
  }

  /** calculate_demand_based_position: the demand, unchanged. */
  function DemandBasedPosition(s: Sensors): int
  {
    s.downstreamDemand
  }

  /** apply_valve_limits is the clamp to [0, 100]. */
  function ValveLimits(position: int): (r: int)
    ensures r == Clamp(position, MinValvePosition, MaxValvePosition)
  {
    if position > MaxValvePosition then MaxValvePosition
    else if position < MinValvePosition then MinValvePosition
    else position
  }

  /** Limiting twice is limiting once. */
  lemma ValveLimitsIdempotent(position: int)
    ensures ValveLimits(ValveLimits(position)) == ValveLimits(position)
  {
    ClampIdempotent(position, MinValvePosition, MaxValvePosition);
  }

  /** step_control_logic */
  function Step(s: Sensors): (r: int)
    ensures MinValvePosition <= r <= MaxValvePosition
    ensures IsOverpressureDetected(s) ==> r == MinValvePosition
    ensures !IsOverpressureDetected(s) ==> r == Clamp(s.downstreamDemand, MinValvePosition, MaxValvePosition)
  {
    var newValvePosition := if IsOverpressureDetected(s) then MinValvePosition else DemandBasedPosition(s);
    ValveLimits(newValvePosition)
  }

  /** Over-pressure ignores the demand. */
  lemma OverpressureIgnoresDemand(s: Sensors, demand: int)
    requires IsOverpressureDetected(s)
    ensures Step(s.(downstreamDemand := demand)) == Step(s)
  {
  }

  /** At normal pressure the demand does matter. */
  lemma DemandIsRelevant()
    ensures exists s: Sensors :: !IsOverpressureDetected(s) && Step(s) != Step(s.(downstreamDemand := 0))
  {
    var s := Sensors(700, 60);
    assert Step(s) == 60;
    assert Step(s.(downstreamDemand := 0)) == 0;
  }
}
