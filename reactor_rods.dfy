/** nuclear_reactor_control_rod_controller.c: control rod insertion set
    from the power grid demand. High coolant temperature or a seismic event
    scrams the reactor: rods fully in, whatever the demand. The depth stays
    in [0, 100]. */
module ReactorRods {
  import opened Saturation
  import opened CArith

  const RodFullyInserted := 100
  const RodFullyWithdrawn := 0
  const HighTempThreshold := 800

  datatype Sensors = Sensors(
    coolantTemperature: int,
    seismicEventDetected: bool,
    powerGridDemand: int)   // the mode variable of interest

  /** is_scram_condition_met */
  predicate IsScramConditionMet(s: Sensors) {
    s.coolantTemperature > HighTempThreshold || s.seismicEventDetected
  }

  /** calculate_normal_rod_depth: one percent of insertion less for every
      whole 10 MW of demand, rounded toward zero as C does. A demand of 0 to
      1000 MW needs no limiting. */
  function NormalRodDepth(s: Sensors): (r: int)
    ensures s.powerGridDemand >= 0 ==> 10 * (100 - r) <= s.powerGridDemand < 10 * (100 - r) + 10
    ensures s.powerGridDemand < 0 ==> 10 * (100 - r) - 10 < s.powerGridDemand <= 10 * (100 - r)
    ensures 0 <= s.powerGridDemand <= 1000 ==> RodFullyWithdrawn <= r <= RodFullyInserted
  {
    100 - CDiv(s.powerGridDemand, 10)
  }

  /** More demand never inserts the rods further. */
  lemma RodDepthFallsWithDemand(s: Sensors, t: Sensors)
    requires s.powerGridDemand <= t.powerGridDemand
    ensures NormalRodDepth(t) <= NormalRodDepth(s)
  {
    var a, b := s.powerGridDemand, t.powerGridDemand;
    if 0 <= a {
      assert a / 10 <= b / 10;
    } else if b <= 0 {
      assert (-b) / 10 <= (-a) / 10;
    }
  }

  /** A negative demand is rounded toward zero: -5 MW leaves the rods fully
      in, where rounding down would ask for 101%. */
  lemma NegativeDemandTruncates()
    ensures NormalRodDepth(Sensors(0, false, -5)) == 100
    ensures 100 - (-5) / 10 == 101
  {
  }

  /** apply_rod_limits is the clamp to [0, 100]. */
  function RodLimits(depth: int): (r: int)
    ensures r == Clamp(depth, RodFullyWithdrawn, RodFullyInserted)
  {
    if depth > RodFullyInserted then RodFullyInserted
    else if depth < RodFullyWithdrawn then RodFullyWithdrawn
    else depth
  }

  /** step_control_logic */
  function Step(s: Sensors): (r: int)
    ensures RodFullyWithdrawn <= r <= RodFullyInserted
    ensures IsScramConditionMet(s) ==> r == RodFullyInserted
    ensures !IsScramConditionMet(s) ==> r == Clamp(NormalRodDepth(s), RodFullyWithdrawn, RodFullyInserted)
  {
    var newRodDepth := if IsScramConditionMet(s) then RodFullyInserted else NormalRodDepth(s);
    RodLimits(newRodDepth)
  }

  /** A scram ignores the power grid demand. */
  lemma ScramIgnoresDemand(s: Sensors, demand: int)
    requires IsScramConditionMet(s)
    ensures Step(s.(powerGridDemand := demand)) == Step(s)
  {
  }

  /** Without a scram the demand does matter. */
  lemma DemandIsRelevant()
    ensures exists s: Sensors :: !IsScramConditionMet(s) && Step(s) != Step(s.(powerGridDemand := 0))
  {
    var s := Sensors(700, false, 500);
    assert Step(s) == 50;
    assert Step(s.(powerGridDemand := 0)) == 100;
  }
}
