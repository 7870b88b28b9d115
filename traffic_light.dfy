/** traffic_light_system_with_emergency_preemption.c: the light follows a
    60-second timing cycle, green then yellow then red; an emergency vehicle
    forces red whatever the cycle position. The state stays in [0, 2]. */
module TrafficLight {

  const Red := 0
  const Green := 1
  const Yellow := 2

  datatype Sensors = Sensors(
    emergencyPreemptionActive: bool,
    cycleTimer: int)   // the mode variable of interest

  /** Where a light state sits in the cycle: green first, then yellow, then
      red. */
  function PhaseOrder(state: int): int {
    if state == Green then 0 else if state == Yellow then 1 else 2
  }

  /** step_control_logic */
  function Step(s: Sensors): (r: int)
    ensures Red <= r <= Yellow
    ensures s.emergencyPreemptionActive ==> r == Red
    ensures !s.emergencyPreemptionActive ==>
              && (r == Green <==> s.cycleTimer < 30)
              && (r == Yellow <==> 30 <= s.cycleTimer < 35)
              && (r == Red <==> s.cycleTimer >= 35)
  {
    if s.emergencyPreemptionActive then Red
    else if s.cycleTimer < 30 then Green
    else if s.cycleTimer < 35 then Yellow
    else Red
  }

  /** Later in the cycle never means an earlier phase. */
  lemma PhaseMonotoneInTimer(s: Sensors, later: int)
    requires !s.emergencyPreemptionActive && s.cycleTimer <= later
    ensures PhaseOrder(Step(s)) <= PhaseOrder(Step(s.(cycleTimer := later)))
  {
  }

  /** Preemption ignores the cycle timer. */
  lemma PreemptionIgnoresTimer(s: Sensors, timer: int)
    requires s.emergencyPreemptionActive
    ensures Step(s.(cycleTimer := timer)) == Step(s)
  {
  }

  /** Without preemption the timer does matter. */
  lemma TimerIsRelevant()
    ensures exists s: Sensors :: !s.emergencyPreemptionActive && Step(s) != Step(s.(cycleTimer := 0))
  {
    var s := Sensors(false, 40);
    assert Step(s) == Red;
    assert Step(s.(cycleTimer := 0)) == Green;
  }
}
