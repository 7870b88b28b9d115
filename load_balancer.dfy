/** elevator_load_balancer.c: the car command is fire recall under a fire
    alarm and normal service otherwise. The passenger wait time only changes
    what is logged, so it never affects the command, and maintenance hold
    (2) is never issued. */
module LoadBalancer {

  const CmdNormalService := 0
  const CmdFireRecall := 1
  const CmdMaintenanceHold := 2

  datatype Sensors = Sensors(
    fireAlarmActive: bool,
    passengerWaitTime: int)   // the mode variable of interest

  /** is_fire_alarm_triggered */
  predicate IsFireAlarmTriggered(s: Sensors) {
    s.fireAlarmActive
  }

  /** calculate_normal_service_command: normal service, whatever the wait. */
  function NormalServiceCommand(s: Sensors): int
  {
    CmdNormalService
  }

  /** step_control_logic */
  function Step(s: Sensors): (r: int)
    ensures CmdNormalService <= r <= CmdMaintenanceHold && r != CmdMaintenanceHold
    ensures r == CmdFireRecall <==> IsFireAlarmTriggered(s)
    ensures r == CmdNormalService <==> !IsFireAlarmTriggered(s)
  {
    if IsFireAlarmTriggered(s) then CmdFireRecall else NormalServiceCommand(s)
  }

  /** The wait time never affects the command, on either path. */
  lemma WaitTimeNeverMatters(s: Sensors, wait: int)
    ensures Step(s.(passengerWaitTime := wait)) == Step(s)
  {
  }
}
