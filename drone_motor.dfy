/** drone_motor_controller.c: motor throttle from the pilot's input and the
    flight mode. A critical battery forces a fixed return-to-land throttle,
    whatever the mode and the input. The command stays in [0, 1000]. */
module DroneMotor {
  import opened Saturation
  import opened CArith

  const MaxThrottle := 1000
  const CriticalBatteryVoltage := 3300
  const RtlThrottleCommand := 400
  const FlightModeAcro := 0
  const FlightModeAngle := 1

  datatype Sensors = Sensors(
    pilotThrottleInput: int,
    batteryVoltageMv: int,
    flightMode: int,   // the mode variable of interest
    armed: bool)

  /** is_battery_critical */
  predicate IsBatteryCritical(s: Sensors) {
    s.batteryVoltageMv < CriticalBatteryVoltage
  }

  function Min(a: int, b: int): int { if a <= b then a else b }
  function Max(a: int, b: int): int { if a <= b then b else a }

  /** calculate_normal_throttle: disarmed gives 0; Acro passes the pilot's
      input through; any other mode averages it with the last command,
      rounding toward zero as C does, which never leaves the range of the
      two. */
  function NormalThrottle(s: Sensors, lastThrottle: int): (r: int)
    ensures !s.armed ==> r == 0
    ensures s.armed && s.flightMode == FlightModeAcro ==> r == s.pilotThrottleInput
    ensures s.armed && s.flightMode != FlightModeAcro ==>
              && (lastThrottle + s.pilotThrottleInput >= 0 ==> 2 * r <= lastThrottle + s.pilotThrottleInput <= 2 * r + 1)
              && (lastThrottle + s.pilotThrottleInput < 0 ==> 2 * r - 1 <= lastThrottle + s.pilotThrottleInput <= 2 * r)
              && Min(lastThrottle, s.pilotThrottleInput) <= r <= Max(lastThrottle, s.pilotThrottleInput)
  {
    if !s.armed then 0
    else if s.flightMode == FlightModeAcro then s.pilotThrottleInput
    else CDiv(lastThrottle + s.pilotThrottleInput, 2)
  }

  /** apply_throttle_saturation is the clamp to [0, 1000]. */
  function ThrottleSaturation(throttle: int): (r: int)
    ensures r == Clamp(throttle, 0, MaxThrottle)
  {
    if throttle > MaxThrottle then MaxThrottle
    else if throttle < 0 then 0
    else throttle
  }

  /** step */
  function Step(s: Sensors, lastThrottleCmd: int): (r: int)
    ensures 0 <= r <= MaxThrottle
    ensures IsBatteryCritical(s) ==> r == RtlThrottleCommand
    ensures !IsBatteryCritical(s) && !s.armed ==> r == 0
  {
    var newThrottle :=
      if IsBatteryCritical(s) then RtlThrottleCommand
      else NormalThrottle(s, lastThrottleCmd);
    ThrottleSaturation(newThrottle)
  }

  /** A critical battery ignores the flight mode, the pilot's input, the
      arming switch and the last command. */
  lemma CriticalBatteryIgnoresFlightMode(s: Sensors, last: int, mode: int, input: int, armed: bool, otherLast: int)
    requires IsBatteryCritical(s)
    ensures Step(s.(flightMode := mode, pilotThrottleInput := input, armed := armed), otherLast) == Step(s, last)
  {
  }

  /** An in-range command stays in range in Angle mode when the pilot's
      input is in range: smoothing cannot leave [0, 1000] on its own. */
  lemma AngleModeNeedsNoClamp(s: Sensors, last: int)
    requires !IsBatteryCritical(s) && s.armed && s.flightMode != FlightModeAcro
    requires 0 <= last <= MaxThrottle && 0 <= s.pilotThrottleInput <= MaxThrottle
    ensures Step(s, last) == NormalThrottle(s, last)
  {
  }

  /** On the nominal path the flight mode does matter. */
  lemma FlightModeIsRelevant()
    ensures exists s: Sensors, last: int ::
              !IsBatteryCritical(s) && Step(s, last) != Step(s.(flightMode := FlightModeAngle), last)
  {
    var s := Sensors(600, 4000, FlightModeAcro, true);
    assert Step(s, 0) == 600;
    assert Step(s.(flightMode := FlightModeAngle), 0) == 300;
  }
}
