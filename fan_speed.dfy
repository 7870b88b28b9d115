/** control_fan_speed from the third bit-flip case study (cs3_org.c): a
    fan speed adjusted by mode and temperature, then nudged up for a
    long-running system, with an alarm when it passes 100. The sliced copy in
    cs3/simulate_seu.c is the same computation written as nested ifs. */
module FanSpeed {

  const ManualMode := 0
  const AutoMode := 1
  const SafeLimit := 100

  /** The alarm condition of control_fan_speed. */
  predicate AlarmFires(fanSpeed: int) {
    fanSpeed > SafeLimit
  }

  /** control_fan_speed: the returned fan speed. In manual mode, and in auto
      mode at 90 or above, temperature plays no part; the operating-hours
      bump is only applied below 95. */
  function ControlFanSpeed(temperature: int, fanSpeed: int, systemMode: int, operatingHours: int): (r: int)
    ensures fanSpeed <= SafeLimit ==> !AlarmFires(r)
    ensures fanSpeed - 5 <= r <= fanSpeed + 6
  {
    var adjusted :=
      if systemMode == ManualMode then fanSpeed
      else if systemMode == AutoMode && fanSpeed < 90 then
        (if temperature > 30 then fanSpeed + 5
         else if temperature < 20 then fanSpeed - 5
         else fanSpeed)
      else fanSpeed;
    if operatingHours > 100 && adjusted < 95 then adjusted + 1 else adjusted
  }

  /** Manual mode: temperature does not affect the result. */
  lemma ManualModeIgnoresTemperature(t1: int, t2: int, fanSpeed: int, operatingHours: int)
    ensures ControlFanSpeed(t1, fanSpeed, ManualMode, operatingHours)
         == ControlFanSpeed(t2, fanSpeed, ManualMode, operatingHours)
  {
  }

  /** Auto mode below 90, with no operating-hours bump: +5 when hot, -5 when
      cold, unchanged in between. */
  lemma AutoModeAdjusts(temperature: int, fanSpeed: int, operatingHours: int)
    requires fanSpeed < 90 && operatingHours <= 100
    ensures temperature > 30 ==> ControlFanSpeed(temperature, fanSpeed, AutoMode, operatingHours) == fanSpeed + 5
    ensures temperature < 20 ==> ControlFanSpeed(temperature, fanSpeed, AutoMode, operatingHours) == fanSpeed - 5
    ensures 20 <= temperature <= 30 ==> ControlFanSpeed(temperature, fanSpeed, AutoMode, operatingHours) == fanSpeed
  {
  }

  /** Outside the auto adjustment, more than 100 operating hours adds 1 to a
      speed below 95. */
  lemma OperatingHoursBump(temperature: int, fanSpeed: int, systemMode: int, operatingHours: int)
    requires systemMode != AutoMode || fanSpeed >= 90
    requires operatingHours > 100 && fanSpeed < 95
    ensures ControlFanSpeed(temperature, fanSpeed, systemMode, operatingHours) == fanSpeed + 1
  {
  }

  /** The temperature does matter in auto mode. */
  lemma TemperatureIsRelevantInAutoMode()
    ensures exists t1: int, t2: int, f: int, h: int ::
              ControlFanSpeed(t1, f, AutoMode, h) != ControlFanSpeed(t2, f, AutoMode, h)
  {
    assert ControlFanSpeed(35, 50, AutoMode, 0) != ControlFanSpeed(25, 50, AutoMode, 0);
  }

  /** The sliced copy in cs3/simulate_seu.c, nested ifs and all. */
  function ControlFanSpeedSliced(temperature: int, fanSpeed: int, systemMode: int, operatingHours: int): (r: int)
    ensures r == ControlFanSpeed(temperature, fanSpeed, systemMode, operatingHours)
  {
    var adjusted :=
      if !(systemMode == 0) then
        if systemMode == 1 then
          if fanSpeed < 90 then
            if temperature > 30 then fanSpeed + 5
            else if temperature < 20 then fanSpeed - 5
            else fanSpeed
          else fanSpeed
        else fanSpeed
      else fanSpeed;
    if operatingHours > 100 then
      if adjusted < 95 then adjusted + 1 else adjusted
    else adjusted
  }
}
