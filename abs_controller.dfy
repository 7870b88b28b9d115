/** automotive_abs_controller.c: brake pressure modulation against wheel
    slip. A faulted ABS passes the driver's request straight through, so the
    ice-mode slip target only matters on the nominal path. The command stays
    in [0, 255]. */
module AbsController {
  import opened Saturation
  import opened CArith

  const MaxBrakePressure := 255
  const NormalSlipTarget := 15
  const IceModeSlipTarget := 5
  const PressureStepIncrease := 20
  const PressureStepDecrease := 40

  /** The inputs read from the vehicle bus in one cycle. */
  datatype Sensors = Sensors(
    wheelSpeedKph: int,
    vehicleSpeedKph: int,
    driverBrakeRequest: int,
    iceModeEnabled: bool,   // the mode variable of interest
    absSystemFault: bool)

  /** is_abs_faulted */
  predicate IsAbsFaulted(s: Sensors) {
    s.absSystemFault
  }

  /** calculate_slip_percentage: how far the wheel lags the vehicle, in
      percent of the vehicle speed, with C's truncating division. */
  function SlipPercentage(s: Sensors): (slip: int)
    ensures s.vehicleSpeedKph <= 0 ==> slip == 0
    ensures s.vehicleSpeedKph > 0 && 0 <= s.wheelSpeedKph <= s.vehicleSpeedKph ==> 0 <= slip <= 100
    ensures s.vehicleSpeedKph > 0 && s.wheelSpeedKph == s.vehicleSpeedKph ==> slip == 0
    ensures s.vehicleSpeedKph > 0 && s.wheelSpeedKph == 0 ==> slip == 100
    ensures s.vehicleSpeedKph > 0 && s.wheelSpeedKph > s.vehicleSpeedKph ==> slip <= 0
  {
    if s.vehicleSpeedKph <= 0 then 0
    else
      SlipBounds(s.vehicleSpeedKph, s.wheelSpeedKph);
      CDiv(100 * (s.vehicleSpeedKph - s.wheelSpeedKph), s.vehicleSpeedKph)
  }

  /** A quotient of a non-negative dividend by a positive divisor stays at
      or below k when the dividend is at most k times the divisor. */
  lemma DivAtMost(n: int, v: int, k: int)
    requires v > 0 && 0 <= k && 0 <= n <= k * v
    ensures 0 <= n / v <= k
  {
  }

  lemma MulMonotone(a: int, b: int, v: int)
    requires a <= b && v >= 0
    ensures a * v <= b * v
  {
  }

  /** k times the divisor divided by the divisor is k. */
  lemma DivOfMultiple(v: int, k: int)
    requires v > 0 && 0 <= k
    ensures (k * v) / v == k
  {
    var n := k * v;
    DivAtMost(n, v, k);
    var q := n / v;
    assert n == q * v + n % v;
    if q < k {
      MulMonotone(q + 1, k, v);
    }
  }

  /** The slip formula's range at a positive vehicle speed. */
  lemma SlipBounds(v: int, w: int)
    requires v > 0
    ensures 0 <= w <= v ==> 0 <= CDiv(100 * (v - w), v) <= 100
    ensures w == v ==> CDiv(100 * (v - w), v) == 0
    ensures w == 0 ==> CDiv(100 * (v - w), v) == 100
    ensures w > v ==> CDiv(100 * (v - w), v) <= 0
  {
    var n := 100 * (v - w);
    if 0 <= w <= v {
      MulMonotone(v - w, v, 100);
      assert 0 <= n <= 100 * v;
      DivAtMost(n, v, 100);
      CDivNonNegative(n, v);
    }
    if w == 0 {
      DivOfMultiple(v, 100);
      assert n == 100 * v;
      CDivNonNegative(n, v);
    }
  }

  /** A wheel spinning faster than the vehicle gives a negative slip that C
      rounds toward zero: 3 kph against 4 kph is -33, where flooring would
      give -34. */
  lemma SlipTruncatesTowardZero()
    ensures SlipPercentage(Sensors(4, 3, 0, false, false)) == -33
    ensures 100 * (3 - 4) / 3 == -34
  {
  }

  /** The slip target the ice mode selects. */
  function SlipTarget(s: Sensors): int {
    if s.iceModeEnabled then IceModeSlipTarget else NormalSlipTarget
  }

  /** calculate_modulated_pressure: no request gives 0; otherwise the last
      command drops by 40 when the slip exceeds the target and rises by 20
      when it does not. */
  function ModulatedPressure(s: Sensors, lastPressure: int): (p: int)
    ensures s.driverBrakeRequest <= 0 ==> p == 0
    ensures s.driverBrakeRequest > 0 && SlipPercentage(s) > SlipTarget(s) ==> p == lastPressure - PressureStepDecrease
    ensures s.driverBrakeRequest > 0 && SlipPercentage(s) <= SlipTarget(s) ==> p == lastPressure + PressureStepIncrease
  {
    if s.driverBrakeRequest <= 0 then 0
    else if SlipPercentage(s) > SlipTarget(s) then lastPressure - PressureStepDecrease
    else lastPressure + PressureStepIncrease
  }

  /** apply_pressure_saturation: never more than the driver asks for, never
      more than 255, never negative. */
  function PressureSaturation(s: Sensors, pressure: int): (r: int)
    ensures 0 <= r <= MaxBrakePressure
    ensures s.driverBrakeRequest >= 0 ==> r <= s.driverBrakeRequest
    ensures r == Clamp(if pressure > s.driverBrakeRequest then s.driverBrakeRequest else pressure, 0, MaxBrakePressure)
  {
    var capped := if pressure > s.driverBrakeRequest then s.driverBrakeRequest else pressure;
    var limited := if capped > MaxBrakePressure then MaxBrakePressure else capped;
    if limited < 0 then 0 else limited
  }

  /** step: fault pass-through, else modulation, then saturation. */
  function Step(s: Sensors, lastPressureCommand: int): (r: int)
    ensures 0 <= r <= MaxBrakePressure
    ensures IsAbsFaulted(s) ==> r == Clamp(s.driverBrakeRequest, 0, MaxBrakePressure)
    ensures s.driverBrakeRequest >= 0 ==> r <= s.driverBrakeRequest
    ensures s.driverBrakeRequest <= 0 ==> r == 0
  {
    var newPressure :=
      if IsAbsFaulted(s) then s.driverBrakeRequest
      else ModulatedPressure(s, lastPressureCommand);
    PressureSaturation(s, newPressure)
  }

  /** With the ABS faulted, neither the ice mode nor the last command
      changes the output. */
  lemma FaultIgnoresIceMode(s: Sensors, lastPressureCommand: int, iceMode: bool, otherLast: int)
    requires IsAbsFaulted(s)
    ensures Step(s.(iceModeEnabled := iceMode), otherLast) == Step(s, lastPressureCommand)
  {
  }

  /** Without a fault the ice mode does change the output: at 10% slip the
      ice target (5) asks for less pressure and the normal target (15) for
      more. */
  lemma IceModeIsRelevant()
    ensures exists s: Sensors, last: int ::
              !IsAbsFaulted(s) && Step(s, last) != Step(s.(iceModeEnabled := !s.iceModeEnabled), last)
  {
    var s := Sensors(90, 100, 200, true, false);
    assert SlipPercentage(s) == 10;
    assert Step(s, 100) == 60;
    assert Step(s.(iceModeEnabled := false), 100) == 120;
  }
}
