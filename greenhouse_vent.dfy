/** automated_greenhouse_vent_controller.c: roof vents opened ten percent
    per degree above the target temperature. High wind closes them whatever
    the temperatures. The opening stays in [0, 100]. */
module GreenhouseVent {
  import opened Saturation

  const MaxVentOpening := 100
  const MinVentOpening := 0
  const HighWindThreshold := 50

  datatype Sensors = Sensors(
    windSpeed: int,
    currentTemp: int,
    targetTemp: int)   // the mode variable of interest

  /** is_wind_override_active */
  predicate IsWindOverrideActive(s: Sensors) {
    s.windSpeed > HighWindThreshold
  }

  /** calculate_normal_opening: ten times the excess over the target, and
      nothing when there is no excess. */
  function NormalOpening(s: Sensors): (r: int)
    ensures r >= 0
    ensures r > 0 <==> s.currentTemp > s.targetTemp
    ensures r > 0 ==> r == 10 * (s.currentTemp - s.targetTemp)
  {
    var tempDiff := s.currentTemp - s.targetTemp;
    if tempDiff > 0 then tempDiff * 10 else MinVentOpening
  }

  /** A warmer greenhouse never gets a smaller nominal opening. */
  lemma NormalOpeningMonotone(s: Sensors, warmer: int)
    requires s.currentTemp <= warmer
    ensures NormalOpening(s) <= NormalOpening(s.(currentTemp := warmer))
  {
  }

  /** apply_safety_saturation is the clamp to [0, 100]. */
  function SafetySaturation(opening: int): (r: int)
    ensures r == Clamp(opening, MinVentOpening, MaxVentOpening)
  {
    if opening > MaxVentOpening then MaxVentOpening
    else if opening < MinVentOpening then MinVentOpening
    else opening
  }

  /** step_control_logic */
  function Step(s: Sensors): (r: int)
    ensures MinVentOpening <= r <= MaxVentOpening
    ensures IsWindOverrideActive(s) ==> r == MinVentOpening
    ensures !IsWindOverrideActive(s) ==> r == Clamp(NormalOpening(s), MinVentOpening, MaxVentOpening)
  {
    var newVentOpening := if IsWindOverrideActive(s) then MinVentOpening else NormalOpening(s);
    SafetySaturation(newVentOpening)
  }

  /** The saturated output is monotone in the temperature as well. */
  lemma StepMonotone(s: Sensors, warmer: int)
    requires s.currentTemp <= warmer
    ensures Step(s) <= Step(s.(currentTemp := warmer))
  {
    NormalOpeningMonotone(s, warmer);
    ClampMonotone(NormalOpening(s), NormalOpening(s.(currentTemp := warmer)), MinVentOpening, MaxVentOpening);
  }

  /** High wind ignores the target and current temperatures. */
  lemma WindIgnoresTarget(s: Sensors, target: int, current: int)
    requires IsWindOverrideActive(s)
    ensures Step(s.(targetTemp := target, currentTemp := current)) == Step(s)
  {
  }

  /** In calm wind the target does matter. */
  lemma TargetIsRelevant()
    ensures exists s: Sensors :: !IsWindOverrideActive(s) && Step(s) != Step(s.(targetTemp := 30))
  {
    var s := Sensors(10, 28, 25);
    assert Step(s) == 30;
    assert Step(s.(targetTemp := 30)) == 0;
  }
}
