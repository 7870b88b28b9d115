/** medical_infusion_pump.c: the delivery rate of an infusion pump, capped by
    the selected drug profile. Air in the line stops the pump whatever the
    profile. The rate stays in [0, 500], and in fact never exceeds the
    largest profile limit, 250. */
module InfusionPump {
  import opened Saturation

  const MaxPumpRate := 500
  const DrugProfileAMaxRate := 100
  const DrugProfileBMaxRate := 250

  datatype Sensors = Sensors(
    targetRate: int,
    airInLineDetected: bool,
    drugProfileId: int,   // the mode variable of interest
    pumpEnabled: bool)

  /** is_air_bubble_present */
  predicate IsAirBubblePresent(s: Sensors) {
    s.airInLineDetected
  }

  /** get_profile_max_rate: profile 1 allows 100, profile 2 allows 250, and
      an unknown profile allows nothing. */
  function ProfileMaxRate(s: Sensors): (r: int)
    ensures s.drugProfileId == 1 ==> r == DrugProfileAMaxRate
    ensures s.drugProfileId == 2 ==> r == DrugProfileBMaxRate
    ensures s.drugProfileId != 1 && s.drugProfileId != 2 ==> r == 0
    ensures 0 <= r <= DrugProfileBMaxRate
  {
    if s.drugProfileId == 1 then DrugProfileAMaxRate
    else if s.drugProfileId == 2 then DrugProfileBMaxRate
    else 0
  }

  /** calculate_nominal_rate: 0 when disabled, else the target capped by the
      profile: the least of the two. */
  function NominalRate(s: Sensors): (r: int)
    ensures !s.pumpEnabled ==> r == 0
    ensures s.pumpEnabled ==> r <= s.targetRate && r <= ProfileMaxRate(s)
    ensures s.pumpEnabled ==> (r == s.targetRate || r == ProfileMaxRate(s))
  {
    if !s.pumpEnabled then 0
    else if s.targetRate > ProfileMaxRate(s) then ProfileMaxRate(s)
    else s.targetRate
  }

  /** apply_rate_saturation is the clamp to [0, 500]. */
  function RateSaturation(rate: int): (r: int)
    ensures r == Clamp(rate, 0, MaxPumpRate)
  {
    if rate > MaxPumpRate then MaxPumpRate
    else if rate < 0 then 0
    else rate
  }

  /** step */
  function Step(s: Sensors, lastPumpRate: int): (r: int)
    ensures 0 <= r <= MaxPumpRate
    ensures r <= DrugProfileBMaxRate
    ensures IsAirBubblePresent(s) ==> r == 0
    ensures !IsAirBubblePresent(s) && s.pumpEnabled ==> r == Clamp(s.targetRate, 0, ProfileMaxRate(s))
  {
    var newRate := if IsAirBubblePresent(s) then 0 else NominalRate(s);
    RateSaturation(newRate)
  }

  /** Air in the line ignores the drug profile and the target. */
  lemma AirInLineIgnoresProfile(s: Sensors, last: int, profile: int, target: int, otherLast: int)
    requires IsAirBubblePresent(s)
    ensures Step(s.(drugProfileId := profile, targetRate := target), otherLast) == Step(s, last)
  {
  }

  /** Without air in the line the profile does matter. */
  lemma ProfileIsRelevant()
    ensures exists s: Sensors, last: int ::
              !IsAirBubblePresent(s) && Step(s, last) != Step(s.(drugProfileId := 2), last)
  {
    var s := Sensors(200, false, 1, true);
    assert Step(s, 0) == 100;
    assert Step(s.(drugProfileId := 2), 0) == 200;
  }
}
