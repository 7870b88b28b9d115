/** data_center_cooling_unit.c: a chiller compressor switched on a high CPU
    load or a hot rack inlet, off on a cool one, and left as it was in the
    band between 35 and 40 degrees. A water leak shuts it off whatever the
    load. The state is always 0 or 1. The inlet temperature is a C `float`,
    modelled as a real number. */
module CoolingUnit {

  const CompressorOn := 1
  const CompressorOff := 0
  const TempHighThresholdC: real := 40.0
  const TempLowThresholdC: real := 35.0

  datatype Sensors = Sensors(
    rackInletTempC: real,
    waterLeakDetected: bool,
    serverCpuLoadPercent: int,   // the mode variable of interest
    unitEnabledByMaster: bool)

  /** is_leak_detected */
  predicate IsLeakDetected(s: Sensors) {
    s.waterLeakDetected
  }

  /** calculate_nominal_compressor_state: a hysteresis band between the
      two thresholds keeps the last state. */
  function NominalCompressorState(s: Sensors, lastState: int): (r: int)
    ensures !s.unitEnabledByMaster ==> r == CompressorOff
    ensures s.unitEnabledByMaster && s.serverCpuLoadPercent > 90 ==> r == CompressorOn
    ensures s.unitEnabledByMaster && s.serverCpuLoadPercent <= 90 ==>
              && (s.rackInletTempC > TempHighThresholdC ==> r == CompressorOn)
              && (s.rackInletTempC < TempLowThresholdC ==> r == CompressorOff)
              && (TempLowThresholdC <= s.rackInletTempC <= TempHighThresholdC ==> r == lastState)
  {
    if !s.unitEnabledByMaster then CompressorOff
    else if s.serverCpuLoadPercent > 90 then CompressorOn
    else if s.rackInletTempC > TempHighThresholdC then CompressorOn
    else if s.rackInletTempC < TempLowThresholdC then CompressorOff
    else lastState
  }

  /** step, with its final validation: anything but ON or OFF becomes OFF. */
  function Step(s: Sensors, lastCompressorState: int): (r: int)
    ensures r == CompressorOff || r == CompressorOn
    ensures IsLeakDetected(s) ==> r == CompressorOff
    ensures !IsLeakDetected(s) && (lastCompressorState == CompressorOff || lastCompressorState == CompressorOn) ==>
              r == NominalCompressorState(s, lastCompressorState)
  {
    var newState := if IsLeakDetected(s) then CompressorOff else NominalCompressorState(s, lastCompressorState);
    if newState != CompressorOn && newState != CompressorOff then CompressorOff else newState
  }

  /** Inside the band the compressor keeps its state, whichever it was:
      it only switches on above 40 degrees (or a high load) and off below
      35, so it does not chatter around a single threshold. */
  lemma HysteresisHoldsState(s: Sensors, last: int)
    requires !IsLeakDetected(s) && s.unitEnabledByMaster && s.serverCpuLoadPercent <= 90
    requires TempLowThresholdC <= s.rackInletTempC <= TempHighThresholdC
    requires last == CompressorOff || last == CompressorOn
    ensures Step(s, last) == last
  {
  }

  /** A leak ignores the CPU load. */
  lemma LeakIgnoresCpuLoad(s: Sensors, last: int, load: int)
    requires IsLeakDetected(s)
    ensures Step(s.(serverCpuLoadPercent := load), last) == Step(s, last)
  {
  }

  /** Without a leak the CPU load does matter. */
  lemma CpuLoadIsRelevant()
    ensures exists s: Sensors, last: int ::
              !IsLeakDetected(s) && Step(s, last) != Step(s.(serverCpuLoadPercent := 95), last)
  {
    var s := Sensors(37.0, false, 10, true);
    assert Step(s, CompressorOff) == CompressorOff;
    assert Step(s.(serverCpuLoadPercent := 95), CompressorOff) == CompressorOn;
  }
}
