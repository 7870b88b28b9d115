/** railway_signal_controller.c: a trackside signal following the train
    schedule, forced to RED on unscheduled occupancy or a lost comms link.
    The signal state stays in [0, 2]; YELLOW is never produced. */
module RailwaySignal {

  const Red := 0
  const Yellow := 1
  const Green := 2

  /** The trackside inputs of one cycle (time of day is read but unused). */
  datatype Sensors = Sensors(
    trackOccupied: bool,
    scheduledTrainDue: bool,   // the mode variable of interest
    commsLinkOk: bool)

  /** is_safety_override_active */
  predicate IsSafetyOverrideActive(s: Sensors) {
    (s.trackOccupied && !s.scheduledTrainDue) || !s.commsLinkOk
  }

  /** get_failsafe_state: whatever the reason, RED. */
  function FailsafeState(s: Sensors): int
  {
    Red
  }

  /** calculate_scheduled_state: GREEN exactly when a train is due. */
  function ScheduledState(s: Sensors): (r: int)
    ensures r == Green <==> s.scheduledTrainDue
    ensures r == Red <==> !s.scheduledTrainDue
  {
    if s.scheduledTrainDue then Green else Red
  }

  /** step, with its final range check. */
  function Step(s: Sensors, lastSignalState: int): (r: int)
    ensures Red <= r <= Green && r != Yellow
    ensures IsSafetyOverrideActive(s) ==> r == Red
    ensures !IsSafetyOverrideActive(s) ==> (r == Green <==> s.scheduledTrainDue)
  {
    var newState := if IsSafetyOverrideActive(s) then FailsafeState(s) else ScheduledState(s);
    if newState < Red || newState > Green then Red else newState
  }

  /** The whole cascade in one line: GREEN exactly when the link is up and a
      train is due. An occupied track does not turn a scheduled GREEN red. */
  lemma GreenExactlyWhenDueAndLinked(s: Sensors, last: int)
    ensures Step(s, last) == Green <==> s.commsLinkOk && s.scheduledTrainDue
  {
  }

  /** The override hands the signal to get_failsafe_state, which gives RED
      for either reason; and the override is the only way a train that is
      due can see RED. */
  lemma OverrideGivesFailsafe(s: Sensors, last: int)
    ensures FailsafeState(s) == Red
    ensures IsSafetyOverrideActive(s) ==> Step(s, last) == FailsafeState(s)
    ensures s.scheduledTrainDue && Step(s, last) == Red ==> IsSafetyOverrideActive(s)
  {
  }

  /** With the comms link down, the schedule plays no part. */
  lemma CommsFailureIgnoresSchedule(s: Sensors, last: int, due: bool)
    requires !s.commsLinkOk
    ensures Step(s.(scheduledTrainDue := due), last) == Step(s, last)
  {
  }

  /** With the link up, the schedule decides the signal. */
  lemma ScheduleIsRelevant()
    ensures exists s: Sensors, last: int ::
              !IsSafetyOverrideActive(s) && Step(s, last) != Step(s.(scheduledTrainDue := !s.scheduledTrainDue), last)
  {
    var s := Sensors(false, true, true);
    assert Step(s, Red) == Green;
    assert Step(s.(scheduledTrainDue := false), Red) == Red;
  }
}
