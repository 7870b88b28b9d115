/** furnace_ignition_controller.c: the gas valve of a furnace. A closed
    valve opens on a call for heat and restarts the ignition timer; an open
    valve counts the timer up and shuts once more than 5 steps have passed
    without a flame, whatever the thermostat says. The valve state is always
    0 or 1. */
module FurnaceIgnition {

  const ValveClosed := 0
  const ValveOpen := 1
  const IgnitionTimeout := 5

  datatype Sensors = Sensors(
    thermostatCallsForHeat: bool,   // the mode variable of interest
    flameDetected: bool)

  /** has_ignition_timed_out, given time_since_valve_open. */
  predicate HasIgnitionTimedOut(s: Sensors, timer: int) {
    timer > IgnitionTimeout && !s.flameDetected
  }

  /** The valve state after one step and the timer it leaves behind. */
  datatype Tick = Tick(valve: int, timeSinceValveOpen: int)

  /** handle_open_valve_logic: the timer always advances; the valve shuts
      exactly when the advanced timer has passed the timeout with no flame.
      The thermostat plays no part. */
  function OpenValveLogic(s: Sensors, timer: int): (t: Tick)
    ensures t.timeSinceValveOpen == timer + 1
    ensures t.valve == ValveClosed <==> timer + 1 > IgnitionTimeout && !s.flameDetected
    ensures t.valve == ValveOpen <==> !(timer + 1 > IgnitionTimeout && !s.flameDetected)
  {
    var advanced := timer + 1;
    if HasIgnitionTimedOut(s, advanced) then Tick(ValveClosed, advanced)
    else Tick(ValveOpen, advanced)
  }

  /** handle_closed_valve_logic: a call for heat opens the valve and
      restarts the timer; otherwise the valve stays shut and the timer is
      left as it was. */
  function ClosedValveLogic(s: Sensors, timer: int): (t: Tick)
    ensures s.thermostatCallsForHeat ==> t == Tick(ValveOpen, 0)
    ensures !s.thermostatCallsForHeat ==> t == Tick(ValveClosed, timer)
  {
    if s.thermostatCallsForHeat then Tick(ValveOpen, 0)
    else Tick(ValveClosed, timer)
  }

  /** step_control_logic: anything but an open valve counts as closed. */
  function FurnaceStep(s: Sensors, currentValveState: int, timer: int): (t: Tick)
    ensures t.valve == ValveClosed || t.valve == ValveOpen
    ensures currentValveState == ValveOpen ==> t == OpenValveLogic(s, timer)
    ensures currentValveState != ValveOpen ==> t == ClosedValveLogic(s, timer)
  {
    if currentValveState == ValveOpen then OpenValveLogic(s, timer)
    else ClosedValveLogic(s, timer)
  }

  /** With the valve open the thermostat is ignored. */
  lemma OpenValveIgnoresThermostat(s: Sensors, timer: int, heat: bool)
    ensures FurnaceStep(s.(thermostatCallsForHeat := heat), ValveOpen, timer) == FurnaceStep(s, ValveOpen, timer)
  {
  }

  /** With the valve closed the thermostat does matter. */
  lemma ThermostatIsRelevant()
    ensures exists s: Sensors, timer: int ::
              FurnaceStep(s, ValveClosed, timer) != FurnaceStep(s.(thermostatCallsForHeat := !s.thermostatCallsForHeat), ValveClosed, timer)
  {
    var s := Sensors(true, false);
    assert FurnaceStep(s, ValveClosed, 3).valve == ValveOpen;
    assert FurnaceStep(s.(thermostatCallsForHeat := false), ValveClosed, 3).valve == ValveClosed;
  }

  /** The valve states and the final timer of a run of steps. */
  datatype Trace = Trace(valves: seq<int>, timeSinceValveOpen: int)

  /** Steps taken one after another, each on its own inputs, with the valve
      state and the timer carried from one to the next. */
  function Run(inputs: seq<Sensors>, valve: int, timer: int): (tr: Trace)
    ensures |tr.valves| == |inputs|
    ensures forall i :: 0 <= i < |tr.valves| ==> tr.valves[i] == ValveClosed || tr.valves[i] == ValveOpen
    decreases |inputs|
  {
    if inputs == [] then Trace([], timer)
    else
      var t := FurnaceStep(inputs[0], valve, timer);
      var rest := Run(inputs[1..], t.valve, t.timeSinceValveOpen);
      Trace([t.valve] + rest.valves, rest.timeSinceValveOpen)
  }

  /** An open valve whose timer has not yet passed the timeout stays open
      until the step that takes the timer past it without a flame, and
      closes on exactly that step, whatever the thermostat asks. From a
      freshly opened valve (timer 0) that is the sixth step. The step itself
      reopens a closed valve on the next call for heat; halting the furnace
      after the shut-off is the simulation loop's doing, which this model
      leaves out. */
  lemma {:induction false} NoFlameShutsValveOnSixthStep(inputs: seq<Sensors>, timer: int)
    requires 0 <= timer <= IgnitionTimeout && |inputs| == IgnitionTimeout + 1 - timer
    requires forall i :: 0 <= i < |inputs| ==> !inputs[i].flameDetected
    ensures Run(inputs, ValveOpen, timer).valves == seq(|inputs| - 1, i => ValveOpen) + [ValveClosed]
    ensures Run(inputs, ValveOpen, timer).timeSinceValveOpen == IgnitionTimeout + 1
    decreases |inputs|
  {
    if timer < IgnitionTimeout {
      NoFlameShutsValveOnSixthStep(inputs[1..], timer + 1);
      assert seq(|inputs| - 1, i => ValveOpen) == [ValveOpen] + seq(|inputs| - 2, i => ValveOpen);
    }
  }

  /** A flame seen on every step keeps an open valve open indefinitely. */
  lemma {:induction false} FlameKeepsValveOpen(inputs: seq<Sensors>, timer: int)
    requires forall i :: 0 <= i < |inputs| ==> inputs[i].flameDetected
    ensures Run(inputs, ValveOpen, timer).valves == seq(|inputs|, i => ValveOpen)
    ensures Run(inputs, ValveOpen, timer).timeSinceValveOpen == timer + |inputs|
    decreases |inputs|
  {
    if inputs != [] {
      FlameKeepsValveOpen(inputs[1..], timer + 1);
    }
  }

  /** The controller with its one piece of state, the global
      time_since_valve_open. */
  class FurnaceController {
    var timeSinceValveOpen: int

    constructor ()
      ensures timeSinceValveOpen == 0
    {
      timeSinceValveOpen := 0;
    }

    /** has_ignition_timed_out */
    method HasIgnitionTimedOutNow(s: Sensors) returns (timedOut: bool)
      ensures timedOut <==> HasIgnitionTimedOut(s, timeSinceValveOpen)
    {
      timedOut := timeSinceValveOpen > IgnitionTimeout && !s.flameDetected;
    }

    /** handle_open_valve_logic */
    method HandleOpenValveLogic(s: Sensors) returns (valve: int)
      modifies this
      ensures Tick(valve, timeSinceValveOpen) == OpenValveLogic(s, old(timeSinceValveOpen))
      ensures timeSinceValveOpen == old(timeSinceValveOpen) + 1
    {
      timeSinceValveOpen := timeSinceValveOpen + 1;
      var timedOut := HasIgnitionTimedOutNow(s);
      if timedOut {
        return ValveClosed;
      } else {
        return ValveOpen;
      }
    }

    /** handle_closed_valve_logic */
    method HandleClosedValveLogic(s: Sensors) returns (valve: int)
      modifies this
      ensures Tick(valve, timeSinceValveOpen) == ClosedValveLogic(s, old(timeSinceValveOpen))
      ensures s.thermostatCallsForHeat ==> valve == ValveOpen && timeSinceValveOpen == 0
      ensures !s.thermostatCallsForHeat ==> valve == ValveClosed && timeSinceValveOpen == old(timeSinceValveOpen)
    {
      if s.thermostatCallsForHeat {
        timeSinceValveOpen := 0;
        return ValveOpen;
      }
      return ValveClosed;
    }

    /** step_control_logic */
    method StepControlLogic(s: Sensors, currentValveState: int) returns (valve: int)
      modifies this
      ensures Tick(valve, timeSinceValveOpen) == FurnaceStep(s, currentValveState, old(timeSinceValveOpen))
      ensures valve == ValveClosed || valve == ValveOpen
    {
      if currentValveState == ValveOpen {
        valve := HandleOpenValveLogic(s);
      } else {
        valve := HandleClosedValveLogic(s);
      }
    }
  }
}
