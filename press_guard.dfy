/** industrial_press_safety_guard.c: a hydraulic press that runs a batch of
    1000 parts, counting one part per running step and stopping when the
    batch is done. A breached light curtain stops it at once, whatever the
    count, and leaves the count alone. */
module PressGuard {

  const StateStopped := 0
  const StateRunning := 1
  const BatchSize := 1000

  datatype Sensors = Sensors(
    lightCurtainBreached: bool,
    startCommand: bool)

  /** is_safety_override_active */
  predicate IsSafetyOverrideActive(s: Sensors) {
    s.lightCurtainBreached
  }

  /** The press state after one step and the part counter it leaves. */
  datatype Tick = Tick(state: int, partCounter: int)

  /** calculate_normal_state, given part_counter (the mode variable of
      interest) before the call. A stopped press starts on command unless
      the batch is complete; a running press stops once the batch is
      complete and otherwise counts one more part; any other state is
      returned as it came. Only a running step changes the counter. */
  function NormalState(s: Sensors, currentState: int, counter: int): (t: Tick)
    ensures currentState == StateStopped && s.startCommand ==>
              t == Tick(if counter < BatchSize then StateRunning else StateStopped, counter)
    ensures currentState == StateRunning && counter >= BatchSize ==> t == Tick(StateStopped, counter)
    ensures currentState == StateRunning && counter < BatchSize ==> t == Tick(StateRunning, counter + 1)
    ensures currentState != StateRunning && !(currentState == StateStopped && s.startCommand) ==>
              t == Tick(currentState, counter)
    ensures counter <= BatchSize ==> t.partCounter <= BatchSize
  {
    if currentState == StateStopped && s.startCommand then
      (if counter < BatchSize then Tick(StateRunning, counter) else Tick(StateStopped, counter))
    else if currentState == StateRunning then
      (if counter >= BatchSize then Tick(StateStopped, counter) else Tick(StateRunning, counter + 1))
    else Tick(currentState, counter)
  }

  /** step_control_logic. From a valid state the result is a valid state;
      an invalid one passes through the nominal path unchanged. */
  function PressStep(s: Sensors, currentState: int, counter: int): (t: Tick)
    ensures IsSafetyOverrideActive(s) ==> t == Tick(StateStopped, counter)
    ensures !IsSafetyOverrideActive(s) ==> t == NormalState(s, currentState, counter)
    ensures currentState == StateStopped || currentState == StateRunning ==>
              t.state == StateStopped || t.state == StateRunning
    ensures counter <= t.partCounter <= counter + 1
  {
    if IsSafetyOverrideActive(s) then Tick(StateStopped, counter)
    else NormalState(s, currentState, counter)
  }

  /** A breach ignores the part count: the press stops and the count is
      kept, whatever it was. */
  lemma BreachIgnoresCounter(s: Sensors, state: int, c1: int, c2: int)
    requires IsSafetyOverrideActive(s)
    ensures PressStep(s, state, c1).state == PressStep(s, state, c2).state == StateStopped
    ensures PressStep(s, state, c1).partCounter == c1
  {
  }

  /** Without a breach the count does matter. */
  lemma CounterIsRelevant()
    ensures exists s: Sensors, state: int, c: int ::
              !IsSafetyOverrideActive(s) && PressStep(s, state, c).state != PressStep(s, state, BatchSize).state
  {
    var s := Sensors(false, true);
    assert PressStep(s, StateRunning, 0).state == StateRunning;
    assert PressStep(s, StateRunning, BatchSize).state == StateStopped;
  }

  /** The press states and the final counter of a run of steps. */
  datatype Trace = Trace(states: seq<int>, partCounter: int)

  /** Steps taken one after another, each on its own inputs, with the state
      and the counter carried from one to the next. A counter that starts at
      or below the batch size never passes it. */
  function Run(inputs: seq<Sensors>, state: int, counter: int): (tr: Trace)
    ensures |tr.states| == |inputs|
    ensures counter <= tr.partCounter
    ensures counter <= BatchSize ==> tr.partCounter <= BatchSize
    decreases |inputs|
  {
    if inputs == [] then Trace([], counter)
    else
      var t := PressStep(inputs[0], state, counter);
      var rest := Run(inputs[1..], t.state, t.partCounter);
      Trace([t.state] + rest.states, rest.partCounter)
  }

  /** A running press with no breach counts up to the batch size, running
      for exactly the parts that remain, and then stops. */
  lemma {:induction false} BatchRunsToCompletion(inputs: seq<Sensors>, counter: int)
    requires counter <= BatchSize && |inputs| == BatchSize - counter + 1
    requires forall i :: 0 <= i < |inputs| ==> !IsSafetyOverrideActive(inputs[i])
    ensures Run(inputs, StateRunning, counter).states == seq(|inputs| - 1, i => StateRunning) + [StateStopped]
    ensures Run(inputs, StateRunning, counter).partCounter == BatchSize
    decreases |inputs|
  {
    if counter < BatchSize {
      BatchRunsToCompletion(inputs[1..], counter + 1);
      assert seq(|inputs| - 1, i => StateRunning) == [StateRunning] + seq(|inputs| - 2, i => StateRunning);
    }
  }

  /** The controller with its one piece of state, the global part_counter. */
  class PressController {
    var partCounter: int

    constructor (counter: int)
      ensures partCounter == counter
    {
      partCounter := counter;
    }

    /** calculate_normal_state */
    method CalculateNormalState(s: Sensors, currentState: int) returns (state: int)
      modifies this
      ensures Tick(state, partCounter) == NormalState(s, currentState, old(partCounter))
      ensures currentState == StateRunning && old(partCounter) < BatchSize ==>
                state == StateRunning && partCounter == old(partCounter) + 1
      ensures !(currentState == StateRunning && old(partCounter) < BatchSize) ==> partCounter == old(partCounter)
    {
      if currentState == StateStopped && s.startCommand {
        if partCounter < BatchSize {
          return StateRunning;
        } else {
          return StateStopped;
        }
      } else if currentState == StateRunning {
        if partCounter >= BatchSize {
          return StateStopped;
        } else {
          partCounter := partCounter + 1;
          return StateRunning;
        }
      }
      return currentState;
    }

    /** step_control_logic */
    method StepControlLogic(s: Sensors, currentState: int) returns (state: int)
      modifies this
      ensures Tick(state, partCounter) == PressStep(s, currentState, old(partCounter))
      ensures IsSafetyOverrideActive(s) ==> state == StateStopped && partCounter == old(partCounter)
      ensures old(partCounter) <= BatchSize ==> partCounter <= BatchSize
    {
      if IsSafetyOverrideActive(s) {
        return StateStopped;
      } else {
        state := CalculateNormalState(s, currentState);
      }
    }
  }
}
