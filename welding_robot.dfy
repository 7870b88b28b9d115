/** automated_welding_robot_controller.c: a welding robot that moves one
    step along its programmed path per control step until the path is done.
    A human in the safety cage stops it at once, wherever it is on the path,
    and leaves the path position alone. The command is always 0 or 1. */
module WeldingRobot {

  const MotorCmdStop := 0
  const MotorCmdMove := 1
  /** The initial value of the global total_path_steps. */
  const DefaultTotalPathSteps := 100

  datatype Sensors = Sensors(humanInSafetyZone: bool)

  /** is_human_detected */
  predicate IsHumanDetected(s: Sensors) {
    s.humanInSafetyZone
  }

  /** The command of one step and the path position it leaves. */
  datatype Tick = Tick(command: int, programPathStep: int)

  /** calculate_normal_command, given program_path_step (the mode variable
      of interest) and total_path_steps: move and advance while the path
      is not done, stop and stay once it is. */
  function NormalCommand(pathStep: int, total: int): (t: Tick)
    ensures t.command == MotorCmdMove <==> pathStep < total
    ensures t.command == MotorCmdMove ==> t.programPathStep == pathStep + 1
    ensures t.command == MotorCmdStop ==> t.programPathStep == pathStep
    ensures pathStep <= total ==> t.programPathStep <= total
  {
    if pathStep < total then Tick(MotorCmdMove, pathStep + 1)
    else Tick(MotorCmdStop, pathStep)
  }

  /** step_control_logic */
  function WeldStep(s: Sensors, pathStep: int, total: int): (t: Tick)
    ensures t.command == MotorCmdStop || t.command == MotorCmdMove
    ensures IsHumanDetected(s) ==> t == Tick(MotorCmdStop, pathStep)
    ensures !IsHumanDetected(s) ==> t == NormalCommand(pathStep, total)
  {
    if IsHumanDetected(s) then Tick(MotorCmdStop, pathStep)
    else NormalCommand(pathStep, total)
  }

  /** A human in the cage ignores the path position. */
  lemma HumanIgnoresPathStep(s: Sensors, p1: int, p2: int, total: int)
    requires IsHumanDetected(s)
    ensures WeldStep(s, p1, total).command == WeldStep(s, p2, total).command == MotorCmdStop
  {
  }

  /** With the cage clear the path position does matter. */
  lemma PathStepIsRelevant()
    ensures exists s: Sensors, p: int ::
              !IsHumanDetected(s) && WeldStep(s, p, DefaultTotalPathSteps).command != WeldStep(s, DefaultTotalPathSteps, DefaultTotalPathSteps).command
  {
    var s := Sensors(false);
    assert WeldStep(s, 0, DefaultTotalPathSteps).command == MotorCmdMove;
    assert WeldStep(s, DefaultTotalPathSteps, DefaultTotalPathSteps).command == MotorCmdStop;
  }

  /** The commands and the final path position of a run of steps. */
  datatype Trace = Trace(commands: seq<int>, programPathStep: int)

  /** Steps taken one after another, each on its own inputs. A path
      position that starts within the path never passes its end, and every
      command is STOP or MOVE. */
  function Run(inputs: seq<Sensors>, pathStep: int, total: int): (tr: Trace)
    ensures |tr.commands| == |inputs|
    ensures forall i :: 0 <= i < |tr.commands| ==> tr.commands[i] == MotorCmdStop || tr.commands[i] == MotorCmdMove
    ensures pathStep <= tr.programPathStep
    ensures pathStep <= total ==> tr.programPathStep <= total
    decreases |inputs|
  {
    if inputs == [] then Trace([], pathStep)
    else
      var t := WeldStep(inputs[0], pathStep, total);
      var rest := Run(inputs[1..], t.programPathStep, total);
      Trace([t.command] + rest.commands, rest.programPathStep)
  }

  /** With the cage clear throughout, a robot at `pathStep` moves once for
      every remaining step of the path and then stops at its end. */
  lemma {:induction false} PathRunsToCompletion(inputs: seq<Sensors>, pathStep: int, total: int)
    requires pathStep <= total && |inputs| == total - pathStep + 1
    requires forall i :: 0 <= i < |inputs| ==> !IsHumanDetected(inputs[i])
    ensures Run(inputs, pathStep, total).commands == seq(|inputs| - 1, i => MotorCmdMove) + [MotorCmdStop]
    ensures Run(inputs, pathStep, total).programPathStep == total
    decreases |inputs|
  {
    if pathStep < total {
      PathRunsToCompletion(inputs[1..], pathStep + 1, total);
      assert seq(|inputs| - 1, i => MotorCmdMove) == [MotorCmdMove] + seq(|inputs| - 2, i => MotorCmdMove);
    }
  }

  /** The controller with the globals program_path_step and
      total_path_steps. */
  class WeldingController {
    var programPathStep: int
    var totalPathSteps: int

    constructor ()
      ensures programPathStep == 0 && totalPathSteps == DefaultTotalPathSteps
    {
      programPathStep := 0;
      totalPathSteps := DefaultTotalPathSteps;
    }

    /** calculate_normal_command */
    method CalculateNormalCommand() returns (command: int)
      modifies this
      ensures totalPathSteps == old(totalPathSteps)
      ensures Tick(command, programPathStep) == NormalCommand(old(programPathStep), totalPathSteps)
      ensures old(programPathStep) < totalPathSteps ==> command == MotorCmdMove && programPathStep == old(programPathStep) + 1
      ensures old(programPathStep) >= totalPathSteps ==> command == MotorCmdStop && programPathStep == old(programPathStep)
    {
      if programPathStep < totalPathSteps {
        programPathStep := programPathStep + 1;
        return MotorCmdMove;
      } else {
        return MotorCmdStop;
      }
    }

    /** step_control_logic */
    method StepControlLogic(s: Sensors) returns (command: int)
      modifies this
      ensures totalPathSteps == old(totalPathSteps)
      ensures Tick(command, programPathStep) == WeldStep(s, old(programPathStep), totalPathSteps)
      ensures IsHumanDetected(s) ==> command == MotorCmdStop && programPathStep == old(programPathStep)
      ensures old(programPathStep) <= totalPathSteps ==> programPathStep <= totalPathSteps
    {
      if IsHumanDetected(s) {
        return MotorCmdStop;
      } else {
        command := CalculateNormalCommand();
      }
    }
  }
}
