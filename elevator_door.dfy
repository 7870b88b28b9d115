/** elevator_door_controller.c: the door motor force. An obstruction forces
    the doors open; otherwise a hold-open timer, kept between steps, holds
    an open door still for 20 steps on the lobby profile or 5 on the
    standard one before a close command is obeyed. The force stays in
    [-50, 50]. */
module ElevatorDoor {
  import opened Saturation

  const MaxDoorForce := 50
  const DoorCloseForce := -20
  const DoorOpenForce := 30
  const LobbyHoldTicks := 20
  const StandardHoldTicks := 5

  datatype Sensors = Sensors(
    obstructionDetected: bool,
    commandCloseDoor: int,            // a C truth value: non-zero means close
    specialHoldProfileActive: bool)   // the mode variable of interest

  /** is_path_obstructed */
  predicate IsPathObstructed(s: Sensors) {
    s.obstructionDetected
  }

  /** The force of one step and the hold-open timer it leaves behind. */
  datatype Tick = Tick(force: int, holdOpenTimer: int)

  /** What calculate_nominal_door_force returns and leaves in
      hold_open_timer, given the timer before the call. The door holds
      still exactly while the timer runs; whenever it is driven open, the
      timer is armed so that the next steps hold it. */
  function NominalDoorForce(s: Sensors, timer: int): (t: Tick)
    ensures t.force == 0 <==> timer > 0
    ensures t.force == DoorCloseForce <==> timer <= 0 && s.commandCloseDoor != 0
    ensures t.force == DoorOpenForce <==> timer <= 0 && s.commandCloseDoor == 0
    ensures t.force == DoorOpenForce ==> t.holdOpenTimer > 0
    ensures timer >= 0 ==> 0 <= t.holdOpenTimer <= if timer > 0 then timer - 1 else LobbyHoldTicks
  {
    if timer > 0 then Tick(0, timer - 1)
    else if s.commandCloseDoor != 0 then Tick(DoorCloseForce, timer)
    else if s.specialHoldProfileActive then Tick(DoorOpenForce, LobbyHoldTicks)
    else Tick(DoorOpenForce, StandardHoldTicks)
  }

  /** apply_force_saturation is the clamp to [-50, 50]. */
  function ForceSaturation(force: int): (r: int)
    ensures r == Clamp(force, -MaxDoorForce, MaxDoorForce)
  {
    if force > MaxDoorForce then MaxDoorForce
    else if force < -MaxDoorForce then -MaxDoorForce
    else force
  }

  /** step, with the timer made explicit: an obstruction opens the door and
      leaves the timer alone; otherwise the nominal force, which the
      saturation never changes. */
  function DoorStep(s: Sensors, timer: int): (t: Tick)
    ensures -MaxDoorForce <= t.force <= MaxDoorForce
    ensures IsPathObstructed(s) ==> t == Tick(DoorOpenForce, timer)
    ensures !IsPathObstructed(s) ==> t == NominalDoorForce(s, timer)
  {
    if IsPathObstructed(s) then Tick(ForceSaturation(DoorOpenForce), timer)
    else
      var n := NominalDoorForce(s, timer);
      Tick(ForceSaturation(n.force), n.holdOpenTimer)
  }

  /** An obstruction ignores the hold profile and the close command. */
  lemma ObstructionIgnoresHoldProfile(s: Sensors, timer: int, profile: bool, close: int)
    requires IsPathObstructed(s)
    ensures DoorStep(s.(specialHoldProfileActive := profile, commandCloseDoor := close), timer) == DoorStep(s, timer)
  {
  }

  /** Without an obstruction the hold profile does matter: it sets how long
      the door will be held. */
  lemma HoldProfileIsRelevant()
    ensures exists s: Sensors, timer: int ::
              !IsPathObstructed(s) && DoorStep(s, timer) != DoorStep(s.(specialHoldProfileActive := !s.specialHoldProfileActive), timer)
  {
    var s := Sensors(false, 0, true);
    assert DoorStep(s, 0) == Tick(DoorOpenForce, LobbyHoldTicks);
    assert DoorStep(s.(specialHoldProfileActive := false), 0) == Tick(DoorOpenForce, StandardHoldTicks);
  }

  /** The forces and the final timer of a run of steps. */
  datatype Trace = Trace(forces: seq<int>, holdOpenTimer: int)

  /** Steps taken one after another, each on its own inputs, the timer
      carried from one to the next. Every force is in range. */
  function Run(inputs: seq<Sensors>, timer: int): (tr: Trace)
    ensures |tr.forces| == |inputs|
    ensures forall i :: 0 <= i < |tr.forces| ==> -MaxDoorForce <= tr.forces[i] <= MaxDoorForce
    decreases |inputs|
  {
    if inputs == [] then Trace([], timer)
    else
      var t := DoorStep(inputs[0], timer);
      var rest := Run(inputs[1..], t.holdOpenTimer);
      Trace([t.force] + rest.forces, rest.holdOpenTimer)
  }

  /** A door held with `timer` steps to go stays still for exactly that many
      unobstructed steps, whatever is commanded, and the timer then reads 0. */
  lemma {:induction false} HoldLastsTimerSteps(inputs: seq<Sensors>, timer: int)
    requires timer == |inputs|
    requires forall i :: 0 <= i < |inputs| ==> !IsPathObstructed(inputs[i])
    ensures Run(inputs, timer).forces == seq(|inputs|, i => 0)
    ensures Run(inputs, timer).holdOpenTimer == 0
    decreases |inputs|
  {
    if inputs != [] {
      HoldLastsTimerSteps(inputs[1..], timer - 1);
    }
  }

  /** While the path stays obstructed the door is driven open on every step
      and the timer does not move. */
  lemma {:induction false} ObstructionFreezesTimer(inputs: seq<Sensors>, timer: int)
    requires forall i :: 0 <= i < |inputs| ==> IsPathObstructed(inputs[i])
    ensures Run(inputs, timer).forces == seq(|inputs|, i => DoorOpenForce)
    ensures Run(inputs, timer).holdOpenTimer == timer
    decreases |inputs|
  {
    if inputs != [] {
      ObstructionFreezesTimer(inputs[1..], timer);
    }
  }

  /** The controller with its one piece of state, the global hold_open_timer. */
  class DoorController {
    var holdOpenTimer: int

    constructor (timer: int)
      ensures holdOpenTimer == timer
    {
      holdOpenTimer := timer;
    }

    /** calculate_nominal_door_force: a running timer holds the door and
        counts down by one; with the timer out, a close command closes the
        door and leaves the timer; otherwise the door opens and the timer is
        set by the hold profile. */
    method CalculateNominalDoorForce(s: Sensors) returns (force: int)
      modifies this
      ensures Tick(force, holdOpenTimer) == NominalDoorForce(s, old(holdOpenTimer))
      ensures old(holdOpenTimer) > 0 ==> force == 0 && holdOpenTimer == old(holdOpenTimer) - 1
      ensures old(holdOpenTimer) <= 0 && s.commandCloseDoor != 0 ==>
                force == DoorCloseForce && holdOpenTimer == old(holdOpenTimer)
      ensures old(holdOpenTimer) <= 0 && s.commandCloseDoor == 0 ==>
                force == DoorOpenForce
                && holdOpenTimer == if s.specialHoldProfileActive then LobbyHoldTicks else StandardHoldTicks
    {
      if holdOpenTimer > 0 {
        holdOpenTimer := holdOpenTimer - 1;
        return 0;
      }
      if s.commandCloseDoor != 0 {
        return DoorCloseForce;
      }
      if s.specialHoldProfileActive {
        holdOpenTimer := LobbyHoldTicks;
      } else {
        holdOpenTimer := StandardHoldTicks;
      }
      return DoorOpenForce;
    }

    /** step */
    method Step(s: Sensors, lastDoorForce: int) returns (force: int)
      modifies this
      ensures Tick(force, holdOpenTimer) == DoorStep(s, old(holdOpenTimer))
      ensures -MaxDoorForce <= force <= MaxDoorForce
      ensures IsPathObstructed(s) ==> force == DoorOpenForce && holdOpenTimer == old(holdOpenTimer)
    {
      var newForce;
      if IsPathObstructed(s) {
        newForce := DoorOpenForce;
      } else {
        newForce := CalculateNominalDoorForce(s);
      }
      force := ForceSaturation(newForce);
    }
  }
}
