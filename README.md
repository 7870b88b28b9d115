# Priority-override controllers, a circular queue and bit-flip case studies in Dafny

This project models the safety-critical control code of the SRIP "30 problems" collection and two of the bit-flip case studies from ciltut.

Each controller runs the same cascade once per control cycle:
1. A safety predicate over the sensor inputs selects a fixed fail-safe output.
2. Otherwise a nominal law computes the output. It branches on one input that the source's header comment marks as the "CRV candidate", called the mode variable below.
3. A final clamp keeps the output inside the range stated in the file's header comment.

Each controller file becomes one module. Its `Sensors` datatype holds the inputs the step reads. Each C function becomes a Dafny member named after it, in PascalCase with the leading verb dropped (`calculate_normal_opening` is `NormalOpening`, `is_abs_faulted` is `IsAbsFaulted`). The C `step` or `step_control_logic` is `Step` in the stateless controllers and `DoorStep`, `FurnaceStep`, `PressStep` or `WeldStep` in the four stateful ones, where the C functions that update a global also become methods of a class. The "## Model" table below pairs every member with the C lines it models. For every controller the model proves:
- the declared range;
- the fail-safe output;
- that the override path ignores the mode variable (a `...Ignores...` lemma);
- that the nominal path does depend on the mode variable (a `...IsRelevant` lemma with a concrete witness).

The elevator load balancer is the one exception: there the mode variable never matters.

Four controllers keep state in a C global that only the nominal path updates: the door hold-open timer, the furnace ignition timer, the press part counter and the welding path step. For these:
- a class holds the global as a field, and its methods mirror the C functions;
- each method is proved equal to a pure step function returning the output and the new state;
- a `Run` function chains steps over a sequence of inputs;
- lemmas by induction prove the multi-step behaviour: the door hold lasting exactly its timer, the furnace gas valve shutting on the sixth step without a flame, the batch and path running to completion, and counters never passing their limits.

Shared pieces:
- `Saturation.Clamp` is the clamp that every `apply_*_saturation` and `apply_*_limits` helper is proved equal to.
- `CArith.CDiv` is C's truncating division, used wherever the source divides a value that can be negative.

`queue.h` is a fixed-size circular FIFO over an array, modelled as a class with the array and index fields. `hamming_distance` is the XOR-and-shift bit counter. `control_fan_speed` is the cs3 fan law, together with its sliced copy.

## Model

| member | source | states |
|---|---|---|
| Saturation.Clamp | SRIP_IMT2022082_IMT2022527/30_problems/multiple_func/dam_spillway_gate_controller.c:39-43 | the result is within [lo, hi], and a value already in range is returned unchanged |
| Saturation.ClampIsNearest | SRIP_IMT2022082_IMT2022527/30_problems/multiple_func/dam_spillway_gate_controller.c:39-43 | no value in the range is closer to the input than the clamped value |
| Saturation.ClampIdempotent | SRIP_IMT2022082_IMT2022527/30_problems/multiple_func/pipeline_pressure_regulator.c:35-39 | clamping twice equals clamping once |
| Saturation.ClampMonotone | SRIP_IMT2022082_IMT2022527/30_problems/multiple_func/automated_greenhouse_vent_controller.c:43-47 | a larger input never gives a smaller clamped value |
| CArith.CDiv | SRIP_IMT2022082_IMT2022527/30_problems/multiple_func/drone_motor_controller.c:66 | C division by a positive divisor: the magnitude is the rounded-down quotient of the magnitudes, and the sign never crosses zero |
| CArith.CDivNonNegative | SRIP_IMT2022082_IMT2022527/30_problems/multiple_func/dam_spillway_gate_controller.c:32 | for a non-negative dividend, C division equals Dafny's |
| CArith.CDivTruncatesTowardZero | SRIP_IMT2022082_IMT2022527/30_problems/multiple_func/nuclear_reactor_control_rod_controller.c:33 | -3 / 2 is -1 in C but -2 in Dafny, so the two divisions differ |
| CircularQueue.Enqueued | SRIP_IMT2022082_IMT2022527/automate_catch_crv/queue.h:46-55 | enqueueing yields the newest SIZE values of the old contents followed by the new value |
| CircularQueue.EnqueueAll | SRIP_IMT2022082_IMT2022527/automate_catch_crv/queue.h:46-55 | enqueueing a sequence of values one by one never holds more than SIZE values |
| CircularQueue.EnqueueAllKeepsNewest | SRIP_IMT2022082_IMT2022527/automate_catch_crv/queue.h:46-55 | after any run of enqueues the queue holds exactly the newest SIZE values ever enqueued, in arrival order |
| CircularQueue.RingAppend | SRIP_IMT2022082_IMT2022527/automate_catch_crv/queue.h:51-53 | writing the slot after rear appends the value to the contents |
| CircularQueue.RingAdvance | SRIP_IMT2022082_IMT2022527/automate_catch_crv/queue.h:39-41 | advancing front modulo SIZE drops exactly the oldest entry |
| CircularQueue.Queue.constructor | SRIP_IMT2022082_IMT2022527/automate_catch_crv/queue.h:9-21 | a new queue is valid and empty, with front 0 and rear -1 |
| CircularQueue.Queue.InitQueue | SRIP_IMT2022082_IMT2022527/automate_catch_crv/queue.h:17-21 | initQueue leaves front 0, rear -1, count 0 and empty contents |
| CircularQueue.Queue.IsEmpty | SRIP_IMT2022082_IMT2022527/automate_catch_crv/queue.h:24-26 | true iff count == 0, iff the contents are empty |
| CircularQueue.Queue.IsFull | SRIP_IMT2022082_IMT2022527/automate_catch_crv/queue.h:29-31 | true iff count == SIZE |
| CircularQueue.Queue.Dequeue | SRIP_IMT2022082_IMT2022527/automate_catch_crv/queue.h:34-43 | on an empty queue it returns -1 and changes nothing; otherwise it returns the oldest entry, drops it from the contents, advances front modulo SIZE and decrements count |
| CircularQueue.Queue.Enqueue | SRIP_IMT2022082_IMT2022527/automate_catch_crv/queue.h:46-55 | the contents become the old contents (minus the oldest entry if the queue was full) plus the value; count stays at most SIZE; rear advances modulo SIZE |
| CircularQueue.Queue.RemoveAtFront | SRIP_IMT2022082_IMT2022527/automate_catch_crv/queue.h:39-42 | on a non-empty queue, returns the oldest entry, drops exactly that entry from the contents, advances front modulo SIZE and decrements count |
| CircularQueue.Queue.AppendAtRear | SRIP_IMT2022082_IMT2022527/automate_catch_crv/queue.h:51-53 | on a queue with a free slot, appends the value to the contents, advances rear modulo SIZE and increments count |
| CircularQueue.Queue.Peek | SRIP_IMT2022082_IMT2022527/automate_catch_crv/queue.h:58-64 | returns the oldest entry, or -1 when the queue is empty, and changes nothing |
| Hamming.Pattern | ciltut/test/caseStudies/cs1/hamming_distance.c:7 | the 32-bit two's-complement pattern of an int is at least 2^31 exactly for negative values |
| Hamming.Signed | ciltut/test/caseStudies/cs1/hamming_distance.c:7 | the inverse of Pattern |
| Hamming.XorBound | ciltut/test/caseStudies/cs1/hamming_distance.c:7 | the XOR of two n-bit values fits in n bits |
| Hamming.XorTopBit | ciltut/test/caseStudies/cs1/hamming_distance.c:7 | the top bit of an XOR is set iff the top bits of the operands differ |
| Hamming.CXor | ciltut/test/caseStudies/cs1/hamming_distance.c:7 | C's a ^ b on two ints is again an int |
| Hamming.CXorSign | ciltut/test/caseStudies/cs1/hamming_distance.c:7 | a ^ b is negative iff a and b have different signs |
| Hamming.HammingDistanceAsWritten | ciltut/test/caseStudies/cs1/hamming_distance.c:5-16 | when a ^ b is not negative, the loop ends and returns the number of set bits of a ^ b |
| Hamming.NegativeNeverReachesZero | ciltut/test/caseStudies/cs1/hamming_distance.c:10-13 | a negative value stays negative under any number of arithmetic right shifts |
| Hamming.AsWrittenDivergesOnMixedSigns | ciltut/test/caseStudies/cs1/hamming_distance.c:10-13 | for operands of different signs the loop's guard holds after every iteration, so the loop never ends |
| Hamming.HammingDistance | ciltut/test/caseStudies/cs1/hamming_distance.c:5-16 | for every pair of ints, the number of bit positions in which their 32-bit patterns differ |
| Hamming.PopCountXorIsDifferingBits | ciltut/test/caseStudies/cs1/hamming_distance.c:7-13 | the set bits of x XOR y are exactly the positions where x and y differ |
| Hamming.XorSelf | ciltut/test/caseStudies/cs1/hamming_distance.c:7 | x XOR x is 0 |
| Hamming.XorCommutes | ciltut/test/caseStudies/cs1/hamming_distance.c:7 | XOR is commutative |
| Hamming.HammingSelfIsZero | ciltut/test/caseStudies/cs1/hamming_distance.c:5-15 | the distance from a value to itself is 0 |
| Hamming.HammingSymmetric | ciltut/test/caseStudies/cs1/hamming_distance.c:7 | the distance does not depend on the order of the operands |
| Hamming.PopCountZero | ciltut/test/caseStudies/cs1/hamming_distance.c:10 | the popcount is 0 iff the value is 0 |
| Hamming.PopCountOfPow2 | ciltut/test/caseStudies/cs1/hamming_distance.c:33-34 | a power of two has exactly one set bit |
| Hamming.PopCountOneIsPow2 | ciltut/test/caseStudies/cs1/hamming_distance.c:33-34 | a value with exactly one set bit is a power of two |
| Hamming.SingleBitFlip | ciltut/test/caseStudies/cs1/hamming_distance.c:33-34 | distance 1 (a single event upset) iff the values differ in exactly one bit position |
| FanSpeed.ControlFanSpeed | ciltut/test/caseStudies/cs3/cs3_org.c:5-31 | an input speed of at most 100 never triggers the alarm; the result is within -5..+6 of the input |
| FanSpeed.ManualModeIgnoresTemperature | ciltut/test/caseStudies/cs3/cs3_org.c:8-9 | in mode 0 the temperature does not affect the result |
| FanSpeed.AutoModeAdjusts | ciltut/test/caseStudies/cs3/cs3_org.c:10-16 | mode 1 below 90 gives +5 above 30 degrees, -5 below 20, and no change in between |
| FanSpeed.OperatingHoursBump | ciltut/test/caseStudies/cs3/cs3_org.c:19-21 | more than 100 hours adds 1 to a speed below 95 |
| FanSpeed.TemperatureIsRelevantInAutoMode | ciltut/test/caseStudies/cs3/cs3_org.c:10-16 | in mode 1 the temperature does change the result |
| FanSpeed.ControlFanSpeedSliced | ciltut/test/caseStudies/cs3/simulate_seu.c:6-17 | the nested-if sliced copy equals the original on every input |
| AbsController.IsAbsFaulted | SRIP_IMT2022082_IMT2022527/30_problems/multiple_func/automotive_abs_controller.c:53-55 | the override condition: the ABS fault flag is set; `Step` then passes the driver's request through the clamp |
| AbsController.SlipPercentage | SRIP_IMT2022082_IMT2022527/30_problems/multiple_func/automotive_abs_controller.c:60-63 | 0 at vehicle speed <= 0; in [0, 100] when the wheel is no faster than the vehicle; 0 at equal speeds, 100 for a locked wheel, and <= 0 for a faster wheel |
| AbsController.SlipBounds | SRIP_IMT2022082_IMT2022527/30_problems/multiple_func/automotive_abs_controller.c:62 | at a positive vehicle speed the slip formula lies in [0, 100] for a wheel no faster than the vehicle, is 0 at equal speeds, 100 for a stopped wheel and at most 0 for a faster wheel |
| AbsController.SlipTruncatesTowardZero | SRIP_IMT2022082_IMT2022527/30_problems/multiple_func/automotive_abs_controller.c:62 | a negative slip is rounded toward zero (-33), not down (-34) |
| AbsController.ModulatedPressure | SRIP_IMT2022082_IMT2022527/30_problems/multiple_func/automotive_abs_controller.c:68-86 | no request gives 0; slip above the target (5 on ice, else 15) gives last-40, otherwise last+20 |
| AbsController.PressureSaturation | SRIP_IMT2022082_IMT2022527/30_problems/multiple_func/automotive_abs_controller.c:91-97 | the result is within [0, 255], never above a non-negative request, and equals the clamp of min(pressure, request) |
| AbsController.Step | SRIP_IMT2022082_IMT2022527/30_problems/multiple_func/automotive_abs_controller.c:102-116 | the output is within [0, 255]; a fault gives the clamped driver request; the output never exceeds a non-negative request; no request gives 0 |
| AbsController.FaultIgnoresIceMode | SRIP_IMT2022082_IMT2022527/30_problems/multiple_func/automotive_abs_controller.c:105-109 | with a fault, ice mode and the last command do not change the output |
| AbsController.IceModeIsRelevant | SRIP_IMT2022082_IMT2022527/30_problems/multiple_func/automotive_abs_controller.c:74-85 | without a fault, ice mode can change the output |
| RailwaySignal.IsSafetyOverrideActive | SRIP_IMT2022082_IMT2022527/30_problems/multiple_func/railway_signal_controller.c:57-61 | the override condition: the track is occupied with no train due, or the comms link is down |
| RailwaySignal.FailsafeState | SRIP_IMT2022082_IMT2022527/30_problems/multiple_func/railway_signal_controller.c:66-73 | the fail-safe aspect, RED whatever the reason; the reason only selects a log message |
| RailwaySignal.OverrideGivesFailsafe | SRIP_IMT2022082_IMT2022527/30_problems/multiple_func/railway_signal_controller.c:57-107 | the fail-safe state is RED; under the override the step gives exactly the fail-safe state; a train that is due sees RED only under the override |
| RailwaySignal.ScheduledState | SRIP_IMT2022082_IMT2022527/30_problems/multiple_func/railway_signal_controller.c:78-86 | GREEN iff a train is due, RED otherwise |
| RailwaySignal.Step | SRIP_IMT2022082_IMT2022527/30_problems/multiple_func/railway_signal_controller.c:91-107 | the output is within [0, 2] and never YELLOW; the override gives RED; otherwise GREEN iff a train is due |
| RailwaySignal.GreenExactlyWhenDueAndLinked | SRIP_IMT2022082_IMT2022527/30_problems/multiple_func/railway_signal_controller.c:57-107 | GREEN iff the comms link is up and a train is due |
| RailwaySignal.CommsFailureIgnoresSchedule | SRIP_IMT2022082_IMT2022527/30_problems/multiple_func/railway_signal_controller.c:57-61 | with the link down the schedule does not matter |
| RailwaySignal.ScheduleIsRelevant | SRIP_IMT2022082_IMT2022527/30_problems/multiple_func/railway_signal_controller.c:78-86 | without the override the schedule changes the output |
| DroneMotor.IsBatteryCritical | SRIP_IMT2022082_IMT2022527/30_problems/multiple_func/drone_motor_controller.c:49-51 | the override condition: battery voltage below 3300 mV; `Step` then gives 400 |
| DroneMotor.NormalThrottle | SRIP_IMT2022082_IMT2022527/30_problems/multiple_func/drone_motor_controller.c:56-70 | disarmed gives 0; Acro passes the input through; Angle gives the truncated mean of the last command and the input, which lies between them |
| DroneMotor.ThrottleSaturation | SRIP_IMT2022082_IMT2022527/30_problems/multiple_func/drone_motor_controller.c:75-79 | it is the clamp to [0, 1000] |
| DroneMotor.Step | SRIP_IMT2022082_IMT2022527/30_problems/multiple_func/drone_motor_controller.c:84-98 | the output is within [0, 1000]; a critical battery gives 400; disarmed gives 0 |
| DroneMotor.CriticalBatteryIgnoresFlightMode | SRIP_IMT2022082_IMT2022527/30_problems/multiple_func/drone_motor_controller.c:88-90 | a critical battery ignores the mode, the input, arming and the last command |
| DroneMotor.AngleModeNeedsNoClamp | SRIP_IMT2022082_IMT2022527/30_problems/multiple_func/drone_motor_controller.c:66 | smoothing in-range values never needs the clamp |
| DroneMotor.FlightModeIsRelevant | SRIP_IMT2022082_IMT2022527/30_problems/multiple_func/drone_motor_controller.c:62-69 | on the nominal path the flight mode changes the output |
| InfusionPump.IsAirBubblePresent | SRIP_IMT2022082_IMT2022527/30_problems/multiple_func/medical_infusion_pump.c:48-50 | the override condition: air detected in the line; `Step` then gives 0 |
| InfusionPump.ProfileMaxRate | SRIP_IMT2022082_IMT2022527/30_problems/multiple_func/medical_infusion_pump.c:55-59 | 100 for profile 1, 250 for profile 2, else 0 |
| InfusionPump.NominalRate | SRIP_IMT2022082_IMT2022527/30_problems/multiple_func/medical_infusion_pump.c:64-80 | disabled gives 0; enabled gives the lesser of the target and the profile maximum |
| InfusionPump.RateSaturation | SRIP_IMT2022082_IMT2022527/30_problems/multiple_func/medical_infusion_pump.c:85-89 | it is the clamp to [0, 500] |
| InfusionPump.Step | SRIP_IMT2022082_IMT2022527/30_problems/multiple_func/medical_infusion_pump.c:94-108 | the output is within [0, 500] and never above 250; air gives 0; enabled without air gives the target clamped to [0, profile max] |
| InfusionPump.AirInLineIgnoresProfile | SRIP_IMT2022082_IMT2022527/30_problems/multiple_func/medical_infusion_pump.c:98-100 | air in the line ignores the profile and the target |
| InfusionPump.ProfileIsRelevant | SRIP_IMT2022082_IMT2022527/30_problems/multiple_func/medical_infusion_pump.c:55-80 | without air the profile changes the output |
| SolarTracker.IsWindSpeedCritical | SRIP_IMT2022082_IMT2022527/30_problems/multiple_func/solar_panel_tracker.c:51-53 | the override condition: wind above 50 mph; `Step` then gives the stow speed |
| SolarTracker.StowSpeed | SRIP_IMT2022082_IMT2022527/30_problems/multiple_func/solar_panel_tracker.c:58-63 | -100 iff the angle is above 0, +100 iff below, 0 iff at 0 |
| SolarTracker.NormalTrackingSpeed | SRIP_IMT2022082_IMT2022527/30_problems/multiple_func/solar_panel_tracker.c:68-80 | mode 0 gives +-50 toward the brighter side when the sensors differ by more than 50, else 0; other modes give 10 |
| SolarTracker.SpeedSaturation | SRIP_IMT2022082_IMT2022527/30_problems/multiple_func/solar_panel_tracker.c:85-89 | it is the clamp to [-100, 100] |
| SolarTracker.Step | SRIP_IMT2022082_IMT2022527/30_problems/multiple_func/solar_panel_tracker.c:94-107 | the output is within [-100, 100]; high wind gives the stow speed; calm wind gives one of -50, 0, 10, 50 |
| SolarTracker.HighWindIgnoresTrackingMode | SRIP_IMT2022082_IMT2022527/30_problems/multiple_func/solar_panel_tracker.c:98-99 | high wind ignores the mode and the light sensors, and always drives toward the stow position |
| SolarTracker.TrackingModeIsRelevant | SRIP_IMT2022082_IMT2022527/30_problems/multiple_func/solar_panel_tracker.c:68-80 | in calm wind the mode changes the output |
| HvacDamper.IsFireAlarmTriggered | SRIP_IMT2022082_IMT2022527/30_problems/multiple_func/hvac_damper_controller.c:50-52 | the override condition: the fire alarm is active; `Step` then gives 0 |
| HvacDamper.NominalDamperPosition | SRIP_IMT2022082_IMT2022527/30_problems/multiple_func/hvac_damper_controller.c:57-70 | 100 iff the system is on and cooling is called for, else 0 |
| HvacDamper.PositionSaturation | SRIP_IMT2022082_IMT2022527/30_problems/multiple_func/hvac_damper_controller.c:75-79 | it is the clamp to [0, 100] |
| HvacDamper.Step | SRIP_IMT2022082_IMT2022527/30_problems/multiple_func/hvac_damper_controller.c:84-98 | the output is 0 or 100; a fire gives 0 |
| HvacDamper.OpenExactlyWhenCoolingWithoutFire | SRIP_IMT2022082_IMT2022527/30_problems/multiple_func/hvac_damper_controller.c:50-98 | 100 iff there is no fire, the system is on and cooling is called for |
| HvacDamper.FireAlarmIgnoresCooling | SRIP_IMT2022082_IMT2022527/30_problems/multiple_func/hvac_damper_controller.c:88-90 | a fire ignores the call for cooling |
| HvacDamper.CoolingIsRelevant | SRIP_IMT2022082_IMT2022527/30_problems/multiple_func/hvac_damper_controller.c:63-69 | without a fire the call for cooling changes the output |
| DamSpillway.NormalOpening | SRIP_IMT2022082_IMT2022527/30_problems/multiple_func/dam_spillway_gate_controller.c:29-37 | above 95% full: 75 plus a quarter of the demand rounded toward zero, at least the demand and at most 100 for a demand in [0, 100]; otherwise the demand |
| DamSpillway.SafetySaturation | SRIP_IMT2022082_IMT2022527/30_problems/multiple_func/dam_spillway_gate_controller.c:39-43 | it is the clamp to [0, 100] |
| DamSpillway.SafetySaturationIdentityAndIdempotent | SRIP_IMT2022082_IMT2022527/30_problems/multiple_func/dam_spillway_gate_controller.c:39-43 | the identity on [0, 100], and idempotent |
| DamSpillway.Step | SRIP_IMT2022082_IMT2022527/30_problems/multiple_func/dam_spillway_gate_controller.c:45-56 | the output is within [0, 100]; a flood gives 100; otherwise the clamped normal opening |
| DamSpillway.FloodIgnoresDemand | SRIP_IMT2022082_IMT2022527/30_problems/multiple_func/dam_spillway_gate_controller.c:48-50 | a flood ignores the demand and the level |
| DamSpillway.DemandIsRelevant | SRIP_IMT2022082_IMT2022527/30_problems/multiple_func/dam_spillway_gate_controller.c:29-37 | without a flood the demand changes the output |
| ReactorRods.IsScramConditionMet | SRIP_IMT2022082_IMT2022527/30_problems/multiple_func/nuclear_reactor_control_rod_controller.c:28-30 | the override condition: coolant above 800 or a seismic event; `Step` then gives 100 |
| ReactorRods.NormalRodDepth | SRIP_IMT2022082_IMT2022527/30_problems/multiple_func/nuclear_reactor_control_rod_controller.c:32-36 | 100 minus the demand in whole tens of MW, rounded toward zero; in [0, 100] for a demand of 0 to 1000 |
| ReactorRods.RodDepthFallsWithDemand | SRIP_IMT2022082_IMT2022527/30_problems/multiple_func/nuclear_reactor_control_rod_controller.c:33 | more demand never inserts the rods further |
| ReactorRods.NegativeDemandTruncates | SRIP_IMT2022082_IMT2022527/30_problems/multiple_func/nuclear_reactor_control_rod_controller.c:33 | a demand of -5 gives 100 (C), not 101 (rounding down) |
| ReactorRods.RodLimits | SRIP_IMT2022082_IMT2022527/30_problems/multiple_func/nuclear_reactor_control_rod_controller.c:38-42 | it is the clamp to [0, 100] |
| ReactorRods.Step | SRIP_IMT2022082_IMT2022527/30_problems/multiple_func/nuclear_reactor_control_rod_controller.c:44-53 | the output is within [0, 100]; a scram (coolant > 800 or seismic) gives 100; otherwise the clamped normal depth |
| ReactorRods.ScramIgnoresDemand | SRIP_IMT2022082_IMT2022527/30_problems/multiple_func/nuclear_reactor_control_rod_controller.c:46-48 | a scram ignores the demand |
| ReactorRods.DemandIsRelevant | SRIP_IMT2022082_IMT2022527/30_problems/multiple_func/nuclear_reactor_control_rod_controller.c:32-36 | without a scram the demand changes the output |
| RoboticArm.IsCollisionDetected | SRIP_IMT2022082_IMT2022527/30_problems/multiple_func/robotic_arm_controller.c:50-52 | the override condition: the force sensor reads above 50 N; `Step` then gives 0 |
| RoboticArm.NominalTorque | SRIP_IMT2022082_IMT2022527/30_problems/multiple_func/robotic_arm_controller.c:57-68 | disabled or at target gives 0; otherwise +-30 (profile 0) or +-80, with the sign following the direction of motion |
| RoboticArm.TorqueSaturation | SRIP_IMT2022082_IMT2022527/30_problems/multiple_func/robotic_arm_controller.c:73-77 | it is the clamp to [0, 100] |
| RoboticArm.Step | SRIP_IMT2022082_IMT2022527/30_problems/multiple_func/robotic_arm_controller.c:82-96 | the output is one of 0, 30, 80; a collision gives 0; a non-zero output only moves toward a higher target |
| RoboticArm.CollisionIgnoresProfile | SRIP_IMT2022082_IMT2022527/30_problems/multiple_func/robotic_arm_controller.c:86-88 | a collision ignores the speed profile |
| RoboticArm.ProfileIsRelevant | SRIP_IMT2022082_IMT2022527/30_problems/multiple_func/robotic_arm_controller.c:63-67 | without a collision the profile changes the output |
| CoolingUnit.IsLeakDetected | SRIP_IMT2022082_IMT2022527/30_problems/multiple_func/data_center_cooling_unit.c:48-50 | the override condition: a water leak is detected; `Step` then gives OFF |
| CoolingUnit.NominalCompressorState | SRIP_IMT2022082_IMT2022527/30_problems/multiple_func/data_center_cooling_unit.c:55-76 | disabled gives OFF; load > 90 gives ON; above 40 degrees ON, below 35 OFF, in between the last state |
| CoolingUnit.Step | SRIP_IMT2022082_IMT2022527/30_problems/multiple_func/data_center_cooling_unit.c:81-99 | the output is 0 or 1; a leak gives OFF; from a valid last state, the nominal state |
| CoolingUnit.HysteresisHoldsState | SRIP_IMT2022082_IMT2022527/30_problems/multiple_func/data_center_cooling_unit.c:65-75 | inside the 35-40 band the compressor keeps its state |
| CoolingUnit.LeakIgnoresCpuLoad | SRIP_IMT2022082_IMT2022527/30_problems/multiple_func/data_center_cooling_unit.c:85-87 | a leak ignores the CPU load |
| CoolingUnit.CpuLoadIsRelevant | SRIP_IMT2022082_IMT2022527/30_problems/multiple_func/data_center_cooling_unit.c:61-64 | without a leak the CPU load changes the output |
| GasMixer.IsO2PressureLow | SRIP_IMT2022082_IMT2022527/30_problems/multiple_func/anesthesia_machine_gas_mixer.c:28-30 | the override condition: O2 supply pressure below 30; `Step` then gives 0 |
| GasMixer.NormalAnestheticPercent | SRIP_IMT2022082_IMT2022527/30_problems/multiple_func/anesthesia_machine_gas_mixer.c:32-35 | the clinician's setting, returned unchanged; `Step` clamps it to [0, 8] and `InRangeSettingDelivered` shows an in-range setting is delivered as set |
| GasMixer.ConcentrationLimits | SRIP_IMT2022082_IMT2022527/30_problems/multiple_func/anesthesia_machine_gas_mixer.c:37-41 | it is the clamp to [0, 8] |
| GasMixer.Step | SRIP_IMT2022082_IMT2022527/30_problems/multiple_func/anesthesia_machine_gas_mixer.c:43-52 | the output is within [0, 8]; O2 < 30 gives 0; otherwise the target clamped to [0, 8] |
| GasMixer.InRangeSettingDelivered | SRIP_IMT2022082_IMT2022527/30_problems/multiple_func/anesthesia_machine_gas_mixer.c:37-41 | a setting in [0, 8] is delivered unchanged |
| GasMixer.LowO2IgnoresSetting | SRIP_IMT2022082_IMT2022527/30_problems/multiple_func/anesthesia_machine_gas_mixer.c:45-47 | low O2 ignores the setting |
| GasMixer.SettingIsRelevant | SRIP_IMT2022082_IMT2022527/30_problems/multiple_func/anesthesia_machine_gas_mixer.c:32-35 | with enough O2 the setting changes the output |
| GreenhouseVent.IsWindOverrideActive | SRIP_IMT2022082_IMT2022527/30_problems/multiple_func/automated_greenhouse_vent_controller.c:28-30 | the override condition: wind above 50; `Step` then gives 0 |
| GreenhouseVent.NormalOpening | SRIP_IMT2022082_IMT2022527/30_problems/multiple_func/automated_greenhouse_vent_controller.c:32-41 | never negative; positive iff the current temperature exceeds the target, and then 10 times the excess |
| GreenhouseVent.NormalOpeningMonotone | SRIP_IMT2022082_IMT2022527/30_problems/multiple_func/automated_greenhouse_vent_controller.c:32-41 | a warmer greenhouse never gets a smaller nominal opening |
| GreenhouseVent.SafetySaturation | SRIP_IMT2022082_IMT2022527/30_problems/multiple_func/automated_greenhouse_vent_controller.c:43-47 | it is the clamp to [0, 100] |
| GreenhouseVent.Step | SRIP_IMT2022082_IMT2022527/30_problems/multiple_func/automated_greenhouse_vent_controller.c:49-58 | the output is within [0, 100]; wind > 50 gives 0; otherwise the clamped normal opening |
| GreenhouseVent.StepMonotone | SRIP_IMT2022082_IMT2022527/30_problems/multiple_func/automated_greenhouse_vent_controller.c:49-58 | the output is monotone in the current temperature |
| GreenhouseVent.WindIgnoresTarget | SRIP_IMT2022082_IMT2022527/30_problems/multiple_func/automated_greenhouse_vent_controller.c:51-53 | high wind ignores both temperatures |
| GreenhouseVent.TargetIsRelevant | SRIP_IMT2022082_IMT2022527/30_problems/multiple_func/automated_greenhouse_vent_controller.c:32-41 | in calm wind the target changes the output |
| LawnMower.IsTiltHazardDetected | SRIP_IMT2022082_IMT2022527/30_problems/multiple_func/autonomous_lawn_mower_controller.c:26-28 | the override condition: tilt above 30 degrees; `Step` then gives OFF |
| LawnMower.NormalBladeState | SRIP_IMT2022082_IMT2022527/30_problems/multiple_func/autonomous_lawn_mower_controller.c:30-38 | ON iff following the GPS path |
| LawnMower.Step | SRIP_IMT2022082_IMT2022527/30_problems/multiple_func/autonomous_lawn_mower_controller.c:40-47 | the output is 0 or 1; tilt > 30 gives OFF; ON iff the tilt is at most 30 and the GPS path is followed |
| LawnMower.TiltIgnoresPath | SRIP_IMT2022082_IMT2022527/30_problems/multiple_func/autonomous_lawn_mower_controller.c:41-43 | a tilt hazard ignores the path |
| LawnMower.PathIsRelevant | SRIP_IMT2022082_IMT2022527/30_problems/multiple_func/autonomous_lawn_mower_controller.c:30-38 | on level ground the path changes the output |
| ConveyorBelt.NormalSpeed | SRIP_IMT2022082_IMT2022527/30_problems/multiple_func/conveyor_belt_speed_controller.c:26-34 | 50 iff the weight is over 30, else 90 |
| ConveyorBelt.SpeedLimits | SRIP_IMT2022082_IMT2022527/30_problems/multiple_func/conveyor_belt_speed_controller.c:36-40 | it is the clamp to [0, 100] |
| ConveyorBelt.SpeedLimitsIdentityInRange | SRIP_IMT2022082_IMT2022527/30_problems/multiple_func/conveyor_belt_speed_controller.c:36-40 | the identity on [0, 100] |
| ConveyorBelt.Step | SRIP_IMT2022082_IMT2022527/30_problems/multiple_func/conveyor_belt_speed_controller.c:42-51 | the output is one of 0, 50, 90, within [0, 100]; a jam gives 0 |
| ConveyorBelt.JamIgnoresWeight | SRIP_IMT2022082_IMT2022527/30_problems/multiple_func/conveyor_belt_speed_controller.c:44-46 | a jam ignores the weight |
| ConveyorBelt.WeightIsRelevant | SRIP_IMT2022082_IMT2022527/30_problems/multiple_func/conveyor_belt_speed_controller.c:26-34 | without a jam the weight changes the output |
| PipelineRegulator.IsOverpressureDetected | SRIP_IMT2022082_IMT2022527/30_problems/multiple_func/pipeline_pressure_regulator.c:26-28 | the override condition: upstream pressure above 800; `Step` then gives 0 |
| PipelineRegulator.DemandBasedPosition | SRIP_IMT2022082_IMT2022527/30_problems/multiple_func/pipeline_pressure_regulator.c:30-33 | the downstream demand, returned unchanged; `Step` clamps it to [0, 100] |
| PipelineRegulator.ValveLimits | SRIP_IMT2022082_IMT2022527/30_problems/multiple_func/pipeline_pressure_regulator.c:35-39 | it is the clamp to [0, 100] |
| PipelineRegulator.ValveLimitsIdempotent | SRIP_IMT2022082_IMT2022527/30_problems/multiple_func/pipeline_pressure_regulator.c:35-39 | limiting twice equals limiting once |
| PipelineRegulator.Step | SRIP_IMT2022082_IMT2022527/30_problems/multiple_func/pipeline_pressure_regulator.c:41-50 | the output is within [0, 100]; pressure > 800 gives 0; otherwise the clamped demand |
| PipelineRegulator.OverpressureIgnoresDemand | SRIP_IMT2022082_IMT2022527/30_problems/multiple_func/pipeline_pressure_regulator.c:43-45 | over-pressure ignores the demand |
| PipelineRegulator.DemandIsRelevant | SRIP_IMT2022082_IMT2022527/30_problems/multiple_func/pipeline_pressure_regulator.c:30-33 | at normal pressure the demand changes the output |
| SolarArray.IsBatteryOverheating | SRIP_IMT2022082_IMT2022527/30_problems/multiple_func/satellite_solar_array_positioner.c:27-29 | the override condition: battery temperature above 60; `Step` then gives 90 |
| SolarArray.SunTrackingAngle | SRIP_IMT2022082_IMT2022527/30_problems/multiple_func/satellite_solar_array_positioner.c:31-34 | the sun position angle, returned unchanged; `Step` clamps it to [-90, 90] |
| SolarArray.AngleLimits | SRIP_IMT2022082_IMT2022527/30_problems/multiple_func/satellite_solar_array_positioner.c:36-40 | it is the clamp to [-90, 90] |
| SolarArray.AngleLimitsIdentityInRange | SRIP_IMT2022082_IMT2022527/30_problems/multiple_func/satellite_solar_array_positioner.c:36-40 | the identity on [-90, 90] |
| SolarArray.Step | SRIP_IMT2022082_IMT2022527/30_problems/multiple_func/satellite_solar_array_positioner.c:42-51 | the output is within [-90, 90]; battery > 60 gives 90; otherwise the clamped sun angle |
| SolarArray.OverheatIgnoresSunAngle | SRIP_IMT2022082_IMT2022527/30_problems/multiple_func/satellite_solar_array_positioner.c:44-46 | overheating ignores the sun angle |
| SolarArray.SunAngleIsRelevant | SRIP_IMT2022082_IMT2022527/30_problems/multiple_func/satellite_solar_array_positioner.c:31-34 | with a cool battery the sun angle changes the output |
| BallastTank.IsCrushDepthImminent | SRIP_IMT2022082_IMT2022527/30_problems/multiple_func/submarine_ballast_tank_controller.c:32-34 | the override condition: hull pressure above 1000; `Step` then gives -1 (empty the tanks) |
| BallastTank.NormalPumpAction | SRIP_IMT2022082_IMT2022527/30_problems/multiple_func/submarine_ballast_tank_controller.c:36-47 | the sign of target minus depth: fill iff shallower than the target, empty iff deeper, hold iff at the target |
| BallastTank.Step | SRIP_IMT2022082_IMT2022527/30_problems/multiple_func/submarine_ballast_tank_controller.c:49-56 | the output is within [-1, 1]; pressure > 1000 gives -1; otherwise the sign of target minus depth |
| BallastTank.CrushDepthIgnoresTarget | SRIP_IMT2022082_IMT2022527/30_problems/multiple_func/submarine_ballast_tank_controller.c:50-52 | near crush depth the target is ignored |
| BallastTank.TargetIsRelevant | SRIP_IMT2022082_IMT2022527/30_problems/multiple_func/submarine_ballast_tank_controller.c:36-47 | otherwise the target changes the output |
| LoadBalancer.IsFireAlarmTriggered | SRIP_IMT2022082_IMT2022527/30_problems/multiple_func/elevator_load_balancer.c:32-34 | the override condition: the fire alarm is active; `Step` then gives fire recall (1) |
| LoadBalancer.NormalServiceCommand | SRIP_IMT2022082_IMT2022527/30_problems/multiple_func/elevator_load_balancer.c:36-43 | normal service (0) on both wait-time branches, which differ only in their log message; `WaitTimeNeverMatters` states it for the whole step |
| LoadBalancer.Step | SRIP_IMT2022082_IMT2022527/30_problems/multiple_func/elevator_load_balancer.c:45-52 | the output is within [0, 2] and never 2; 1 iff a fire alarm, 0 iff none |
| LoadBalancer.WaitTimeNeverMatters | SRIP_IMT2022082_IMT2022527/30_problems/multiple_func/elevator_load_balancer.c:36-43 | the wait time never changes the output, on either path |
| TrafficLight.Step | SRIP_IMT2022082_IMT2022527/30_problems/single_func/traffic_light_system_with_emergency_preemption.c:33-55 | the output is within [0, 2]; preemption gives RED; otherwise GREEN iff timer < 30, YELLOW iff 30..34, RED iff >= 35 |
| TrafficLight.PhaseMonotoneInTimer | SRIP_IMT2022082_IMT2022527/30_problems/single_func/traffic_light_system_with_emergency_preemption.c:45-51 | a later timer never gives an earlier phase of green, yellow, red |
| TrafficLight.PreemptionIgnoresTimer | SRIP_IMT2022082_IMT2022527/30_problems/single_func/traffic_light_system_with_emergency_preemption.c:38-40 | preemption ignores the timer |
| TrafficLight.TimerIsRelevant | SRIP_IMT2022082_IMT2022527/30_problems/single_func/traffic_light_system_with_emergency_preemption.c:45-51 | without preemption the timer changes the output |
| MineVentilation.Step | SRIP_IMT2022082_IMT2022527/30_problems/single_func/mining_ventilation_fan_controller.c:27-48 | the output is one of 20, 60, 100 and at least the idle floor; 100 iff methane > 500; 60 iff below that during a shift; 20 iff below that off shift |
| MineVentilation.MethaneIgnoresShift | SRIP_IMT2022082_IMT2022527/30_problems/single_func/mining_ventilation_fan_controller.c:32-34 | high methane ignores the shift |
| MineVentilation.SpeedMonotoneInMethane | SRIP_IMT2022082_IMT2022527/30_problems/single_func/mining_ventilation_fan_controller.c:32-45 | more methane never slows the fans |
| MineVentilation.ShiftIsRelevant | SRIP_IMT2022082_IMT2022527/30_problems/single_func/mining_ventilation_fan_controller.c:39-45 | below the threshold the shift changes the output |
| ElevatorDoor.IsPathObstructed | SRIP_IMT2022082_IMT2022527/30_problems/multiple_func/elevator_door_controller.c:59-61 | the override condition: an obstruction is detected; `DoorStep` then gives 30 and keeps the timer |
| ElevatorDoor.NominalDoorForce | SRIP_IMT2022082_IMT2022527/30_problems/multiple_func/elevator_door_controller.c:66-85 | force 0 iff the timer runs (then it counts down by one); -20 iff the timer is out and close is commanded; 30 iff the timer is out and close is not commanded, which always arms the timer (20 lobby or 5) |
| ElevatorDoor.ForceSaturation | SRIP_IMT2022082_IMT2022527/30_problems/multiple_func/elevator_door_controller.c:90-94 | it is the clamp to [-50, 50] |
| ElevatorDoor.DoorStep | SRIP_IMT2022082_IMT2022527/30_problems/multiple_func/elevator_door_controller.c:99-113 | the force is within [-50, 50]; an obstruction gives 30 and leaves the timer unchanged; otherwise the nominal force, untouched by the saturation |
| ElevatorDoor.ObstructionIgnoresHoldProfile | SRIP_IMT2022082_IMT2022527/30_problems/multiple_func/elevator_door_controller.c:103-105 | an obstruction ignores the hold profile and the close command |
| ElevatorDoor.HoldProfileIsRelevant | SRIP_IMT2022082_IMT2022527/30_problems/multiple_func/elevator_door_controller.c:77-83 | without an obstruction the hold profile changes the new timer |
| ElevatorDoor.Run | SRIP_IMT2022082_IMT2022527/30_problems/multiple_func/elevator_door_controller.c:99-113 | every force of a run of steps is within [-50, 50] |
| ElevatorDoor.HoldLastsTimerSteps | SRIP_IMT2022082_IMT2022527/30_problems/multiple_func/elevator_door_controller.c:67-71 | a timer of n holds the door still for exactly n unobstructed steps and ends at 0 |
| ElevatorDoor.ObstructionFreezesTimer | SRIP_IMT2022082_IMT2022527/30_problems/multiple_func/elevator_door_controller.c:103-105 | while obstructed, every force is 30 and the timer does not move |
| ElevatorDoor.DoorController.constructor | SRIP_IMT2022082_IMT2022527/30_problems/multiple_func/elevator_door_controller.c:18 | the controller starts with the given hold_open_timer |
| ElevatorDoor.DoorController.CalculateNominalDoorForce | SRIP_IMT2022082_IMT2022527/30_problems/multiple_func/elevator_door_controller.c:66-85 | a running timer gives 0 and decrements by exactly 1; timer out with close gives -20 and keeps the timer; otherwise 30 with the timer set to 20 (lobby) or 5 |
| ElevatorDoor.DoorController.Step | SRIP_IMT2022082_IMT2022527/30_problems/multiple_func/elevator_door_controller.c:99-113 | equals DoorStep on the old timer; the force is within [-50, 50]; an obstruction gives 30 and leaves the timer |
| FurnaceIgnition.HasIgnitionTimedOut | SRIP_IMT2022082_IMT2022527/30_problems/multiple_func/furnace_ignition_controller.c:31-33 | the shut-off condition: the timer is past 5 with no flame seen; `OpenValveLogic` closes the valve exactly then |
| FurnaceIgnition.OpenValveLogic | SRIP_IMT2022082_IMT2022527/30_problems/multiple_func/furnace_ignition_controller.c:35-44 | the timer advances by 1; the valve closes iff the advanced timer exceeds 5 with no flame |
| FurnaceIgnition.ClosedValveLogic | SRIP_IMT2022082_IMT2022527/30_problems/multiple_func/furnace_ignition_controller.c:46-53 | a call for heat opens the valve and resets the timer to 0; otherwise CLOSED with the timer unchanged |
| FurnaceIgnition.FurnaceStep | SRIP_IMT2022082_IMT2022527/30_problems/multiple_func/furnace_ignition_controller.c:55-61 | the result is OPEN or CLOSED; an open valve takes the open logic, anything else the closed logic |
| FurnaceIgnition.OpenValveIgnoresThermostat | SRIP_IMT2022082_IMT2022527/30_problems/multiple_func/furnace_ignition_controller.c:35-44 | with the valve open the thermostat is ignored |
| FurnaceIgnition.ThermostatIsRelevant | SRIP_IMT2022082_IMT2022527/30_problems/multiple_func/furnace_ignition_controller.c:46-53 | with the valve closed the thermostat changes the result |
| FurnaceIgnition.Run | SRIP_IMT2022082_IMT2022527/30_problems/multiple_func/furnace_ignition_controller.c:55-61 | every state of a run of steps is OPEN or CLOSED |
| FurnaceIgnition.NoFlameShutsValveOnSixthStep | SRIP_IMT2022082_IMT2022527/30_problems/multiple_func/furnace_ignition_controller.c:31-44 | an open valve with timer t <= 5 stays open for 5 - t flameless steps and closes on the next, with the timer at 6; from t = 0 that is the sixth step |
| FurnaceIgnition.FlameKeepsValveOpen | SRIP_IMT2022082_IMT2022527/30_problems/multiple_func/furnace_ignition_controller.c:35-44 | with a flame on every step an open valve never closes |
| FurnaceIgnition.FurnaceController.constructor | SRIP_IMT2022082_IMT2022527/30_problems/multiple_func/furnace_ignition_controller.c:66 | the timer starts at 0 |
| FurnaceIgnition.FurnaceController.HasIgnitionTimedOutNow | SRIP_IMT2022082_IMT2022527/30_problems/multiple_func/furnace_ignition_controller.c:31-33 | true iff the timer exceeds 5 with no flame |
| FurnaceIgnition.FurnaceController.HandleOpenValveLogic | SRIP_IMT2022082_IMT2022527/30_problems/multiple_func/furnace_ignition_controller.c:35-44 | increments the timer and equals OpenValveLogic on the old timer |
| FurnaceIgnition.FurnaceController.HandleClosedValveLogic | SRIP_IMT2022082_IMT2022527/30_problems/multiple_func/furnace_ignition_controller.c:46-53 | a call for heat gives OPEN and timer 0; otherwise CLOSED with the timer unchanged |
| FurnaceIgnition.FurnaceController.StepControlLogic | SRIP_IMT2022082_IMT2022527/30_problems/multiple_func/furnace_ignition_controller.c:55-61 | equals FurnaceStep on the old timer; the result is OPEN or CLOSED |
| PressGuard.IsSafetyOverrideActive | SRIP_IMT2022082_IMT2022527/30_problems/multiple_func/industrial_press_safety_guard.c:27-29 | the override condition: the light curtain is breached; `PressStep` then gives STOPPED and keeps the counter |
| PressGuard.NormalState | SRIP_IMT2022082_IMT2022527/30_problems/multiple_func/industrial_press_safety_guard.c:31-50 | STOPPED with start runs iff counter < 1000; RUNNING stops at 1000 or more, else counts one part; any other state passes through; the counter never passes 1000 from at most 1000 |
| PressGuard.PressStep | SRIP_IMT2022082_IMT2022527/30_problems/multiple_func/industrial_press_safety_guard.c:52-59 | a breach gives STOPPED with the counter unchanged; a valid state gives a valid state; the counter rises by at most 1 |
| PressGuard.BreachIgnoresCounter | SRIP_IMT2022082_IMT2022527/30_problems/multiple_func/industrial_press_safety_guard.c:52-55 | a breach stops the press whatever the counter, and keeps it |
| PressGuard.CounterIsRelevant | SRIP_IMT2022082_IMT2022527/30_problems/multiple_func/industrial_press_safety_guard.c:40-46 | without a breach the counter changes the state |
| PressGuard.Run | SRIP_IMT2022082_IMT2022527/30_problems/multiple_func/industrial_press_safety_guard.c:52-59 | over any run of steps a counter starting at most 1000 never passes 1000 and never decreases |
| PressGuard.BatchRunsToCompletion | SRIP_IMT2022082_IMT2022527/30_problems/multiple_func/industrial_press_safety_guard.c:40-46 | a running press at counter c runs 1000 - c more steps without a breach, then stops with the counter at 1000 |
| PressGuard.PressController.constructor | SRIP_IMT2022082_IMT2022527/30_problems/multiple_func/industrial_press_safety_guard.c:15 | the controller starts with the given part_counter |
| PressGuard.PressController.CalculateNormalState | SRIP_IMT2022082_IMT2022527/30_problems/multiple_func/industrial_press_safety_guard.c:31-50 | equals NormalState on the old counter; only a running step below 1000 increments the counter |
| PressGuard.PressController.StepControlLogic | SRIP_IMT2022082_IMT2022527/30_problems/multiple_func/industrial_press_safety_guard.c:52-59 | equals PressStep on the old counter; a breach gives STOPPED and keeps the counter; the counter stays at most 1000 |
| WeldingRobot.IsHumanDetected | SRIP_IMT2022082_IMT2022527/30_problems/multiple_func/automated_welding_robot_controller.c:25-27 | the override condition: a human is in the safety zone; `WeldStep` then gives STOP and keeps the path step |
| WeldingRobot.NormalCommand | SRIP_IMT2022082_IMT2022527/30_problems/multiple_func/automated_welding_robot_controller.c:29-38 | MOVE iff step < total, and then the step advances by 1; STOP keeps the step; the step never passes the total from at most the total |
| WeldingRobot.WeldStep | SRIP_IMT2022082_IMT2022527/30_problems/multiple_func/automated_welding_robot_controller.c:40-47 | the command is 0 or 1; a human gives STOP with the step unchanged; otherwise the normal command |
| WeldingRobot.HumanIgnoresPathStep | SRIP_IMT2022082_IMT2022527/30_problems/multiple_func/automated_welding_robot_controller.c:40-43 | a human stops the robot wherever it is on the path |
| WeldingRobot.PathStepIsRelevant | SRIP_IMT2022082_IMT2022527/30_problems/multiple_func/automated_welding_robot_controller.c:29-37 | with the cage clear the path step changes the command |
| WeldingRobot.Run | SRIP_IMT2022082_IMT2022527/30_problems/multiple_func/automated_welding_robot_controller.c:40-47 | over any run of steps every command is 0 or 1, and a step starting at most the total never passes it |
| WeldingRobot.PathRunsToCompletion | SRIP_IMT2022082_IMT2022527/30_problems/multiple_func/automated_welding_robot_controller.c:29-37 | with the cage clear the robot moves once per remaining path step, then stops at the end |
| WeldingRobot.WeldingController.constructor | SRIP_IMT2022082_IMT2022527/30_problems/multiple_func/automated_welding_robot_controller.c:14-15 | starts at step 0 of a 100-step path |
| WeldingRobot.WeldingController.CalculateNormalCommand | SRIP_IMT2022082_IMT2022527/30_problems/multiple_func/automated_welding_robot_controller.c:29-38 | step < total gives MOVE and step+1; otherwise STOP with the step unchanged |
| WeldingRobot.WeldingController.StepControlLogic | SRIP_IMT2022082_IMT2022527/30_problems/multiple_func/automated_welding_robot_controller.c:40-47 | equals WeldStep on the old step; a human gives STOP and keeps the step; the step stays at most the total |

## Left out

- 32-bit signed overflow: all integers are unbounded. The source's arithmetic (`100 * (v - w)`, `temp_diff * 10`, `last + input`, `counter++`, `abs`) overflows only far outside the sensor ranges its readers produce. Overflow is undefined behaviour in C, so no particular wrap-around is modelled.
- Logging (`printf`, `log_*`, `state_to_string`), the `read_*_sensors` functions (`rand`, `srand`, `time`) and every `main` loop with its range check and early exits. Sensor values are parameters. The range each `main` checks is stated as an `ensures` of `Step`.
- The door reader overwrites `hold_open_timer` with a random 0..3 every cycle (elevator_door_controller.c:46). The model takes the timer as the state left by the previous step. `ElevatorDoor.Run` and its lemmas describe the step on its own, not that simulation.
- Inputs read but never used by the step are not part of the `Sensors` records: the railway `time_of_day`, the door and load-balancer `current_floor`, the anesthesia `patient_age` and the HVAC temperatures.
- The float inputs that are only compared with constants (the cooling unit's `rack_inlet_temp_c` and the robotic arm's `force_sensor_n`) are modelled as real numbers. Float rounding does not matter for a comparison against a constant that is exactly representable.
- Hamming.HammingDistanceAsWritten, Hamming.NegativeNeverReachesZero and Hamming.AsWrittenDivergesOnMixedSigns assume the arithmetic right shift that gcc and clang use. C99 (section 6.5.7) leaves the right shift of a negative value implementation-defined. Under a logical shift the as-written loop would end and return the correct count, and the non-termination in the Findings table would not arise.
- `displayQueue` in queue.h only prints. The order it prints in is `Queue.Contents()`.
- The local `alarm` flag of `control_fan_speed` is only printed. It is modelled as the predicate `FanSpeed.AlarmFires`, and the result of `ControlFanSpeed` is only the fan speed.
- Not modelled, because they are other copies of the same cascade or are outside this model:
  - the single_func duplicates of the modelled multiple_func controllers;
  - battery_management_system_(bms).c and engine_control_unit_(ecu)_limiter.c;
  - the controllers whose nominal law uses floating point (aircraft pitch, chemical reactor, wind turbine, water treatment);
  - the float PID simulators;
  - the files that do not compile (airplane_turbine_monotonically_increasing.c, take_off_turbine.c);
  - the CPROVER bit-flip harnesses, microwave_pid.c, slicing/t2.c, car_simulate_bias.c and deadlock/t1.c;
  - the analysis-tool teaching snippets.

## Findings

| source | as written | input that shows it | evidently intended | confidence | as-written member | corrected member |
|---|---|---|---|---|---|---|
| ciltut/test/caseStudies/cs1/hamming_distance.c:7-13 | `val = a ^ b` is a signed `int`, and `val >>= 1` on a negative value is implementation-defined (section 6.5.7 of C99); with the arithmetic shift of gcc and clang a negative `val` never reaches 0, so the loop never ends whenever a and b have different signs. | a = -1, b = 0: val = -1, and -1 >> 1 == -1 | count the differing bits of the two 32-bit patterns, by shifting the XOR as an unsigned value | not executed | Hamming.AsWrittenDivergesOnMixedSigns | Hamming.HammingDistance |
