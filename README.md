# Rocket landing controllers

A model of the landing and longitude-targeting scripts that drive rockets in
Spaceflight Simulator through its HTTP control server. Each script reads
telemetry from the game and calls the host's control methods: throttle, main
engine on/off, attitude hold (`Rotate`), staging, RCS pulses and RCS on/off.

- `AutoLand.py` flies a whole fleet. Every rocket has its own state machine
  (decel, wait, landing, completed). One loop polls the rockets until no tick
  reports a rocket as still active.
- `precision_landing.py` is a two-phase pilot object. It steers the predicted
  impact longitude onto a target, then brakes in altitude bands down to a
  confirmed touchdown.
- `LonTargeting.py` and `longitude_targeting.py` are two variants of a bounded
  loop. Each leans the retrograde burn towards the target longitude and stops
  once the predicted impact point is within tolerance.
- `Landing.py` is a two-loop descent onto a fixed launch-site longitude. The
  coarse loop uses burns and table-driven RCS pulses above 30 km. The fine loop
  uses an ignition burn, counter-pulses and attitude steering until the radial
  velocity shows touchdown.

The model is organised as follows:

- Every host control call becomes a `Command` value (module `Commands`),
  appended to the command log of the tick that issues it. The vehicle's
  resulting state is the last command of each kind, given by `LastThrottle`,
  `LastEngine` and `LastAttitude`.
- Every host read is an input, and a read that answers nothing is `None`.
  Where the script catches a failing read, the model follows its handler:
  `get_rocket_status` answers an empty status, and an AutoLand tick sends
  nothing. Where an exception escapes a loop, the run ends with the exit
  `Raised` (module `Commands`). This covers a `None` that the script then
  computes with, in LonTargeting, longitude_targeting and precision_landing.
  The commands issued so far stand, and the loop's shut-down sequence is
  skipped.
- Each wall-clock loop runs over a finite sequence of samples, one per pass.
- The three copies of `normalize_longitude` and
  `calculate_longitude_difference` are textually identical. They are modelled
  once, in module `Angles`. `get_landing_longitude` is identical in
  `LonTargeting.py` and `longitude_targeting.py`, so it is modelled once, in
  module `ImpactPrediction`.
- The two targeting loops are modelled side by side, in modules `LonTargeting`
  and `LongitudeTargeting`. They repeat `Sample`, `Hits`, `Counted`,
  `FirstStop` and the lemmas about them because the two scripts repeat the
  loop: LonTargeting reads and gates on the angular velocity, and
  longitude_targeting does not.
- Per-tick decisions are functions. The objects the scripts mutate are classes
  whose methods are proved equal to those functions on a snapshot of their
  fields. These are `RocketState` and the `rocket_states` dictionary in
  AutoLand, and the `PrecisionLanding` and `LongitudeTargeting` objects.
- The generic loops are parameterised by their step function, so their
  properties are proved once for any step that keeps the stated laws:
  - `AutoLand.MainLoop` takes a `Ticker`.
  - `PrecisionLanding.Loop` takes a `Dispatch`.
  - `Landing.RunOf` takes a `S -> Pass`.

  Each law is then discharged for the real step, in `TickLawful`,
  `IterateLawful` and the `*RunGuarantees` lemmas.

## Model

| member | source | states |
|---|---|---|
| Commands.LastAppend | AutoLand.py:82-92 | Host settings are overwrites: after two batches, the throttle, engine and attitude are the second batch's if it set them, else the first's |
| Commands.IdleLast | LonTargeting.py:155-157 | The shut-down triple leaves Default attitude, throttle 0 and engine off |
| Commands.StageCountAppend | AutoLand.py:90-92 | Stage calls in two batches add up |
| Angles.Mod360 | LonTargeting.py:19-20 | `x % 360.0` lies in [0, 360) and names the same direction as x |
| Angles.Mod360Periodic | precision_landing.py:34-36 | Adding whole turns does not change the normalized longitude |
| Angles.Mod360Unique | longitude_targeting.py:19-20 | The normalized longitude is the only representative of x's direction in [0, 360) |
| Angles.Mod360Fixed | LonTargeting.py:19-20 | A longitude already in [0, 360) is unchanged |
| Angles.LongitudeDifference | LonTargeting.py:22-30 | The signed difference lies in [-180, 180], is congruent to target - current, and is 0 when the two are equal |
| Angles.DifferenceIsShortest | longitude_targeting.py:22-30 | No turn to the same direction is shorter than the difference |
| Angles.DifferenceAntisymmetric | precision_landing.py:38-47 | Swapping the arguments negates the difference; the wrap is strict on both sides, so a difference of 180 one way is -180 the other |
| ImpactPrediction.Predicted | LonTargeting.py:32-75 | The pass goes on with the impact longitude, else with the fallback current-longitude read; it raises exactly when the planet read answers nothing or the fallback read is `None` |
| Angles.DifferencePeriodic | precision_landing.py:38-47 | Whole turns added to either argument do not change the difference |
| LonTargeting.Offset | LonTargeting.py:122-123 | The lean is at most 30° either way, has the miss's sign, and is half the miss for misses within 60° |
| LonTargeting.Throttle | LonTargeting.py:129-130 | The throttle lies in [0.1, 0.5] and is a twentieth of the miss between 2° and 10° |
| LonTargeting.ThrottleMonotone | LonTargeting.py:129-130 | A larger miss never gets less throttle |
| LonTargeting.ControlStep | LonTargeting.py:106-141 | The pass reaches the target iff \|diff\| < tolerance and then sends the shut-down triple; a stable rocket outside tolerance holds 180 + offset at the miss's throttle with the engine on; otherwise the engine is cut |
| LonTargeting.ControlStepBounds | LonTargeting.py:115-141 | Every hold lies in [150, 210], every throttle in [0, 0.5], the lean follows the miss's sign, and the engine ends on iff it is burning |
| LonTargeting.Loop | LonTargeting.py:87-158 | The iteration counter only grows, up to the 1000-pass cap |
| LonTargeting.Land | LonTargeting.py:77-79 | A run counts at most 1000 passes |
| LonTargeting.CountedCons | LonTargeting.py:93-95 | A sample without a current longitude is not counted |
| LonTargeting.FirstStopHead | LonTargeting.py:98-111 | A first pass that hits the target or raises decides the run's exit by itself |
| LonTargeting.FirstStopTail | LonTargeting.py:93-145 | After a pass that neither hits nor raises, the first stop is the rest's, with one more pass counted if that pass had a longitude |
| LonTargeting.LoopExitFor | LonTargeting.py:87-145 | The run ends with a given non-timeout exit iff its first stopping pass ends it that way, within the iteration cap |
| LonTargeting.LoopExitIff | LonTargeting.py:87-145 | The run reaches the target iff some counted pass within the cap hits it before any pass raises; it raises iff some pass raises before any pass hits; otherwise it times out |
| LonTargeting.LoopCountsPasses | LonTargeting.py:87-145 | A run that times out counts every longitude-bearing sample up to the cap |
| LonTargeting.LoopEndsIdle | LonTargeting.py:106-157 | Unless a pass raises, the run's last commands are the shut-down triple |
| LonTargeting.LoopRaisedSkipsCleanup | LonTargeting.py:98-157 | A run that raises never commands the Default attitude: the shut-down triple is skipped |
| LonTargeting.RaiseLeavesEngineBurning | LonTargeting.py:98-134 | A steady pass 90° off lights the engine at throttle 0.5; a following pass with no planet raises and leaves it burning |
| LonTargeting.LoopBounds | LonTargeting.py:87-158 | Over a run every hold lies in [150, 210] and every throttle in [0, 0.5] |
| LonTargeting.Controller.constructor | LonTargeting.py:13-17 | A fresh controller has target 0 and tolerance 1 |
| LonTargeting.Controller.PrecisionLanding | LonTargeting.py:77-158 | Stores the normalized target and the tolerance; the exit and commands equal `Land`'s, a raise included |
| LongitudeTargeting.Offset | longitude_targeting.py:124-130 | The lean is twice the miss capped at 90°, with the miss's sign |
| LongitudeTargeting.Throttle | longitude_targeting.py:137-142 | The throttle lies in [0.1, 0.5]; it is 0.5 iff the miss exceeds 20° and 0.1 iff it is at most 5° |
| LongitudeTargeting.ThrottleMonotone | longitude_targeting.py:137-142 | A larger miss never gets less throttle |
| LongitudeTargeting.ControlStep | longitude_targeting.py:116-146 | The pass reaches the target iff \|diff\| < tolerance and then sends the shut-down triple; outside tolerance it holds 180 + offset with the engine on at the tier throttle; at exactly the tolerance it cuts the engine |
| LongitudeTargeting.ControlStepBounds | longitude_targeting.py:124-146 | Every hold lies in [90, 270], every throttle in [0, 0.5], and the lean follows the miss's sign |
| LongitudeTargeting.Loop | longitude_targeting.py:98-162 | The iteration counter only grows, up to the 1000-pass cap |
| LongitudeTargeting.TargetSimple | longitude_targeting.py:89-96 | Every run starts with the initial kick: retrograde hold, engine on at full throttle, then throttle 0 and engine off |
| LongitudeTargeting.CountedCons | longitude_targeting.py:103-105 | A sample without a current longitude is not counted |
| LongitudeTargeting.FirstStopHead | longitude_targeting.py:108-121 | A first pass that hits the target or raises decides the run's exit by itself |
| LongitudeTargeting.FirstStopTail | longitude_targeting.py:103-145 | After a pass that neither hits nor raises, the first stop is the rest's, with one more pass counted if that pass had a longitude |
| LongitudeTargeting.LoopExitFor | longitude_targeting.py:98-145 | The run ends with a given non-timeout exit iff its first stopping pass ends it that way, within the iteration cap |
| LongitudeTargeting.LoopExitIff | longitude_targeting.py:98-145 | The run reaches the target iff some counted pass within the cap hits it before any pass raises; it raises iff some pass raises before any pass hits; otherwise it times out |
| LongitudeTargeting.LoopEndsIdle | longitude_targeting.py:116-161 | Unless a pass raises, the run ends with the shut-down triple |
| LongitudeTargeting.LoopRaisedSkipsCleanup | longitude_targeting.py:108-161 | A run that raises never commands the Default attitude in the loop |
| LongitudeTargeting.RaiseLeavesEngineBurning | longitude_targeting.py:89-142 | After the kick, a pass 90° off lights the engine at throttle 0.5; a following pass with no planet raises and leaves it burning |
| LongitudeTargeting.LoopBounds | longitude_targeting.py:98-149 | Over the loop every hold lies in [90, 270] and every throttle in [0, 0.5] |
| LongitudeTargeting.TargetSimpleGuarantees | longitude_targeting.py:78-162 | A run reaches the target or raises exactly as its first stopping pass decides; unless it raises it leaves Default attitude, throttle 0 and engine off; if it raises it never commands the Default attitude |
| LongitudeTargeting.Controller.constructor | longitude_targeting.py:13-17 | A fresh controller has target 0 and tolerance 1 |
| LongitudeTargeting.Controller.TargetLongitudeSimple | longitude_targeting.py:78-162 | Stores the normalized target and the tolerance; exit and commands equal `TargetSimple`'s, a raise included |
| PrecisionLanding.NewPilot | precision_landing.py:13-32 | A fresh pilot is longitude targeting, unstaged, with a zero touchdown counter, target 0 and tolerance 1 |
| PrecisionLanding.TargetingThrottle | precision_landing.py:159-169 | The tiered throttle lies in [0.05, 0.5]; it is 0.5 iff the miss exceeds 20° and 0.05 iff it is at most 2° |
| PrecisionLanding.TargetingThrottleMonotone | precision_landing.py:159-169 | A larger miss never gets less throttle |
| PrecisionLanding.TargetingThrottleAtFive | precision_landing.py:164-167 | The tier bounds are strict: a 5° miss gets 0.1 |
| PrecisionLanding.TargetingStep | precision_landing.py:115-173 | No longitude means no commands and no change; within tolerance a `None` altitude raises with no commands; landing is entered iff the miss is within tolerance at or below 5000 m, with no commands; within tolerance but higher, the engine is cut; otherwise retrograde with the engine gated by the 3°/s stability check |
| PrecisionLanding.ApproachThrottle | precision_landing.py:216-231 | The braking throttle is at least 0.2, at most 0.8 above 500 m and 0.6 below |
| PrecisionLanding.ApproachThrottleMonotone | precision_landing.py:216-231 | Within a band, faster never means less throttle |
| PrecisionLanding.ApproachThrottleSaturates | precision_landing.py:218-230 | The bands saturate at 0.8 from 60 m/s and 0.6 from 30 m/s |
| PrecisionLanding.BrakeCommands | precision_landing.py:216-240 | Above the 10 m/s engine speed the rocket burns at the band throttle; at or below it the throttle is 0 and the engine is on only at exactly 10 m/s below 500 m |
| PrecisionLanding.GateCommands | precision_landing.py:210-240 | Turning faster than 5°/s only cuts the engine; otherwise the rocket brakes |
| PrecisionLanding.LandingBurnCommands | precision_landing.py:183-240 | A non-touchdown landing tick holds retrograde, or Default below 5 m, stages when deploying, and ends with the gate's throttle and engine |
| PrecisionLanding.TouchdownCommands | precision_landing.py:190-198 | Touchdown sends throttle 0, engine off and Default attitude after the hold |
| PrecisionLanding.LandingStep | precision_landing.py:176-242 | The tick raises iff the altitude is `None`, or the speed is `None` and the rocket passes the stability gate; a `None` altitude changes nothing; the counter counts consecutive zero-speed samples; completion iff three are reached; staging happens once below 1750 m; nothing else changes |
| PrecisionLanding.HoldCommands | precision_landing.py:183-207 | The hold and the optional Stage set the attitude, stage once when deploying, and set neither throttle nor engine |
| PrecisionLanding.LandingStepCommands | precision_landing.py:176-242 | The landing tick's commands: touchdown shut-down, or hold, one Stage when deploying, and the gate's settings; a tick that raises sets neither throttle nor engine |
| PrecisionLanding.Iterate | precision_landing.py:262-269 | One counted iteration: the phase becomes the phase function's result, advancing at most one step, and stays as it was when the function raises; staging is never undone |
| PrecisionLanding.IterateLawful | precision_landing.py:262-269 | Every iteration keeps target and tolerance, issues Stage only on the unstaged-to-staged step, and keeps throttles in [0, 0.8] |
| PrecisionLanding.Loop | precision_landing.py:254-277 | Iterations only grow, up to 10000; success only from the completed phase |
| PrecisionLanding.LandAt | precision_landing.py:244-277 | A run counts at most 10000 iterations and succeeds only once completed |
| PrecisionLanding.LandAtGuarantees | precision_landing.py:244-277 | The run keeps the normalized target and the tolerance, the phase only moves forward, Stage is sent once iff the run stages the rocket, throttles stay in [0, 0.8], and a run that times out leaves Default attitude, throttle 0 and engine off |
| PrecisionLanding.LoopTimeout | precision_landing.py:272-277 | A run that times out ends with Default attitude, throttle 0 and engine off |
| PrecisionLanding.LoopKeepsPilot | precision_landing.py:254-269 | The loop never changes target or tolerance |
| PrecisionLanding.LoopStagesOnce | precision_landing.py:204-207 | Stage is sent once over a run iff the pilot goes from unstaged to staged |
| PrecisionLanding.StagesOnceJoin | precision_landing.py:204-207 | Two stretches that each stage at most once on the staging step do so together |
| PrecisionLanding.LoopThrottles | precision_landing.py:254-277 | Every throttle of a run lies in [0, 0.8] |
| PrecisionLanding.LoopAdvance | precision_landing.py:256-269 | A counted iteration runs the dispatch once and continues with the next sample |
| PrecisionLanding.CompletionNeedsAnotherRead | precision_landing.py:262-267 | A touchdown confirmed on the last available sample is still reported as a failure: `True` is only returned on the next read |
| PrecisionLanding.RaiseLeavesEngineBurning | precision_landing.py:176-242 | A staged rocket braking at 0.8 whose next status has no speed raises after the hold and leaves the engine burning at 0.8, with no shut-down |
| PrecisionLanding.EmptyReadsAreNotCounted | precision_landing.py:256-259 | Empty status reads are skipped without counting, so a run of them only times out |
| PrecisionLanding.Controller.constructor | precision_landing.py:13-32 | A fresh controller's fields are `NewPilot` |
| PrecisionLanding.Controller.LandingPhase | precision_landing.py:176-242 | Updates counter, clock and staged flag in place exactly as `LandingStep`, keeping the updates made before a raise |
| PrecisionLanding.Controller.RunPhase | precision_landing.py:262-267 | Runs the current phase's function in place and stores its result as the phase unless it raised, as `Iterate` |
| PrecisionLanding.Controller.Visit | precision_landing.py:254-270 | One loop pass keeps the remaining-run equation with `Loop`, stopping on completion or a raise |
| PrecisionLanding.Controller.PrecisionLand | precision_landing.py:244-277 | The object's final fields, exit and commands equal `LandAt`'s |
| AutoLand.NewRocket | AutoLand.py:23-34 | A fresh state is in decel, unstaged, with a zero timer, no planet, and safe speed 5 |
| AutoLand.CalcSafeSpeed | AutoLand.py:98-99 | The safe speed ignores the planet and stays 5 |
| AutoLand.DecelStep | AutoLand.py:154-180 | Wait is entered iff the periapsis is unknown or below the planet radius |
| AutoLand.DecelStepCommands | AutoLand.py:163-178 | The decel tick holds retrograde, cuts the engine on leaving, and otherwise burns at 0.5 exactly while faster than the safe speed |
| AutoLand.WaitStep | AutoLand.py:182-202 | Landing is entered iff the altitude is at most 1750 m |
| AutoLand.WaitStepCommands | AutoLand.py:189-196 | The wait tick holds retrograde and, at or below 10 km, burns at 0.5 exactly while faster than 200 m/s |
| AutoLand.IsRotating | AutoLand.py:74-80 | A failed read is not rotating; a read is rotating iff the angular velocity is above 5 or below -5 |
| AutoLand.LandingThrottle | AutoLand.py:234-236 | The landing law lies in [0.2, 0.5] |
| AutoLand.LandingThrottleMonotone | AutoLand.py:234-236 | Faster never means less throttle |
| AutoLand.LandingThrottleSaturated | AutoLand.py:234-242 | With safe speed 5 the law is always at its 0.5 cap whenever the engine is lit |
| AutoLand.LandingBurnCommands | AutoLand.py:226-248 | A non-touchdown landing tick holds retrograde; while rotating it cuts throttle and engine, otherwise the engine is lit iff at least 10 m/s at the landing law's throttle; throttles stay in [0, 0.5]; exactly one Stage when deploying, none otherwise |
| AutoLand.LandingStep | AutoLand.py:204-250 | The timer accumulates time below 1 m/s and resets otherwise; completion iff it reaches 5 s; staging once below 1750 m; nothing else changes |
| AutoLand.LandingStepCommands | AutoLand.py:213-248 | Touchdown cuts throttle and engine; otherwise retrograde, with the engine off while rotating or below 10 m/s; throttles stay in [0, 0.5]; one Stage exactly on the tick that sets the staged flag |
| AutoLand.InitPlanet | AutoLand.py:128-136 | A known planet is kept as is; otherwise initialisation succeeds iff both the name read and the planet info read succeed; the name is stored as soon as it is read, even when the info read then fails; a successful fetch copies the planet's radius and gravity; a failure changes no physical field |
| AutoLand.Tick | AutoLand.py:124-152 | A tick that raises sends nothing and keeps the phase; phases advance at most one step; the staged flag is never cleared; the planet is fetched only while unknown |
| AutoLand.TickPlanetInit | AutoLand.py:128-136 | A failed planet initialisation gives `Error` and sends nothing, and a planet name once read is kept even when the info read then fails |
| AutoLand.TickCommands | AutoLand.py:124-152 | A tick sends one Stage exactly when it sets the staged flag, none otherwise, and every throttle it sets lies in [0, 0.5] |
| AutoLand.RocketState.constructor | AutoLand.py:24-34 | A fresh object's fields are `NewRocket` |
| AutoLand.RocketState.LandingPhase | AutoLand.py:204-250 | Updates timer, clock and staged flag in place exactly as `LandingStep` |
| AutoLand.RocketState.RunSingle | AutoLand.py:124-152 | Mutates the object and returns the outcome exactly as `Tick` |
| AutoLand.RocketState.Visit | AutoLand.py:327-330 | Skips a completed rocket, otherwise ticks it and reports it active unless the result is completed or error |
| AutoLand.Resolve | AutoLand.py:262-288 | The dictionary keys are the reported names, each once |
| AutoLand.InitialFleet | AutoLand.py:262-288 | One fresh state per resolved name, stored under its own name |
| AutoLand.CommandsForAppend | AutoLand.py:326-330 | The commands a rocket gets from two stretches add up |
| AutoLand.CommandsForTag | AutoLand.py:82-92 | A rocket gets only the commands addressed to it |
| AutoLand.TickLawful | AutoLand.py:124-152 | The tick keeps the laws the main loop relies on |
| AutoLand.Advance | AutoLand.py:326-328 | A completed rocket is skipped and keeps its state |
| AutoLand.AdvanceLawful | AutoLand.py:326-328 | Under a lawful tick a rocket stays consistent, keeps its name, its phase only moves forward and staging is never undone |
| AutoLand.Contribution | AutoLand.py:326-330 | A rocket adds its name to the active list iff ticked and still active, and its tick's commands to the log |
| AutoLand.Cycle | AutoLand.py:322-331 | The active list of a pass is no longer than the fleet |
| AutoLand.CycleFleet | AutoLand.py:326-330 | After a pass each rocket, in its own position, is its own advance |
| AutoLand.CycleFleetLawful | AutoLand.py:326-330 | A pass of a lawful tick keeps the keys and one consistent rocket per key |
| AutoLand.CycleFleetOk | AutoLand.py:124-152 | A pass of the real tick keeps the keys and one consistent rocket per key |
| AutoLand.MainLoop | AutoLand.py:322-337 | A run uses at most the cycles given, all of them unless it settled, and keeps the fleet's size |
| AutoLand.MainLoopLawful | AutoLand.py:322-337 | A whole run of a lawful tick keeps the keys and one consistent rocket per key |
| AutoLand.ContributionCommands | AutoLand.py:326-330 | A rocket's part of a pass addresses its tick's commands to its own name only, and nothing when it is skipped |
| AutoLand.CycleCommands | AutoLand.py:326-330 | Within one pass a rocket whose name no other rocket shares receives exactly its own tick's commands, and none once completed |
| AutoLand.CycleAbsent | AutoLand.py:326-330 | A name outside the fleet is sent nothing |
| AutoLand.CompletedNeverTicked | AutoLand.py:327 | A completed rocket stays frozen and is sent nothing for the rest of the run |
| AutoLand.RunMonotone | AutoLand.py:322-337 | Over a run each rocket's phase only moves forward and staging is never undone |
| AutoLand.StagedOnce | AutoLand.py:245-248 | Over a run each rocket is sent at most one Stage, exactly when it becomes staged |
| AutoLand.FailingRocketStaysPut | AutoLand.py:148-150 | A rocket whose reads always fail never leaves its phase |
| AutoLand.ActiveEmptyIff | AutoLand.py:333-335 | The loop's exit test holds iff no rocket ticked in the pass stays active |
| AutoLand.RunGuarantees | AutoLand.py:322-337 | For the real tick: the fleet keeps its names, phases only advance, each rocket is sent one Stage iff it becomes staged, and completed rockets stay frozen and get nothing |
| AutoLand.QuietCycleEndsRun | AutoLand.py:329-335 | One pass in which every read fails ends the whole run, although nothing has landed |
| AutoLand.IndexOf | AutoLand.py:269 | Finds the position of a key in insertion order, or reports it absent |
| AutoLand.Insert | AutoLand.py:283 | Assigning `rocket_states[name]` keeps a present key's position and appends a new key |
| AutoLand.ResolveStates | AutoLand.py:262-288 | The resolution loop builds one fresh, distinct state object per resolved name, in insertion order |
| AutoLand.Fleet.constructor | AutoLand.py:256-307 | The dictionary holds one fresh state per resolved name |
| AutoLand.Fleet.VisitAt | AutoLand.py:326-330 | Ticks the i-th rocket and only it |
| AutoLand.Fleet.VisitAll | AutoLand.py:326-330 | The `for` loop leaves every rocket in its post-pass state and returns the pass's active list and log |
| AutoLand.Fleet.RunCycle | AutoLand.py:326-330 | One pass of the `for` loop equals `Cycle` and `CycleFleet` and keeps the dictionary valid |
| AutoLand.Fleet.Turn | AutoLand.py:322-337 | One turn keeps the remaining-work equation of the main loop |
| AutoLand.Fleet.Run | AutoLand.py:322-337 | The main loop's cycles, exit flag and command log equal `MainLoop` |
| AutoLand.RunAutoland | AutoLand.py:252-340 | Returns early iff no rocket was resolved; otherwise the run equals `MainLoop` on the initial fleet |
| Landing.AngleDiff | Landing.py:20-22 | The distance is at most 180, non-negative for longitudes in [0, 360), and 0 for equal arguments |
| Landing.AngleDiffSymmetric | Landing.py:20-22 | The distance is symmetric |
| Landing.AngleDiffIsLongitudeDifference | Landing.py:20-22 | In range, the distance is the absolute shortest signed difference |
| Landing.GetDirection | Landing.py:24-36 | The magnitude is non-negative and the signed offset is congruent to land - target; left iff positive |
| Landing.DirectionMatchesAngleDiff | Landing.py:51-53 | In range, the bearing's magnitude equals the error `angle_diff` gives |
| Landing.BearingIsShortest | Landing.py:24-36 | The wrapped offset is the shortest turn between the two longitudes |
| Landing.Opposite | Landing.py:66-85 | Every RCS direction differs from its opposite |
| Landing.OppositeInvolution | Landing.py:66-85 | Opposite of opposite is the direction itself |
| Landing.Band | Landing.py:68-85 | The nose heading falls in one of four bands |
| Landing.RcsChoice | Landing.py:66-85 | Side thrusters are chosen iff the nose is in the two bands from 45° to 225°; near 90° the pulse is the fine loop's counter-pulse for that side, near 180° its opposite |
| Landing.BandNearestCenter | Landing.py:65-85 | A heading lies within 45° of its band's centre |
| Landing.RcsOpposite | Landing.py:66-85 | Band by band, the table's choice for right is the opposite of its choice for left |
| Landing.RcsChoiceDistinct | Landing.py:66-85 | No two bands share a direction |
| Landing.CounterOpposite | Landing.py:147-161 | The fine loop's counter-pulse is left or right, opposite for the two sides |
| Landing.CoarseStep | Landing.py:39-106 | The coarse loop breaks iff a landing point is known and the altitude is at most 30000 m |
| Landing.DeorbitFacts | Landing.py:43-48 | Before deorbit the rocket holds retrograde at full throttle with the engine on |
| Landing.CoarseTrimFacts | Landing.py:57-87 | A nudge cuts throttle and engine and sends one 0.05 pulse |
| Landing.CoarseBurnFacts | Landing.py:89-102 | A burn turns to Surface 85/265 above 30000 m, burns at clamp(error / 20), then cuts throttle and engine |
| Landing.CoarseStepCommands | Landing.py:39-106 | Throttles stay in [0, 1]; a known landing point ends the pass at throttle 0 with the engine off; the pass ends with RCS off iff it breaks |
| Landing.CoarseStepNudges | Landing.py:57-88 | An error of at most 0.5 sends the table's pulse and keeps the retrograde hold |
| Landing.CoarseStepBurns | Landing.py:89-102 | A larger error burns at the clamped throttle, with the Surface turn only above 30000 m |
| Landing.FineStep | Landing.py:109-175 | The fine loop breaks iff the radial velocity is at least -3, sending throttle 0 and engine off; a missing landing point sends nothing |
| Landing.FineStepCommands | Landing.py:119-172 | Throttles stay in [0, 1], RCS is never switched off, and the engine's final state follows the ignition and steering rules |
| Landing.IgnitionFacts | Landing.py:142-153 | Below the ignition height the rocket burns full retrograde with a 0.15 counter-pulse when off target; above it the engine is cut |
| Landing.TrimFacts | Landing.py:156-172 | A small error gets a retrograde 0.25 counter-pulse; otherwise, above 30000 m, the rocket steers to Surface 90/270 at clamp(error / 5) |
| Landing.FineStepTrim | Landing.py:142-161 | An error in [0.0005, 0.25] sends both counter-pulses against the landing point's side |
| Landing.RunOf | Landing.py:39-106 | With no answers the loop has not broken and sent nothing; the first pass's commands open the log; a break at the first pass ends the loop there |
| Landing.RunAt | Landing.py:39-106 | One pass of a loop: a breaking pass ends it, otherwise the loop continues |
| Landing.RunDoneIff | Landing.py:103-106 | A loop breaks iff one of its passes breaks |
| Landing.RunThrottles | Landing.py:109-175 | Throttle bounds every pass keeps, the loop keeps |
| Landing.RunAvoids | Landing.py:109-175 | A command no pass sends, the loop does not send |
| Landing.RunEndsWith | Landing.py:103-106 | A command only the breaking pass sends, as its last, ends the loop exactly when it breaks |
| Landing.RunEndsIdle | Landing.py:119-123 | A loop that breaks leaves throttle 0 and engine off |
| Landing.Land | Landing.py:38-175 | The rocket can only be reported landed after the coarse loop has broken |
| Landing.CoarseRunGuarantees | Landing.py:39-106 | The coarse loop breaks iff some pass sees a landing point at or below 30000 m, and then ends with RCS off |
| Landing.FineRunGuarantees | Landing.py:109-175 | The fine loop breaks iff some pass sees radial velocity at least -3, and then leaves throttle 0 and engine off |
| Landing.LandGuarantees | Landing.py:38-175 | Landed iff the coarse loop broke and some fine pass saw radial velocity at least -3; a landing leaves the engine off; RCS is switched off iff the coarse loop broke; throttles stay in [0, 1] |
| Landing.Joined | Landing.py:105-123 | The coarse log followed by the fine log keeps each loop's end-state facts |
| Landing.RunLoop | Landing.py:39-106 | The `while True` loop with `break` sends exactly `RunOf`'s commands |
| Landing.RunLanding | Landing.py:38-175 | `landing()` runs the fine loop only after the coarse loop breaks, exactly as `Land` |

## Left out

- The transport: HTTP requests, PySFS clients and response parsing. Each read is an input value and each control call is a `Command`. Failed control posts are not modelled.
- The physics of impact-point prediction: the `impact_point` call inside `get_landing_longitude`, `get_periapsis`, and the `atan2`/`sqrt`/`cos` arithmetic. The predicted longitude, periapsis, speed and radial velocity are inputs. IEEE floating point is modelled as exact reals.
- Landing.FineStep: the ignition height `H` is an input, because its formula divides by `F - m*g`. A zero divisor would raise in the script, and that case is not modelled.
- Wall clock, `sleep` and `max_time`. Every loop runs over a finite sequence of samples. Running out of samples stands for the time budget expiring, so the time cap itself is not modelled.
- Landing.RunOf: `Landing.py`'s two `while True` loops never end on their own. The model runs them over the finite samples and reports whether they broke.
- AutoLand.RocketState: each tick receives one clock reading `now`. `time_decel_done` is never read and is omitted.
- AutoLand.InitPlanet: when the planet name is read but the planet info read raises, the name is kept and the other fields are not set. Other partial-assignment orders on exceptions are not modelled.
- AutoLand.RunAutoland: the `None` entry of `ROCKET_IDS`, the list-or-dict answer of `get_rocket_list`, the time-warp calls and the outer exception handler are collapsed into a sequence of optional names.
- ImpactPrediction.Predicted: `NoPlanet` also stands for any other exception raised inside `get_landing_longitude`, such as a save record without position fields. Malformed save data is not modelled separately.
- LonTargeting.Loop and LongitudeTargeting.Loop: the `final_longitude` read on timeout only prints, so it is left out.
- Printing, `main()`, keyboard input and `AllChallenges.py` are not part of this model.
- `TOL`, `BURST_DURATION` and `PARACHUTE_OPEN_HEIGHT` in `Landing.py` are unused or only set sleep lengths.
- Landing.AngleDiff: non-negativity is stated only for longitudes in [0, 360). For inputs further apart than 360, `360 - diff` is negative, and the script does not guard against it.
- PrecisionLanding.TargetingStep: the landing-longitude fallback is an input prediction of `None`, which then uses the current longitude. That function catches its own exceptions, so it never raises.
- PrecisionLanding.Loop: `velocity_x`, `velocity_y` and `orbit` of the status are never read by the phase functions and are left out.
- The `Raised` exits end the model's run. What `main()` does with the exception (printing it) is not modelled.
- Landing.RunOf: reads other than `other_landing_point_angle` are taken to be numbers. These are the altitude, rotation, velocity, longitude, mass, thrust and gravity. A `None` among them would raise a TypeError out of `landing()`, and that exit is not modelled.
