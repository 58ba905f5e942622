/**
 * precision_landing.py: a single-rocket controller that first shapes its
 * trajectory until the predicted impact longitude is within tolerance of the
 * target (longitude_targeting), then brakes in two altitude bands (landing)
 * until three consecutive zero-speed samples confirm touchdown (completed).
 */
module PrecisionLanding {
  import opened Commands
  import opened Angles

  const DefaultTolerance: real := 1.0
  const LandingAltitude: real := 5000.0
  const StageAltitude: real := 1750.0
  const MinThrottle: real := 0.2
  /** `safe_speed`: only used to split the v <= 10 case of the final approach. */
  const SafeSpeed: real := 10.0
  const MinEngineSpeed: real := 10.0
  const FinalApproachAltitude: real := 500.0
  /** Below this altitude the attitude hold is released. */
  const ReleaseAltitude: real := 5.0
  /** Targeting burns only while |angular velocity| is at most this. */
  const TargetingRate: real := 3.0
  /** Landing burns only while |angular velocity| is at most this. */
  const LandingRate: real := 5.0
  /** Consecutive zero-speed samples that confirm touchdown. */
  const LandedSamples: nat := 3
  const MaxIterations: nat := 10000
  const Retrograde: Attitude := Prograde(180.0)

  datatype Phase = LongitudeTargeting | Landing | Completed

  function Rank(p: Phase): nat
  {
    match p
    case LongitudeTargeting => 0
    case Landing => 1
    case Completed => 2
  }

  /**
   * A non-empty result of `get_rocket_status`.  The altitude and the speed are
   * passed through unchecked, so either may be None; a missing angular
   * velocity has already become 0, and a missing velocity record a speed of 0.
   */
  datatype Status = Status(
    longitude: Option<real>, // `rocket_longitude()`
    altitude: Option<real>,  // `rocket_altitude()`
    speed: Option<real>,     // the `magnitude` of `rocket_velocity_info()`
    angularVelocity: real)

  /** The readings a landing tick brakes on, once both altitude and speed are known. */
  datatype Reading = Reading(altitude: real, speed: real, angularVelocity: real)

  /** The fields of a `PrecisionLanding` controller. */
  datatype Pilot = Pilot(
    target: real,
    tolerance: real,
    phase: Phase,
    staged: bool,
    landedTime: nat, // counts consecutive zero-speed samples
    lastTime: real)

  function NewPilot(now: real): (p: Pilot)
    ensures p.phase == LongitudeTargeting && !p.staged && p.landedTime == 0
    ensures p.target == 0.0 && p.tolerance == DefaultTolerance
  {
    Pilot(0.0, DefaultTolerance, LongitudeTargeting, false, 0, now)
  }

  /**
   * The outcome of one phase function: the phase it returns and the commands
   * it issued.  raised marks a phase function that raised part-way, after
   * cmds; the phase is then left as it was.
   */
  datatype Step = Step(next: Phase, cmds: seq<Command>, raised: bool)

  /** The tiered targeting throttle: 0.5 / 0.3 / 0.2 / 0.1 / 0.05 above 20 / 10 / 5 / 2 degrees. */
  function TargetingThrottle(absDiff: real): (th: real)
    ensures 0.05 <= th <= 0.5
    ensures absDiff > 20.0 <==> th == 0.5
    ensures absDiff <= 2.0 <==> th == 0.05
  {
    if absDiff > 20.0 then 0.5
    else if absDiff > 10.0 then 0.3
    else if absDiff > 5.0 then 0.2
    else if absDiff > 2.0 then 0.1
    else 0.05
  }

  /** A larger miss never gets less throttle. */
  lemma TargetingThrottleMonotone(a: real, b: real)
    requires a <= b
    ensures TargetingThrottle(a) <= TargetingThrottle(b)
  {
  }

  /** The tier boundaries are strict: exactly 5 degrees falls in the 0.1 tier. */
  lemma TargetingThrottleAtFive()
    ensures TargetingThrottle(5.0) == 0.1
  {
  }

  /**
   * `longitude_targeting_phase`.  prediction is the result of
   * `get_landing_longitude`; None falls back to the current longitude.  The
   * altitude is compared only once the prediction is within tolerance, and a
   * None altitude raises there.
   */
  function TargetingStep(p: Pilot, s: Status, prediction: Option<real>): (st: Step)
    ensures st.next == LongitudeTargeting || st.next == Landing
    ensures s.longitude.None? ==> st == Step(LongitudeTargeting, [], false)
    ensures st.raised <==>
      s.longitude.Some? && s.altitude.None? &&
      Abs(LongitudeDifference(prediction.GetOr(s.longitude.value), p.target)) < p.tolerance
    ensures st.raised ==> st.next == LongitudeTargeting && st.cmds == []
    ensures st.next == Landing <==>
      s.longitude.Some? && s.altitude.Some? && s.altitude.value <= LandingAltitude &&
      Abs(LongitudeDifference(prediction.GetOr(s.longitude.value), p.target)) < p.tolerance
    ensures st.next == Landing ==> st.cmds == []
    ensures s.longitude.Some? ==>
      var diff := LongitudeDifference(prediction.GetOr(s.longitude.value), p.target);
      if Abs(diff) < p.tolerance then
        s.altitude.Some? && s.altitude.value > LandingAltitude ==>
          LastEngine(st.cmds) == Some(false) && LastThrottle(st.cmds) == Some(0.0)
      else
        LastAttitude(st.cmds) == Some(Retrograde) &&
        LastEngine(st.cmds) == Some(Abs(s.angularVelocity) <= TargetingRate) &&
        LastThrottle(st.cmds) ==
          Some(if Abs(s.angularVelocity) > TargetingRate then 0.0 else TargetingThrottle(Abs(diff)))
    ensures ThrottlesWithin(st.cmds, 0.0, 0.5) && Stage !in st.cmds
  {
    if s.longitude.None? then Step(LongitudeTargeting, [], false)
    else
      var landing := prediction.GetOr(s.longitude.value);
      var diff := LongitudeDifference(landing, p.target);
      if Abs(diff) < p.tolerance then
        match s.altitude
        case None => Step(LongitudeTargeting, [], true)
        case Some(altitude) =>
          if altitude <= LandingAltitude then Step(Landing, [], false)
          else Step(LongitudeTargeting, [MainEngineOn(false), SetThrottle(0.0)], false)
      else
        var on := Abs(s.angularVelocity) <= TargetingRate;
        var cmds := [Rotate(Retrograde), MainEngineOn(on), SetThrottle(if on then TargetingThrottle(Abs(diff)) else 0.0)];
        assert cmds[..2] == [Rotate(Retrograde), MainEngineOn(on)];
        assert cmds[..2][..1] == [Rotate(Retrograde)];
        assert LastEngine(cmds[..2]) == Some(on);
        assert LastAttitude(cmds[..2]) == Some(Retrograde);
        Step(LongitudeTargeting, cmds, false)
  }

  /**
   * The braking throttle for speeds above `min_engine_speed`: 0.2 rising
   * linearly to 0.8 over 50 m/s above 500 m, to 0.6 over 20 m/s below.
   */
  function ApproachThrottle(altitude: real, speed: real): (th: real)
    ensures MinThrottle <= th
    ensures altitude > FinalApproachAltitude ==> th <= 0.8
    ensures altitude <= FinalApproachAltitude ==> th <= 0.6
    ensures speed <= MinEngineSpeed ==> th == MinThrottle
  {
    if altitude > FinalApproachAltitude then
      MinThrottle + (0.8 - MinThrottle) * Clamp((speed - MinEngineSpeed) / 50.0, 0.0, 1.0)
    else
      MinThrottle + (0.6 - MinThrottle) * Clamp((speed - MinEngineSpeed) / 20.0, 0.0, 1.0)
  }

  /** Within a band, faster means at least as much throttle. */
  lemma ApproachThrottleMonotone(altitude: real, v1: real, v2: real)
    requires v1 <= v2
    ensures ApproachThrottle(altitude, v1) <= ApproachThrottle(altitude, v2)
  {
    assert (v1 - MinEngineSpeed) / 50.0 <= (v2 - MinEngineSpeed) / 50.0;
    assert (v1 - MinEngineSpeed) / 20.0 <= (v2 - MinEngineSpeed) / 20.0;
  }

  /** Each band saturates: 0.8 from 60 m/s up, 0.6 from 30 m/s up. */
  lemma ApproachThrottleSaturates(altitude: real, speed: real)
    ensures altitude > FinalApproachAltitude && speed >= 60.0 ==> ApproachThrottle(altitude, speed) == 0.8
    ensures altitude <= FinalApproachAltitude && speed >= 30.0 ==> ApproachThrottle(altitude, speed) == 0.6
  {
  }

  /** The engine and throttle commands of a landing tick past the stability gate. */
  function BrakeCommands(s: Reading): (cmds: seq<Command>)
    ensures LastThrottle(cmds) == Some(if s.speed > MinEngineSpeed then ApproachThrottle(s.altitude, s.speed) else 0.0)
    ensures LastEngine(cmds) ==
      Some(s.speed > MinEngineSpeed || (s.altitude <= FinalApproachAltitude && s.speed >= SafeSpeed))
    ensures |cmds| == 2 && LastAttitude(cmds) == None && Stage !in cmds
    ensures ThrottlesWithin(cmds, 0.0, 0.8)
  {
    var cmds :=
      if s.speed > MinEngineSpeed then [SetThrottle(ApproachThrottle(s.altitude, s.speed)), MainEngineOn(true)]
      else if s.altitude > FinalApproachAltitude || s.speed < SafeSpeed then [SetThrottle(0.0), MainEngineOn(false)]
      else [SetThrottle(0.0), MainEngineOn(true)];
    assert LastThrottle(cmds) == Some(cmds[0].value) by {
      assert cmds[..1] == [cmds[0]];
    }
    cmds
  }

  /** The stability gate: a rocket turning faster than the landing rate only cuts the engine; otherwise it brakes. */
  function GateCommands(s: Reading): (cmds: seq<Command>)
    ensures Abs(s.angularVelocity) > LandingRate ==> cmds == [SetThrottle(0.0), MainEngineOn(false)]
    ensures Abs(s.angularVelocity) > LandingRate ==> LastThrottle(cmds) == Some(0.0) && LastEngine(cmds) == Some(false)
    ensures Abs(s.angularVelocity) <= LandingRate ==> cmds == BrakeCommands(s)
    ensures LastThrottle(cmds).Some? && LastEngine(cmds).Some? && LastAttitude(cmds).None?
    ensures |cmds| == 2 && Stage !in cmds && ThrottlesWithin(cmds, 0.0, 0.8)
  {
    if Abs(s.angularVelocity) > LandingRate then
      var cmds := [SetThrottle(0.0), MainEngineOn(false)];
      assert cmds[..1] == [SetThrottle(0.0)];
      cmds
    else BrakeCommands(s)
  }

  /** The head of every landing tick that goes past the touchdown check: the attitude hold, then Stage when deploying. */
  function Head(hold: Attitude, deploy: bool): seq<Command>
  {
    if deploy then [Rotate(hold), Stage] else [Rotate(hold)]
  }

  /** The attitude hold of a landing tick: released below 5 m, retrograde above. */
  function Hold(altitude: real): Attitude
  {
    if altitude < ReleaseAltitude then Default else Retrograde
  }

  /** The commands of a landing tick that does not confirm touchdown: hold, maybe stage, then gate or brake. */
  function LandingBurn(s: Reading, deploy: bool): seq<Command>
  {
    Head(Hold(s.altitude), deploy) + GateCommands(s)
  }

  /** The head of a landing tick: the attitude hold, then Stage when deploying. */
  lemma HoldCommands(hold: Attitude, deploy: bool)
    ensures var head := Head(hold, deploy);
      && LastAttitude(head) == Some(hold)
      && LastThrottle(head) == None && LastEngine(head) == None
      && StageCount(head) == (if deploy then 1 else 0)
      && ThrottlesWithin(head, 0.0, 0.8)
  {
    var head := Head(hold, deploy);
    assert head[..|head| - 1] == if deploy then [Rotate(hold)] else [];
  }

  /**
   * A landing tick that does not confirm touchdown leaves the vehicle in its
   * attitude hold, with the gate's throttle and engine, stages exactly when
   * asked to (right after the hold), and keeps every throttle in [0, 0.8].
   */
  lemma LandingBurnCommands(s: Reading, deploy: bool)
    ensures var cmds := LandingBurn(s, deploy);
      && LastAttitude(cmds) == Some(Hold(s.altitude))
      && (Abs(s.angularVelocity) > LandingRate ==>
            LastThrottle(cmds) == Some(0.0) && LastEngine(cmds) == Some(false))
      && (Abs(s.angularVelocity) <= LandingRate ==>
            LastThrottle(cmds) == LastThrottle(BrakeCommands(s)) && LastEngine(cmds) == LastEngine(BrakeCommands(s)))
      && StageCount(cmds) == (if deploy then 1 else 0)
      && |cmds| >= 3
      && cmds[0] == Rotate(Hold(s.altitude))
      && (deploy ==> cmds[1] == Stage)
      && ThrottlesWithin(cmds, 0.0, 0.8)
  {
    var head := Head(Hold(s.altitude), deploy);
    var gate := GateCommands(s);
    HoldCommands(Hold(s.altitude), deploy);
    LastAppend(head, gate);
    StageCountAppend(head, gate);
    ThrottlesWithinAppend(head, gate, 0.0, 0.8);
  }

  /** The confirmation commands once touchdown is confirmed. */
  const Touchdown: seq<Command> := [SetThrottle(0.0), MainEngineOn(false), Rotate(Default)]

  /** A landing tick that confirms touchdown: the attitude hold, then the confirmation commands. */
  function TouchdownCommands(hold: Attitude): (cmds: seq<Command>)
    ensures |cmds| == 4 && cmds[0] == Rotate(hold) && cmds[1..] == Touchdown
    ensures LastThrottle(cmds) == Some(0.0) && LastEngine(cmds) == Some(false) && LastAttitude(cmds) == Some(Default)
    ensures StageCount(cmds) == 0 && ThrottlesWithin(cmds, 0.0, 0.0)
  {
    var cmds := [Rotate(hold), SetThrottle(0.0), MainEngineOn(false), Rotate(Default)];
    assert cmds[..3] == [Rotate(hold), SetThrottle(0.0), MainEngineOn(false)];
    assert cmds[..3][..2] == [Rotate(hold), SetThrottle(0.0)];
    assert LastThrottle(cmds[..3]) == Some(0.0);
    assert Stage !in cmds;
    cmds
  }

  datatype LandingUpdate = LandingUpdate(pilot: Pilot, step: Step)

  /**
   * `landing_phase`.  A None altitude raises at the first comparison, before
   * any command.  A None speed never counts as zero; after the hold and the
   * staging it raises at the braking law, unless the stability gate returns
   * first.
   */
  function LandingStep(p: Pilot, s: Status, now: real): (u: LandingUpdate)
    // the two ways the tick raises
    ensures u.step.raised <==> s.altitude.None? || (s.speed.None? && Abs(s.angularVelocity) <= LandingRate)
    ensures s.altitude.None? ==> u == LandingUpdate(p, Step(Landing, [], true))
    // touchdown counter
    ensures s.altitude.Some? ==> u.pilot.landedTime == if s.speed == Some(0.0) then p.landedTime + 1 else 0
    ensures u.step.next == Completed <==>
      s.altitude.Some? && s.speed == Some(0.0) && p.landedTime + 1 >= LandedSamples
    ensures u.step.next == Completed || u.step.next == Landing
    ensures u.pilot.lastTime == if u.step.next == Landing && s.altitude.Some? then now else p.lastTime
    // staging happens at most once, and only on a tick that does not complete
    ensures u.pilot.staged ==
      (p.staged || (u.step.next == Landing && s.altitude.Some? && s.altitude.value < StageAltitude))
    // nothing else changes
    ensures u.pilot == p.(landedTime := u.pilot.landedTime, lastTime := u.pilot.lastTime, staged := u.pilot.staged)
  {
    match s.altitude
    case None => LandingUpdate(p, Step(Landing, [], true))
    case Some(altitude) =>
      var count := if s.speed == Some(0.0) then p.landedTime + 1 else 0;
      if s.speed == Some(0.0) && count >= LandedSamples then
        LandingUpdate(p.(landedTime := count), Step(Completed, TouchdownCommands(Hold(altitude)), false))
      else
        var deploy := altitude < StageAltitude && !p.staged;
        var q := p.(landedTime := count, lastTime := now, staged := p.staged || deploy);
        match s.speed
        case Some(speed) =>
          LandingUpdate(q, Step(Landing, LandingBurn(Reading(altitude, speed, s.angularVelocity), deploy), false))
        case None =>
          if Abs(s.angularVelocity) > LandingRate then
            LandingUpdate(q, Step(Landing, Head(Hold(altitude), deploy) + [SetThrottle(0.0), MainEngineOn(false)], false))
          else LandingUpdate(q, Step(Landing, Head(Hold(altitude), deploy), true))
  }

  /**
   * The commands of a landing tick: the attitude hold first; on touchdown
   * the confirmation commands leave the vehicle idle in Default attitude;
   * otherwise the stability gate or the braking law decides the throttle, a
   * Stage command follows the hold exactly on the tick that stages, and every
   * throttle lies in [0, 0.8].  A tick that raises sets neither throttle nor
   * engine, so the vehicle keeps what the previous tick commanded.
   */
  lemma LandingStepCommands(p: Pilot, s: Status, now: real)
    ensures var u := LandingStep(p, s, now);
      && (s.altitude.Some? ==> |u.step.cmds| >= 1 && u.step.cmds[0] == Rotate(Hold(s.altitude.value)))
      && (!u.step.raised ==> |u.step.cmds| >= 3)
      && (u.step.raised ==> LastThrottle(u.step.cmds) == None && LastEngine(u.step.cmds) == None)
      && (u.step.next == Completed ==>
            u.step.cmds[1..] == Touchdown && LastThrottle(u.step.cmds) == Some(0.0) &&
            LastEngine(u.step.cmds) == Some(false) && LastAttitude(u.step.cmds) == Some(Default))
      && (u.step.next == Landing && s.altitude.Some? && Abs(s.angularVelocity) > LandingRate ==>
            LastThrottle(u.step.cmds) == Some(0.0) && LastEngine(u.step.cmds) == Some(false))
      && (u.step.next == Landing && s.altitude.Some? && s.speed.Some? && Abs(s.angularVelocity) <= LandingRate ==>
            LastThrottle(u.step.cmds) ==
              Some(if s.speed.value > MinEngineSpeed then ApproachThrottle(s.altitude.value, s.speed.value) else 0.0))
      && ThrottlesWithin(u.step.cmds, 0.0, 0.8)
      && StageCount(u.step.cmds) == (if !p.staged && u.pilot.staged then 1 else 0)
      && (!p.staged && u.pilot.staged ==> |u.step.cmds| >= 2 && u.step.cmds[1] == Stage)
  {
    var u := LandingStep(p, s, now);
    if s.altitude.Some? {
      var altitude := s.altitude.value;
      var deploy := altitude < StageAltitude && !p.staged;
      if u.step.next == Completed {
        assert u.step.cmds == TouchdownCommands(Hold(altitude));
      } else if s.speed.Some? {
        assert u.step.cmds == LandingBurn(Reading(altitude, s.speed.value, s.angularVelocity), deploy);
        LandingBurnCommands(Reading(altitude, s.speed.value, s.angularVelocity), deploy);
      } else if Abs(s.angularVelocity) > LandingRate {
        // the gate returns before the speed is compared, so any speed gives the same commands
        assert u.step.cmds == LandingBurn(Reading(altitude, 0.0, s.angularVelocity), deploy);
        LandingBurnCommands(Reading(altitude, 0.0, s.angularVelocity), deploy);
      } else {
        assert u.step.cmds == Head(Hold(altitude), deploy);
        HoldCommands(Hold(altitude), deploy);
      }
    }
  }

  /** What the host answers during one iteration of `precision_land`. */
  datatype Sample = Sample(
    status: Option<Status>,   // None: `get_rocket_status` returned {}
    prediction: Option<real>, // `get_landing_longitude`
    now: real)

  datatype LandResult = LandResult(pilot: Pilot, exit: Exit, iterations: nat, cmds: seq<Command>)

  /**
   * The phase dispatch of one counted iteration of `precision_land` on a
   * non-empty status: the current phase's function, whose result becomes the
   * phase.  A completed pilot is never dispatched (the loop returns first) and
   * would issue nothing.  A phase function that raises leaves the phase as it
   * was.
   */
  function Iterate(p: Pilot, s: Status, prediction: Option<real>, now: real): (u: LandingUpdate)
    ensures u.pilot.phase == u.step.next
    ensures u.step.raised ==> u.step.next == p.phase
    ensures Rank(p.phase) <= Rank(u.pilot.phase) <= Rank(p.phase) + 1
    ensures p.staged ==> u.pilot.staged
  {
    match p.phase
    case LongitudeTargeting =>
      var st := TargetingStep(p, s, prediction);
      LandingUpdate(p.(phase := st.next), st)
    case Landing =>
      var u := LandingStep(p, s, now);
      LandingUpdate(u.pilot.(phase := u.step.next), u.step)
    case Completed => LandingUpdate(p, Step(Completed, [], false))
  }

  /**
   * What one iteration may do to the pilot: keep the target and tolerance,
   * move the phase only forward and never undo staging.
   */
  predicate KeepsPilot(p: Pilot, q: Pilot)
  {
    && q.target == p.target && q.tolerance == p.tolerance
    && Rank(p.phase) <= Rank(q.phase) && (p.staged ==> q.staged)
  }

  /** A Stage command is issued exactly when the pilot goes from unstaged to staged. */
  predicate StagesOnce(p: Pilot, q: Pilot, cmds: seq<Command>)
  {
    StageCount(cmds) == if !p.staged && q.staged then 1 else 0
  }

  /** A phase dispatch: pilot, status, predicted impact longitude and clock to the iteration's outcome. */
  type Dispatch = (Pilot, Status, Option<real>, real) -> LandingUpdate

  ghost predicate KeepsPilots(dispatch: Dispatch)
  {
    forall p, s, prediction, now :: KeepsPilot(p, dispatch(p, s, prediction, now).pilot)
  }

  ghost predicate StagesLawful(dispatch: Dispatch)
  {
    forall p, s, prediction, now ::
      var u := dispatch(p, s, prediction, now); StagesOnce(p, u.pilot, u.step.cmds)
  }

  ghost predicate ThrottlesLawful(dispatch: Dispatch)
  {
    forall p, s, prediction, now :: ThrottlesWithin(dispatch(p, s, prediction, now).step.cmds, 0.0, 0.8)
  }

  /**
   * Every iteration of `precision_land` keeps the target, moves the phase
   * only forward, never undoes staging, issues a Stage command exactly when
   * it stages, and commands throttles in [0, 0.8].
   */
  lemma IterateLawful()
    ensures KeepsPilots(Iterate) && StagesLawful(Iterate) && ThrottlesLawful(Iterate)
  {
    forall p, s, prediction, now
      ensures var u := Iterate(p, s, prediction, now);
        KeepsPilot(p, u.pilot) && StagesOnce(p, u.pilot, u.step.cmds) && ThrottlesWithin(u.step.cmds, 0.0, 0.8)
    {
      if p.phase == LongitudeTargeting {
        var st := TargetingStep(p, s, prediction);
        assert StageCount(st.cmds) == 0;
        assert ThrottlesWithin(st.cmds, 0.0, 0.8);
      } else if p.phase == Landing {
        LandingStepCommands(p, s, now);
      }
    }
  }

  /**
   * The `while` loop of `precision_land` from the given counter on, over the
   * samples the host answers before `max_time` runs out, for a given phase
   * dispatch (`precision_land` itself uses Iterate).  A phase function that
   * raises ends the run at once, without the timeout cleanup.
   */
  function Loop(dispatch: Dispatch, p: Pilot, samples: seq<Sample>, iteration: nat): (r: LandResult)
    requires iteration <= MaxIterations
    ensures iteration <= r.iterations <= MaxIterations
    ensures r.exit == Reached ==> r.pilot.phase == Completed
    decreases |samples|
  {
    if iteration >= MaxIterations || samples == [] then
      LandResult(p, TimedOut, iteration, Idle)
    else if samples[0].status.None? then Loop(dispatch, p, samples[1..], iteration)
    else if p.phase == Completed then LandResult(p, Reached, iteration, [])
    else
      var u := dispatch(p, samples[0].status.value, samples[0].prediction, samples[0].now);
      if u.step.raised then LandResult(u.pilot, Raised, iteration, u.step.cmds)
      else
        var rest := Loop(dispatch, u.pilot, samples[1..], iteration + 1);
        LandResult(rest.pilot, rest.exit, rest.iterations, u.step.cmds + rest.cmds)
  }

  /** `precision_land(target, tolerance)`: store the normalized target and the tolerance, then loop. */
  function LandAt(p: Pilot, target: real, tolerance: real, samples: seq<Sample>): (r: LandResult)
    ensures r.iterations <= MaxIterations
    ensures r.exit == Reached ==> r.pilot.phase == Completed
  {
    Loop(Iterate, p.(target := Mod360(target), tolerance := tolerance), samples, 0)
  }

  /**
   * What a `precision_land` run guarantees: the normalized target and the
   * tolerance are kept, the phase only moves forward, a run that times out
   * leaves the vehicle idle in Default attitude, a Stage command is issued exactly
   * once if the run stages the rocket and never otherwise, and every
   * throttle lies in [0, 0.8].
   */
  lemma LandAtGuarantees(p: Pilot, target: real, tolerance: real, samples: seq<Sample>)
    ensures var r := LandAt(p, target, tolerance, samples);
      && r.pilot.target == Mod360(target) && r.pilot.tolerance == tolerance
      && Rank(p.phase) <= Rank(r.pilot.phase) && (p.staged ==> r.pilot.staged)
      && (r.exit == TimedOut ==>
            LastAttitude(r.cmds) == Some(Default) && LastThrottle(r.cmds) == Some(0.0) && LastEngine(r.cmds) == Some(false))
      && StageCount(r.cmds) == (if !p.staged && r.pilot.staged then 1 else 0)
      && ThrottlesWithin(r.cmds, 0.0, 0.8)
  {
    var q := p.(target := Mod360(target), tolerance := tolerance);
    var r := Loop(Iterate, q, samples, 0);
    IterateLawful();
    LoopKeepsPilot(Iterate, q, samples, 0);
    LoopStagesOnce(Iterate, q, samples, 0);
    LoopThrottles(Iterate, q, samples, 0);
    LoopTimeout(Iterate, q, samples, 0);
    if r.exit == TimedOut {
      IdleLast(r.cmds);
    }
  }

  /** A run that times out always ends with the timeout cleanup. */
  lemma {:induction false} LoopTimeout(dispatch: Dispatch, p: Pilot, samples: seq<Sample>, iteration: nat)
    requires iteration <= MaxIterations
    ensures var r := Loop(dispatch, p, samples, iteration);
      r.exit == TimedOut ==> |r.cmds| >= 3 && r.cmds[|r.cmds| - 3..] == Idle
    decreases |samples|
  {
    if iteration < MaxIterations && samples != [] {
      if samples[0].status.None? {
        LoopTimeout(dispatch, p, samples[1..], iteration);
      } else if p.phase != Completed {
        var u := dispatch(p, samples[0].status.value, samples[0].prediction, samples[0].now);
        if u.step.raised {
          return;
        }
        LoopTimeout(dispatch, u.pilot, samples[1..], iteration + 1);
        var rest := Loop(dispatch, u.pilot, samples[1..], iteration + 1);
        var cmds := u.step.cmds + rest.cmds;
        assert Loop(dispatch, p, samples, iteration).cmds == cmds;
        if rest.exit == TimedOut {
          assert cmds[|cmds| - 3..] == rest.cmds[|rest.cmds| - 3..];
        }
      }
    }
  }

  /**
   * Over a whole run the target and tolerance are kept, the phase only moves
   * forward and staging is never undone, when every iteration does so.
   */
  lemma {:induction false} LoopKeepsPilot(dispatch: Dispatch, p: Pilot, samples: seq<Sample>, iteration: nat)
    requires iteration <= MaxIterations
    requires KeepsPilots(dispatch)
    ensures KeepsPilot(p, Loop(dispatch, p, samples, iteration).pilot)
    decreases |samples|
  {
    if iteration < MaxIterations && samples != [] {
      if samples[0].status.None? {
        LoopKeepsPilot(dispatch, p, samples[1..], iteration);
      } else if p.phase != Completed {
        var u := dispatch(p, samples[0].status.value, samples[0].prediction, samples[0].now);
        assert KeepsPilot(p, u.pilot);
        if !u.step.raised {
          LoopKeepsPilot(dispatch, u.pilot, samples[1..], iteration + 1);
        }
      }
    }
  }

  /**
   * Over a whole run a Stage command is issued exactly once if the run
   * stages the rocket and never otherwise, when every iteration does so.
   */
  lemma {:induction false} LoopStagesOnce(dispatch: Dispatch, p: Pilot, samples: seq<Sample>, iteration: nat)
    requires iteration <= MaxIterations
    requires KeepsPilots(dispatch) && StagesLawful(dispatch)
    ensures var r := Loop(dispatch, p, samples, iteration); StagesOnce(p, r.pilot, r.cmds)
    decreases |samples|
  {
    if iteration >= MaxIterations || samples == [] {
      assert StageCount(Idle) == 0;
    } else if samples[0].status.None? {
      LoopStagesOnce(dispatch, p, samples[1..], iteration);
    } else if p.phase != Completed {
      var u := dispatch(p, samples[0].status.value, samples[0].prediction, samples[0].now);
      if u.step.raised {
        assert StagesOnce(p, u.pilot, u.step.cmds);
        return;
      }
      LoopStagesOnce(dispatch, u.pilot, samples[1..], iteration + 1);
      LoopKeepsPilot(dispatch, u.pilot, samples[1..], iteration + 1);
      var rest := Loop(dispatch, u.pilot, samples[1..], iteration + 1);
      StagesOnceJoin(p, u.pilot, rest.pilot, u.step.cmds, rest.cmds);
    }
  }

  /** Two stretches that each stage at most once, on the unstaged-to-staged step, do so together. */
  lemma StagesOnceJoin(p: Pilot, q: Pilot, r: Pilot, a: seq<Command>, b: seq<Command>)
    requires KeepsPilot(p, q) && KeepsPilot(q, r)
    requires StagesOnce(p, q, a) && StagesOnce(q, r, b)
    ensures StagesOnce(p, r, a + b)
  {
    StageCountAppend(a, b);
  }

  /** Every throttle of a run lies in [0, 0.8] when every iteration's does. */
  lemma {:induction false} LoopThrottles(dispatch: Dispatch, p: Pilot, samples: seq<Sample>, iteration: nat)
    requires iteration <= MaxIterations
    requires ThrottlesLawful(dispatch)
    ensures ThrottlesWithin(Loop(dispatch, p, samples, iteration).cmds, 0.0, 0.8)
    decreases |samples|
  {
    if iteration >= MaxIterations || samples == [] {
      assert Idle[1].value == 0.0;
    } else if samples[0].status.None? {
      LoopThrottles(dispatch, p, samples[1..], iteration);
    } else if p.phase != Completed {
      var u := dispatch(p, samples[0].status.value, samples[0].prediction, samples[0].now);
      assert ThrottlesWithin(u.step.cmds, 0.0, 0.8);
      if u.step.raised {
        return;
      }
      LoopThrottles(dispatch, u.pilot, samples[1..], iteration + 1);
      var rest := Loop(dispatch, u.pilot, samples[1..], iteration + 1);
      assert Loop(dispatch, p, samples, iteration).cmds == u.step.cmds + rest.cmds;
      ThrottlesWithinAppend(u.step.cmds, rest.cmds, 0.0, 0.8);
    }
  }

  /** One counted iteration of the loop, with the dispatch's outcome named. */
  lemma LoopAdvance(dispatch: Dispatch, p: Pilot, samples: seq<Sample>, iteration: nat, q: Pilot, cmds: seq<Command>)
    requires iteration < MaxIterations && samples != [] && samples[0].status.Some? && p.phase != Completed
    requires dispatch(p, samples[0].status.value, samples[0].prediction, samples[0].now)
      == LandingUpdate(q, Step(q.phase, cmds, false))
    ensures var rest := Loop(dispatch, q, samples[1..], iteration + 1);
      Loop(dispatch, p, samples, iteration) == LandResult(rest.pilot, rest.exit, rest.iterations, cmds + rest.cmds)
  {
  }

  /**
   * Completion is only noticed on the next non-empty status: a landing whose
   * third zero-speed sample is the last one before the time limit ends in a
   * timeout, reported as a failure although the phase is completed.
   */
  lemma CompletionNeedsAnotherRead(p: Pilot, s: Status, now: real)
    requires p.phase == Landing && p.landedTime == 2 && s.altitude.Some? && s.speed == Some(0.0)
    ensures var r := Loop(Iterate, p, [Sample(Some(s), None, now)], 0);
      r.exit == TimedOut && r.pilot.phase == Completed
  {
  }

  /**
   * A raise skips the timeout cleanup: a staged rocket braking hard at 1000 m
   * whose next status carries no speed raises after the attitude hold, and
   * the run ends with the engine still burning at 0.8.
   */
  lemma RaiseLeavesEngineBurning(p: Pilot)
    requires p.phase == Landing && p.staged
    ensures var r := Loop(Iterate, p, [Sample(Some(Status(None, Some(1000.0), Some(60.0), 0.0)), None, 1.0),
                                       Sample(Some(Status(None, Some(1000.0), None, 0.0)), None, 2.0)], 0);
      && r.exit == Raised && r.iterations == 1 && r.pilot.phase == Landing
      && LastEngine(r.cmds) == Some(true) && LastThrottle(r.cmds) == Some(0.8)
      && LastAttitude(r.cmds) == Some(Retrograde)
  {
    var first := Reading(1000.0, 60.0, 0.0);
    var samples := [Sample(Some(Status(None, Some(1000.0), Some(60.0), 0.0)), None, 1.0),
                    Sample(Some(Status(None, Some(1000.0), None, 0.0)), None, 2.0)];
    assert ApproachThrottle(1000.0, 60.0) == 0.8;
    var burn := [SetThrottle(0.8), MainEngineOn(true)];
    assert BrakeCommands(first) == burn;
    var tick := [Rotate(Retrograde)] + burn;
    assert samples[1..][1..] == [];
    assert Loop(Iterate, p, samples, 0).cmds == tick + [Rotate(Retrograde)];
    assert LastThrottle(burn) == Some(0.8) by {
      assert burn[..1] == [SetThrottle(0.8)];
    }
    LastAppend([Rotate(Retrograde)], burn);
    LastAppend(tick, [Rotate(Retrograde)]);
  }

  /** Empty status reads are skipped without counting: a run of them only times out. */
  lemma {:induction false} EmptyReadsAreNotCounted(dispatch: Dispatch, p: Pilot, samples: seq<Sample>, iteration: nat)
    requires iteration <= MaxIterations
    requires forall i :: 0 <= i < |samples| ==> samples[i].status.None?
    ensures Loop(dispatch, p, samples, iteration) == LandResult(p, TimedOut, iteration, Idle)
    decreases |samples|
  {
    if samples != [] && iteration < MaxIterations {
      EmptyReadsAreNotCounted(dispatch, p, samples[1..], iteration);
    }
  }

  /** The `PrecisionLanding` controller object. */
  class Controller {
    var target: real
    var tolerance: real
    var phase: Phase
    var staged: bool
    var landedTime: nat
    var lastTime: real

    function Value(): Pilot
      reads this
    {
      Pilot(target, tolerance, phase, staged, landedTime, lastTime)
    }

    constructor (now: real)
      ensures Value() == NewPilot(now)
    {
      target := 0.0;
      tolerance := DefaultTolerance;
      phase := LongitudeTargeting;
      staged := false;
      landedTime := 0;
      lastTime := now;
    }

    /**
     * `landing_phase`, updating the counter, its clock and the staged flag in
     * place.  raised stands for the TypeError a None altitude or speed
     * causes; the fields changed before it stay changed.
     */
    method LandingPhase(s: Status, now: real) returns (next: Phase, cmds: seq<Command>, raised: bool)
      modifies this
      ensures LandingUpdate(Value(), Step(next, cmds, raised)) == LandingStep(old(Value()), s, now)
    {
      if s.altitude.None? {
        return Landing, [], true;
      }
      var altitude := s.altitude.value;
      var hold := Hold(altitude);
      if s.speed == Some(0.0) {
        landedTime := landedTime + 1;
        if landedTime >= LandedSamples {
          return Completed, TouchdownCommands(hold), false;
        }
      } else {
        landedTime := 0;
      }
      lastTime := now;
      var deploy := altitude < StageAltitude && !staged;
      if deploy {
        staged := true;
      }
      next, raised := Landing, false;
      match s.speed {
        case Some(speed) =>
          cmds := LandingBurn(Reading(altitude, speed, s.angularVelocity), deploy);
        case None =>
          if Abs(s.angularVelocity) > LandingRate {
            cmds := Head(hold, deploy) + [SetThrottle(0.0), MainEngineOn(false)];
          } else {
            cmds, raised := Head(hold, deploy), true;
          }
      }
    }

    /**
     * One counted iteration of `precision_land`: the current phase's
     * function, whose result becomes the phase unless it raised.
     */
    method RunPhase(s: Status, prediction: Option<real>, now: real) returns (cmds: seq<Command>, raised: bool)
      requires phase != Completed
      modifies this
      ensures LandingUpdate(Value(), Step(phase, cmds, raised)) == Iterate(old(Value()), s, prediction, now)
    {
      var next;
      if phase == LongitudeTargeting {
        var st := TargetingStep(Value(), s, prediction);
        next, cmds, raised := st.next, st.cmds, st.raised;
      } else {
        next, cmds, raised := LandingPhase(s, now);
      }
      if !raised {
        phase := next;
      }
    }

    /**
     * The body of the `precision_land` loop for one sample: skip an empty
     * status, stop on completion, otherwise run the phase function, stopping
     * if it raised, and count the iteration.  The outcome is stated against
     * the loop's specification for any later samples.
     */
    method Visit(sample: Sample, ghost later: seq<Sample>, iteration: nat)
      returns (stop: Option<Exit>, step: seq<Command>, next: nat)
      requires iteration < MaxIterations
      modifies this
      ensures next <= MaxIterations && stop != Some(TimedOut)
      ensures stop == Some(Reached) ==> step == [] && Value() == old(Value())
      ensures var whole := Loop(Iterate, old(Value()), [sample] + later, iteration);
        var rest := Loop(Iterate, Value(), later, next);
        whole == if stop.Some? then LandResult(Value(), stop.value, iteration, step)
                 else LandResult(rest.pilot, rest.exit, rest.iterations, step + rest.cmds)
    {
      assert ([sample] + later)[1..] == later;
      if sample.status.None? {
        return None, [], iteration;
      }
      if phase == Completed {
        return Some(Reached), [], iteration;
      }
      ghost var before := Value();
      var raised;
      step, raised := RunPhase(sample.status.value, sample.prediction, sample.now);
      if raised {
        return Some(Raised), step, iteration;
      }
      LoopAdvance(Iterate, before, [sample] + later, iteration, Value(), step);
      stop, next := None, iteration + 1;
    }

    /**
     * `precision_land`: the counted loop over the phase functions, then the
     * timeout cleanup.  Raised stands for the exception that escapes it.
     */
    method PrecisionLand(target: real, tolerance: real, samples: seq<Sample>)
      returns (exit: Exit, cmds: seq<Command>)
      modifies this
      ensures var r := LandAt(old(Value()), target, tolerance, samples);
        Value() == r.pilot && exit == r.exit && cmds == r.cmds
    {
      this.target := Mod360(target);
      this.tolerance := tolerance;
      var iteration: nat := 0;
      var k := 0;
      cmds := [];
      ghost var start := Value();
      while k < |samples| && iteration < MaxIterations
        invariant 0 <= k <= |samples| && iteration <= MaxIterations
        invariant var rest := Loop(Iterate, Value(), samples[k..], iteration);
          Loop(Iterate, start, samples, 0) == LandResult(rest.pilot, rest.exit, rest.iterations, cmds + rest.cmds)
        decreases |samples| - k
      {
        assert samples[k..] == [samples[k]] + samples[k + 1..];
        var stop, step;
        stop, step, iteration := Visit(samples[k], samples[k + 1..], iteration);
        if stop.Some? {
          return stop.value, cmds + step;
        }
        ghost var rest := Loop(Iterate, Value(), samples[k + 1..], iteration);
        assert cmds + (step + rest.cmds) == (cmds + step) + rest.cmds;
        cmds := cmds + step;
        k := k + 1;
      }
      cmds := cmds + Idle;
      exit := TimedOut;
    }
  }
}
