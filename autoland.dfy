/**
 * AutoLand.py: a fleet of rockets, each driven independently through
 * decel -> wait -> landing -> completed by a per-tick state machine, polled
 * in a single loop until no tick reports the rocket as still active.
 *
 * Host reads are inputs (TickInput, Telemetry); a read that raises is None.
 * Host writes are the Commands each tick returns.
 */
module AutoLand {
  import opened Commands
  import opened Angles

  const Phase2Altitude: real := 1750.0
  const StageAltitude: real := 1750.0
  const MinThrottle: real := 0.2
  const WaitPhaseSpeedThreshold: real := 200.0
  const MinEngineSpeed: real := 10.0
  /** Altitude below which the wait phase brakes. */
  const BrakeAltitude: real := 10000.0
  /** Throttle of the decel and wait burns, and the cap of the landing law. */
  const BurnThrottle: real := 0.5
  /** `RocketState.safe_speed` before and after `calc_safe_speed`. */
  const DefaultSafeSpeed: real := 5.0
  /** Touchdown: speed below LandedSpeed for LandedDuration seconds. */
  const LandedSpeed: real := 1.0
  const LandedDuration: real := 5.0
  /** `is_rotating`: |angularVelocity| above this. */
  const RotatingRate: real := 5.0
  /** `rotate_to_retrograde`: Prograde mode offset by 180 degrees. */
  const Retrograde: Attitude := Prograde(180.0)

  datatype Phase = Decel | Wait | Landing | Completed

  /** Position of a phase along decel -> wait -> landing -> completed. */
  function Rank(p: Phase): nat
  {
    match p
    case Decel => 0
    case Wait => 1
    case Landing => 2
    case Completed => 3
  }

  /** What `run_autoland_single_rocket` returns: the phase string, or "error". */
  datatype Outcome = Ran(phase: Phase) | Error

  /** The results that keep a rocket out of the next cycle's active list. */
  predicate Terminal(o: Outcome)
  {
    o == Ran(Completed) || o.Error?
  }

  /** The readings one phase function takes: altitude, |velocity|, periapsis, angular velocity. */
  datatype Telemetry = Telemetry(
    altitude: real,
    speed: real,
    periapsis: Option<real>,       // None: no orbit, or no periapsis in it
    angularVelocity: Option<real>) // None: the read in `is_rotating` raised

  datatype Planet = Planet(gravity: real, radius: real)

  /** Everything the host answers during one rocket's tick. */
  datatype TickInput = TickInput(
    address: Option<string>,      // planet name query; None when it raised
    planet: Option<Planet>,       // planet query; None when it raised
    telemetry: Option<Telemetry>, // None when a read of the phase function raised
    now: real)                    // clock reading of the landing phase

  /** The fields of a `RocketState`. */
  datatype Rocket = Rocket(
    name: string,
    staged: bool,
    landedTime: real,
    lastTime: real,
    phase: Phase,
    planetName: Option<string>,
    safeSpeed: real,
    radius: real,
    gravity: real)

  /**
   * The invariant every `RocketState` keeps: its safe speed is the constant,
   * and it leaves decel only after its planet has been looked up.
   */
  predicate Consistent(r: Rocket)
  {
    r.safeSpeed == DefaultSafeSpeed && (r.phase != Decel ==> r.planetName.Some?)
  }

  /** A fresh `RocketState(name)` created at clock reading now. */
  function NewRocket(name: string, now: real): (r: Rocket)
    ensures Consistent(r) && r.name == name
    ensures r.phase == Decel && !r.staged && r.landedTime == 0.0 && r.lastTime == now
    ensures r.planetName == None
  {
    Rocket(name, false, 0.0, now, Decel, None, DefaultSafeSpeed, 0.0, 0.0)
  }

  /** `calc_safe_speed`: ignores the planet and gives back the constructor's value. */
  function CalcSafeSpeed(gravity: real, radius: real): (s: real)
    ensures s == DefaultSafeSpeed
    ensures s == NewRocket("", 0.0).safeSpeed
  {
    5.0
  }

  datatype Step = Step(next: Phase, cmds: seq<Command>)

  /** `run_decel_phase`. */
  function DecelStep(t: Telemetry, radius: real, safeSpeed: real): (s: Step)
    ensures s.next == Decel || s.next == Wait
    ensures s.next == Wait <==> t.periapsis.None? || t.periapsis.value < radius
    ensures ThrottlesWithin(s.cmds, 0.0, BurnThrottle) && Stage !in s.cmds
  {
    var head := [Rotate(Retrograde)];
    var tail :=
      if t.periapsis.None? || t.periapsis.value < radius then [MainEngineOn(false)]
      else if t.speed > safeSpeed then [SetThrottle(BurnThrottle), MainEngineOn(true)]
      else [MainEngineOn(false)];
    Step(if t.periapsis.None? || t.periapsis.value < radius then Wait else Decel, head + tail)
  }

  /** The decel tick holds retrograde, cuts the engine on leaving, and otherwise burns at 0.5 while too fast. */
  lemma DecelStepCommands(t: Telemetry, radius: real, safeSpeed: real)
    ensures var s := DecelStep(t, radius, safeSpeed);
      && |s.cmds| > 0 && s.cmds[0] == Rotate(Retrograde)
      && LastAttitude(s.cmds) == Some(Retrograde)
      && (s.next == Wait ==> LastEngine(s.cmds) == Some(false) && LastThrottle(s.cmds) == None)
      && (s.next == Decel ==> LastEngine(s.cmds) == Some(t.speed > safeSpeed))
      && (s.next == Decel ==>
            LastThrottle(s.cmds) == if t.speed > safeSpeed then Some(BurnThrottle) else None)
  {
    var cmds := DecelStep(t, radius, safeSpeed).cmds;
    LastAppend([Rotate(Retrograde)], cmds[1..]);
    assert cmds == [Rotate(Retrograde)] + cmds[1..];
  }

  /** `run_wait_phase`. */
  function WaitStep(t: Telemetry): (s: Step)
    ensures s.next == Landing <==> t.altitude <= Phase2Altitude
    ensures s.next == Landing || s.next == Wait
    ensures ThrottlesWithin(s.cmds, 0.0, BurnThrottle) && Stage !in s.cmds
  {
    var head := [Rotate(Retrograde)];
    var tail :=
      if t.altitude <= BrakeAltitude then
        if t.speed > WaitPhaseSpeedThreshold then [SetThrottle(BurnThrottle), MainEngineOn(true)]
        else [MainEngineOn(false)]
      else [];
    Step(if t.altitude <= Phase2Altitude then Landing else Wait, head + tail)
  }

  /** The wait tick holds retrograde and, below 10 km, burns at 0.5 exactly while faster than 200. */
  lemma WaitStepCommands(t: Telemetry)
    ensures var s := WaitStep(t);
      && |s.cmds| > 0 && s.cmds[0] == Rotate(Retrograde)
      && LastAttitude(s.cmds) == Some(Retrograde)
      && (t.altitude <= BrakeAltitude ==> LastEngine(s.cmds) == Some(t.speed > WaitPhaseSpeedThreshold))
      && (t.altitude <= BrakeAltitude ==>
            LastThrottle(s.cmds) == if t.speed > WaitPhaseSpeedThreshold then Some(BurnThrottle) else None)
      && (t.altitude > BrakeAltitude ==> LastEngine(s.cmds) == None && LastThrottle(s.cmds) == None)
  {
    var cmds := WaitStep(t).cmds;
    LastAppend([Rotate(Retrograde)], cmds[1..]);
    assert cmds == [Rotate(Retrograde)] + cmds[1..];
  }

  /** `is_rotating`: a failed read counts as not rotating. */
  function IsRotating(angularVelocity: Option<real>): (b: bool)
    ensures angularVelocity.None? ==> !b
    ensures angularVelocity.Some? ==>
      (b <==> angularVelocity.value > RotatingRate || angularVelocity.value < -RotatingRate)
  {
    angularVelocity.Some? && Abs(angularVelocity.value) > RotatingRate
  }

  /** The landing throttle law: 0.2 + 0.8 * clamp(speed / safeSpeed, 0, 1)^2, capped at 0.5. */
  function LandingThrottle(speed: real, safeSpeed: real): (th: real)
    requires safeSpeed > 0.0
    ensures MinThrottle <= th <= BurnThrottle
  {
    var ratio := Clamp(speed / safeSpeed, 0.0, 1.0);
    var th := MinThrottle + (1.0 - MinThrottle) * (ratio * ratio);
    assert 0.0 <= ratio * ratio;
    if th < BurnThrottle then th else BurnThrottle
  }

  /** Faster means at least as much throttle. */
  lemma LandingThrottleMonotone(s1: real, s2: real, safeSpeed: real)
    requires safeSpeed > 0.0 && s1 <= s2
    ensures LandingThrottle(s1, safeSpeed) <= LandingThrottle(s2, safeSpeed)
  {
    var r1 := Clamp(s1 / safeSpeed, 0.0, 1.0);
    var r2 := Clamp(s2 / safeSpeed, 0.0, 1.0);
    assert s1 / safeSpeed <= s2 / safeSpeed by {
      assert s2 / safeSpeed - s1 / safeSpeed == (s2 - s1) / safeSpeed;
    }
    assert 0.0 <= r1 <= r2;
    assert r1 * r1 <= r1 * r2 by { MulLeft(r1, r1, r2); }
    assert r1 * r2 <= r2 * r2 by { MulLeft(r2, r1, r2); }
    var t1 := MinThrottle + (1.0 - MinThrottle) * (r1 * r1);
    var t2 := MinThrottle + (1.0 - MinThrottle) * (r2 * r2);
    assert t1 <= t2;
    assert LandingThrottle(s1, safeSpeed) == if t1 < BurnThrottle then t1 else BurnThrottle;
    assert LandingThrottle(s2, safeSpeed) == if t2 < BurnThrottle then t2 else BurnThrottle;
  }

  lemma MulLeft(a: real, b: real, c: real)
    requires 0.0 <= a && b <= c
    ensures a * b <= a * c
  {
    assert a * c - a * b == a * (c - b);
  }

  /**
   * With the constant safe speed of 5.0 the law never leaves its cap: the
   * engine is only lit at speeds of at least 10, where the ratio is already 1.
   */
  lemma LandingThrottleSaturated(speed: real)
    requires speed >= MinEngineSpeed
    ensures LandingThrottle(speed, DefaultSafeSpeed) == BurnThrottle
  {
    assert speed / DefaultSafeSpeed >= 2.0;
  }

  datatype LandingUpdate = LandingUpdate(rocket: Rocket, step: Step)

  /** The commands of a landing tick that does not touch down: hold, gate or burn, then maybe stage. */
  function LandingBurn(t: Telemetry, safeSpeed: real, deploy: bool): seq<Command>
    requires safeSpeed > 0.0
  {
    var on := !IsRotating(t.angularVelocity) && t.speed >= MinEngineSpeed;
    var throttle := if on then LandingThrottle(t.speed, safeSpeed) else 0.0;
    var hold := [Rotate(Retrograde), SetThrottle(throttle), MainEngineOn(on)];
    if deploy then hold + [Stage] else hold
  }

  /**
   * A landing tick that does not touch down holds retrograde; while rotating
   * it cuts throttle and engine, otherwise it lights the engine from 10 m/s
   * at the landing law's throttle; it stages exactly when deploying.
   */
  lemma LandingBurnCommands(t: Telemetry, safeSpeed: real, deploy: bool)
    requires safeSpeed > 0.0
    ensures var cmds := LandingBurn(t, safeSpeed, deploy);
      && LastAttitude(cmds) == Some(Retrograde)
      && (IsRotating(t.angularVelocity) ==> LastThrottle(cmds) == Some(0.0) && LastEngine(cmds) == Some(false))
      && (!IsRotating(t.angularVelocity) ==>
            LastEngine(cmds) == Some(t.speed >= MinEngineSpeed) &&
            LastThrottle(cmds) == Some(if t.speed < MinEngineSpeed then 0.0 else LandingThrottle(t.speed, safeSpeed)))
      && ThrottlesWithin(cmds, 0.0, BurnThrottle)
      && StageCount(cmds) == if deploy then 1 else 0
  {
    var on := !IsRotating(t.angularVelocity) && t.speed >= MinEngineSpeed;
    var throttle := if on then LandingThrottle(t.speed, safeSpeed) else 0.0;
    var hold := [Rotate(Retrograde), SetThrottle(throttle), MainEngineOn(on)];
    assert hold[..2] == [Rotate(Retrograde), SetThrottle(throttle)];
    assert hold[..2][..1] == [Rotate(Retrograde)];
    assert LastThrottle(hold[..2]) == Some(throttle);
    assert LastAttitude(hold[..2]) == Some(Retrograde);
    assert Stage !in hold;
    if deploy {
      var cmds := hold + [Stage];
      assert cmds[..3] == hold;
    }
  }

  /** `run_landing_phase`: touchdown timer, retrograde hold, stability gate, throttle law, staging. */
  function LandingStep(r: Rocket, t: Telemetry, now: real): (u: LandingUpdate)
    requires Consistent(r)
    // touchdown timer
    ensures t.speed < LandedSpeed ==> u.rocket.landedTime == r.landedTime + (now - r.lastTime)
    ensures t.speed >= LandedSpeed ==> u.rocket.landedTime == 0.0
    ensures u.step.next == Completed <==> t.speed < LandedSpeed && u.rocket.landedTime >= LandedDuration
    ensures u.step.next == Completed || u.step.next == Landing
    ensures u.rocket.lastTime == if u.step.next == Landing then now else r.lastTime
    // staging: a write-once flag
    ensures u.rocket.staged == (r.staged || (u.step.next == Landing && t.altitude < StageAltitude))
    // nothing else changes
    ensures u.rocket == r.(landedTime := u.rocket.landedTime, lastTime := u.rocket.lastTime,
                           staged := u.rocket.staged)
  {
    var slow := t.speed < LandedSpeed;
    var timer := if slow then r.landedTime + (now - r.lastTime) else 0.0;
    if slow && timer >= LandedDuration then
      LandingUpdate(r.(landedTime := timer), Step(Completed, [SetThrottle(0.0), MainEngineOn(false)]))
    else
      var deploy := t.altitude < StageAltitude && !r.staged;
      LandingUpdate(r.(landedTime := timer, lastTime := now, staged := r.staged || deploy),
                    Step(Landing, LandingBurn(t, r.safeSpeed, deploy)))
  }

  /**
   * The commands of a landing tick: engine cut on touchdown, otherwise hold,
   * gate and throttle law; one Stage on the tick that sets the flag.
   */
  lemma LandingStepCommands(r: Rocket, t: Telemetry, now: real)
    requires Consistent(r)
    ensures var u := LandingStep(r, t, now);
      && ThrottlesWithin(u.step.cmds, 0.0, BurnThrottle)
      && StageCount(u.step.cmds) == (if !r.staged && u.rocket.staged then 1 else 0)
      && (u.step.next == Completed ==> u.step.cmds == [SetThrottle(0.0), MainEngineOn(false)])
      && (u.step.next == Landing && IsRotating(t.angularVelocity) ==>
            LastThrottle(u.step.cmds) == Some(0.0) && LastEngine(u.step.cmds) == Some(false))
      && (u.step.next == Landing && !IsRotating(t.angularVelocity) ==>
            LastEngine(u.step.cmds) == Some(t.speed >= MinEngineSpeed) &&
            LastThrottle(u.step.cmds) ==
              Some(if t.speed < MinEngineSpeed then 0.0 else LandingThrottle(t.speed, r.safeSpeed)))
      && (u.step.next == Landing ==> LastAttitude(u.step.cmds) == Some(Retrograde))
  {
    var u := LandingStep(r, t, now);
    if u.step.next == Landing {
      LandingBurnCommands(t, r.safeSpeed, !r.staged && u.rocket.staged);
    } else {
      assert Stage !in u.step.cmds;
    }
  }

  datatype TickResult = TickResult(rocket: Rocket, outcome: Outcome, cmds: seq<Command>)

  /** The rocket after the planet initialisation of `run_autoland_single_rocket`, or None if it raised. */
  function InitPlanet(r: Rocket, input: TickInput): (res: (Rocket, bool))
    requires Consistent(r)
    ensures Consistent(res.0) && res.0.phase == r.phase && res.0.staged == r.staged
    ensures res.0.landedTime == r.landedTime && res.0.lastTime == r.lastTime
    ensures r.planetName.Some? ==> res == (r, true)
    ensures res.1 ==> res.0.planetName.Some?
    // it fails exactly when the planet is unknown and one of its two reads fails
    ensures res.1 <==> r.planetName.Some? || (input.address.Some? && input.planet.Some?)
    // the name is stored as soon as it is read, even when the planet info read then fails
    ensures r.planetName.None? && input.address.Some? ==> res.0.planetName == input.address
    ensures r.planetName.None? && input.address.None? ==> res.0 == r
    // a fresh fetch copies the planet's radius and gravity
    ensures r.planetName.None? && res.1 ==>
      res.0.radius == input.planet.value.radius && res.0.gravity == input.planet.value.gravity
    ensures !res.1 ==> res.0.radius == r.radius && res.0.gravity == r.gravity && res.0.safeSpeed == r.safeSpeed
  {
    if r.planetName.Some? then (r, true)
    else if input.address.None? then (r, false)
    else
      var named := r.(planetName := input.address);
      if input.planet.None? then (named, false)
      else
        var p := input.planet.value;
        (named.(gravity := p.gravity, radius := p.radius, safeSpeed := CalcSafeSpeed(p.gravity, p.radius)), true)
  }

  /** `run_autoland_single_rocket`: one tick of one rocket. */
  function Tick(r: Rocket, input: TickInput): (res: TickResult)
    requires Consistent(r)
    ensures Consistent(res.rocket) && res.rocket.name == r.name
    // planet fields are fetched only while the planet is unknown
    ensures r.planetName.Some? ==>
      res.rocket.planetName == r.planetName && res.rocket.radius == r.radius && res.rocket.gravity == r.gravity
    // a tick that raises issues nothing and keeps the phase, so the rocket is ticked again
    ensures res.outcome.Error? ==>
      res.cmds == [] && res.rocket.phase == r.phase && res.rocket.staged == r.staged &&
      res.rocket.landedTime == r.landedTime && res.rocket.lastTime == r.lastTime
    ensures res.outcome.Ran? ==> res.rocket.phase == res.outcome.phase
    ensures r.phase == Completed ==> res.outcome == Ran(Completed) && res.cmds == []
    // phases only move forward, one step at a time
    ensures Rank(r.phase) <= Rank(res.rocket.phase) <= Rank(r.phase) + 1
    ensures r.staged ==> res.rocket.staged
    // the timer and its clock are touched only by the landing phase
    ensures r.phase != Landing ==> res.rocket.landedTime == r.landedTime && res.rocket.lastTime == r.lastTime
    // a tick whose reads fail leaves the rocket where it is and out of the active list
    ensures input.telemetry.None? ==> res.rocket.phase == r.phase && Terminal(res.outcome)
  {
    var (p, ok) := InitPlanet(r, input);
    if !ok then TickResult(p, Error, [])
    else
      match p.phase
      case Completed => TickResult(p, Ran(Completed), [])
      case Decel =>
        if input.telemetry.None? then TickResult(p, Error, [])
        else
          var s := DecelStep(input.telemetry.value, p.radius, p.safeSpeed);
          TickResult(p.(phase := s.next), Ran(s.next), s.cmds)
      case Wait =>
        if input.telemetry.None? then TickResult(p, Error, [])
        else
          var s := WaitStep(input.telemetry.value);
          TickResult(p.(phase := s.next), Ran(s.next), s.cmds)
      case Landing =>
        if input.telemetry.None? then TickResult(p, Error, [])
        else
          var u := LandingStep(p, input.telemetry.value, input.now);
          TickResult(u.rocket.(phase := u.step.next), Ran(u.step.next), u.step.cmds)
  }

  /** A failed planet initialisation aborts the tick, and a name once read is kept. */
  lemma TickPlanetInit(r: Rocket, input: TickInput)
    requires Consistent(r)
    ensures r.planetName.None? && (input.address.None? || input.planet.None?) ==>
      Tick(r, input).outcome == Error && Tick(r, input).cmds == []
    ensures r.planetName.None? && input.address.Some? ==> Tick(r, input).rocket.planetName == input.address
  {
  }

  /** A tick sends one Stage exactly when it sets the staged flag, and throttles only in [0, 0.5]. */
  lemma TickCommands(r: Rocket, input: TickInput)
    requires Consistent(r)
    ensures var res := Tick(r, input);
      && StageCount(res.cmds) == (if !r.staged && res.rocket.staged then 1 else 0)
      && ThrottlesWithin(res.cmds, 0.0, BurnThrottle)
  {
    var (p, ok) := InitPlanet(r, input);
    if ok && p.phase == Landing && input.telemetry.Some? {
      LandingStepCommands(p, input.telemetry.value, input.now);
    }
  }

  /** The mutable per-rocket record of AutoLand.py. */
  class RocketState {
    const name: string
    var staged: bool
    var landedTime: real
    var lastTime: real
    var phase: Phase
    var planetName: Option<string>
    var safeSpeed: real
    var radius: real
    var gravity: real

    function Value(): Rocket
      reads this
    {
      Rocket(name, staged, landedTime, lastTime, phase, planetName, safeSpeed, radius, gravity)
    }

    constructor (name: string, now: real)
      ensures Value() == NewRocket(name, now)
    {
      this.name := name;
      staged := false;
      landedTime := 0.0;
      lastTime := now;
      phase := Decel;
      planetName := None;
      safeSpeed := DefaultSafeSpeed;
      radius := 0.0;
      gravity := 0.0;
    }

    /** `run_landing_phase`, updating the timer, its clock and the staged flag in place. */
    method LandingPhase(t: Telemetry, now: real) returns (next: Phase, cmds: seq<Command>)
      requires Consistent(Value())
      modifies this
      ensures LandingUpdate(Value(), Step(next, cmds)) == LandingStep(old(Value()), t, now)
    {
      if t.speed < LandedSpeed {
        landedTime := landedTime + (now - lastTime);
        if landedTime >= LandedDuration {
          return Completed, [SetThrottle(0.0), MainEngineOn(false)];
        }
      } else {
        landedTime := 0.0;
      }
      lastTime := now;
      var deploy := t.altitude < StageAltitude && !staged;
      if deploy {
        staged := true;
      }
      next, cmds := Landing, LandingBurn(t, safeSpeed, deploy);
    }

    /** `run_autoland_single_rocket`: planet initialisation, then the current phase's function. */
    method RunSingle(input: TickInput) returns (outcome: Outcome, cmds: seq<Command>)
      requires Consistent(Value())
      modifies this
      ensures TickResult(Value(), outcome, cmds) == Tick(old(Value()), input)
    {
      cmds := [];
      if planetName.None? {
        if input.address.None? {
          return Error, [];
        }
        planetName := input.address;
        if input.planet.None? {
          return Error, [];
        }
        gravity := input.planet.value.gravity;
        radius := input.planet.value.radius;
        safeSpeed := CalcSafeSpeed(gravity, radius);
      }
      if phase == Completed {
        return Ran(Completed), [];
      }
      if input.telemetry.None? {
        return Error, [];
      }
      var t := input.telemetry.value;
      if phase == Decel {
        var s := DecelStep(t, radius, safeSpeed);
        phase, cmds := s.next, s.cmds;
      } else if phase == Wait {
        var s := WaitStep(t);
        phase, cmds := s.next, s.cmds;
      } else {
        var next;
        next, cmds := LandingPhase(t, input.now);
        phase := next;
      }
      outcome := Ran(phase);
    }

    /** One iteration of the `for` loop of the main loop: tick the rocket unless it has completed. */
    method Visit(input: TickInput) returns (active: seq<string>, log: seq<Entry>)
      requires Consistent(Value())
      modifies this
      ensures Value() == Advance(Tick, old(Value()), input)
      ensures CycleResult(active, log) == Contribution(Tick, old(Value()), input)
    {
      active, log := [], [];
      if phase != Completed {
        var outcome, cmds := RunSingle(input);
        if !Terminal(outcome) {
          active := [name];
        }
        log := Tag(name, cmds);
      }
    }
  }

  // ---------------------------------------------------------------------------
  // Fleet: resolution and the main loop of `run_autoland`

  predicate NoDuplicates(s: seq<string>)
  {
    forall i, j :: 0 <= i < j < |s| ==> s[i] != s[j]
  }

  /**
   * The keys of `rocket_states` in insertion order after the host's answers
   * (the reported `rocketName`, or None for an id it could not resolve) have
   * been inserted one by one; a repeated name keeps its first position.
   */
  function Resolve(responses: seq<Option<string>>): (names: seq<string>)
    ensures NoDuplicates(names)
    ensures forall n :: n in names <==> Some(n) in responses
    ensures |names| <= |responses|
  {
    if responses == [] then []
    else
      var prefix := Resolve(responses[..|responses| - 1]);
      var last := responses[|responses| - 1];
      assert responses == responses[..|responses| - 1] + [last];
      if last.Some? && last.value !in prefix then prefix + [last.value] else prefix
  }

  /** The dictionary keys of a fleet: each state is stored under its own name. */
  function Names(fleet: seq<Rocket>): (names: seq<string>)
    ensures |names| == |fleet|
    ensures forall i :: 0 <= i < |fleet| ==> names[i] == fleet[i].name
  {
    seq(|fleet|, i requires 0 <= i < |fleet| => fleet[i].name)
  }

  /** The invariant of `rocket_states`: one consistent rocket per distinct name. */
  predicate FleetOk(fleet: seq<Rocket>)
  {
    NoDuplicates(Names(fleet)) && forall i :: 0 <= i < |fleet| ==> Consistent(fleet[i])
  }

  /** The rocket states right after resolution. */
  function InitialFleet(names: seq<string>, now: real): (fleet: seq<Rocket>)
    requires NoDuplicates(names)
    ensures FleetOk(fleet) && Names(fleet) == names
    ensures forall i :: 0 <= i < |fleet| ==> fleet[i] == NewRocket(names[i], now)
  {
    var fleet := seq(|names|, i requires 0 <= i < |names| => NewRocket(names[i], now));
    assert Names(fleet) == names;
    fleet
  }

  /** An entry of the fleet's command log: a command addressed to one rocket. */
  datatype Entry = Entry(rocket: string, command: Command)

  function Tag(name: string, cmds: seq<Command>): (log: seq<Entry>)
    ensures |log| == |cmds|
    ensures forall i :: 0 <= i < |log| ==> log[i] == Entry(name, cmds[i])
  {
    seq(|cmds|, i requires 0 <= i < |cmds| => Entry(name, cmds[i]))
  }

  /** The commands of the log addressed to one rocket. */
  function CommandsFor(log: seq<Entry>, name: string): (cmds: seq<Command>)
    ensures |cmds| <= |log|
  {
    if log == [] then []
    else
      CommandsFor(log[..|log| - 1], name) +
      (if log[|log| - 1].rocket == name then [log[|log| - 1].command] else [])
  }

  lemma {:induction false} CommandsForAppend(a: seq<Entry>, b: seq<Entry>, name: string)
    ensures CommandsFor(a + b, name) == CommandsFor(a, name) + CommandsFor(b, name)
  {
    if b == [] {
      assert a + b == a;
    } else {
      assert (a + b)[..|a + b| - 1] == a + b[..|b| - 1];
      CommandsForAppend(a, b[..|b| - 1], name);
    }
  }

  lemma {:induction false} CommandsForTag(other: string, cmds: seq<Command>, name: string)
    ensures CommandsFor(Tag(other, cmds), name) == if other == name then cmds else []
  {
    if cmds != [] {
      var t := Tag(other, cmds);
      assert t[..|t| - 1] == Tag(other, cmds[..|cmds| - 1]);
      CommandsForTag(other, cmds[..|cmds| - 1], name);
    }
  }

  datatype CycleResult = CycleResult(active: seq<string>, log: seq<Entry>)

  // The fleet loop is stated for any per-rocket tick, and its properties are
  // proved from the laws below alone; `Tick` keeps those laws (TickLawful).

  /** A per-rocket tick: the rocket's state, the host's answers, and what the tick produced. */
  type Ticker = (Rocket, TickInput) --> TickResult

  /** What the fleet loop relies on from one tick. */
  predicate TickLaw(r: Rocket, input: TickInput, res: TickResult)
  {
    && Consistent(res.rocket) && res.rocket.name == r.name
    && Rank(r.phase) <= Rank(res.rocket.phase)
    && (r.staged ==> res.rocket.staged)
    && StageCount(res.cmds) == (if !r.staged && res.rocket.staged then 1 else 0)
    && (input.telemetry.None? ==> res.rocket.phase == r.phase && Terminal(res.outcome))
  }

  /** The tick accepts every consistent rocket and keeps the laws on it. */
  ghost predicate Lawful(tick: Ticker)
  {
    forall r, input :: Consistent(r) ==> tick.requires(r, input) && TickLaw(r, input, tick(r, input))
  }

  lemma TickLawful()
    ensures Lawful(Tick)
  {
    forall r, input | Consistent(r)
      ensures Tick.requires(r, input) && TickLaw(r, input, Tick(r, input))
    {
      TickCommands(r, input);
    }
  }

  /** A rocket's state after one pass: completed rockets are skipped. */
  ghost function Advance(tick: Ticker, r: Rocket, input: TickInput): (r': Rocket)
    ensures r.phase == Completed ==> r' == r
    ensures !tick.requires(r, input) ==> r' == r
  {
    if r.phase == Completed || !tick.requires(r, input) then r else tick(r, input).rocket
  }

  /** Under a lawful tick a rocket stays consistent, keeps its name, and its phase and staging only move forward. */
  lemma AdvanceLawful(tick: Ticker, r: Rocket, input: TickInput)
    requires Lawful(tick) && Consistent(r)
    ensures var r' := Advance(tick, r, input);
      Consistent(r') && r'.name == r.name && Rank(r.phase) <= Rank(r'.phase) && (r.staged ==> r'.staged)
  {
  }

  /** The rocket is ticked in this pass and reports that it still has work to do. */
  ghost predicate StillActive(tick: Ticker, r: Rocket, input: TickInput)
  {
    r.phase != Completed && tick.requires(r, input) && !Terminal(tick(r, input).outcome)
  }

  /** What one rocket adds to a pass: its name if it stays active, and its tick's commands. */
  ghost function Contribution(tick: Ticker, r: Rocket, input: TickInput): (c: CycleResult)
    ensures c.active == if StillActive(tick, r, input) then [r.name] else []
    ensures c.log == if r.phase == Completed || !tick.requires(r, input) then [] else Tag(r.name, tick(r, input).cmds)
  {
    if r.phase == Completed || !tick.requires(r, input) then CycleResult([], [])
    else
      var res := tick(r, input);
      CycleResult(if Terminal(res.outcome) then [] else [r.name], Tag(r.name, res.cmds))
  }

  /**
   * One pass of the `for` loop of the main loop: the names whose tick
   * returned a non-terminal result, and the commands issued, in dictionary
   * order.  Completed rockets are skipped.
   */
  ghost function Cycle(tick: Ticker, fleet: seq<Rocket>, input: string -> TickInput): (c: CycleResult)
    ensures |c.active| <= |fleet|
  {
    if fleet == [] then CycleResult([], [])
    else
      var prefix := Cycle(tick, fleet[..|fleet| - 1], input);
      var r := fleet[|fleet| - 1];
      var v := Contribution(tick, r, input(r.name));
      CycleResult(prefix.active + v.active, prefix.log + v.log)
  }

  lemma CycleSnoc(tick: Ticker, fleet: seq<Rocket>, i: int, input: string -> TickInput)
    requires 0 <= i < |fleet|
    ensures var c := Cycle(tick, fleet[..i], input);
      var v := Contribution(tick, fleet[i], input(fleet[i].name));
      Cycle(tick, fleet[..i + 1], input) == CycleResult(c.active + v.active, c.log + v.log)
  {
    assert fleet[..i + 1][..i] == fleet[..i];
  }

  /** Every rocket's state after one pass. */
  ghost function CycleFleet(tick: Ticker, fleet: seq<Rocket>, input: string -> TickInput): (fleet': seq<Rocket>)
    ensures |fleet'| == |fleet|
    ensures forall i :: 0 <= i < |fleet| ==> fleet'[i] == Advance(tick, fleet[i], input(fleet[i].name))
  {
    seq(|fleet|, i requires 0 <= i < |fleet| => Advance(tick, fleet[i], input(fleet[i].name)))
  }

  /** A pass of a lawful tick keeps one consistent rocket per name. */
  lemma CycleFleetLawful(tick: Ticker, fleet: seq<Rocket>, input: string -> TickInput)
    requires Lawful(tick) && FleetOk(fleet)
    ensures FleetOk(CycleFleet(tick, fleet, input)) && Names(CycleFleet(tick, fleet, input)) == Names(fleet)
  {
    var fleet' := CycleFleet(tick, fleet, input);
    forall i | 0 <= i < |fleet|
      ensures Consistent(fleet'[i]) && fleet'[i].name == fleet[i].name
    {
      AdvanceLawful(tick, fleet[i], input(fleet[i].name));
    }
    assert Names(fleet') == Names(fleet);
  }

  /** A pass of the real tick keeps one consistent rocket per name. */
  lemma CycleFleetOk(fleet: seq<Rocket>, input: string -> TickInput)
    requires FleetOk(fleet)
    ensures FleetOk(CycleFleet(Tick, fleet, input)) && Names(CycleFleet(Tick, fleet, input)) == Names(fleet)
  {
    TickLawful();
    CycleFleetLawful(Tick, fleet, input);
  }

  datatype RunResult = RunResult(fleet: seq<Rocket>, cycles: nat, settled: bool, log: seq<Entry>)

  /**
   * The `while True` loop over the given cycles' host answers: it stops after
   * the first cycle whose active list is empty (settled), or when the answers
   * run out.
   */
  ghost function MainLoop(tick: Ticker, fleet: seq<Rocket>, cycles: seq<string -> TickInput>): (r: RunResult)
    ensures r.cycles <= |cycles| && |r.fleet| == |fleet|
    ensures !r.settled ==> r.cycles == |cycles|
    decreases |cycles|
  {
    if cycles == [] then RunResult(fleet, 0, false, [])
    else
      var c := Cycle(tick, fleet, cycles[0]);
      var next := CycleFleet(tick, fleet, cycles[0]);
      if c.active == [] then RunResult(next, 1, true, c.log)
      else
        var rest := MainLoop(tick, next, cycles[1..]);
        RunResult(rest.fleet, rest.cycles + 1, rest.settled, c.log + rest.log)
  }

  /** A whole run of a lawful tick keeps one consistent rocket per name. */
  lemma {:induction false} MainLoopLawful(tick: Ticker, fleet: seq<Rocket>, cycles: seq<string -> TickInput>)
    requires Lawful(tick) && FleetOk(fleet)
    ensures var r := MainLoop(tick, fleet, cycles); FleetOk(r.fleet) && Names(r.fleet) == Names(fleet)
    decreases |cycles|
  {
    if cycles != [] {
      CycleFleetLawful(tick, fleet, cycles[0]);
      if Cycle(tick, fleet, cycles[0]).active != [] {
        MainLoopLawful(tick, CycleFleet(tick, fleet, cycles[0]), cycles[1..]);
      }
    }
  }

  /** One turn of the main loop keeps the remaining-work equation of `Fleet.Run`. */
  lemma RunTurn(tick: Ticker, start: seq<Rocket>, cycles: seq<string -> TickInput>, ran: nat, log: seq<Entry>,
                fleet: seq<Rocket>, active: seq<string>, clog: seq<Entry>)
    requires ran < |cycles|
    requires var rest := MainLoop(tick, fleet, cycles[ran..]);
      MainLoop(tick, start, cycles) == RunResult(rest.fleet, rest.cycles + ran, rest.settled, log + rest.log)
    requires CycleResult(active, clog) == Cycle(tick, fleet, cycles[ran])
    ensures var next := CycleFleet(tick, fleet, cycles[ran]);
      active == [] ==> MainLoop(tick, start, cycles) == RunResult(next, ran + 1, true, log + clog)
    ensures var rest := MainLoop(tick, CycleFleet(tick, fleet, cycles[ran]), cycles[ran + 1..]);
      active != [] ==>
      MainLoop(tick, start, cycles) == RunResult(rest.fleet, rest.cycles + ran + 1, rest.settled, log + clog + rest.log)
  {
    var tail := cycles[ran..];
    assert tail[0] == cycles[ran] && tail[1..] == cycles[ran + 1..];
    var next := CycleFleet(tick, fleet, cycles[ran]);
    var m := MainLoop(tick, fleet, tail);
    if active == [] {
      assert m == RunResult(next, 1, true, clog);
    } else {
      var rest := MainLoop(tick, next, cycles[ran + 1..]);
      assert m == RunResult(rest.fleet, rest.cycles + 1, rest.settled, clog + rest.log);
      assert log + (clog + rest.log) == log + clog + rest.log;
    }
  }

  // ---------------------------------------------------------------------------
  // Properties of the fleet loop, for any lawful tick

  /** Distinct keys: every other rocket of the fleet has another name. */
  lemma FleetNamesDistinct(fleet: seq<Rocket>, k: int)
    requires NoDuplicates(Names(fleet)) && 0 <= k < |fleet|
    ensures forall i :: 0 <= i < |fleet| && i != k ==> fleet[i].name != fleet[k].name
  {
    forall i | 0 <= i < |fleet| && i != k
      ensures fleet[i].name != fleet[k].name
    {
      if i < k {
        assert Names(fleet)[i] != Names(fleet)[k];
      } else {
        assert Names(fleet)[k] != Names(fleet)[i];
      }
    }
  }

  /** The commands a rocket's contribution sends to a name: its tick's commands when it is that rocket and is ticked. */
  lemma ContributionCommands(tick: Ticker, r: Rocket, input: TickInput, name: string)
    ensures CommandsFor(Contribution(tick, r, input).log, name) ==
      if r.name == name && r.phase != Completed && tick.requires(r, input) then tick(r, input).cmds else []
  {
    if r.phase != Completed && tick.requires(r, input) {
      CommandsForTag(r.name, tick(r, input).cmds, name);
    }
  }

  /** Within one cycle a rocket receives exactly the commands of its own tick, and none once completed. */
  lemma {:induction false} CycleCommands(tick: Ticker, fleet: seq<Rocket>, input: string -> TickInput, k: int)
    requires 0 <= k < |fleet| && tick.requires(fleet[k], input(fleet[k].name))
    requires forall i :: 0 <= i < |fleet| && i != k ==> fleet[i].name != fleet[k].name
    ensures CommandsFor(Cycle(tick, fleet, input).log, fleet[k].name) ==
      if fleet[k].phase == Completed then [] else tick(fleet[k], input(fleet[k].name)).cmds
  {
    var n := |fleet| - 1;
    var init := fleet[..n];
    var r := fleet[n];
    var name := fleet[k].name;
    var own := if fleet[k].phase == Completed then [] else tick(fleet[k], input(name)).cmds;
    var prefix := Cycle(tick, init, input).log;
    var last := Contribution(tick, r, input(r.name)).log;
    assert Cycle(tick, fleet, input).log == prefix + last;
    CommandsForAppend(prefix, last, name);
    ContributionCommands(tick, r, input(r.name), name);
    if k < n {
      assert init[k] == fleet[k];
      CycleCommands(tick, init, input, k);
      assert CommandsFor(prefix, name) == own && CommandsFor(last, name) == [];
      assert own + [] == own;
    } else {
      CycleAbsent(tick, init, input, name);
      assert CommandsFor(prefix, name) == [] && CommandsFor(last, name) == own;
      assert [] + own == own;
    }
  }

  /** A name that is not in the fleet is sent nothing. */
  lemma {:induction false} CycleAbsent(tick: Ticker, fleet: seq<Rocket>, input: string -> TickInput, name: string)
    requires forall i :: 0 <= i < |fleet| ==> fleet[i].name != name
    ensures CommandsFor(Cycle(tick, fleet, input).log, name) == []
  {
    if fleet != [] {
      var init := fleet[..|fleet| - 1];
      var r := fleet[|fleet| - 1];
      CycleAbsent(tick, init, input, name);
      CommandsForAppend(Cycle(tick, init, input).log, Contribution(tick, r, input(r.name)).log, name);
      if r.phase != Completed && tick.requires(r, input(r.name)) {
        CommandsForTag(r.name, tick(r, input(r.name)).cmds, name);
      }
    }
  }

  /** A completed rocket is never ticked again: its state is frozen and it is sent nothing. */
  lemma {:induction false} CompletedNeverTicked(tick: Ticker, fleet: seq<Rocket>, cycles: seq<string -> TickInput>, k: int)
    requires Lawful(tick) && FleetOk(fleet) && 0 <= k < |fleet| && fleet[k].phase == Completed
    ensures MainLoop(tick, fleet, cycles).fleet[k] == fleet[k]
    ensures CommandsFor(MainLoop(tick, fleet, cycles).log, fleet[k].name) == []
    decreases |cycles|
  {
    if cycles != [] {
      var c := Cycle(tick, fleet, cycles[0]);
      var next := CycleFleet(tick, fleet, cycles[0]);
      FleetNamesDistinct(fleet, k);
      CycleCommands(tick, fleet, cycles[0], k);
      CycleFleetLawful(tick, fleet, cycles[0]);
      if c.active != [] {
        CompletedNeverTicked(tick, next, cycles[1..], k);
        CommandsForAppend(c.log, MainLoop(tick, next, cycles[1..]).log, fleet[k].name);
      }
    }
  }

  /** Over a whole run each rocket's phase only moves forward and staging is never undone. */
  lemma {:induction false} RunMonotone(tick: Ticker, fleet: seq<Rocket>, cycles: seq<string -> TickInput>, k: int)
    requires Lawful(tick) && FleetOk(fleet) && 0 <= k < |fleet|
    ensures Rank(fleet[k].phase) <= Rank(MainLoop(tick, fleet, cycles).fleet[k].phase)
    ensures fleet[k].staged ==> MainLoop(tick, fleet, cycles).fleet[k].staged
    decreases |cycles|
  {
    if cycles != [] {
      AdvanceLawful(tick, fleet[k], cycles[0](fleet[k].name));
      if Cycle(tick, fleet, cycles[0]).active != [] {
        CycleFleetLawful(tick, fleet, cycles[0]);
        RunMonotone(tick, CycleFleet(tick, fleet, cycles[0]), cycles[1..], k);
      }
    }
  }

  /**
   * Over a whole run a rocket is sent at most one Stage command: exactly one
   * when it ends staged having started unstaged, none otherwise.
   */
  lemma {:induction false} StagedOnce(tick: Ticker, fleet: seq<Rocket>, cycles: seq<string -> TickInput>, k: int)
    requires Lawful(tick) && FleetOk(fleet) && 0 <= k < |fleet|
    ensures var r := MainLoop(tick, fleet, cycles);
      StageCount(CommandsFor(r.log, fleet[k].name)) == if !fleet[k].staged && r.fleet[k].staged then 1 else 0
    decreases |cycles|
  {
    if cycles != [] {
      var name := fleet[k].name;
      var c := Cycle(tick, fleet, cycles[0]);
      var next := CycleFleet(tick, fleet, cycles[0]);
      FleetNamesDistinct(fleet, k);
      CycleCommands(tick, fleet, cycles[0], k);
      CycleFleetLawful(tick, fleet, cycles[0]);
      if c.active != [] {
        var rest := MainLoop(tick, next, cycles[1..]);
        StagedOnce(tick, next, cycles[1..], k);
        RunMonotone(tick, next, cycles[1..], k);
        CommandsForAppend(c.log, rest.log, name);
        StageCountAppend(CommandsFor(c.log, name), CommandsFor(rest.log, name));
      }
    }
  }

  /**
   * A rocket whose reads fail in every cycle keeps its phase for the whole
   * run, while the other rockets are ticked as usual.
   */
  lemma {:induction false} FailingRocketStaysPut(tick: Ticker, fleet: seq<Rocket>, cycles: seq<string -> TickInput>, k: int)
    requires Lawful(tick) && FleetOk(fleet) && 0 <= k < |fleet|
    requires forall i :: 0 <= i < |cycles| ==> cycles[i](fleet[k].name).telemetry.None?
    ensures MainLoop(tick, fleet, cycles).fleet[k].phase == fleet[k].phase
    decreases |cycles|
  {
    if cycles != [] && Cycle(tick, fleet, cycles[0]).active != [] {
      CycleFleetLawful(tick, fleet, cycles[0]);
      FailingRocketStaysPut(tick, CycleFleet(tick, fleet, cycles[0]), cycles[1..], k);
    }
  }

  /** The active list is empty exactly when no rocket ticked in the pass stays active. */
  lemma {:induction false} ActiveEmptyIff(tick: Ticker, fleet: seq<Rocket>, input: string -> TickInput)
    ensures Cycle(tick, fleet, input).active == [] <==>
      forall i :: 0 <= i < |fleet| ==> !StillActive(tick, fleet[i], input(fleet[i].name))
  {
    if fleet != [] {
      var init := fleet[..|fleet| - 1];
      ActiveEmptyIff(tick, init, input);
      assert forall i :: 0 <= i < |init| ==> init[i] == fleet[i];
    }
  }

  /** What a run of `run_autoland_single_rocket` ticks guarantees each rocket of the fleet. */
  lemma RunGuarantees(fleet: seq<Rocket>, cycles: seq<string -> TickInput>, k: int)
    requires FleetOk(fleet) && 0 <= k < |fleet|
    ensures var r := MainLoop(Tick, fleet, cycles);
      && FleetOk(r.fleet) && Names(r.fleet) == Names(fleet)
      && Rank(fleet[k].phase) <= Rank(r.fleet[k].phase)
      && (fleet[k].staged ==> r.fleet[k].staged)
      && StageCount(CommandsFor(r.log, fleet[k].name)) == (if !fleet[k].staged && r.fleet[k].staged then 1 else 0)
      && (fleet[k].phase == Completed ==> r.fleet[k] == fleet[k] && CommandsFor(r.log, fleet[k].name) == [])
  {
    TickLawful();
    MainLoopLawful(Tick, fleet, cycles);
    RunMonotone(Tick, fleet, cycles, k);
    StagedOnce(Tick, fleet, cycles, k);
    if fleet[k].phase == Completed {
      CompletedNeverTicked(Tick, fleet, cycles, k);
    }
  }

  /**
   * The loop also settles on a cycle in which every rocket it ticks errs, so
   * it can end with rockets that have not landed: a single rocket in decel
   * whose reads fail ends the run after one cycle.
   */
  lemma QuietCycleEndsRun(name: string, input: string -> TickInput)
    requires input(name).telemetry.None?
    ensures var fleet := [NewRocket(name, 0.0).(planetName := Some("Earth"))];
      var r := MainLoop(Tick, fleet, [input]);
      r.settled && r.cycles == 1 && r.fleet[0].phase == Decel
  {
    var fleet := [NewRocket(name, 0.0).(planetName := Some("Earth"))];
    assert fleet[..0] == [];
    ActiveEmptyIff(Tick, fleet, input);
  }

  /** Position of name among the states, or |states| when it is absent. */
  method IndexOf(states: seq<RocketState>, name: string) returns (k: nat)
    ensures k <= |states|
    ensures k < |states| ==> states[k].name == name
    ensures forall j :: 0 <= j < k ==> states[j].name != name
  {
    k := 0;
    while k < |states| && states[k].name != name
      invariant k <= |states|
      invariant forall j :: 0 <= j < k ==> states[j].name != name
    {
      k := k + 1;
    }
  }

  /**
   * `rocket_states[name] = RocketState(name)` on the values of the
   * dictionary, keyed by names: a new name is appended, a known one gets a
   * fresh state in its old position.
   */
  method Insert(rs: seq<RocketState>, ghost names: seq<string>, name: string, now: real)
    returns (rs': seq<RocketState>, ghost names': seq<string>)
    requires |rs| == |names| && forall j :: 0 <= j < |rs| ==> rs[j].Value() == NewRocket(names[j], now)
    requires forall j, l :: 0 <= j < l < |rs| ==> rs[j] != rs[l]
    ensures names' == if name in names then names else names + [name]
    ensures |rs'| == |names'| && forall j :: 0 <= j < |rs'| ==> rs'[j].Value() == NewRocket(names'[j], now)
    ensures forall j, l :: 0 <= j < l < |rs'| ==> rs'[j] != rs'[l]
    ensures forall j :: 0 <= j < |rs'| ==> rs'[j] in rs || fresh(rs'[j])
  {
    var state := new RocketState(name, now);
    var k := IndexOf(rs, name);
    if k < |rs| {
      rs', names' := rs[k := state], names;
    } else {
      assert name !in names;
      rs', names' := rs + [state], names + [name];
    }
  }

  /** The resolution loop of `run_autoland`: one fresh RocketState per resolved name, in insertion order. */
  method ResolveStates(responses: seq<Option<string>>, now: real) returns (rs: seq<RocketState>)
    ensures |rs| == |Resolve(responses)|
    ensures forall j :: 0 <= j < |rs| ==> fresh(rs[j]) && rs[j].Value() == NewRocket(Resolve(responses)[j], now)
    ensures forall j, l :: 0 <= j < l < |rs| ==> rs[j] != rs[l]
  {
    rs := [];
    ghost var names: seq<string> := [];
    for i := 0 to |responses|
      invariant names == Resolve(responses[..i]) && |rs| == |names|
      invariant forall j :: 0 <= j < |rs| ==> fresh(rs[j]) && rs[j].Value() == NewRocket(names[j], now)
      invariant forall j, l :: 0 <= j < l < |rs| ==> rs[j] != rs[l]
    {
      assert responses[..i + 1][..i] == responses[..i];
      if responses[i].Some? {
        rs, names := Insert(rs, names, responses[i].value, now);
      }
    }
    assert responses[..|responses|] == responses;
  }

  /** The `rocket_states` dictionary: its values in insertion order, each stored under its own name. */
  class Fleet {
    var states: seq<RocketState>

    ghost function Values(): (fleet: seq<Rocket>)
      reads this, states
      ensures |fleet| == |states|
      ensures forall i :: 0 <= i < |states| ==> fleet[i] == states[i].Value()
    {
      var s := states;
      seq(|s|, i reads s requires 0 <= i < |s| => s[i].Value())
    }

    /** Each name has its own RocketState object. */
    ghost predicate Distinct()
      reads this
    {
      forall i, j :: 0 <= i < j < |states| ==> states[i] != states[j]
    }

    ghost predicate Valid()
      reads this, states
    {
      Distinct() && FleetOk(Values())
    }

    /** The resolution part of `run_autoland`: one fresh RocketState per reported name. */
    constructor (responses: seq<Option<string>>, now: real)
      ensures Valid()
      ensures Values() == InitialFleet(Resolve(responses), now)
      ensures forall i :: 0 <= i < |states| ==> fresh(states[i])
    {
      var rs := ResolveStates(responses, now);
      states := rs;
      new;
      assert Values() == InitialFleet(Resolve(responses), now);
    }

    /** Rockets 0..i-1 hold their states after the pass, the others still their states before it. */
    ghost predicate VisitedUpTo(before: seq<Rocket>, after: seq<Rocket>, i: nat)
      reads this, states
    {
      && |before| == |states| && |after| == |states| && i <= |states|
      && (forall j :: 0 <= j < i ==> states[j].Value() == after[j])
      && (forall j :: i <= j < |states| ==> states[j].Value() == before[j])
    }

    /** The body of the `for` loop for the i-th rocket: only that rocket's state changes. */
    method VisitAt(ghost before: seq<Rocket>, ghost after: seq<Rocket>, i: nat, input: string -> TickInput,
                   active: seq<string>, log: seq<Entry>)
      returns (active': seq<string>, log': seq<Entry>)
      requires i < |states| && Distinct() && VisitedUpTo(before, after, i) && Consistent(before[i])
      requires after == CycleFleet(Tick, before, input)
      requires CycleResult(active, log) == Cycle(Tick, before[..i], input)
      modifies states[i]
      ensures VisitedUpTo(before, after, i + 1)
      ensures CycleResult(active', log') == Cycle(Tick, before[..i + 1], input)
    {
      CycleSnoc(Tick, before, i, input);
      var more, entries := states[i].Visit(input(states[i].name));
      active', log' := active + more, log + entries;
    }

    /** The `for` loop over `rocket_states.items()`, visiting every rocket in order. */
    method VisitAll(ghost before: seq<Rocket>, ghost after: seq<Rocket>, input: string -> TickInput)
      returns (active: seq<string>, log: seq<Entry>)
      requires Distinct() && FleetOk(before) && VisitedUpTo(before, after, 0)
      requires after == CycleFleet(Tick, before, input)
      modifies states
      ensures states == old(states) && VisitedUpTo(before, after, |states|)
      ensures CycleResult(active, log) == Cycle(Tick, before, input)
    {
      active, log := [], [];
      for i := 0 to |states|
        invariant states == old(states) && Distinct() && VisitedUpTo(before, after, i)
        invariant CycleResult(active, log) == Cycle(Tick, before[..i], input)
      {
        active, log := VisitAt(before, after, i, input, active, log);
      }
      assert before[..|states|] == before;
    }

    /** One pass of the main loop: every rocket advanced, and the pass's active list and commands. */
    method RunCycle(input: string -> TickInput) returns (active: seq<string>, log: seq<Entry>)
      requires Valid()
      modifies states
      ensures Valid()
      ensures Values() == CycleFleet(Tick, old(Values()), input)
      ensures CycleResult(active, log) == Cycle(Tick, old(Values()), input)
    {
      ghost var before := Values();
      ghost var after := CycleFleet(Tick, before, input);
      active, log := VisitAll(before, after, input);
      assert Values() == after;
      CycleFleetOk(before, input);
    }

    /** One turn of the main loop: a pass, then the test of its active list. */
    method Turn(ghost start: seq<Rocket>, cycles: seq<string -> TickInput>, ran: nat, log: seq<Entry>)
      returns (active: seq<string>, clog: seq<Entry>)
      requires Valid() && ran < |cycles|
      requires var rest := MainLoop(Tick, Values(), cycles[ran..]);
        MainLoop(Tick, start, cycles) == RunResult(rest.fleet, rest.cycles + ran, rest.settled, log + rest.log)
      modifies states
      ensures states == old(states) && Valid()
      ensures active == [] ==> MainLoop(Tick, start, cycles) == RunResult(Values(), ran + 1, true, log + clog)
      ensures active != [] ==>
        var rest := MainLoop(Tick, Values(), cycles[ran + 1..]);
        MainLoop(Tick, start, cycles) == RunResult(rest.fleet, rest.cycles + ran + 1, rest.settled, log + clog + rest.log)
    {
      ghost var fleet := Values();
      active, clog := RunCycle(cycles[ran]);
      RunTurn(Tick, start, cycles, ran, log, fleet, active, clog);
    }

    /** The main `while True` loop, run over the host's answers for successive cycles. */
    method Run(cycles: seq<string -> TickInput>) returns (ran: nat, settled: bool, log: seq<Entry>)
      requires Valid()
      modifies states
      ensures Valid()
      ensures RunResult(Values(), ran, settled, log) == MainLoop(Tick, old(Values()), cycles)
    {
      ghost var start := Values();
      ran, settled, log := 0, false, [];
      while ran < |cycles|
        invariant 0 <= ran <= |cycles|
        invariant states == old(states) && Valid()
        invariant var rest := MainLoop(Tick, Values(), cycles[ran..]);
          MainLoop(Tick, start, cycles) == RunResult(rest.fleet, rest.cycles + ran, rest.settled, log + rest.log)
      {
        var active, clog := Turn(start, cycles, ran, log);
        log := log + clog;
        ran := ran + 1;
        if active == [] {
          settled := true;
          return;
        }
      }
    }
  }

  datatype Report = NoRockets | Finished(cycles: nat, settled: bool, log: seq<Entry>)

  /**
   * `run_autoland`: resolve the rockets, return at once when none was found,
   * otherwise run the main loop.
   */
  method RunAutoland(responses: seq<Option<string>>, now: real, cycles: seq<string -> TickInput>)
    returns (report: Report)
    ensures report.NoRockets? <==> Resolve(responses) == []
    ensures report.Finished? ==>
      var r := MainLoop(Tick, InitialFleet(Resolve(responses), now), cycles);
      report == Finished(r.cycles, r.settled, r.log)
  {
    var fleet := new Fleet(responses, now);
    if fleet.states == [] {
      return NoRockets;
    }
    var ran, settled, log := fleet.Run(cycles);
    report := Finished(ran, settled, log);
  }
}
