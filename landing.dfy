/**
 * Landing.py: steer the predicted landing point onto a fixed launch-site
 * longitude in two loops.  The coarse loop burns or nudges with RCS until
 * the rocket is below the atmosphere altitude; the fine loop then fires the
 * engine below the ignition height and trims with RCS until the radial
 * velocity shows touchdown.
 *
 * The host reads of one pass are inputs (CoarseSample, FineSample); the
 * ignition height and the radial velocity, which the script computes from
 * floating-point physics, are inputs as well.
 */
module Landing {
  import opened Commands
  import opened Angles

  /** `T_LON`: the launch-site longitude the landing point is steered to. */
  const TargetLongitude: real := 89.93566086452715
  /** `ATMOSPHERIC_ALT`: the coarse loop ends at or below it; the fine loop steers by attitude above it. */
  const AtmosphericAltitude: real := 30000.0
  /** Coarse loop: at most this error is corrected with one RCS pulse instead of a burn. */
  const CoarseRcsError: real := 0.5
  const CoarsePulse: real := 0.05
  /** Coarse and fine loops: the error at which the dynamic throttle reaches 1. */
  const CoarseMaxError: real := 20.0
  const FineMaxError: real := 5.0
  /** Fine loop: touchdown once the radial velocity is at least this. */
  const LandedRadialVelocity: real := -3.0
  /** Fine loop: errors above this get an RCS pulse during the ignition burn. */
  const FineRcsError: real := 0.0005
  const IgnitionPulse: real := 0.15
  /** Fine loop: errors in [FineRcsError, TrimError] get a trim pulse. */
  const TrimError: real := 0.25
  const TrimPulse: real := 0.25
  /** `rotate("Prograde", 180.0)`: hold retrograde. */
  const Retrograde: Attitude := Prograde(180.0)

  /** `angle_diff`: the distance between two longitudes the short way round. */
  function AngleDiff(a: real, b: real): (d: real)
    ensures d <= 180.0
    ensures 0.0 <= a < 360.0 && 0.0 <= b < 360.0 ==> 0.0 <= d
    ensures a == b ==> d == 0.0
  {
    var diff := Abs(a - b);
    if diff < 360.0 - diff then diff else 360.0 - diff
  }

  lemma AngleDiffSymmetric(a: real, b: real)
    ensures AngleDiff(a, b) == AngleDiff(b, a)
  {
    assert Abs(a - b) == Abs(b - a);
  }

  /** The side of the target the landing point lies on: `"left"` or `"right"`. */
  datatype Side = LeftSide | RightSide

  datatype Bearing = Bearing(side: Side, magnitude: real)

  /** The signed offset a bearing stands for: positive on the left. */
  function Signed(b: Bearing): real
  {
    if b.side == LeftSide then b.magnitude else -b.magnitude
  }

  /**
   * `get_direction`: land - target wrapped once by 360 towards [-180, 180];
   * "left" when the wrapped value is positive, and its magnitude.
   */
  function GetDirection(land: real, target: real): (b: Bearing)
    ensures b.magnitude >= 0.0
    ensures Congruent(Signed(b), land - target)
    ensures -540.0 <= land - target <= 540.0 ==> b.magnitude <= 180.0
    ensures b.side == LeftSide <==> Signed(b) > 0.0
  {
    var diff := land - target;
    var wrapped := if diff > 180.0 then diff - 360.0 else if diff < -180.0 then diff + 360.0 else diff;
    TurnsCongruent(diff, -1);
    TurnsCongruent(diff, 1);
    TurnsCongruent(diff, 0);
    if wrapped > 0.0 then Bearing(LeftSide, wrapped) else Bearing(RightSide, -wrapped)
  }

  /** For longitudes in [0, 360) the bearing's magnitude is `angle_diff`'s error. */
  lemma DirectionMatchesAngleDiff(land: real, target: real)
    requires 0.0 <= land < 360.0 && 0.0 <= target < 360.0
    ensures GetDirection(land, target).magnitude == AngleDiff(land, target)
  {
  }

  /** The wrapped offset is the shortest turn: no angle congruent to land - target is smaller. */
  lemma {:induction false} BearingIsShortest(land: real, target: real, y: real)
    requires -540.0 <= land - target <= 540.0
    requires Congruent(y, land - target)
    ensures GetDirection(land, target).magnitude <= Abs(y)
  {
    var w := Signed(GetDirection(land, target));
    CongruentSymmetric(w, land - target);
    CongruentTransitive(y, land - target, w);
    var k := CongruentTurns(y, w);
    if k > 0 {
      assert y >= w + 360.0;
    } else if k < 0 {
      assert y <= w - 360.0;
    }
  }

  /**
   * For longitudes in [0, 360), `angle_diff` agrees with the signed
   * shortest difference the other controllers compute: it is its size.
   */
  lemma AngleDiffIsLongitudeDifference(a: real, b: real)
    requires 0.0 <= a < 360.0 && 0.0 <= b < 360.0
    ensures AngleDiff(a, b) == Abs(LongitudeDifference(a, b))
  {
    var w := Signed(GetDirection(b, a));
    DirectionMatchesAngleDiff(b, a);
    AngleDiffSymmetric(a, b);
    DifferenceIsShortest(a, b, w);
    BearingIsShortest(b, a, LongitudeDifference(a, b));
  }

  /** The RCS direction pointing the other way. */
  function Opposite(d: RcsDirection): (o: RcsDirection)
    ensures o != d
  {
    match d
    case Left => Right
    case Right => Left
    case Up => Down
    case Down => Up
  }

  lemma OppositeInvolution(d: RcsDirection)
    ensures Opposite(Opposite(d)) == d
  {
  }

  /**
   * The quarter of the circle theta lies in: 0 for [45, 135), 1 for
   * [135, 225), 2 for [225, 315), 3 for the rest.
   */
  function Band(theta: real): (b: nat)
    ensures b < 4
  {
    if 45.0 <= theta < 135.0 then 0
    else if 135.0 <= theta < 225.0 then 1
    else if 225.0 <= theta < 315.0 then 2
    else 3
  }

  /** The heading at the middle of each band: 90, 180, 270 and 0. */
  function BandCenter(b: nat): real
  {
    if b == 3 then 0.0 else 90.0 * (b + 1) as real
  }

  /** A heading lies within 45 degrees of its band's middle, the short way round. */
  lemma BandNearestCenter(theta: real)
    requires 0.0 <= theta < 360.0
    ensures AngleDiff(theta, BandCenter(Band(theta))) <= 45.0
  {
  }

  /** The RCS direction table: the direction to pulse, by side and by nose band. */
  function RcsChoice(side: Side, theta: real): (d: RcsDirection)
    // side thrusters serve the two bands around the vertical, up and down the other two
    ensures d == Left || d == Right <==> Band(theta) < 2
    // nose near 90: the pulse the fine loop uses; nose near 180: the thruster facing the other way
    ensures Band(theta) == 0 ==> d == Counter(side)
    ensures Band(theta) == 1 ==> d == Opposite(Counter(side))
  {
    match side
    case RightSide => [Left, Right, Down, Up][Band(theta)]
    case LeftSide => [Right, Left, Up, Down][Band(theta)]
  }

  /** The table's choice on the right is the opposite of its choice on the left, band by band. */
  lemma RcsOpposite(theta: real)
    ensures RcsChoice(RightSide, theta) == Opposite(RcsChoice(LeftSide, theta))
  {
  }

  /** The table gives each band its own direction: no two bands share one. */
  lemma RcsChoiceDistinct(side: Side, t1: real, t2: real)
    requires Band(t1) != Band(t2)
    ensures RcsChoice(side, t1) != RcsChoice(side, t2)
  {
  }

  /** The pulse that pushes the landing point back towards the target in the fine loop. */
  function Counter(side: Side): RcsDirection
  {
    if side == RightSide then Left else Right
  }

  /** The fine loop's pulse for one side is the opposite of the other side's, and is never up or down. */
  lemma CounterOpposite(side: Side)
    ensures Counter(RightSide) == Opposite(Counter(LeftSide))
    ensures Counter(side) == Left || Counter(side) == Right
  {
  }

  // ---------------------------------------------------------------------------
  // The coarse loop

  /** The host's answers in one pass of the coarse loop. */
  datatype CoarseSample = CoarseSample(
    landing: Option<real>, // `other_landing_point_angle`; None before deorbit
    altitude: real,
    rotation: real)        // `rocket_rotation`, read only in the RCS branch

  /** The commands of one pass, and whether the loop breaks after it. */
  datatype Pass = Pass(exit: bool, cmds: seq<Command>)

  /** Before deorbit: retrograde at full throttle. */
  const Deorbit: seq<Command> := [Rotate(Retrograde), SetThrottle(1.0), MainEngineOn(true)]

  /** The nudge for an error of at most 0.5: engine off, then one RCS pulse from the table. */
  function CoarseTrim(direction: RcsDirection): seq<Command>
  {
    [SetThrottle(0.0), MainEngineOn(false), RcsThrust(direction, CoarsePulse)]
  }

  /** The RCS pulse of the coarse loop: the table's choice for the side and the nose heading rotation - 90. */
  function CoarseNudge(side: Side, rotation: real): RcsDirection
  {
    RcsChoice(side, Mod360(rotation - 90.0))
  }

  /** The burn for a larger error, turned towards the target first while above 30000. */
  function CoarseBurn(error: real, side: Side, altitude: real): seq<Command>
  {
    var burn := [SetThrottle(Clamp(error / CoarseMaxError, 0.0, 1.0)), MainEngineOn(true),
                 SetThrottle(0.0), MainEngineOn(false)];
    if altitude > AtmosphericAltitude then
      [Rotate(Surface(if side == LeftSide then 85.0 else 265.0))] + burn
    else burn
  }

  function CoarseCorrection(error: real, side: Side, s: CoarseSample): seq<Command>
  {
    if error <= CoarseRcsError then CoarseTrim(CoarseNudge(side, s.rotation)) else CoarseBurn(error, side, s.altitude)
  }

  /** One pass of the first `while True` loop of `landing()`. */
  function CoarseStep(s: CoarseSample): (p: Pass)
    ensures p.exit <==> s.landing.Some? && s.altitude <= AtmosphericAltitude
  {
    if s.landing.None? then Pass(false, Deorbit)
    else
      var error := AngleDiff(s.landing.value, TargetLongitude);
      var side := GetDirection(s.landing.value, TargetLongitude).side;
      var exit := s.altitude <= AtmosphericAltitude;
      Pass(exit, Framed(CoarseCorrection(error, side, s), exit))
  }

  lemma DeorbitFacts()
    ensures LastAttitude(Deorbit) == Some(Retrograde) && LastThrottle(Deorbit) == Some(1.0)
    ensures LastEngine(Deorbit) == Some(true) && ThrottlesWithin(Deorbit, 0.0, 1.0) && SetRcs(false) !in Deorbit
  {
    assert Deorbit == [Rotate(Retrograde)] + [SetThrottle(1.0)] + [MainEngineOn(true)];
    LastAppend([Rotate(Retrograde)], [SetThrottle(1.0)]);
    LastAppend([Rotate(Retrograde)] + [SetThrottle(1.0)], [MainEngineOn(true)]);
  }

  lemma CoarseTrimFacts(direction: RcsDirection)
    ensures var cmds := CoarseTrim(direction);
      && LastThrottle(cmds) == Some(0.0) && LastEngine(cmds) == Some(false) && LastAttitude(cmds) == None
      && RcsThrust(direction, CoarsePulse) in cmds
      && ThrottlesWithin(cmds, 0.0, 1.0) && SetRcs(false) !in cmds
  {
    var pulse := RcsThrust(direction, CoarsePulse);
    assert CoarseTrim(direction) == [SetThrottle(0.0)] + [MainEngineOn(false)] + [pulse];
    LastAppend([SetThrottle(0.0)], [MainEngineOn(false)]);
    LastAppend([SetThrottle(0.0)] + [MainEngineOn(false)], [pulse]);
  }

  /** A throttle setting followed by an engine switch, then neither again: the vehicle is left with both. */
  lemma Setting(v: real, on: bool, rest: seq<Command>)
    requires forall i :: 0 <= i < |rest| ==> !rest[i].SetThrottle? && !rest[i].MainEngineOn?
    ensures var cmds := [SetThrottle(v), MainEngineOn(on)] + rest;
      LastThrottle(cmds) == Some(v) && LastEngine(cmds) == Some(on) && LastAttitude(cmds) == LastAttitude(rest)
  {
    LastAppend([SetThrottle(v)], [MainEngineOn(on)]);
    assert [SetThrottle(v)] + [MainEngineOn(on)] == [SetThrottle(v), MainEngineOn(on)];
    LastAppend([SetThrottle(v), MainEngineOn(on)], rest);
  }

  lemma CoarseBurnFacts(error: real, side: Side, altitude: real)
    ensures var cmds := CoarseBurn(error, side, altitude);
      && LastThrottle(cmds) == Some(0.0) && LastEngine(cmds) == Some(false)
      && LastAttitude(cmds) ==
           (if altitude > AtmosphericAltitude then Some(Surface(if side == LeftSide then 85.0 else 265.0)) else None)
      && SetThrottle(Clamp(error / CoarseMaxError, 0.0, 1.0)) in cmds && MainEngineOn(true) in cmds
      && ThrottlesWithin(cmds, 0.0, 1.0) && SetRcs(false) !in cmds
  {
    var throttle := Clamp(error / CoarseMaxError, 0.0, 1.0);
    var burn := [SetThrottle(throttle), MainEngineOn(true), SetThrottle(0.0), MainEngineOn(false)];
    assert burn == [SetThrottle(throttle), MainEngineOn(true)] + [SetThrottle(0.0), MainEngineOn(false)];
    Setting(0.0, false, []);
    assert [SetThrottle(0.0), MainEngineOn(false)] + [] == [SetThrottle(0.0), MainEngineOn(false)];
    LastAppend([SetThrottle(throttle), MainEngineOn(true)], [SetThrottle(0.0), MainEngineOn(false)]);
    assert burn[0] == SetThrottle(throttle) && burn[1] == MainEngineOn(true);
    if altitude > AtmosphericAltitude {
      var turn := [Rotate(Surface(if side == LeftSide then 85.0 else 265.0))];
      LastAppend(turn, burn);
      ThrottlesWithinAppend(turn, burn, 0.0, 1.0);
      assert (turn + burn)[1] == burn[0] && (turn + burn)[2] == burn[1];
    }
  }

  function Framed(body: seq<Command>, exit: bool): seq<Command>
  {
    [Rotate(Retrograde)] + body + (if exit then [SetRcs(false)] else [])
  }

  /**
   * A pass after deorbit frames its correction between the retrograde hold
   * and, on the pass that breaks, the RCS switch-off: what the correction
   * leaves the engine and throttle at stands, and its attitude overrides
   * the hold.
   */
  lemma FramedLast(body: seq<Command>, exit: bool)
    ensures var cmds := Framed(body, exit);
      && LastThrottle(cmds) == LastThrottle(body) && LastEngine(cmds) == LastEngine(body)
      && LastAttitude(cmds) == (if LastAttitude(body).Some? then LastAttitude(body) else Some(Retrograde))
  {
    var tail := if exit then [SetRcs(false)] else [];
    LastAppend([Rotate(Retrograde)], body);
    LastAppend([Rotate(Retrograde)] + body, tail);
  }

  lemma FramedThrottles(body: seq<Command>, exit: bool)
    requires ThrottlesWithin(body, 0.0, 1.0) && SetRcs(false) !in body
    ensures var cmds := Framed(body, exit);
      && ThrottlesWithin(cmds, 0.0, 1.0)
      && (exit ==> cmds[|cmds| - 1] == SetRcs(false))
      && (!exit ==> SetRcs(false) !in cmds)
  {
    var tail := if exit then [SetRcs(false)] else [];
    ThrottlesWithinAppend([Rotate(Retrograde)], body, 0.0, 1.0);
    ThrottlesWithinAppend([Rotate(Retrograde)] + body, tail, 0.0, 1.0);
  }

  lemma FramedHas(body: seq<Command>, exit: bool, c: Command)
    requires c in body
    ensures c in Framed(body, exit)
  {
    var k :| 0 <= k < |body| && body[k] == c;
    assert Framed(body, exit)[1 + k] == c;
  }

  /**
   * Before deorbit the pass burns retrograde at full throttle and goes on.
   * After it, every pass ends with the engine off at throttle 0, having
   * either pulsed RCS once at 0.05 by the table (error at most 0.5) or
   * burned at clamp(error / 20, 0, 1), turning to Surface 85/265 only above
   * 30000; the pass that breaks switches RCS off last, and no other does.
   */
  lemma CoarseStepCommands(s: CoarseSample)
    ensures var p := CoarseStep(s);
      && ThrottlesWithin(p.cmds, 0.0, 1.0)
      && (s.landing.None? ==>
            LastAttitude(p.cmds) == Some(Retrograde) && LastThrottle(p.cmds) == Some(1.0) &&
            LastEngine(p.cmds) == Some(true))
      && (s.landing.Some? ==> LastThrottle(p.cmds) == Some(0.0) && LastEngine(p.cmds) == Some(false))
      && (p.exit ==> p.cmds[|p.cmds| - 1] == SetRcs(false))
      && (!p.exit ==> SetRcs(false) !in p.cmds)
  {
    if s.landing.Some? {
      var error := AngleDiff(s.landing.value, TargetLongitude);
      var side := GetDirection(s.landing.value, TargetLongitude).side;
      CoarseTrimFacts(CoarseNudge(side, s.rotation));
      CoarseBurnFacts(error, side, s.altitude);
      FramedLast(CoarseCorrection(error, side, s), s.altitude <= AtmosphericAltitude);
      FramedThrottles(CoarseCorrection(error, side, s), s.altitude <= AtmosphericAltitude);
    } else {
      DeorbitFacts();
    }
  }

  /** A pass after deorbit with an error of at most 0.5 holds retrograde and pulses RCS once at 0.05 by the table. */
  lemma CoarseStepNudges(s: CoarseSample)
    requires s.landing.Some? && AngleDiff(s.landing.value, TargetLongitude) <= CoarseRcsError
    ensures var side := GetDirection(s.landing.value, TargetLongitude).side;
      var cmds := CoarseStep(s).cmds;
      && RcsThrust(CoarseNudge(side, s.rotation), CoarsePulse) in cmds
      && LastAttitude(cmds) == Some(Retrograde)
  {
    var side := GetDirection(s.landing.value, TargetLongitude).side;
    var exit := s.altitude <= AtmosphericAltitude;
    var dir := CoarseNudge(side, s.rotation);
    CoarseTrimFacts(dir);
    FramedLast(CoarseTrim(dir), exit);
    FramedHas(CoarseTrim(dir), exit, RcsThrust(dir, CoarsePulse));
  }

  /**
   * A pass after deorbit with an error above 0.5 burns at
   * clamp(error / 20, 0, 1), turned to Surface 85 (left) or 265 (right)
   * while above 30000 and held retrograde below.
   */
  lemma CoarseStepBurns(s: CoarseSample)
    requires s.landing.Some? && AngleDiff(s.landing.value, TargetLongitude) > CoarseRcsError
    ensures var error := AngleDiff(s.landing.value, TargetLongitude);
      var side := GetDirection(s.landing.value, TargetLongitude).side;
      var cmds := CoarseStep(s).cmds;
      && SetThrottle(Clamp(error / CoarseMaxError, 0.0, 1.0)) in cmds && MainEngineOn(true) in cmds
      && LastAttitude(cmds) ==
           if s.altitude > AtmosphericAltitude then Some(Surface(if side == LeftSide then 85.0 else 265.0))
           else Some(Retrograde)
  {
    var error := AngleDiff(s.landing.value, TargetLongitude);
    var side := GetDirection(s.landing.value, TargetLongitude).side;
    var exit := s.altitude <= AtmosphericAltitude;
    var body := CoarseBurn(error, side, s.altitude);
    CoarseBurnFacts(error, side, s.altitude);
    FramedLast(body, exit);
    FramedHas(body, exit, SetThrottle(Clamp(error / CoarseMaxError, 0.0, 1.0)));
    FramedHas(body, exit, MainEngineOn(true));
  }

  // ---------------------------------------------------------------------------
  // The fine loop

  /** The host's answers in one pass of the fine loop, with the computed quantities as inputs. */
  datatype FineSample = FineSample(
    radialVelocity: real,  // vx cos(lon) + vy sin(lon)
    landing: Option<real>, // `other_landing_point_angle`
    altitude: real,
    ignition: real)        // the ignition height H

  /** The ignition decision: full-throttle retrograde burn with a 0.15 counter-pulse, or engine off. */
  function Ignition(s: FineSample, error: real, side: Side): (cmds: seq<Command>)
  {
    if s.altitude < s.ignition then
      [SetThrottle(1.0), MainEngineOn(true), Rotate(Retrograde)] +
      (if error > FineRcsError then [RcsThrust(Counter(side), IgnitionPulse)] else [])
    else [SetThrottle(0.0), MainEngineOn(false)]
  }

  /** The trim: a 0.25 counter-pulse for small errors, else attitude steering above 30000. */
  function Trim(s: FineSample, error: real, side: Side): (cmds: seq<Command>)
  {
    if FineRcsError <= error <= TrimError then [Rotate(Retrograde), RcsThrust(Counter(side), TrimPulse)]
    else if s.altitude >= AtmosphericAltitude then
      [Rotate(Surface(if side == LeftSide then 90.0 else 270.0)),
       SetThrottle(Clamp(error / FineMaxError, 0.0, 1.0)), MainEngineOn(true)]
    else []
  }

  /** One pass of the second `while True` loop of `landing()`. */
  function FineStep(s: FineSample): (p: Pass)
    ensures p.exit <==> s.radialVelocity >= LandedRadialVelocity
    ensures !p.exit && s.landing.None? ==> p.cmds == []
  {
    if s.radialVelocity >= LandedRadialVelocity then Pass(true, [SetThrottle(0.0), MainEngineOn(false)])
    else if s.landing.None? then Pass(false, [])
    else
      var error := AngleDiff(s.landing.value, TargetLongitude);
      var side := GetDirection(s.landing.value, TargetLongitude).side;
      Pass(false, Ignition(s, error, side) + Trim(s, error, side))
  }

  /**
   * A pass of the fine loop: touchdown cuts the engine; otherwise the
   * engine is lit at full throttle exactly below the ignition height, the
   * attitude steering above 30000 overrides the throttle unless a trim
   * pulse is due, and the fine loop never touches the RCS switch.
   */
  lemma FineStepCommands(s: FineSample)
    ensures var p := FineStep(s);
      && ThrottlesWithin(p.cmds, 0.0, 1.0) && SetRcs(false) !in p.cmds
      && (p.exit ==> LastThrottle(p.cmds) == Some(0.0) && LastEngine(p.cmds) == Some(false))
      && (!p.exit && s.landing.Some? ==>
            var error := AngleDiff(s.landing.value, TargetLongitude);
            var steer := !(FineRcsError <= error <= TrimError) && s.altitude >= AtmosphericAltitude;
            && LastEngine(p.cmds) == Some(steer || s.altitude < s.ignition)
            && LastThrottle(p.cmds) ==
                 Some(if steer then Clamp(error / FineMaxError, 0.0, 1.0)
                      else if s.altitude < s.ignition then 1.0 else 0.0))
  {
    var p := FineStep(s);
    if p.exit {
      assert p.cmds[..1] == [SetThrottle(0.0)];
    } else if s.landing.Some? {
      var error := AngleDiff(s.landing.value, TargetLongitude);
      var side := GetDirection(s.landing.value, TargetLongitude).side;
      var ign := Ignition(s, error, side);
      var trim := Trim(s, error, side);
      IgnitionFacts(s, error, side);
      TrimFacts(s, error, side);
      LastAppend(ign, trim);
      ThrottlesWithinAppend(ign, trim, 0.0, 1.0);
    }
  }

  lemma IgnitionFacts(s: FineSample, error: real, side: Side)
    ensures var cmds := Ignition(s, error, side);
      && LastEngine(cmds) == Some(s.altitude < s.ignition)
      && LastThrottle(cmds) == Some(if s.altitude < s.ignition then 1.0 else 0.0)
      && ThrottlesWithin(cmds, 0.0, 1.0) && SetRcs(false) !in cmds
  {
    if s.altitude < s.ignition {
      var rest := [Rotate(Retrograde)] + if error > FineRcsError then [RcsThrust(Counter(side), IgnitionPulse)] else [];
      assert Ignition(s, error, side) == [SetThrottle(1.0), MainEngineOn(true)] + rest;
      Setting(1.0, true, rest);
    } else {
      assert Ignition(s, error, side) == [SetThrottle(0.0), MainEngineOn(false)] + [];
      Setting(0.0, false, []);
    }
  }

  lemma TrimFacts(s: FineSample, error: real, side: Side)
    ensures var cmds := Trim(s, error, side);
      var steer := !(FineRcsError <= error <= TrimError) && s.altitude >= AtmosphericAltitude;
      && (steer ==> LastEngine(cmds) == Some(true) &&
                    LastThrottle(cmds) == Some(Clamp(error / FineMaxError, 0.0, 1.0)))
      && (!steer ==> LastEngine(cmds) == None && LastThrottle(cmds) == None)
      && ThrottlesWithin(cmds, 0.0, 1.0) && SetRcs(false) !in cmds
  {
    var cmds := Trim(s, error, side);
    if |cmds| == 3 {
      assert cmds[..2][..1] == [cmds[0]];
    } else if |cmds| == 2 {
      assert cmds[..1] == [cmds[0]];
    }
  }

  /** The trim pulse fires for errors in [0.0005, 0.25], pushing against the side the landing point is on. */
  lemma FineStepTrim(s: FineSample)
    requires s.radialVelocity < LandedRadialVelocity && s.landing.Some?
    ensures var error := AngleDiff(s.landing.value, TargetLongitude);
      var side := GetDirection(s.landing.value, TargetLongitude).side;
      var cmds := FineStep(s).cmds;
      && (FineRcsError <= error <= TrimError ==> RcsThrust(Counter(side), TrimPulse) in cmds)
      && (s.altitude < s.ignition && error > FineRcsError ==> RcsThrust(Counter(side), IgnitionPulse) in cmds)
  {
    var error := AngleDiff(s.landing.value, TargetLongitude);
    var side := GetDirection(s.landing.value, TargetLongitude).side;
    var ign := Ignition(s, error, side);
    var trim := Trim(s, error, side);
    if FineRcsError <= error <= TrimError {
      assert (ign + trim)[|ign| + 1] == RcsThrust(Counter(side), TrimPulse);
    }
    if s.altitude < s.ignition && error > FineRcsError {
      assert (ign + trim)[3] == RcsThrust(Counter(side), IgnitionPulse);
    }
  }

  // ---------------------------------------------------------------------------
  // The two loops over the host's answers

  /** What a loop sends until it breaks, or until the answers run out, and whether it broke. */
  datatype Run = Run(done: bool, cmds: seq<Command>)

  /** A `while True` loop whose body is `step`, over the host's answers pass by pass. */
  function RunOf<S>(step: S -> Pass, samples: seq<S>): (r: Run)
    ensures samples == [] ==> r == Run(false, [])
    // the first pass's commands open the log, and a break at the first pass ends it there
    ensures samples != [] ==> step(samples[0]).cmds <= r.cmds
    ensures samples != [] && step(samples[0]).exit ==> r == Run(true, step(samples[0]).cmds)
  {
    if samples == [] then Run(false, [])
    else
      var p := step(samples[0]);
      if p.exit then Run(true, p.cmds)
      else
        var rest := RunOf(step, samples[1..]);
        Run(rest.done, p.cmds + rest.cmds)
  }

  /** One unfolding of a loop at pass i. */
  lemma RunAt<S>(step: S -> Pass, samples: seq<S>, i: nat)
    requires i < |samples|
    ensures var p := step(samples[i]);
      var rest := RunOf(step, samples[i + 1..]);
      RunOf(step, samples[i..]) == if p.exit then Run(true, p.cmds) else Run(rest.done, p.cmds + rest.cmds)
  {
    assert samples[i..][1..] == samples[i + 1..];
  }

  /** A loop breaks exactly when one of its passes breaks. */
  lemma {:induction false} RunDoneIff<S>(step: S -> Pass, samples: seq<S>)
    ensures RunOf(step, samples).done <==> exists i :: 0 <= i < |samples| && step(samples[i]).exit
  {
    if samples != [] {
      RunDoneIff(step, samples[1..]);
      assert forall i :: 1 <= i < |samples| ==> samples[i] == samples[1..][i - 1];
      assert forall i :: 0 <= i < |samples[1..]| ==> samples[1..][i] == samples[i + 1];
    }
  }

  /** Throttle bounds every pass keeps, the loop keeps. */
  lemma {:induction false} RunThrottles<S>(step: S -> Pass, samples: seq<S>)
    requires forall s :: ThrottlesWithin(step(s).cmds, 0.0, 1.0)
    ensures ThrottlesWithin(RunOf(step, samples).cmds, 0.0, 1.0)
  {
    if samples != [] && !step(samples[0]).exit {
      RunThrottles(step, samples[1..]);
      ThrottlesWithinAppend(step(samples[0]).cmds, RunOf(step, samples[1..]).cmds, 0.0, 1.0);
    }
  }

  /** A command no pass sends, the loop does not send. */
  lemma {:induction false} RunAvoids<S>(step: S -> Pass, samples: seq<S>, c: Command)
    requires forall s :: c !in step(s).cmds
    ensures c !in RunOf(step, samples).cmds
  {
    if samples != [] && !step(samples[0]).exit {
      RunAvoids(step, samples[1..], c);
    }
  }

  /** A command only the breaking pass sends, as its last, is sent by the loop exactly when it breaks, as its last. */
  lemma {:induction false} RunEndsWith<S>(step: S -> Pass, samples: seq<S>, c: Command)
    requires forall s :: step(s).exit ==> step(s).cmds != [] && step(s).cmds[|step(s).cmds| - 1] == c
    requires forall s :: !step(s).exit ==> c !in step(s).cmds
    ensures var r := RunOf(step, samples);
      && (r.done <==> c in r.cmds)
      && (r.done ==> r.cmds[|r.cmds| - 1] == c)
  {
    if samples != [] && !step(samples[0]).exit {
      RunEndsWith(step, samples[1..], c);
    }
  }

  /** When every breaking pass leaves the engine off at throttle 0, so does a loop that breaks. */
  lemma {:induction false} RunEndsIdle<S>(step: S -> Pass, samples: seq<S>)
    requires forall s :: step(s).exit ==> LastThrottle(step(s).cmds) == Some(0.0) && LastEngine(step(s).cmds) == Some(false)
    ensures var r := RunOf(step, samples);
      r.done ==> LastThrottle(r.cmds) == Some(0.0) && LastEngine(r.cmds) == Some(false)
  {
    if samples != [] && !step(samples[0]).exit {
      RunEndsIdle(step, samples[1..]);
      LastAppend(step(samples[0]).cmds, RunOf(step, samples[1..]).cmds);
    }
  }

  datatype Descent = Descent(coarseDone: bool, landed: bool, cmds: seq<Command>)

  /** `landing()`: the coarse loop, then, once it has broken, the fine loop. */
  function Land(coarse: seq<CoarseSample>, fine: seq<FineSample>): (d: Descent)
    ensures d.landed ==> d.coarseDone
  {
    var c := RunOf(CoarseStep, coarse);
    if !c.done then Descent(false, false, c.cmds)
    else
      var f := RunOf(FineStep, fine);
      Descent(true, f.done, c.cmds + f.cmds)
  }

  /**
   * What the coarse loop guarantees: it breaks exactly on a pass with a
   * landing point at or below 30000, RCS is switched off exactly when it
   * breaks and as its last command, and every throttle lies in [0, 1].
   */
  lemma CoarseRunGuarantees(coarse: seq<CoarseSample>)
    ensures var r := RunOf(CoarseStep, coarse);
      && (r.done <==>
            exists i :: 0 <= i < |coarse| && coarse[i].landing.Some? && coarse[i].altitude <= AtmosphericAltitude)
      && (r.done <==> SetRcs(false) in r.cmds)
      && (r.done ==> r.cmds[|r.cmds| - 1] == SetRcs(false))
      && ThrottlesWithin(r.cmds, 0.0, 1.0)
  {
    forall s: CoarseSample ensures
      && ThrottlesWithin(CoarseStep(s).cmds, 0.0, 1.0)
      && (CoarseStep(s).exit ==> CoarseStep(s).cmds != [] && CoarseStep(s).cmds[|CoarseStep(s).cmds| - 1] == SetRcs(false))
      && (!CoarseStep(s).exit ==> SetRcs(false) !in CoarseStep(s).cmds)
    {
      CoarseStepCommands(s);
    }
    RunDoneIff(CoarseStep, coarse);
    RunThrottles(CoarseStep, coarse);
    RunEndsWith(CoarseStep, coarse, SetRcs(false));
  }

  /**
   * What the fine loop guarantees: it breaks exactly when a pass reads a
   * radial velocity of at least -3, it then leaves the engine off at
   * throttle 0, it never touches the RCS switch, and every throttle lies in [0, 1].
   */
  lemma FineRunGuarantees(fine: seq<FineSample>)
    ensures var r := RunOf(FineStep, fine);
      && (r.done <==> exists i :: 0 <= i < |fine| && fine[i].radialVelocity >= LandedRadialVelocity)
      && (r.done ==> LastThrottle(r.cmds) == Some(0.0) && LastEngine(r.cmds) == Some(false))
      && SetRcs(false) !in r.cmds
      && ThrottlesWithin(r.cmds, 0.0, 1.0)
  {
    forall s: FineSample ensures
      && ThrottlesWithin(FineStep(s).cmds, 0.0, 1.0) && SetRcs(false) !in FineStep(s).cmds
      && (FineStep(s).exit ==> LastThrottle(FineStep(s).cmds) == Some(0.0) && LastEngine(FineStep(s).cmds) == Some(false))
    {
      FineStepCommands(s);
    }
    RunDoneIff(FineStep, fine);
    RunThrottles(FineStep, fine);
    RunAvoids(FineStep, fine, SetRcs(false));
    RunEndsIdle(FineStep, fine);
  }

  /**
   * What `landing()` guarantees: it lands exactly when the coarse loop has
   * broken and a later pass reads a radial velocity of at least -3, it then
   * leaves the engine off at throttle 0, RCS is switched off once the
   * coarse loop ends and only then, and every throttle lies in [0, 1].
   */
  lemma LandGuarantees(coarse: seq<CoarseSample>, fine: seq<FineSample>)
    ensures var d := Land(coarse, fine);
      && (d.landed <==> (RunOf(CoarseStep, coarse).done &&
            exists i :: 0 <= i < |fine| && fine[i].radialVelocity >= LandedRadialVelocity))
      && (d.landed ==> LastThrottle(d.cmds) == Some(0.0) && LastEngine(d.cmds) == Some(false))
      && (d.coarseDone <==> SetRcs(false) in d.cmds)
      && ThrottlesWithin(d.cmds, 0.0, 1.0)
  {
    CoarseRunGuarantees(coarse);
    FineRunGuarantees(fine);
    Joined(RunOf(CoarseStep, coarse), RunOf(FineStep, fine));
  }

  /** The log of the coarse loop followed by that of the fine loop. */
  lemma Joined(c: Run, f: Run)
    requires (c.done <==> SetRcs(false) in c.cmds) && (c.done ==> c.cmds[|c.cmds| - 1] == SetRcs(false))
    requires ThrottlesWithin(c.cmds, 0.0, 1.0) && ThrottlesWithin(f.cmds, 0.0, 1.0) && SetRcs(false) !in f.cmds
    requires f.done ==> LastThrottle(f.cmds) == Some(0.0) && LastEngine(f.cmds) == Some(false)
    ensures c.done ==>
      && (f.done ==> LastThrottle(c.cmds + f.cmds) == Some(0.0) && LastEngine(c.cmds + f.cmds) == Some(false))
      && SetRcs(false) in c.cmds + f.cmds
      && ThrottlesWithin(c.cmds + f.cmds, 0.0, 1.0)
  {
    if c.done {
      LastAppend(c.cmds, f.cmds);
      ThrottlesWithinAppend(c.cmds, f.cmds, 0.0, 1.0);
      assert (c.cmds + f.cmds)[|c.cmds| - 1] == SetRcs(false);
    }
  }

  /** A `while True` loop with body `step` and a `break` when the pass says so, over the host's answers. */
  method RunLoop<S>(step: S -> Pass, samples: seq<S>) returns (done: bool, cmds: seq<Command>)
    ensures Run(done, cmds) == RunOf(step, samples)
  {
    cmds := [];
    done := false;
    var i := 0;
    while i < |samples|
      invariant 0 <= i <= |samples|
      invariant RunOf(step, samples) == Run(RunOf(step, samples[i..]).done, cmds + RunOf(step, samples[i..]).cmds)
    {
      var pass := step(samples[i]);
      RunAt(step, samples, i);
      cmds := cmds + pass.cmds;
      i := i + 1;
      if pass.exit {
        done := true;
        break;
      }
    }
    if !done {
      assert samples[i..] == [];
    }
  }

  /** `landing()`: the coarse loop, then the fine loop once the coarse loop has broken. */
  method RunLanding(coarse: seq<CoarseSample>, fine: seq<FineSample>)
      returns (coarseDone: bool, landed: bool, cmds: seq<Command>)
    ensures Descent(coarseDone, landed, cmds) == Land(coarse, fine)
  {
    coarseDone, cmds := RunLoop(CoarseStep, coarse);
    landed := false;
    if coarseDone {
      var fineCmds;
      landed, fineCmds := RunLoop(FineStep, fine);
      cmds := cmds + fineCmds;
    }
  }
}
