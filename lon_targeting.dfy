/**
 * LonTargeting.py: a single-rocket longitude-targeting loop.  Each pass reads
 * the current longitude and the predicted impact longitude, stops once the
 * prediction is within tolerance of the target, and otherwise burns
 * retrograde with an attitude offset and a throttle proportional to the miss,
 * but only while the rocket is not rotating.
 */
module LonTargeting {
  import opened Commands
  import opened Angles
  import opened ImpactPrediction

  const DefaultTolerance: real := 1.0
  const MaxIterations: nat := 1000
  /** The burn runs only while |angular velocity| is below this. */
  const StableRate: real := 3.0
  /** The offset is half the miss, at most 30 degrees either way. */
  const OffsetGain: real := 0.5
  const MaxOffset: real := 30.0
  const MinThrottle: real := 0.1
  const MaxThrottle: real := 0.5

  /** The attitude offset from retrograde for a signed miss. */
  function Offset(diff: real): (offset: real)
    ensures -MaxOffset <= offset <= MaxOffset
    ensures diff > 0.0 <==> offset > 0.0
    ensures diff < 0.0 <==> offset < 0.0
    ensures -60.0 <= diff <= 60.0 ==> offset == OffsetGain * diff
  {
    Clamp(diff * OffsetGain, -MaxOffset, MaxOffset)
  }

  /** The burn throttle for an absolute miss: a twentieth of it, kept within [0.1, 0.5]. */
  function Throttle(absDiff: real): (th: real)
    ensures MinThrottle <= th <= MaxThrottle
    ensures 2.0 <= absDiff <= 10.0 ==> th == absDiff / 20.0
  {
    var th := if absDiff / 20.0 < MaxThrottle then absDiff / 20.0 else MaxThrottle;
    if th > MinThrottle then th else MinThrottle
  }

  /** A larger miss never gets less throttle. */
  lemma ThrottleMonotone(a: real, b: real)
    requires a <= b
    ensures Throttle(a) <= Throttle(b)
  {
    assert a / 20.0 <= b / 20.0;
  }

  /** The outcome of one pass: whether the target was reached, and the commands issued. */
  datatype Step = Step(reached: bool, cmds: seq<Command>)

  /**
   * One pass of the control law for the miss diff (the signed difference
   * from the predicted impact longitude to the target).
   */
  function ControlStep(diff: real, tolerance: real, angularVelocity: real): (st: Step)
    ensures st.reached <==> Abs(diff) < tolerance
    ensures st.reached ==> st.cmds == Idle
    ensures !st.reached && Abs(angularVelocity) < StableRate && Abs(diff) > tolerance ==>
      st.cmds == [Rotate(Prograde(180.0 + Offset(diff))), SetThrottle(Throttle(Abs(diff))), MainEngineOn(true)]
    ensures !st.reached && (Abs(angularVelocity) >= StableRate || Abs(diff) == tolerance) ==>
      st.cmds == [SetThrottle(0.0), MainEngineOn(false)]
  {
    if Abs(diff) < tolerance then Step(true, Idle)
    else if Abs(angularVelocity) < StableRate then
      if Abs(diff) > tolerance then
        Step(false, [Rotate(Prograde(180.0 + Offset(diff))), SetThrottle(Throttle(Abs(diff))), MainEngineOn(true)])
      else Step(false, [SetThrottle(0.0), MainEngineOn(false)])
    else Step(false, [SetThrottle(0.0), MainEngineOn(false)])
  }

  /**
   * What every pass commands: retrograde holds within 30 degrees of 180 that
   * lean towards the target, throttles in [0, 0.5], and a burn with the
   * engine on only when steady and outside tolerance.
   */
  lemma ControlStepBounds(diff: real, tolerance: real, angularVelocity: real)
    ensures var st := ControlStep(diff, tolerance, angularVelocity);
      && AnglesWithin(st.cmds, 180.0 - MaxOffset, 180.0 + MaxOffset)
      && ThrottlesWithin(st.cmds, 0.0, MaxThrottle)
      && (forall i :: 0 <= i < |st.cmds| && st.cmds[i].Rotate? && st.cmds[i].attitude.Prograde? ==>
            (st.cmds[i].attitude.angle > 180.0 <==> diff > 0.0))
      && (MainEngineOn(true) in st.cmds <==> !st.reached && Abs(angularVelocity) < StableRate && Abs(diff) > tolerance)
  {
    var st := ControlStep(diff, tolerance, angularVelocity);
    if !st.reached && Abs(angularVelocity) < StableRate && Abs(diff) > tolerance {
      assert st.cmds[0].attitude.angle == 180.0 + Offset(diff);
    }
  }

  /** What the host answers during one pass. */
  datatype Sample = Sample(
    longitude: Option<real>,  // `rocket_longitude()`; None skips the pass
    angularVelocity: real,    // `rocket_angular_velocity() or 0.0`
    prediction: Prediction)   // the reads of `get_landing_longitude`

  /** A counted pass whose prediction raises, ending the loop without cleanup. */
  predicate Raises(s: Sample)
  {
    s.longitude.Some? && Predicted(s.prediction).None?
  }

  /** A counted pass that reaches the target. */
  predicate Hits(target: real, tolerance: real, s: Sample)
  {
    && s.longitude.Some?
    && Predicted(s.prediction).Some?
    && Abs(LongitudeDifference(Predicted(s.prediction).value, target)) < tolerance
  }

  /** A pass that ends the loop, by reaching the target or by raising. */
  predicate Stops(target: real, tolerance: real, s: Sample)
  {
    Hits(target, tolerance, s) || Raises(s)
  }

  /** The pass ends the loop with exit e. */
  predicate EndsWith(target: real, tolerance: real, e: Exit, s: Sample)
  {
    match e
    case Reached => Hits(target, tolerance, s)
    case Raised => Raises(s)
    case TimedOut => false
  }

  /** Number of samples that count as a pass (those with a current longitude). */
  function Counted(samples: seq<Sample>): (n: nat)
    ensures n <= |samples|
  {
    if samples == [] then 0
    else Counted(samples[..|samples| - 1]) + (if samples[|samples| - 1].longitude.Some? then 1 else 0)
  }

  datatype Outcome = Outcome(exit: Exit, iterations: nat, cmds: seq<Command>)

  /**
   * The `while` loop of `precision_landing` from the given counter on, over
   * the samples the host answers before `max_time` runs out, then the timeout
   * cleanup.  A pass whose prediction raises leaves the loop at once with the
   * commands issued so far and no cleanup.
   */
  function Loop(target: real, tolerance: real, samples: seq<Sample>, iteration: nat): (r: Outcome)
    requires iteration <= MaxIterations
    ensures iteration <= r.iterations <= MaxIterations
    decreases |samples|
  {
    if iteration >= MaxIterations || samples == [] then Outcome(TimedOut, iteration, Idle)
    else if samples[0].longitude.None? then Loop(target, tolerance, samples[1..], iteration)
    else match Predicted(samples[0].prediction)
      case None => Outcome(Raised, iteration, [])
      case Some(landing) =>
        var st := ControlStep(LongitudeDifference(landing, target), tolerance, samples[0].angularVelocity);
        if st.reached then Outcome(Reached, iteration, st.cmds)
        else
          var rest := Loop(target, tolerance, samples[1..], iteration + 1);
          Outcome(rest.exit, rest.iterations, st.cmds + rest.cmds)
  }

  /** `precision_landing(target, tolerance)`: normalize the target, then loop. */
  function Land(target: real, tolerance: real, samples: seq<Sample>): (r: Outcome)
    ensures r.iterations <= MaxIterations
  {
    Loop(Mod360(target), tolerance, samples, 0)
  }

  lemma CountedCons(s: Sample, rest: seq<Sample>)
    ensures Counted([s] + rest) == (if s.longitude.Some? then 1 else 0) + Counted(rest)
    decreases |rest|
  {
    if rest != [] {
      var all := [s] + rest;
      assert all[..|all| - 1] == [s] + rest[..|rest| - 1];
      CountedCons(s, rest[..|rest| - 1]);
    } else {
      assert [s] + rest == [s];
      assert [s][..0] == [];
    }
  }

  /**
   * Sample i is the first one that stops the loop, it ends it with exit e,
   * and fewer than `max_iterations` passes are counted before it.
   */
  ghost predicate FirstStopAt(target: real, tolerance: real, samples: seq<Sample>, iteration: nat, e: Exit, i: int)
  {
    && 0 <= i < |samples|
    && EndsWith(target, tolerance, e, samples[i])
    && iteration + Counted(samples[..i]) < MaxIterations
    && forall j :: 0 <= j < i ==> !Stops(target, tolerance, samples[j])
  }

  /** Some sample is the first stop, and it ends the loop with exit e. */
  ghost predicate FirstStop(target: real, tolerance: real, samples: seq<Sample>, iteration: nat, e: Exit)
  {
    exists i :: FirstStopAt(target, tolerance, samples, iteration, e, i)
  }

  /** Counting passes over a prefix that starts with the head sample. */
  lemma CountedPrefixes(samples: seq<Sample>)
    requires samples != []
    ensures forall i :: 0 < i <= |samples| ==> samples[..i] == [samples[0]] + samples[1..][..i - 1]
    ensures forall i :: 0 < i <= |samples| ==>
      Counted(samples[..i]) == (if samples[0].longitude.Some? then 1 else 0) + Counted(samples[1..][..i - 1])
  {
    var s := samples[0];
    var tail := samples[1..];
    assert forall i :: 0 < i <= |samples| ==> samples[..i] == [s] + tail[..i - 1];
    forall i | 0 < i <= |samples|
      ensures Counted(samples[..i]) == (if s.longitude.Some? then 1 else 0) + Counted(tail[..i - 1])
    {
      CountedCons(s, tail[..i - 1]);
    }
  }

  /** A head sample that stops the loop is the first stop, so it alone decides the exit. */
  lemma FirstStopHead(target: real, tolerance: real, samples: seq<Sample>, iteration: nat, e: Exit)
    requires iteration < MaxIterations && samples != [] && e != TimedOut
    requires Stops(target, tolerance, samples[0])
    ensures FirstStop(target, tolerance, samples, iteration, e) <==> EndsWith(target, tolerance, e, samples[0])
  {
    assert samples[..0] == [];
    if EndsWith(target, tolerance, e, samples[0]) {
      assert FirstStopAt(target, tolerance, samples, iteration, e, 0);
    }
  }

  /** Past a head sample that does not stop the loop, the first stop is the tail's, one pass later. */
  lemma FirstStopTail(target: real, tolerance: real, samples: seq<Sample>, iteration: nat, e: Exit)
    requires samples != [] && e != TimedOut
    requires !Stops(target, tolerance, samples[0])
    ensures var next := if samples[0].longitude.Some? then iteration + 1 else iteration;
      FirstStop(target, tolerance, samples, iteration, e) <==> FirstStop(target, tolerance, samples[1..], next, e)
  {
    var next := if samples[0].longitude.Some? then iteration + 1 else iteration;
    CountedPrefixes(samples);
    if FirstStop(target, tolerance, samples[1..], next, e) {
      FirstStopFromTail(target, tolerance, samples, iteration, e);
    }
    if FirstStop(target, tolerance, samples, iteration, e) {
      FirstStopToTail(target, tolerance, samples, iteration, e);
    }
  }

  /** The tail's first stop, one sample further on, is the first stop of the whole sequence. */
  lemma FirstStopFromTail(target: real, tolerance: real, samples: seq<Sample>, iteration: nat, e: Exit)
    requires samples != [] && !Stops(target, tolerance, samples[0])
    requires forall i :: 0 < i <= |samples| ==>
      Counted(samples[..i]) == (if samples[0].longitude.Some? then 1 else 0) + Counted(samples[1..][..i - 1])
    requires FirstStop(target, tolerance, samples[1..], if samples[0].longitude.Some? then iteration + 1 else iteration, e)
    ensures FirstStop(target, tolerance, samples, iteration, e)
  {
    var tail := samples[1..];
    var next := if samples[0].longitude.Some? then iteration + 1 else iteration;
    var j :| FirstStopAt(target, tolerance, tail, next, e, j);
    assert forall k :: 0 < k < j + 1 ==> samples[k] == tail[k - 1];
    assert samples[j + 1] == tail[j];
    assert FirstStopAt(target, tolerance, samples, iteration, e, j + 1);
  }

  /** The first stop of the whole sequence lies in the tail, one sample earlier there. */
  lemma FirstStopToTail(target: real, tolerance: real, samples: seq<Sample>, iteration: nat, e: Exit)
    requires samples != [] && !Stops(target, tolerance, samples[0])
    requires forall i :: 0 < i <= |samples| ==>
      Counted(samples[..i]) == (if samples[0].longitude.Some? then 1 else 0) + Counted(samples[1..][..i - 1])
    requires FirstStop(target, tolerance, samples, iteration, e)
    ensures FirstStop(target, tolerance, samples[1..], if samples[0].longitude.Some? then iteration + 1 else iteration, e)
  {
    var tail := samples[1..];
    var next := if samples[0].longitude.Some? then iteration + 1 else iteration;
    var i :| FirstStopAt(target, tolerance, samples, iteration, e, i);
    assert i > 0;
    assert forall k :: 0 <= k < i - 1 ==> tail[k] == samples[k + 1];
    assert tail[i - 1] == samples[i];
    assert FirstStopAt(target, tolerance, tail, next, e, i - 1);
  }

  /** The loop ends with exit e (other than a timeout) exactly when its first stop ends it with e. */
  lemma {:induction false} LoopExitFor(target: real, tolerance: real, samples: seq<Sample>, iteration: nat, e: Exit)
    requires iteration <= MaxIterations && e != TimedOut
    ensures Loop(target, tolerance, samples, iteration).exit == e <==> FirstStop(target, tolerance, samples, iteration, e)
    decreases |samples|
  {
    if iteration >= MaxIterations || samples == [] {
      return;
    }
    if Stops(target, tolerance, samples[0]) {
      FirstStopHead(target, tolerance, samples, iteration, e);
    } else {
      FirstStopTail(target, tolerance, samples, iteration, e);
      var next := if samples[0].longitude.Some? then iteration + 1 else iteration;
      LoopExitFor(target, tolerance, samples[1..], next, e);
    }
  }

  /**
   * The loop reaches the target exactly when some pass hits it before any
   * pass raises and while fewer than `max_iterations` passes have been
   * counted; it raises exactly when some pass raises under the same
   * conditions; otherwise it times out.
   */
  lemma LoopExitIff(target: real, tolerance: real, samples: seq<Sample>, iteration: nat)
    requires iteration <= MaxIterations
    ensures var r := Loop(target, tolerance, samples, iteration);
      && (r.exit == Reached <==> FirstStop(target, tolerance, samples, iteration, Reached))
      && (r.exit == Raised <==> FirstStop(target, tolerance, samples, iteration, Raised))
  {
    LoopExitFor(target, tolerance, samples, iteration, Reached);
    LoopExitFor(target, tolerance, samples, iteration, Raised);
  }

  /**
   * A run that times out counts every sample with a longitude, up to
   * `max_iterations`.
   */
  lemma {:induction false} LoopCountsPasses(target: real, tolerance: real, samples: seq<Sample>, iteration: nat)
    requires iteration <= MaxIterations
    ensures var r := Loop(target, tolerance, samples, iteration);
      r.exit == TimedOut ==> r.iterations == Min(MaxIterations, iteration + Counted(samples))
    decreases |samples|
  {
    if samples == [] {
      return;
    }
    CountedCons(samples[0], samples[1..]);
    assert [samples[0]] + samples[1..] == samples;
    if iteration < MaxIterations {
      var next := if samples[0].longitude.Some? then iteration + 1 else iteration;
      LoopCountsPasses(target, tolerance, samples[1..], next);
    }
  }

  function Min(a: int, b: int): (m: int)
    ensures m <= a && m <= b && (m == a || m == b)
  {
    if a <= b then a else b
  }

  /**
   * Unless a pass raises, the vehicle is left idle when the loop ends: the
   * last commands are Default attitude, throttle 0 and engine off.
   */
  lemma {:induction false} LoopEndsIdle(target: real, tolerance: real, samples: seq<Sample>, iteration: nat)
    requires iteration <= MaxIterations
    ensures var r := Loop(target, tolerance, samples, iteration);
      r.exit != Raised ==> |r.cmds| >= 3 && r.cmds[|r.cmds| - 3..] == Idle
    decreases |samples|
  {
    if iteration < MaxIterations && samples != [] {
      if samples[0].longitude.None? {
        LoopEndsIdle(target, tolerance, samples[1..], iteration);
      } else if Predicted(samples[0].prediction).Some? {
        var st := ControlStep(LongitudeDifference(Predicted(samples[0].prediction).value, target), tolerance, samples[0].angularVelocity);
        if !st.reached {
          LoopEndsIdle(target, tolerance, samples[1..], iteration + 1);
          var rest := Loop(target, tolerance, samples[1..], iteration + 1);
          var cmds := st.cmds + rest.cmds;
          assert Loop(target, tolerance, samples, iteration).cmds == cmds;
          assert rest.exit != Raised ==> cmds[|cmds| - 3..] == rest.cmds[|rest.cmds| - 3..];
        }
      }
    }
  }

  /**
   * A raising pass skips the cleanup: no Default attitude is ever commanded,
   * so the vehicle keeps whatever the last counted pass set.
   */
  lemma {:induction false} LoopRaisedSkipsCleanup(target: real, tolerance: real, samples: seq<Sample>, iteration: nat)
    requires iteration <= MaxIterations
    ensures var r := Loop(target, tolerance, samples, iteration);
      r.exit == Raised ==> Rotate(Default) !in r.cmds
    decreases |samples|
  {
    if iteration < MaxIterations && samples != [] {
      if samples[0].longitude.None? {
        LoopRaisedSkipsCleanup(target, tolerance, samples[1..], iteration);
      } else if Predicted(samples[0].prediction).Some? {
        var st := ControlStep(LongitudeDifference(Predicted(samples[0].prediction).value, target), tolerance, samples[0].angularVelocity);
        if !st.reached {
          LoopRaisedSkipsCleanup(target, tolerance, samples[1..], iteration + 1);
          var rest := Loop(target, tolerance, samples[1..], iteration + 1);
          assert Loop(target, tolerance, samples, iteration).cmds == st.cmds + rest.cmds;
          assert Rotate(Default) !in st.cmds;
        }
      }
    }
  }

  /**
   * A steady pass 90 degrees off lights the engine; when the next pass
   * finds no planet the loop raises and the engine stays on.
   */
  lemma RaiseLeavesEngineBurning()
    ensures var r := Land(0.0, 1.0, [Sample(Some(0.0), 0.0, Impact(90.0)), Sample(Some(0.0), 0.0, NoPlanet)]);
      r.exit == Raised && r.iterations == 1 && LastEngine(r.cmds) == Some(true) && LastThrottle(r.cmds) == Some(0.5)
  {
    Mod360Fixed(0.0);
    Mod360Fixed(90.0);
    var samples := [Sample(Some(0.0), 0.0, Impact(90.0)), Sample(Some(0.0), 0.0, NoPlanet)];
    assert LongitudeDifference(90.0, 0.0) == -90.0;
    assert samples[1..][1..] == [];
    var cmds := [Rotate(Prograde(180.0 + Offset(-90.0))), SetThrottle(0.5), MainEngineOn(true)];
    assert Land(0.0, 1.0, samples) == Outcome(Raised, 1, cmds);
    assert cmds[..2][..1] == [cmds[0]];
  }

  /** Over a whole run every hold lies in [150, 210] and every throttle in [0, 0.5]. */
  lemma {:induction false} LoopBounds(target: real, tolerance: real, samples: seq<Sample>, iteration: nat)
    requires iteration <= MaxIterations
    ensures var r := Loop(target, tolerance, samples, iteration);
      AnglesWithin(r.cmds, 180.0 - MaxOffset, 180.0 + MaxOffset) && ThrottlesWithin(r.cmds, 0.0, MaxThrottle)
    decreases |samples|
  {
    if iteration < MaxIterations && samples != [] {
      if samples[0].longitude.None? {
        LoopBounds(target, tolerance, samples[1..], iteration);
      } else if Predicted(samples[0].prediction).Some? {
        var diff := LongitudeDifference(Predicted(samples[0].prediction).value, target);
        var st := ControlStep(diff, tolerance, samples[0].angularVelocity);
        ControlStepBounds(diff, tolerance, samples[0].angularVelocity);
        if !st.reached {
          LoopBounds(target, tolerance, samples[1..], iteration + 1);
          var rest := Loop(target, tolerance, samples[1..], iteration + 1);
          ThrottlesWithinAppend(st.cmds, rest.cmds, 0.0, MaxThrottle);
          AnglesWithinAppend(st.cmds, rest.cmds, 180.0 - MaxOffset, 180.0 + MaxOffset);
        }
      }
    } else {
      assert Idle[1].value == 0.0;
    }
  }

  /** The `PrecisionLanding` controller object of LonTargeting.py. */
  class Controller {
    var target: real
    var tolerance: real

    constructor ()
      ensures target == 0.0 && tolerance == DefaultTolerance
    {
      target := 0.0;
      tolerance := DefaultTolerance;
    }

    /**
     * `precision_landing`: the counted loop over the control law, then the
     * timeout cleanup.  Raised stands for the exception that escapes it.
     */
    method PrecisionLanding(target: real, tolerance: real, samples: seq<Sample>)
      returns (exit: Exit, cmds: seq<Command>)
      modifies this
      ensures this.target == Mod360(target) && this.tolerance == tolerance
      ensures var r := Land(target, tolerance, samples); exit == r.exit && cmds == r.cmds
    {
      this.target := Mod360(target);
      this.tolerance := tolerance;
      var iteration: nat := 0;
      var k := 0;
      cmds := [];
      while k < |samples| && iteration < MaxIterations
        invariant 0 <= k <= |samples| && iteration <= MaxIterations
        invariant this.target == Mod360(target) && this.tolerance == tolerance
        invariant var rest := Loop(this.target, tolerance, samples[k..], iteration);
          Land(target, tolerance, samples) == Outcome(rest.exit, rest.iterations, cmds + rest.cmds)
        decreases |samples| - k
      {
        var sample := samples[k];
        assert samples[k..][1..] == samples[k + 1..];
        k := k + 1;
        if sample.longitude.None? {
          continue;
        }
        var landing := Predicted(sample.prediction);
        if landing.None? {
          return Raised, cmds;
        }
        var diff := LongitudeDifference(landing.value, this.target);
        var step := ControlStep(diff, this.tolerance, sample.angularVelocity);
        if step.reached {
          return Reached, cmds + step.cmds;
        }
        ghost var rest := Loop(this.target, tolerance, samples[k..], iteration + 1);
        assert cmds + (step.cmds + rest.cmds) == (cmds + step.cmds) + rest.cmds;
        cmds := cmds + step.cmds;
        iteration := iteration + 1;
      }
      assert Loop(this.target, tolerance, samples[k..], iteration).cmds == Idle;
      cmds := cmds + Idle;
      exit := TimedOut;
    }
  }
}
