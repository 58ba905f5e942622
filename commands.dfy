/**
 * The control surface every controller talks to.  Each call a script makes
 * on the host (throttle, main engine, attitude hold, staging, RCS pulses) is
 * modelled as one Command appended to the tick's output sequence; the host
 * applies them in order, so the last command of a kind is what the vehicle is
 * left with.
 */
module Commands {

  datatype Option<T> = None | Some(value: T) {
    function GetOr(default: T): T {
      match this
      case Some(v) => v
      case None => default
    }
  }

  /** Argument of the host's Rotate call: a mode and, for the two hold modes, an angle. */
  datatype Attitude = Prograde(angle: real) | Surface(angle: real) | Default

  datatype RcsDirection = Up | Down | Left | Right

  datatype Command =
    | SetThrottle(value: real)
    | MainEngineOn(on: bool)
    | Rotate(attitude: Attitude)
    | Stage
    | RcsThrust(direction: RcsDirection, magnitude: real)
    | SetRcs(enabled: bool)

  /** The throttle the vehicle is left with: the value of the last SetThrottle, if any. */
  function LastThrottle(cmds: seq<Command>): (r: Option<real>)
    ensures r.Some? ==> SetThrottle(r.value) in cmds
    ensures r.None? <==> forall i :: 0 <= i < |cmds| ==> !cmds[i].SetThrottle?
  {
    if cmds == [] then None
    else if cmds[|cmds| - 1].SetThrottle? then Some(cmds[|cmds| - 1].value)
    else LastThrottle(cmds[..|cmds| - 1])
  }

  /** The main-engine state the vehicle is left with: the last MainEngineOn, if any. */
  function LastEngine(cmds: seq<Command>): (r: Option<bool>)
    ensures r.Some? ==> MainEngineOn(r.value) in cmds
    ensures r.None? <==> forall i :: 0 <= i < |cmds| ==> !cmds[i].MainEngineOn?
  {
    if cmds == [] then None
    else if cmds[|cmds| - 1].MainEngineOn? then Some(cmds[|cmds| - 1].on)
    else LastEngine(cmds[..|cmds| - 1])
  }

  /** The attitude hold the vehicle is left with: the argument of the last Rotate, if any. */
  function LastAttitude(cmds: seq<Command>): (r: Option<Attitude>)
    ensures r.Some? ==> Rotate(r.value) in cmds
    ensures r.None? <==> forall i :: 0 <= i < |cmds| ==> !cmds[i].Rotate?
  {
    if cmds == [] then None
    else if cmds[|cmds| - 1].Rotate? then Some(cmds[|cmds| - 1].attitude)
    else LastAttitude(cmds[..|cmds| - 1])
  }

  /** Commands issued later override earlier ones of the same kind. */
  lemma {:induction false} LastAppend(a: seq<Command>, b: seq<Command>)
    ensures LastThrottle(a + b) == if LastThrottle(b).Some? then LastThrottle(b) else LastThrottle(a)
    ensures LastEngine(a + b) == if LastEngine(b).Some? then LastEngine(b) else LastEngine(a)
    ensures LastAttitude(a + b) == if LastAttitude(b).Some? then LastAttitude(b) else LastAttitude(a)
  {
    if b == [] {
      assert a + b == a;
    } else {
      assert (a + b)[..|a + b| - 1] == a + b[..|b| - 1];
      LastAppend(a, b[..|b| - 1]);
    }
  }

  /** Every throttle value in cmds lies in [lo, hi]. */
  predicate ThrottlesWithin(cmds: seq<Command>, lo: real, hi: real)
  {
    forall i :: 0 <= i < |cmds| && cmds[i].SetThrottle? ==> lo <= cmds[i].value <= hi
  }

  lemma ThrottlesWithinAppend(a: seq<Command>, b: seq<Command>, lo: real, hi: real)
    ensures ThrottlesWithin(a + b, lo, hi) <==> ThrottlesWithin(a, lo, hi) && ThrottlesWithin(b, lo, hi)
  {
    assert forall i :: 0 <= i < |a| ==> (a + b)[i] == a[i];
    assert forall i :: 0 <= i < |b| ==> (a + b)[|a| + i] == b[i];
    if ThrottlesWithin(a, lo, hi) && ThrottlesWithin(b, lo, hi) {
      forall i | 0 <= i < |a + b| && (a + b)[i].SetThrottle?
        ensures lo <= (a + b)[i].value <= hi
      {
        if i >= |a| {
          assert (a + b)[i] == b[i - |a|];
        }
      }
    }
  }

  /** Every hold angle in cmds is a heading in [lo, hi]. */
  predicate AnglesWithin(cmds: seq<Command>, lo: real, hi: real)
  {
    forall i :: 0 <= i < |cmds| && cmds[i].Rotate? && !cmds[i].attitude.Default? ==>
      lo <= cmds[i].attitude.angle <= hi
  }

  lemma AnglesWithinAppend(a: seq<Command>, b: seq<Command>, lo: real, hi: real)
    requires AnglesWithin(a, lo, hi) && AnglesWithin(b, lo, hi)
    ensures AnglesWithin(a + b, lo, hi)
  {
    forall i | 0 <= i < |a + b| && (a + b)[i].Rotate? && !(a + b)[i].attitude.Default?
      ensures lo <= (a + b)[i].attitude.angle <= hi
    {
      if i >= |a| {
        assert (a + b)[i] == b[i - |a|];
      }
    }
  }

  /**
   * How a controller's loop ends: its goal reached, its iterations or time
   * used up (both followed by the shut-down sequence), or an exception from
   * a host read escaping the loop, which skips the shut-down sequence.
   */
  datatype Exit = Reached | TimedOut | Raised

  /** The shut-down sequence the controllers issue on leaving: Default attitude, throttle 0, engine off. */
  const Idle: seq<Command> := [Rotate(Default), SetThrottle(0.0), MainEngineOn(false)]

  /** A log ending with the shut-down sequence leaves the vehicle in Default attitude with the engine off at throttle 0. */
  lemma IdleLast(cmds: seq<Command>)
    requires |cmds| >= 3 && cmds[|cmds| - 3..] == Idle
    ensures LastAttitude(cmds) == Some(Default) && LastThrottle(cmds) == Some(0.0) && LastEngine(cmds) == Some(false)
  {
    var n := |cmds|;
    assert cmds[n - 1] == MainEngineOn(false) && cmds[n - 2] == SetThrottle(0.0) && cmds[n - 3] == Rotate(Default);
    assert cmds[..n - 1][..n - 2] == cmds[..n - 2];
    assert LastAttitude(cmds[..n - 2]) == Some(Default);
    assert LastAttitude(cmds[..n - 1]) == Some(Default);
    assert LastThrottle(cmds[..n - 1]) == Some(0.0);
  }

  /** Number of Stage commands in cmds. */
  function StageCount(cmds: seq<Command>): (n: nat)
    ensures n <= |cmds|
    ensures n == 0 <==> Stage !in cmds
  {
    if cmds == [] then 0
    else StageCount(cmds[..|cmds| - 1]) + (if cmds[|cmds| - 1] == Stage then 1 else 0)
  }

  lemma {:induction false} StageCountAppend(a: seq<Command>, b: seq<Command>)
    ensures StageCount(a + b) == StageCount(a) + StageCount(b)
  {
    if b == [] {
      assert a + b == a;
    } else {
      assert (a + b)[..|a + b| - 1] == a + b[..|b| - 1];
      StageCountAppend(a, b[..|b| - 1]);
    }
  }
}
