/** The single-axis attitude law and heading filter (fsw/src/attitude_control.cpp), over the reals. */
module Attitude {
  import opened Wire

  datatype Gains = Gains(
    kRate: real, torqueMax: real, rateDeadband: real,
    kSlew: real, slewRateMax: real, kDamp: real,
    stictionFf: real, stuckRate: real, pointingBand: real,
    detumbleEnter: real, magTau: real)

  /** The least a tuning must satisfy: a non-negative ceiling and a positive time constant. */
  predicate Sane(g: Gains) { 0.0 <= g.torqueMax && 0.0 < g.magTau }

  const DEFAULT_GAINS := Gains(0.008, 0.05, 0.02, 0.6, 0.3, 0.008, 0.008, 0.05, 0.05, 0.35, 2.0)

  const TWO_PI := 6.28318530718
  const HALF_TURN := 3.14159265359
  const MAG_SNAP := 1.0

  function Abs(x: real): real { if x < 0.0 then -x else x }

  function Max(x: real, y: real): real { if x < y then y else x }

  // ---- angles ----

  /** Whole turns still to take off. */
  function Turns(x: real): nat {
    if x > HALF_TURN then ((x - HALF_TURN) / TWO_PI).Floor + 1
    else if x < -HALF_TURN then ((-HALF_TURN - x) / TWO_PI).Floor + 1
    else 0
  }

  function Wrap(x: real): (r: real)
    ensures -HALF_TURN <= r <= HALF_TURN
    decreases Turns(x)
  {
    if x > HALF_TURN then Wrap(x - TWO_PI)
    else if x < -HALF_TURN then Wrap(x + TWO_PI)
    else x
  }

  /** The result differs from x by whole turns. */
  lemma {:induction false} WrapCongruent(x: real) returns (k: int)
    ensures Wrap(x) == x + TWO_PI * k as real
    decreases Turns(x)
  {
    if x > HALF_TURN {
      var j := WrapCongruent(x - TWO_PI);
      k := j - 1;
    } else if x < -HALF_TURN {
      var j := WrapCongruent(x + TWO_PI);
      k := j + 1;
    } else {
      k := 0;
    }
  }

  /** Of all the angles that name the same bearing, the wrapped one is the shortest way round. */
  lemma {:induction false} WrapShortest(x: real, k: int)
    ensures Abs(Wrap(x)) <= Abs(x + TWO_PI * k as real)
    decreases Turns(x)
  {
    if x > HALF_TURN {
      WrapShortest(x - TWO_PI, k + 1);
    } else if x < -HALF_TURN {
      WrapShortest(x + TWO_PI, k - 1);
    }
  }

  method WrapPi(rad: real) returns (r: real)
    ensures r == Wrap(rad)
  {
    r := rad;
    while r > HALF_TURN
      invariant Wrap(r) == Wrap(rad)
      decreases Turns(r)
    {
      r := r - TWO_PI;
    }
    while r < -HALF_TURN
      invariant Wrap(r) == Wrap(rad) && r <= HALF_TURN
      decreases Turns(r)
    {
      r := r + TWO_PI;
    }
  }

  // ---- the laws ----

  datatype State = State(heading: real, haveMag: bool, saturated: bool, target: real, targetCommanded: bool)

  const INITIAL := State(0.0, false, false, 0.0, false)

  function Limit(g: Gains, torque: real): (t: real)
    requires Sane(g)
    ensures Abs(t) <= g.torqueMax
  {
    if torque > g.torqueMax then g.torqueMax else if torque < -g.torqueMax then -g.torqueMax else torque
  }

  function DetumbleTorque(g: Gains, rate: real): (t: real)
    requires Sane(g)
    ensures Abs(t) <= g.torqueMax
  {
    if Abs(rate) < g.rateDeadband then 0.0 else Limit(g, g.kRate * rate)
  }

  function Error(s: State): real { Wrap(s.heading - s.target) }

  predicate InBand(g: Gains, s: State) { Abs(Error(s)) < g.pointingBand }

  function Clamp(x: real, limit: real): real { if x > limit then limit else if x < -limit then -limit else x }

  /** The inner loop: detumble's law about a commanded rate. */
  function Damped(g: Gains, rate: real, rateCmd: real): real { g.kDamp * (rate - rateCmd) }

  function SteerTorque(g: Gains, error: real, rate: real): real {
    Damped(g, rate, Clamp(-g.kSlew * error, g.slewRateMax))
    + (if -g.stuckRate < rate < g.stuckRate then (if error > 0.0 then g.stictionFf else -g.stictionFf) else 0.0)
  }

  /** What POINTING asks for before the actuator limit. */
  function PointDemand(g: Gains, s: State, rate: real): real {
    if InBand(g, s) then g.kDamp * rate else SteerTorque(g, Error(s), rate)
  }

  /** How much of an error one sample takes out. */
  function Blend(tau: real, dt: real, err: real): real
    requires tau > 0.0 && dt > 0.0
  {
    dt / (tau + dt) * err
  }

  function Updated(g: Gains, s: State, rate: real, dt: real, mag: Option<real>): State
    requires Sane(g)
  {
    var h := s.heading + rate * dt;
    match mag
    case None => s.(heading := h)
    case Some(m) =>
      var err := Wrap(m - h);
      if !s.haveMag || Abs(err) > MAG_SNAP then s.(heading := h + err, haveMag := true)
      else if dt > 0.0 then s.(heading := h + Blend(g.magTau, dt, err))
      else s.(heading := h)
  }

  function EnterPointing(s: State): State {
    s.(target := if s.targetCommanded then s.target else s.heading, saturated := false)
  }

  /** Detumble and Point also leave behind whether the actuator limit was hit. */
  function Detumbled(g: Gains, s: State, rate: real): State
    requires Sane(g)
  {
    s.(saturated := Abs(rate) >= g.rateDeadband && DetumbleTorque(g, rate) != g.kRate * rate)
  }

  function Pointed(g: Gains, s: State, rate: real): State
    requires Sane(g)
  {
    s.(saturated := Limit(g, PointDemand(g, s, rate)) != PointDemand(g, s, rate))
  }

  class Control {
    const g: Gains
    var heading: real
    var haveMag: bool
    var saturated: bool
    var target: real
    var targetCommanded: bool

    ghost function Now(): State
      reads this
    {
      State(heading, haveMag, saturated, target, targetCommanded)
    }

    constructor (g: Gains)
      ensures this.g == g && Now() == INITIAL
    {
      this.g := g;
      heading, haveMag, saturated, target, targetCommanded := 0.0, false, false, 0.0, false;
    }

    method LimitTorque(torque: real) returns (t: real)
      requires Sane(g)
      modifies this`saturated
      ensures t == Limit(g, torque) && saturated == (t != torque)
    {
      if torque > g.torqueMax {
        saturated := true;
        return g.torqueMax;
      }
      if torque < -g.torqueMax {
        saturated := true;
        return -g.torqueMax;
      }
      saturated := false;
      return torque;
    }

    method Detumble(rate: real) returns (t: real)
      requires Sane(g)
      modifies this`saturated
      ensures t == DetumbleTorque(g, rate) && Now() == Detumbled(g, old(Now()), rate)
    {
      if Abs(rate) < g.rateDeadband {
        saturated := false;
        return 0.0;
      }
      t := LimitTorque(g.kRate * rate);
    }

    method Update(rate: real, dt: real, mag: Option<real>)
      requires Sane(g)
      modifies this`heading, this`haveMag
      ensures Now() == Updated(g, old(Now()), rate, dt, mag)
    {
      heading := heading + rate * dt;
      if mag.Some? {
        var err := WrapPi(mag.value - heading);
        if !haveMag || Abs(err) > MAG_SNAP {
          heading := heading + err;
          haveMag := true;
        } else if dt > 0.0 {
          heading := heading + Blend(g.magTau, dt, err);
        }
      }
    }

    method ArmPointing()
      modifies this`target, this`saturated
      ensures Now() == EnterPointing(old(Now()))
    {
      if !targetCommanded {
        target := heading;
      }
      saturated := false;
    }

    method SetTarget(rad: real)
      modifies this`target, this`targetCommanded
      ensures Now() == old(Now()).(target := rad, targetCommanded := true)
    {
      target := rad;
      targetCommanded := true;
    }

    /** The slew the outer loop asks for, and the shove for a platform that is not moving. */
    method SlewDemand(error: real, rate: real) returns (torque: real)
      ensures torque == SteerTorque(g, error, rate)
    {
      var rateCmd := -g.kSlew * error;
      if rateCmd > g.slewRateMax {
        rateCmd := g.slewRateMax;
      } else if rateCmd < -g.slewRateMax {
        rateCmd := -g.slewRateMax;
      }
      assert rateCmd == Clamp(-g.kSlew * error, g.slewRateMax);
      torque := Damped(g, rate, rateCmd);
      if rate < g.stuckRate && rate > -g.stuckRate {
        torque := torque + (if error > 0.0 then g.stictionFf else -g.stictionFf);
      }
    }

    method Point(rate: real) returns (t: real)
      requires Sane(g)
      modifies this`saturated
      ensures t == Limit(g, PointDemand(g, old(Now()), rate)) && Now() == Pointed(g, old(Now()), rate)
    {
      var error := WrapPi(heading - target);
      if Abs(error) < g.pointingBand {
        t := LimitTorque(g.kDamp * rate);
      } else {
        var torque := SlewDemand(error, rate);
        t := LimitTorque(torque);
      }
    }
  }

  // ---- the heading filter against a true heading ----

  /** How far a heading is from what the compass says, the short way round. */
  function Off(mag: real, h: real): real { Abs(Wrap(mag - h)) }

  lemma ScaleBetween(w: real, x: real, g: real)
    requires 0.0 <= w && -g <= x <= g
    ensures -(w * g) <= w * x <= w * g
  {
    assert w * (g - x) >= 0.0 && w * (g + x) >= 0.0;
  }

  lemma DriftBound(rate: real, dt: real, bias: real)
    requires dt > 0.0 && Abs(rate) <= bias
    ensures Abs(rate * dt) <= bias * dt
  {}

  /** A blend of weight dt / (tau + dt) is a convex combination of the old error and bias times tau. */
  lemma Convex(tau: real, dt: real, e: real, b: real)
    requires tau > 0.0 && dt > 0.0
    ensures (1.0 - dt / (tau + dt)) * (e + b * dt) <= Max(e, b * tau)
    ensures 0.0 < dt / (tau + dt) < 1.0
  {
    var m := Max(e, b * tau);
    var w := 1.0 - dt / (tau + dt);
    assert w * (tau + dt) == tau;
    assert b * tau * dt <= m * dt;
    assert e * tau <= m * tau;
    assert w * (e + b * dt) * (tau + dt) == e * tau + b * tau * dt;
    assert w * (e + b * dt) * (tau + dt) <= m * (tau + dt);
  }

  lemma Shrinks(alpha: real, err: real, grown: real, most: real)
    requires 0.0 <= alpha <= 1.0 && Abs(err) <= grown && (1.0 - alpha) * grown <= most
    ensures Abs(err - alpha * err) <= most
  {
    ScaleBetween(1.0 - alpha, err, grown);
    assert err - alpha * err == (1.0 - alpha) * err;
  }

  /** Moving the estimate moves the error by at most as much, the short way round. */
  lemma StepAway(mag: real, h: real, h': real)
    ensures Off(mag, h') <= Off(mag, h) + Abs(h' - h)
  {
    var k := WrapCongruent(mag - h);
    WrapShortest(mag - h', k);
  }

  /** Moving the estimate by part of the error leaves only the rest of it. */
  lemma StepToward(mag: real, h: real, h': real)
    ensures Off(mag, h') <= Abs(Wrap(mag - h) - (h' - h))
  {
    var k := WrapCongruent(mag - h);
    WrapShortest(mag - h', k);
  }

  /** What is left of an error that grew by one interval of gyro error and was then blended away. */
  lemma BlendLeaves(tau: real, dt: real, err: real, e: real, bias: real, bound: real)
    requires tau > 0.0 && dt > 0.0 && Abs(err) <= e + bias * dt && e <= bound && bias * tau <= bound
    ensures Abs(err - Blend(tau, dt, err)) <= bound
  {
    Convex(tau, dt, e, bias);
    Shrinks(dt / (tau + dt), err, e + bias * dt, bound);
  }

  /** A bearing named whole turns away is as far off. */
  lemma OffTurns(mag: real, h: real, k: int)
    ensures Off(mag + TWO_PI * k as real, h) == Off(mag, h)
  {
    var i := WrapCongruent(mag + TWO_PI * k as real - h);
    var j := WrapCongruent(mag - h);
    WrapShortest(mag - h, k + i);
    WrapShortest(mag + TWO_PI * k as real - h, j - k);
  }

  lemma BlendBound(mag: real, h: real, h': real, e: real, tau: real, dt: real, bias: real, bound: real)
    requires tau > 0.0 && dt > 0.0 && h' == h + Blend(tau, dt, Wrap(mag - h))
    requires Off(mag, h) <= e + bias * dt && e <= bound && bias * tau <= bound
    ensures Off(mag, h') <= bound
  {
    BlendLeaves(tau, dt, Wrap(mag - h), e, bias, bound);
    StepToward(mag, h, h');
  }

  lemma SlipBound(rate: real, turn: real, dt: real, bias: real)
    requires dt > 0.0 && Abs(rate - turn) <= bias
    ensures Abs(rate * dt - turn * dt) <= bias * dt
  {
    assert (rate - turn) * dt == rate * dt - turn * dt;
    DriftBound(rate - turn, dt, bias);
  }

  /** When the estimate and the truth move by nearly the same, they part by the difference. */
  lemma PartsBy(truth: real, h: real, moved: real, seen: real, most: real)
    requires Abs(seen - moved) <= most
    ensures Off(truth + moved, h + seen) <= Off(truth, h) + most
  {
    var slip := seen - moved;
    StepAway(truth, h, h + slip);
    assert truth + moved - (h + seen) == truth - (h + slip);
  }

  lemma GyroParts(truth: real, h: real, k: Sample, bias: real)
    requires k.dt > 0.0 && Abs(k.rate - k.turn) <= bias
    ensures Off(Truth(truth, k), h + k.rate * k.dt) <= Off(truth, h) + bias * k.dt
  {
    var moved, seen, most := k.turn * k.dt, k.rate * k.dt, bias * k.dt;
    SlipBound(k.rate, k.turn, k.dt, bias);
    PartsBy(truth, h, moved, seen, most);
    assert Truth(truth, k) == truth + moved;
  }

  /** The compass's correction, up to the whole turns in what it names: all of the error, or a blend's share. */
  lemma FixBound(
      m: real, mag: real, turns: int, g: Gains, s: State, h: real, dt: real, e: real, bias: real, bound: real)
    requires Sane(g) && dt > 0.0 && mag == m + TWO_PI * turns as real
    requires Off(m, h) <= e + bias * dt && 0.0 <= e <= bound && bias * g.magTau <= bound
    ensures Off(m, Fixed(g, s, h, dt, mag)) <= bound
  {
    var h' := Fixed(g, s, h, dt, mag);
    OffTurns(m, h, turns);
    OffTurns(m, h', turns);
    if s.haveMag && Off(mag, h) <= MAG_SNAP {
      BlendBound(mag, h, h', e, g.magTau, dt, bias, bound);
    } else {
      StepToward(mag, h, h');
    }
  }

  /** The heading a correction leaves. */
  function Fixed(g: Gains, s: State, h: real, dt: real, mag: real): real
    requires Sane(g) && dt > 0.0
  {
    h + if s.haveMag && Off(mag, h) <= MAG_SNAP then Blend(g.magTau, dt, Wrap(mag - h)) else Wrap(mag - h)
  }

  lemma UpdateFixes(g: Gains, s: State, rate: real, dt: real, mag: real, h: real)
    requires Sane(g) && dt > 0.0 && h == s.heading + rate * dt
    ensures Updated(g, s, rate, dt, Some(mag)).heading == Fixed(g, s, h, dt, mag)
  {
  }

  lemma OffIsPositive(mag: real, h: real)
    ensures Off(mag, h) >= 0.0
  {
  }

  /**
   * One update of a platform turning at `turn` whose gyro is off by at most `bias` and whose compass is right, up to
   * whole turns: snapping or blending, it keeps any bound past bias times the time constant.
   */
  lemma UpdateBound(g: Gains, s: State, truth: real, k: Sample, bias: real, bound: real)
    requires Sane(g) && k.dt > 0.0 && Abs(k.rate - k.turn) <= bias
    requires Off(truth, s.heading) <= bound && bias * g.magTau <= bound
    ensures Off(Truth(truth, k), Fed(g, s, truth, k).heading) <= bound
  {
    var h, e := s.heading + k.rate * k.dt, Off(truth, s.heading);
    OffIsPositive(truth, s.heading);
    GyroParts(truth, s.heading, k, bias);
    var mag := Compass(truth, k);
    UpdateFixes(g, s, k.rate, k.dt, mag, h);
    FixBound(Truth(truth, k), mag, k.turns, g, s, h, k.dt, e, bias, bound);
  }

  /** An interval: what the gyro read, how long it lasted, how fast the platform really turned, and whole turns. */
  datatype Sample = Sample(rate: real, dt: real, turn: real, turns: int)

  /** Where the platform points at its end, and what the compass then names that. */
  function Truth(truth: real, k: Sample): real { truth + k.turn * k.dt }

  function Compass(truth: real, k: Sample): real { Truth(truth, k) + TWO_PI * k.turns as real }

  function Fed(g: Gains, s: State, truth: real, k: Sample): State
    requires Sane(g)
  {
    Updated(g, s, k.rate, k.dt, Some(Compass(truth, k)))
  }

  function Filtered(g: Gains, s: State, truth: real, run: seq<Sample>): State
    requires Sane(g)
    decreases |run|
  {
    if run == [] then s else Filtered(g, Fed(g, s, truth, run[0]), Truth(truth, run[0]), run[1..])
  }

  function TruthAfter(truth: real, run: seq<Sample>): real
    decreases |run|
  {
    if run == [] then truth else TruthAfter(Truth(truth, run[0]), run[1..])
  }

  lemma {:induction false} FilterKeeps(g: Gains, s: State, truth: real, bias: real, bound: real, run: seq<Sample>)
    requires Sane(g)
    requires forall i :: 0 <= i < |run| ==> run[i].dt > 0.0 && Abs(run[i].rate - run[i].turn) <= bias
    requires Off(truth, s.heading) <= bound && bias * g.magTau <= bound
    ensures Off(TruthAfter(truth, run), Filtered(g, s, truth, run).heading) <= bound
    decreases |run|
  {
    if run != [] {
      UpdateBound(g, s, truth, run[0], bias, bound);
      FilterKeeps(g, Fed(g, s, truth, run[0]), Truth(truth, run[0]), bias, bound, run[1..]);
    }
  }

  /**
   * However the platform turns, with the compass right and the gyro's error at most `bias`, however it varies, the
   * heading is never further off than the larger of where it started and bias times the filter's time constant.
   */
  lemma FilterBound(g: Gains, s: State, truth: real, bias: real, run: seq<Sample>)
    requires Sane(g)
    requires forall i :: 0 <= i < |run| ==> run[i].dt > 0.0 && Abs(run[i].rate - run[i].turn) <= bias
    ensures Off(TruthAfter(truth, run), Filtered(g, s, truth, run).heading)
         <= Max(Off(truth, s.heading), bias * g.magTau)
  {
    FilterKeeps(g, s, truth, bias, Max(Off(truth, s.heading), bias * g.magTau), run);
  }

  /** The first fix, and any that finds the heading more than a radian off, takes all of the error. */
  lemma SnapTakesAll(g: Gains, s: State, h: real, dt: real, mag: real, h': real)
    requires Sane(g) && dt > 0.0 && h' == Fixed(g, s, h, dt, mag) && (!s.haveMag || Off(mag, h) > 1.0)
    ensures Off(mag, h') == 0.0
  {
    LandsAt(mag, h, h', Wrap(mag - h), 0.0);
  }

  /** Any other leaves the share tau / (tau + dt) of it. */
  lemma BlendLeavesShare(g: Gains, s: State, h: real, dt: real, mag: real, h': real) returns (before: real, after: real)
    requires Sane(g) && dt > 0.0 && h' == Fixed(g, s, h, dt, mag) && s.haveMag && Off(mag, h) <= 1.0
    ensures before == Off(mag, h) && after == Off(mag, h') && after * (g.magTau + dt) == before * g.magTau
  {
    before, after := BlendedShare(g.magTau, dt, mag, h, h');
  }

  lemma BlendedShare(tau: real, dt: real, mag: real, h: real, h': real) returns (before: real, after: real)
    requires tau > 0.0 && dt > 0.0 && Off(mag, h) <= 1.0 && h' == h + Blend(tau, dt, Wrap(mag - h))
    ensures before == Off(mag, h) && after == Off(mag, h') && after * (tau + dt) == before * tau
  {
    before := Off(mag, h);
    var part;
    part, after := ShareLeft(tau, dt, Wrap(mag - h), before);
    LandsAt(mag, h, h', part, after);
  }

  lemma LandsAt(mag: real, h: real, h': real, part: real, rest: real)
    requires h' == h + part && Abs(Wrap(mag - h) - part) == rest <= 1.0
    ensures Off(mag, h') == rest
  {
    MovedBy(mag, h, part);
  }

  lemma ShareLeft(tau: real, dt: real, err: real, off: real) returns (part: real, rest: real)
    requires tau > 0.0 && dt > 0.0 && off == Abs(err) <= 1.0
    ensures part == Blend(tau, dt, err) && Abs(err - part) == rest <= 1.0
    ensures rest * (tau + dt) == off * tau
  {
    var a := dt / (tau + dt);
    part, rest := a * err, (1.0 - a) * off;
    Convex(tau, dt, 0.0, 0.0);
    assert err - part == (1.0 - a) * err;
    ScaleBetween(1.0 - a, off, 1.0);
    assert (1.0 - a) * (tau + dt) == tau;
    assert rest * (tau + dt) == ((1.0 - a) * (tau + dt)) * off;
  }

  lemma MovedBy(mag: real, h: real, part: real)
    requires Abs(Wrap(mag - h) - part) <= 1.0
    ensures Off(mag, h + part) == Abs(Wrap(mag - h) - part)
  {
    WrapSmall(mag - h, part);
    assert mag - (h + part) == mag - h - part;
  }

  /** Taking part of a wrapped angle off leaves the rest, if that is less than half a turn. */
  lemma {:induction false} WrapSmall(x: real, part: real)
    requires Abs(Wrap(x) - part) <= 1.0
    ensures Abs(Wrap(x - part)) == Abs(Wrap(x) - part)
  {
    var i := WrapCongruent(x);
    var j := WrapCongruent(x - part);
    WrapShortest(x - part, i);
    assert Wrap(x - part) == Wrap(x) - part + TWO_PI * (j - i) as real;
    NoTurn(Wrap(x) - part, Wrap(x - part), j - i);
  }

  lemma NoTurn(x: real, y: real, k: int)
    requires y == x + TWO_PI * k as real && Abs(x) <= 1.0 && Abs(y) <= 1.0
    ensures x == y
  {
    assert k == 0;
  }

  // ---- and with no compass at all ----

  /** Rates and how long each lasted, with no compass. */
  function Blind(g: Gains, s: State, run: seq<(real, real)>): State
    requires Sane(g)
    decreases |run|
  {
    if run == [] then s else Blind(g, Updated(g, s, run[0].0, run[0].1, None), run[1..])
  }

  function Turned(run: seq<(real, real)>): real {
    if run == [] then 0.0 else run[0].0 * run[0].1 + Turned(run[1..])
  }

  /** Dead reckoning: the heading is where it started plus the rates times their durations, and nothing else moves. */
  lemma {:induction false} BlindIsDeadReckoning(g: Gains, s: State, run: seq<(real, real)>)
    requires Sane(g)
    ensures Blind(g, s, run) == s.(heading := s.heading + Turned(run))
    decreases |run|
  {
    if run != [] {
      BlindIsDeadReckoning(g, Updated(g, s, run[0].0, run[0].1, None), run[1..]);
    }
  }
}
