/** What POINTING's law does (fsw/src/attitude_control.cpp): which way it drives, and what the rig makes of it. */
module Pointing {
  import opened Wire
  import opened Attitude
  import opened Plant
  import C = ClosedLoop

  function Min(x: real, y: real): real { if x < y then x else y }

  /** Gains that steer at all. */
  predicate Tuned(g: Gains) {
    && Sane(g) && g.torqueMax > 0.0 && g.kSlew > 0.0 && g.slewRateMax > 0.0 && g.kDamp > 0.0
    && g.stictionFf > 0.0 && g.stuckRate > 0.0 && g.pointingBand > 0.0
  }

  /** The torque commanded. */
  function Pushed(g: Gains, s: State, rate: real): real
    requires Sane(g)
  {
    Limit(g, PointDemand(g, s, rate))
  }

  /** How fast it wants to turn back, whichever side the error is on. */
  function Wanted(g: Gains, s: State): real { Min(g.kSlew * Abs(Error(s)), g.slewRateMax) }

  /** x with the sign of e. */
  function Along(e: real, x: real): real { if e > 0.0 then x else if e < 0.0 then -x else 0.0 }

  lemma ProductSign(k: real, x: real)
    requires k > 0.0
    ensures (k * x > 0.0 <==> x > 0.0) && (k * x < 0.0 <==> x < 0.0)
  {
  }

  lemma ClampSides(x: real, limit: real)
    requires x >= 0.0 && limit > 0.0
    ensures Clamp(x, limit) == Min(x, limit) && Clamp(-x, limit) == -Min(x, limit)
  {
  }

  lemma Opposite(k: real, e: real)
    ensures -k * e == -(k * e) && k * -e == -(k * e)
  {
  }

  /** The rate the outer loop asks for: the wanted slew, against the error. */
  lemma SlewIs(g: Gains, e: real)
    requires Tuned(g) && e != 0.0
    ensures Clamp(-g.kSlew * e, g.slewRateMax) == -Along(e, Min(g.kSlew * Abs(e), g.slewRateMax))
    ensures Min(g.kSlew * Abs(e), g.slewRateMax) > 0.0
  {
    Opposite(g.kSlew, e);
    ProductSign(g.kSlew, Abs(e));
    ClampSides(g.kSlew * Abs(e), g.slewRateMax);
  }

  /** How far the rate is from that, seen from the side of the error. */
  function Excess(g: Gains, s: State, rate: real): real { rate + Along(Error(s), Wanted(g, s)) }

  /** Outside the band the demand is that distance times the gain, plus a shove when hardly moving. */
  lemma DemandIs(g: Gains, s: State, rate: real) returns (x: real)
    requires Tuned(g) && !InBand(g, s)
    ensures x == Excess(g, s, rate) && PointDemand(g, s, rate) == g.kDamp * x + Shove(g, Error(s), rate)
    ensures Error(s) != 0.0 && Wanted(g, s) > 0.0
  {
    var e, w := Error(s), Wanted(g, s);
    x := Excess(g, s, rate);
    OutsideSteers(g, s, rate, e);
    SteerFrom(g, e, rate, w, x);
  }

  lemma SteerFrom(g: Gains, e: real, rate: real, w: real, x: real)
    requires Tuned(g) && e != 0.0 && w == Min(g.kSlew * Abs(e), g.slewRateMax) && x == rate + Along(e, w)
    ensures SteerTorque(g, e, rate) == g.kDamp * x + Shove(g, e, rate) && w > 0.0
  {
    SlewIs(g, e);
    SteerIs(g, e, rate, w, x);
  }

  function Shove(g: Gains, e: real, rate: real): real {
    if Abs(rate) < g.stuckRate then Along(e, g.stictionFf) else 0.0
  }

  lemma OutsideSteers(g: Gains, s: State, rate: real, e: real)
    requires Tuned(g) && !InBand(g, s) && e == Error(s)
    ensures PointDemand(g, s, rate) == SteerTorque(g, e, rate) && e != 0.0
  {
  }

  lemma SteerIs(g: Gains, e: real, rate: real, w: real, x: real)
    requires Tuned(g) && e != 0.0 && Clamp(-g.kSlew * e, g.slewRateMax) == -Along(e, w) && x == rate + Along(e, w)
    ensures SteerTorque(g, e, rate) == g.kDamp * x + Shove(g, e, rate)
  {
    assert rate - -Along(e, w) == x;
  }

  lemma LimitSign(g: Gains, torque: real)
    requires Sane(g) && g.torqueMax > 0.0
    ensures Sign(Limit(g, torque)) == Sign(torque)
  {
  }

  lemma PushedSign(g: Gains, s: State, rate: real)
    requires Tuned(g) && !InBand(g, s) && Abs(rate) >= g.stuckRate
    ensures Sign(Pushed(g, s, rate)) == Sign(Excess(g, s, rate))
  {
    var x := DemandIs(g, s, rate);
    ProductSign(g.kDamp, x);
    LimitSign(g, PointDemand(g, s, rate));
  }

  /**
   * Which way POINTING drives. Outside the band and moving, with the error positive, the wheel is driven positive, and
   * so the platform negative, if and only if it is not already turning back faster than wanted; and mirrored.
   */
  lemma DrivesTowardTarget(g: Gains, s: State, rate: real)
    requires Tuned(g) && !InBand(g, s) && Abs(rate) >= g.stuckRate
    ensures Error(s) > 0.0 ==>
      (Pushed(g, s, rate) > 0.0 <==> rate > -Wanted(g, s)) && (Pushed(g, s, rate) < 0.0 <==> rate < -Wanted(g, s))
    ensures Error(s) < 0.0 ==>
      (Pushed(g, s, rate) < 0.0 <==> rate < Wanted(g, s)) && (Pushed(g, s, rate) > 0.0 <==> rate > Wanted(g, s))
    ensures Error(s) != 0.0
  {
    var w := Wanted(g, s);
    var x := DemandIs(g, s, rate);
    PushedSign(g, s, rate);
    assert x == if Error(s) > 0.0 then rate + w else rate - w;
  }

  /** Hardly moving, the shove has the error's sign; standing still, so has the whole torque. */
  lemma ShovesTowardTarget(g: Gains, s: State, rate: real)
    requires Tuned(g) && !InBand(g, s) && Abs(rate) < g.stuckRate
    ensures PointDemand(g, s, rate) - g.kDamp * Excess(g, s, rate) == Along(Error(s), g.stictionFf)
    ensures rate == 0.0 ==> Sign(Pushed(g, s, rate)) == Sign(Error(s)) != 0.0
  {
    var x := DemandIs(g, s, rate);
    ProductSign(g.kDamp, x);
    LimitSign(g, PointDemand(g, s, rate));
    assert rate == 0.0 ==> x == if Error(s) > 0.0 then Wanted(g, s) else -Wanted(g, s);
  }

  /** Inside the band it brakes and does nothing else. */
  lemma BrakesInBand(g: Gains, s: State, rate: real)
    requires Tuned(g) && InBand(g, s)
    ensures Sign(Pushed(g, s, rate)) == Sign(rate)
  {
    ProductSign(g.kDamp, rate);
  }

  // ---- on the modelled rig ----

  /** The most POINTING pushes along with the motion: the whole slew rate and the shove. */
  const PUSH := 0.0104

  /** What friction still takes off the rate against that in one held torque. */
  const LOSS := (0.0123 - 0.0104) * 0.1 / 0.00453

  const STEP_LOSS := (0.0123 - 0.0104) * 0.001 / 0.00453

  /** A torque, as felt by a platform turning at `rate` >= 0, that slows it without turning it round. */
  predicate Slowing(rate: real, torque: real) {
    -PUSH <= torque && (torque <= RIG.stiction || (torque <= 0.05 && torque <= 0.008 * rate + 0.0024))
  }

  lemma GentleStep(b: Body, torque: real)
    requires b.rate >= 0.0 && -PUSH <= torque <= RIG.stiction
    ensures var r := Substep(RIG, b, torque, SUBSTEP);
      && 0.0 <= r.rate <= Max(0.0, b.rate - STEP_LOSS) && r.angle == b.angle + r.rate * SUBSTEP
  {
    var tau := Deliverable(RIG, b.wheel, torque);
    assert -PUSH <= tau <= RIG.stiction;
    C.RigAccelerated(b.rate, -tau + Drag(RIG, b.rate));
  }

  lemma {:induction false} GentleRun(b: Body, torque: real, n: nat)
    requires b.rate >= 0.0 && -PUSH <= torque <= RIG.stiction
    ensures var r := Run(RIG, b, torque, n as real * SUBSTEP);
      && 0.0 <= r.rate <= Max(0.0, b.rate - n as real * STEP_LOSS)
      && b.angle <= r.angle <= b.angle + C.Times(n, b.rate * SUBSTEP)
    decreases n
  {
    if n > 0 {
      var c := Substep(RIG, b, torque, SUBSTEP);
      GentleStep(b, torque);
      C.RunUnrolls(RIG, b, torque, n);
      GentleRun(c, torque, n - 1);
      TimesGrow(n - 1, c.rate * SUBSTEP, b.rate * SUBSTEP);
    }
  }

  lemma {:induction false} TimesGrow(n: nat, x: real, y: real)
    requires x <= y
    ensures C.Times(n, x) <= C.Times(n, y)
    decreases n
  {
    if n > 0 { TimesGrow(n - 1, x, y); }
  }

  lemma {:induction false} HardRun(b: Body, torque: real, start: real, n: nat)
    requires 0.0 <= torque <= DEFAULT_GAINS.torqueMax && RIG.restRate <= b.rate <= start
    requires b.rate - C.Times(n, C.HardDrop(torque, start)) >= RIG.restRate
    ensures var r := Run(RIG, b, torque, n as real * SUBSTEP);
      && 0.0 < r.rate <= b.rate - n as real * C.STEP_LOSS
      && b.angle <= r.angle <= b.angle + C.Times(n, b.rate * SUBSTEP)
    decreases n
  {
    if n > 0 {
      var c := Substep(RIG, b, torque, SUBSTEP);
      C.TimesPositive(n - 1, torque, start);
      C.HardSubstep(b, torque, start);
      assert c.angle == b.angle + c.rate * SUBSTEP;
      C.RunUnrolls(RIG, b, torque, n);
      HardRun(c, torque, start, n - 1);
      TimesGrow(n - 1, c.rate * SUBSTEP, b.rate * SUBSTEP);
    }
  }

  lemma HardHeld(b: Body, torque: real)
    requires RIG.stiction < torque <= 0.05 && torque <= 0.008 * b.rate + 0.0024
    ensures var r := Run(RIG, b, torque, 100 as real * SUBSTEP);
      0.0 <= r.rate <= b.rate - 100.0 * C.STEP_LOSS && b.angle <= r.angle <= b.angle + C.Times(100, b.rate * SUBSTEP)
  {
    assert b.rate > 1.6;
    C.TimesIs(100, C.HardDrop(torque, b.rate));
    HardRun(b, torque, b.rate, 100);
  }

  /** One held torque of that kind: no reversal, friction's remaining share off, and the angle moves with the rate. */
  lemma HeldSlows(b: Body, torque: real)
    requires b.rate >= 0.0 && Slowing(b.rate, torque)
    ensures var r := Run(RIG, b, torque, C.HOLD);
      && 0.0 <= r.rate <= Max(0.0, b.rate - LOSS) && b.angle <= r.angle <= b.angle + b.rate * C.HOLD
  {
    assert 100 as real * SUBSTEP == C.HOLD && 100.0 * STEP_LOSS == LOSS;
    C.TimesIs(100, b.rate * SUBSTEP);
    if torque <= RIG.stiction {
      GentleRun(b, torque, 100);
    } else {
      HardHeld(b, torque);
    }
  }

  /** The same the other way round. */
  lemma HeldSlowsBack(b: Body, torque: real, push: real)
    requires b.rate < 0.0 && push == -torque && Slowing(-b.rate, push)
    ensures var r := Run(RIG, b, torque, C.HOLD);
      && -Max(0.0, -b.rate - LOSS) <= r.rate <= 0.0 && b.angle + b.rate * C.HOLD <= r.angle <= b.angle
  {
    var m := C.Mirror(b);
    assert C.Mirror(m) == b && -push == torque;
    HeldSlows(m, push);
    C.RunMirrors(RIG, m, push, C.HOLD);
  }

  /** Whatever the heading error, POINTING's torque is of that kind, seen from the side the platform turns to. */
  lemma PointSlowing(s: State, rate: real)
    ensures Slowing(Abs(rate), if rate >= 0.0 then Pushed(DEFAULT_GAINS, s, rate) else -Pushed(DEFAULT_GAINS, s, rate))
  {
    if !InBand(DEFAULT_GAINS, s) { var x := DemandIs(DEFAULT_GAINS, s, rate); }
  }

  function PointCycle(b: Body, s: State): Body { Run(RIG, b, Pushed(DEFAULT_GAINS, s, b.rate), C.HOLD) }

  /** The angle moved the way the platform was turning, by no more than that turning would have taken it. */
  predicate TurnedOn(b: Body, r: Body) {
    if b.rate >= 0.0 then b.angle <= r.angle <= b.angle + b.rate * C.HOLD
    else b.angle + b.rate * C.HOLD <= r.angle <= b.angle
  }

  /**
   * On the modelled rig, whatever the target, a POINTING cycle never turns the platform round and slows it by at least
   * what friction keeps over the hardest push: POINTING can hold there, and cannot slew.
   */
  lemma PointSlows(b: Body, s: State)
    ensures var r := PointCycle(b, s);
      && (Sign(r.rate) == Sign(b.rate) || r.rate == 0.0) && Abs(r.rate) <= Max(0.0, Abs(b.rate) - LOSS)
      && TurnedOn(b, r)
  {
    var t := Pushed(DEFAULT_GAINS, s, b.rate);
    PointSlowing(s, b.rate);
    if b.rate >= 0.0 { HeldSlows(b, t); } else { HeldSlowsBack(b, t, -t); }
  }

  /** While it turns toward the target, and would not shoot past by more than it is off, the error does not grow. */
  lemma PointApproaches(b: Body, s: State)
    requires s.heading == b.angle
    requires var w := Wrap(s.target - b.angle);
      (w > 0.0 && 0.0 < b.rate * C.HOLD <= 2.0 * w) || (w < 0.0 && 2.0 * w <= b.rate * C.HOLD < 0.0)
    ensures Off(s.target, PointCycle(b, s).angle) <= Off(s.target, b.angle)
  {
    PointSlows(b, s);
    StepToward(s.target, b.angle, PointCycle(b, s).angle);
  }

  // ---- with nothing to rub against ----

  /** The rig hung free. */
  const FREE := RIG.(viscous := 0.0, kinetic := 0.0, stiction := 0.0)

  lemma FreeStep(b: Body, torque: real)
    requires Abs(torque) <= 0.05 && torque != 0.0 && Abs(b.wheel) < FREE.wheelRateMax
    ensures var r := Substep(FREE, b, torque, SUBSTEP);
      r.rate == b.rate - torque / 0.00453 * SUBSTEP && r.wheel == b.wheel + torque / 0.000109 * SUBSTEP
  {
  }

  lemma {:induction false} FreeRun(b: Body, torque: real, gain: real, n: nat)
    requires Abs(torque) <= 0.05 && torque != 0.0 && gain == Abs(torque) / 0.000109 * SUBSTEP
    requires Abs(b.wheel) + C.Times(n, gain) < FREE.wheelRateMax
    ensures Run(FREE, b, torque, n as real * SUBSTEP).rate == b.rate - C.Times(n, torque / 0.00453 * SUBSTEP)
    decreases n
  {
    if n > 0 {
      var c := Substep(FREE, b, torque, SUBSTEP);
      TimesGrow(n - 1, 0.0, gain);
      TimesNothing(n - 1);
      FreeStep(b, torque);
      C.RunUnrolls(FREE, b, torque, n);
      FreeRun(c, torque, gain, n - 1);
    }
  }

  lemma {:induction false} TimesNothing(n: nat)
    ensures C.Times(n, 0.0) == 0.0
    decreases n
  {
    if n > 0 { TimesNothing(n - 1); }
  }

  /**
   * Without friction each held torque brings the rate a fixed share, about 18 parts in 100, closer to the slew rate
   * that is wanted toward the target.
   */
  lemma FreeSlew(b: Body, s: State)
    requires !InBand(DEFAULT_GAINS, s) && Abs(b.rate) >= DEFAULT_GAINS.stuckRate
    requires Abs(b.wheel) <= 20.0 && Abs(b.rate) <= 1.5
    ensures var want := -Along(Error(s), Wanted(DEFAULT_GAINS, s));
      Run(FREE, b, Pushed(DEFAULT_GAINS, s, b.rate), C.HOLD).rate - want
      == (1.0 - 0.008 * 0.1 / 0.00453) * (b.rate - want)
  {
    var want := -Along(Error(s), Wanted(DEFAULT_GAINS, s));
    var t := Pushed(DEFAULT_GAINS, s, b.rate);
    FreeTorque(s, b.rate);
    FreeHeld(b, t);
  }

  lemma FreeTorque(s: State, rate: real)
    requires !InBand(DEFAULT_GAINS, s) && DEFAULT_GAINS.stuckRate <= Abs(rate) <= 1.5
    ensures Pushed(DEFAULT_GAINS, s, rate) == 0.008 * (rate + Along(Error(s), Wanted(DEFAULT_GAINS, s)))
  {
    var x := DemandIs(DEFAULT_GAINS, s, rate);
  }

  lemma FreeHeld(b: Body, t: real)
    requires Abs(t) <= 0.016 && Abs(b.wheel) <= 20.0 && Abs(b.rate) >= FREE.restRate
    ensures Run(FREE, b, t, C.HOLD).rate == b.rate - t / 0.00453 * 0.1
  {
    assert 100 as real * SUBSTEP == C.HOLD;
    if t == 0.0 {
      FreeCoast(b, 100);
    } else {
      FreePush(b, t, 100);
      C.TimesIs(100, t / 0.00453 * SUBSTEP);
    }
  }

  lemma FreePush(b: Body, t: real, n: nat)
    requires t != 0.0 && Abs(t) <= 0.016 && Abs(b.wheel) <= 20.0 && n <= 100
    ensures Run(FREE, b, t, n as real * SUBSTEP).rate == b.rate - C.Times(n, t / 0.00453 * SUBSTEP)
  {
    var gain := Abs(t) / 0.000109 * SUBSTEP;
    assert gain <= 0.15;
    C.TimesIs(n, 0.15);
    TimesGrow(n, gain, 0.15);
    FreeRun(b, t, gain, n);
  }

  lemma {:induction false} FreeCoast(b: Body, n: nat)
    requires Abs(b.rate) >= FREE.restRate
    ensures Run(FREE, b, 0.0, n as real * SUBSTEP).rate == b.rate
    decreases n
  {
    if n > 0 {
      C.RunUnrolls(FREE, b, 0.0, n);
      FreeCoast(Substep(FREE, b, 0.0, SUBSTEP), n - 1);
    }
  }
}
