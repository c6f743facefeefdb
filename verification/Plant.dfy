/** The bench rig's physics (fsw/sil/plant.cpp), over the reals: one wheel, one platform, stiction. */
module Plant {
  import opened Attitude

  datatype Params = Params(
    jPlatform: real, jWheel: real, torqueMax: real, wheelRateMax: real,
    viscous: real, kinetic: real, stiction: real, restRate: real)

  /** Positive inertias, and nothing that would add energy. */
  predicate Physical(p: Params) {
    && p.jPlatform > 0.0 && p.jWheel > 0.0 && p.torqueMax >= 0.0 && p.wheelRateMax >= 0.0
    && p.viscous >= 0.0 && p.kinetic >= 0.0 && p.stiction >= 0.0 && p.restRate > 0.0
  }

  const RIG := Params(0.00453, 0.000109, 0.06, 36.0, 0.00059, 0.0123, 0.0154, 0.0001)

  const SUBSTEP := 0.001

  datatype Body = Body(angle: real, rate: real, wheel: real)

  function Sign(x: real): real { if x > 0.0 then 1.0 else if x < 0.0 then -1.0 else 0.0 }

  /** What the actuator grants: its own ceiling, and nothing that would spin a full wheel faster. */
  function Deliverable(p: Params, wheel: real, torque: real): real
  {
    var t := if torque < -p.torqueMax then -p.torqueMax else if torque > p.torqueMax then p.torqueMax else torque;
    if (wheel >= p.wheelRateMax && t > 0.0) || (wheel <= -p.wheelRateMax && t < 0.0) then 0.0 else t
  }

  function Accelerated(rate: real, torque: real, inertia: real, dt: real): real
    requires inertia > 0.0
  {
    rate + torque / inertia * dt
  }

  /** Sliding friction, against the motion. */
  function Drag(p: Params, rate: real): real { -(Sign(rate) * p.kinetic) - p.viscous * rate }

  /** The platform's rate after one substep of reaction `react`. */
  function NextRate(p: Params, rate: real, react: real, dt: real): real
    requires p.jPlatform > 0.0
  {
    if Abs(rate) < p.restRate then
      if Abs(react) <= p.stiction then 0.0
      else Accelerated(rate, react - Sign(react) * p.kinetic, p.jPlatform, dt)
    else
      var next := Accelerated(rate, react + Drag(p, rate), p.jPlatform, dt);
      if Sign(next) != Sign(rate) && Abs(react) <= p.stiction then 0.0 else next
  }

  function Substep(p: Params, b: Body, torque: real, dt: real): Body
    requires p.jPlatform > 0.0 && p.jWheel > 0.0
  {
    var tau := Deliverable(p, b.wheel, torque);
    var rate := NextRate(p, b.rate, -tau, dt);
    var stuck := Abs(b.rate) < p.restRate && Abs(tau) <= p.stiction;
    Body(if stuck then b.angle else b.angle + rate * dt, rate, Accelerated(b.wheel, tau, p.jWheel, dt))
  }

  function Left(dt: real): nat { if dt <= 0.0 then 0 else (dt * 1000.0).Floor + 1 }

  function Run(p: Params, b: Body, torque: real, dt: real): Body
    requires p.jPlatform > 0.0 && p.jWheel > 0.0
    decreases Left(dt)
  {
    if dt <= 0.0 then b
    else
      var h := if SUBSTEP < dt then SUBSTEP else dt;
      Run(p, Substep(p, b, torque, h), torque, dt - h)
  }

  class Rig {
    const p: Params
    var angle: real
    var platform: real
    var wheel: real

    ghost function Now(): Body
      reads this
    {
      Body(angle, platform, wheel)
    }

    constructor (p: Params)
      ensures this.p == p && Now() == Body(0.0, 0.0, 0.0)
    {
      this.p := p;
      angle, platform, wheel := 0.0, 0.0, 0.0;
    }

    method DoSubstep(torque: real, dt: real)
      requires p.jPlatform > 0.0 && p.jWheel > 0.0
      modifies this
      ensures Now() == Substep(p, old(Now()), torque, dt)
    {
      var tau := Deliverable(p, wheel, torque);
      wheel := Accelerated(wheel, tau, p.jWheel, dt);
      var react := -tau;
      if Abs(platform) < p.restRate {
        if Abs(react) <= p.stiction {
          platform := 0.0;
          return;
        }
        var net := react - Sign(react) * p.kinetic;
        platform := Accelerated(platform, net, p.jPlatform, dt);
      } else {
        var net := react + Drag(p, platform);
        var next := Accelerated(platform, net, p.jPlatform, dt);
        if Sign(next) != Sign(platform) && Abs(react) <= p.stiction {
          platform := 0.0;
        } else {
          platform := next;
        }
      }
      angle := angle + platform * dt;
    }

    method Step(torque: real, dt: real)
      requires p.jPlatform > 0.0 && p.jWheel > 0.0
      modifies this
      ensures Now() == Run(p, old(Now()), torque, dt)
    {
      if dt <= 0.0 {
        return;
      }
      var remaining := dt;
      while remaining > 0.0
        invariant Run(p, Now(), torque, remaining) == Run(p, old(Now()), torque, dt)
        decreases Left(remaining)
      {
        var h := if SUBSTEP < remaining then SUBSTEP else remaining;
        DoSubstep(torque, h);
        remaining := remaining - h;
      }
    }
  }

  // ---- soundness of the integrator ----

  lemma CoastSubstep(p: Params, b: Body, dt: real)
    requires Physical(p) && dt > 0.0
    ensures Abs(Substep(p, b, 0.0, dt).rate) <= Abs(b.rate)
    ensures Sign(Substep(p, b, 0.0, dt).rate) == Sign(b.rate) || Substep(p, b, 0.0, dt).rate == 0.0
  {
    var k := dt / p.jPlatform;
    var d := Drag(p, b.rate);
    assert Accelerated(b.rate, d, p.jPlatform, dt) == b.rate + d * k;
    if b.rate > 0.0 { assert d <= 0.0 && d * k <= 0.0; }
    if b.rate < 0.0 { assert d >= 0.0 && d * k >= 0.0; }
  }

  /** With no torque commanded, friction alone never speeds the platform up nor turns it round. */
  lemma {:induction false} CoastNeverSpeedsUp(p: Params, b: Body, dt: real)
    requires Physical(p)
    ensures Abs(Run(p, b, 0.0, dt).rate) <= Abs(b.rate)
    ensures Sign(Run(p, b, 0.0, dt).rate) == Sign(b.rate) || Run(p, b, 0.0, dt).rate == 0.0
    decreases Left(dt)
  {
    if dt > 0.0 {
      var h := if SUBSTEP < dt then SUBSTEP else dt;
      CoastSubstep(p, b, h);
      CoastNeverSpeedsUp(p, Substep(p, b, 0.0, h), dt - h);
    }
  }

  /** What one substep of an allowed torque adds to a speed: no more than the largest torque over a whole substep. */
  lemma GainBound(torque: real, most: real, inertia: real, dt: real)
    requires inertia > 0.0 && Abs(torque) <= most && 0.0 < dt <= SUBSTEP
    ensures Abs(torque / inertia * dt) <= most / inertia * SUBSTEP
    ensures Sign(torque / inertia * dt) == Sign(torque)
  {
    var a, m := torque / inertia, most / inertia;
    Quotients(torque, most, inertia);
    if a >= 0.0 {
      assert a * dt <= m * dt;
    } else {
      assert -a * dt <= m * dt;
    }
    assert m * dt <= m * SUBSTEP;
  }

  lemma Quotients(torque: real, most: real, inertia: real)
    requires inertia > 0.0 && Abs(torque) <= most
    ensures Abs(torque / inertia) <= most / inertia
    ensures Sign(torque / inertia) == Sign(torque)
  {
    assert torque / inertia * inertia == torque && most / inertia * inertia == most;
  }

  /** The wheel's speed stays inside its limit plus what one substep of full torque can add. */
  lemma WheelSubstep(p: Params, b: Body, torque: real, dt: real)
    requires Physical(p) && 0.0 < dt <= SUBSTEP
    requires Abs(b.wheel) <= p.wheelRateMax + p.torqueMax / p.jWheel * SUBSTEP
    ensures Abs(Substep(p, b, torque, dt).wheel) <= p.wheelRateMax + p.torqueMax / p.jWheel * SUBSTEP
  {
    var tau := Deliverable(p, b.wheel, torque);
    GainBound(tau, p.torqueMax, p.jWheel, dt);
    var gain, most := tau / p.jWheel * dt, p.torqueMax / p.jWheel * SUBSTEP;
    assert Substep(p, b, torque, dt).wheel == b.wheel + gain;
    assert b.wheel >= p.wheelRateMax ==> gain <= 0.0;
    assert b.wheel <= -p.wheelRateMax ==> gain >= 0.0;
  }

  lemma {:induction false} WheelBounded(p: Params, b: Body, torque: real, dt: real)
    requires Physical(p)
    requires Abs(b.wheel) <= p.wheelRateMax + p.torqueMax / p.jWheel * SUBSTEP
    ensures Abs(Run(p, b, torque, dt).wheel) <= p.wheelRateMax + p.torqueMax / p.jWheel * SUBSTEP
    decreases Left(dt)
  {
    if dt > 0.0 {
      var h := if SUBSTEP < dt then SUBSTEP else dt;
      WheelSubstep(p, b, torque, h);
      WheelBounded(p, Substep(p, b, torque, h), torque, dt - h);
    }
  }

  function Momentum(p: Params, b: Body): real { p.jPlatform * b.rate + p.jWheel * b.wheel }

  /** Without friction a substep keeps total momentum exactly when it does not clamp a creeping platform to rest. */
  lemma MomentumKeptIff(p: Params, b: Body, torque: real, dt: real)
    requires Physical(p) && dt > 0.0 && p.kinetic == 0.0 && p.viscous == 0.0 && p.stiction == 0.0
    ensures Momentum(p, Substep(p, b, torque, dt)) == Momentum(p, b)
       <==> (Deliverable(p, b.wheel, torque) != 0.0 || Abs(b.rate) >= p.restRate || b.rate == 0.0)
  {
    var tau := Deliverable(p, b.wheel, torque);
    assert p.jWheel * Accelerated(b.wheel, tau, p.jWheel, dt) == p.jWheel * b.wheel + tau * dt;
    assert p.jPlatform * Accelerated(b.rate, -tau, p.jPlatform, dt) == p.jPlatform * b.rate - tau * dt;
    if tau == 0.0 { assert Accelerated(b.rate, -tau, p.jPlatform, dt) == b.rate; }
  }

  /** Stepping a whole number of milliseconds and then the rest is stepping the sum. */
  lemma {:induction false} RunSplits(p: Params, b: Body, torque: real, n: nat, rest: real)
    requires Physical(p) && rest >= 0.0
    ensures Run(p, b, torque, n as real * SUBSTEP + rest)
         == Run(p, Run(p, b, torque, n as real * SUBSTEP), torque, rest)
    decreases n
  {
    if n > 0 {
      var first := Substep(p, b, torque, SUBSTEP);
      var m := (n - 1) as real * SUBSTEP;
      assert n as real * SUBSTEP == m + SUBSTEP;
      assert Run(p, b, torque, n as real * SUBSTEP + rest) == Run(p, first, torque, m + rest);
      assert Run(p, b, torque, n as real * SUBSTEP) == Run(p, first, torque, m);
      RunSplits(p, first, torque, n - 1, rest);
    }
  }

  // ---- the angle, and breaking away ----

  /** The angle moves by the new rate times the substep, always: a stuck platform's new rate is zero. */
  lemma SubstepTurns(p: Params, b: Body, torque: real, dt: real)
    requires Physical(p)
    ensures var r := Substep(p, b, torque, dt); r.angle == b.angle + r.rate * dt
  {
  }

  lemma SignTimes(x: real, h: real)
    requires h > 0.0
    ensures Sign(x * h) == Sign(x)
  {
  }

  /** A platform at rest stays exactly where it is under any torque up to breakaway, however long it is held. */
  lemma {:induction false} StaysPut(p: Params, b: Body, torque: real, dt: real)
    requires Physical(p) && Abs(b.rate) < p.restRate && Abs(torque) <= p.stiction && dt > 0.0
    ensures Run(p, b, torque, dt).rate == 0.0 && Run(p, b, torque, dt).angle == b.angle
    decreases Left(dt)
  {
    var h := if SUBSTEP < dt then SUBSTEP else dt;
    var c := Substep(p, b, torque, h);
    assert Abs(Deliverable(p, b.wheel, torque)) <= Abs(torque);
    assert c.rate == 0.0 && c.angle == b.angle;
    if dt - h > 0.0 { StaysPut(p, c, torque, dt - h); }
  }

  /** Past breakaway the rest gives way in one substep, against the torque on the wheel. */
  lemma BreaksAway(p: Params, wheel: real, angle: real, torque: real, dt: real)
    requires Physical(p) && p.kinetic <= p.stiction < p.torqueMax && dt > 0.0 && Abs(wheel) < p.wheelRateMax
    ensures var r := Substep(p, Body(angle, 0.0, wheel), torque, dt);
      && (r.rate == 0.0 <==> Abs(torque) <= p.stiction)
      && (Abs(torque) > p.stiction ==> Sign(r.rate) == -Sign(torque) && Sign(r.angle - angle) == -Sign(torque))
  {
    var tau := Deliverable(p, wheel, torque);
    assert Sign(tau) == Sign(torque) && (Abs(tau) > p.stiction <==> Abs(torque) > p.stiction);
    if Abs(tau) > p.stiction {
      var net := -tau - Sign(-tau) * p.kinetic;
      assert Sign(net) == -Sign(torque);
      Quotients(net, Abs(net), p.jPlatform);
      SignTimes(net / p.jPlatform, dt);
      SignTimes(net / p.jPlatform * dt, dt);
    }
  }

  /**
   * While the platform slides and is not brought to rest, a substep takes exactly friction's impulse out of the total
   * momentum, kinetic and viscous, against the motion; the torque only moves momentum between wheel and platform.
   */
  lemma FrictionImpulse(p: Params, b: Body, torque: real, dt: real)
    requires Physical(p) && dt > 0.0 && Abs(b.rate) >= p.restRate
    ensures var r := Substep(p, b, torque, dt);
      r.rate != 0.0 ==>
        Momentum(p, r) - Momentum(p, b) == -(Sign(b.rate) * p.kinetic + p.viscous * b.rate) * dt
  {
    var tau := Deliverable(p, b.wheel, torque);
    var net := -tau + Drag(p, b.rate);
    Impulse(b.wheel, tau, p.jWheel, dt);
    Impulse(b.rate, net, p.jPlatform, dt);
    Balance(tau, Drag(p, b.rate), dt);
  }

  lemma Impulse(rate: real, torque: real, inertia: real, dt: real)
    requires inertia > 0.0
    ensures inertia * Accelerated(rate, torque, inertia, dt) == inertia * rate + torque * dt
  {
    assert inertia * (torque / inertia * dt) == torque * dt;
  }

  lemma Balance(tau: real, drag: real, dt: real)
    ensures tau * dt + (-tau + drag) * dt == drag * dt
  {
  }
}
