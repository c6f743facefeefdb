/** Detumble against the rig: the control law, the executive's exit count and the plant together. */
module ClosedLoop {
  import opened Wire
  import opened Attitude
  import opened Plant
  import opened Catalog
  import E = Executive
  import Safing

  /** How long a commanded torque is held. */
  const HOLD := 0.1

  /** What sliding friction alone takes off the rate in that time. */
  const LOSS := 0.0123 * 0.1 / 0.00453

  lemma LossIsTheRigs()
    ensures LOSS == RIG.kinetic * HOLD / RIG.jPlatform
  {
  }

  // ---- one substep, on the turning side of zero ----

  const PER_SUBSTEP := 0.001 / 0.00453

  lemma RigAccelerated(rate: real, torque: real)
    ensures Accelerated(rate, torque, RIG.jPlatform, SUBSTEP) == rate + torque * PER_SUBSTEP
  {
  }

  const STEP_LOSS := 0.0123 * 0.001 / 0.00453

  /** Below breakaway a substep slows the platform and never turns it round. */
  lemma GentleSubstep(b: Body, torque: real)
    requires b.rate >= 0.0 && 0.0 <= torque <= RIG.stiction
    ensures 0.0 <= Substep(RIG, b, torque, SUBSTEP).rate <= Max(0.0, b.rate - STEP_LOSS)
  {
    var tau := Deliverable(RIG, b.wheel, torque);
    assert 0.0 <= tau <= torque;
    RigAccelerated(b.rate, -tau + Drag(RIG, b.rate));
  }

  /** The most a substep takes off a rate that began the cycle at `start`. */
  function HardDrop(torque: real, start: real): real { (torque + 0.0123 + 0.00059 * start) * PER_SUBSTEP }

  /** Above breakaway it slows by no more than that, as long as that leaves it turning. */
  lemma HardSubstep(b: Body, torque: real, start: real)
    requires 0.0 <= torque <= DEFAULT_GAINS.torqueMax && RIG.restRate <= b.rate <= start
    requires b.rate - HardDrop(torque, start) >= RIG.restRate
    ensures b.rate - HardDrop(torque, start) <= Substep(RIG, b, torque, SUBSTEP).rate <= b.rate - STEP_LOSS
  {
    var tau := Deliverable(RIG, b.wheel, torque);
    assert 0.0 <= tau <= torque;
    RigAccelerated(b.rate, -tau + Drag(RIG, b.rate));
  }

  function Times(n: nat, x: real): real
    decreases n, 0
  {
    if n == 0 then 0.0 else x + Times(n - 1, x)
  }

  lemma {:induction false} TimesIs(n: nat, x: real)
    ensures Times(n, x) == n as real * x
  {
    if n > 0 {
      TimesIs(n - 1, x);
      assert n as real * x == (n - 1) as real * x + x;
    }
  }

  // ---- a held torque ----

  lemma RunUnrolls(p: Params, b: Body, torque: real, n: nat)
    requires p.jPlatform > 0.0 && p.jWheel > 0.0 && n > 0
    ensures Run(p, b, torque, n as real * SUBSTEP)
         == Run(p, Substep(p, b, torque, SUBSTEP), torque, (n - 1) as real * SUBSTEP)
  {
    assert n as real * SUBSTEP == (n - 1) as real * SUBSTEP + SUBSTEP;
  }

  lemma {:induction false} GentleRun(b: Body, torque: real, n: nat)
    requires b.rate >= 0.0 && 0.0 <= torque <= RIG.stiction
    ensures 0.0 <= Run(RIG, b, torque, n as real * SUBSTEP).rate <= Max(0.0, b.rate - n as real * STEP_LOSS)
    decreases n
  {
    if n > 0 {
      GentleSubstep(b, torque);
      RunUnrolls(RIG, b, torque, n);
      GentleRun(Substep(RIG, b, torque, SUBSTEP), torque, n - 1);
    }
  }

  lemma {:induction false} HardRun(b: Body, torque: real, start: real, n: nat)
    requires 0.0 <= torque <= DEFAULT_GAINS.torqueMax && RIG.restRate <= b.rate <= start
    requires b.rate - Times(n, HardDrop(torque, start)) >= RIG.restRate
    ensures 0.0 < Run(RIG, b, torque, n as real * SUBSTEP).rate <= b.rate - n as real * STEP_LOSS
    decreases n
  {
    if n > 0 {
      TimesPositive(n - 1, torque, start);
      HardSubstep(b, torque, start);
      RunUnrolls(RIG, b, torque, n);
      HardRun(Substep(RIG, b, torque, SUBSTEP), torque, start, n - 1);
    }
  }

  lemma {:induction false} TimesPositive(n: nat, torque: real, start: real)
    requires torque >= 0.0 && start >= 0.0
    ensures Times(n, HardDrop(torque, start)) >= 0.0
    decreases n
  {
    if n > 0 { TimesPositive(n - 1, torque, start); }
  }

  /** One cycle of detumble from a positive rate: no reversal, and at least the friction's share comes off. */
  lemma ForwardCycle(b: Body)
    requires b.rate >= 0.0
    ensures 0.0 <= Run(RIG, b, DetumbleTorque(DEFAULT_GAINS, b.rate), HOLD).rate <= Max(0.0, b.rate - LOSS)
  {
    var torque := DetumbleTorque(DEFAULT_GAINS, b.rate);
    assert 100 as real * SUBSTEP == HOLD && 100.0 * STEP_LOSS == LOSS;
    if torque <= RIG.stiction {
      GentleRun(b, torque, 100);
    } else {
      assert torque <= DEFAULT_GAINS.kRate * b.rate;
      assert b.rate > 1.9;
      TimesIs(100, HardDrop(torque, b.rate));
      HardRun(b, torque, b.rate, 100);
    }
  }

  // ---- the rig does not know left from right ----

  function Mirror(b: Body): Body { Body(-b.angle, -b.rate, -b.wheel) }

  lemma SubstepMirrors(p: Params, b: Body, torque: real, dt: real)
    requires p.jPlatform > 0.0 && p.jWheel > 0.0 && p.torqueMax >= 0.0 && p.wheelRateMax > 0.0
    ensures Substep(p, Mirror(b), -torque, dt) == Mirror(Substep(p, b, torque, dt))
  {
    var tau := Deliverable(p, b.wheel, torque);
    assert Deliverable(p, -b.wheel, -torque) == -tau;
    MirrorAccelerated(b.wheel, tau, p.jWheel, dt);
    NextRateMirrors(p, b.rate, -tau, dt);
    var rate := NextRate(p, b.rate, -tau, dt);
    assert -rate * dt == -(rate * dt);
  }

  lemma NextRateMirrors(p: Params, rate: real, react: real, dt: real)
    requires p.jPlatform > 0.0
    ensures NextRate(p, -rate, -react, dt) == -NextRate(p, rate, react, dt)
  {
    var gentle, sliding := react - Sign(react) * p.kinetic, react + Drag(p, rate);
    assert -react - Sign(-react) * p.kinetic == -gentle;
    assert -react + Drag(p, -rate) == -sliding;
    MirrorAccelerated(rate, gentle, p.jPlatform, dt);
    MirrorAccelerated(rate, sliding, p.jPlatform, dt);
  }

  lemma MirrorAccelerated(rate: real, torque: real, inertia: real, dt: real)
    requires inertia > 0.0
    ensures Accelerated(-rate, -torque, inertia, dt) == -Accelerated(rate, torque, inertia, dt)
  {
    assert -torque / inertia == -(torque / inertia);
  }

  lemma {:induction false} RunMirrors(p: Params, b: Body, torque: real, dt: real)
    requires p.jPlatform > 0.0 && p.jWheel > 0.0 && p.torqueMax >= 0.0 && p.wheelRateMax > 0.0
    ensures Run(p, Mirror(b), -torque, dt) == Mirror(Run(p, b, torque, dt))
    decreases Left(dt)
  {
    if dt > 0.0 {
      var h := if SUBSTEP < dt then SUBSTEP else dt;
      SubstepMirrors(p, b, torque, h);
      RunMirrors(p, Substep(p, b, torque, h), torque, dt - h);
    }
  }

  /** Detumble never overshoots: the sign survives or the platform stops, and the friction's share comes off. */
  lemma CycleSlows(b: Body)
    ensures var r := Run(RIG, b, DetumbleTorque(DEFAULT_GAINS, b.rate), HOLD).rate;
      && (Sign(r) == Sign(b.rate) || r == 0.0) && Abs(r) <= Max(0.0, Abs(b.rate) - LOSS)
  {
    if b.rate >= 0.0 {
      ForwardCycle(b);
    } else {
      var m := Mirror(b);
      assert Mirror(m) == b;
      ForwardCycle(m);
      assert DetumbleTorque(DEFAULT_GAINS, b.rate) == -DetumbleTorque(DEFAULT_GAINS, m.rate);
      RunMirrors(RIG, m, DetumbleTorque(DEFAULT_GAINS, m.rate), HOLD);
    }
  }

  /** A cycle with no rate sample commands nothing, and friction does no less. */
  lemma CoastSlows(b: Body)
    ensures Abs(Run(RIG, b, 0.0, HOLD).rate) <= Max(0.0, Abs(b.rate) - LOSS)
  {
    assert 100 as real * SUBSTEP == HOLD && 100.0 * STEP_LOSS == LOSS;
    if b.rate >= 0.0 {
      GentleRun(b, 0.0, 100);
    } else {
      GentleRun(Mirror(b), 0.0, 100);
      RunMirrors(RIG, Mirror(b), 0.0, HOLD);
    }
  }

  // ---- leaving DETUMBLE ----

  /** A control cycle and the 100 ms after it; `sampled` says whether the rate sensor reported. */
  datatype Tick = Tick(inp: E.Inputs, sampled: bool, t: nat)

  function Fed(k: Tick, b: Body): E.Inputs { k.inp.(rate := if k.sampled then Some(b.rate) else None) }

  function NextExec(e: E.Exec, b: Body, k: Tick): E.Exec { E.Cycle(DEFAULT_GAINS, e, Fed(k, b), k.t) }

  function NextBody(e: E.Exec, b: Body, k: Tick): Body {
    Run(RIG, b, E.Torque(DEFAULT_GAINS, e, Fed(k, b), k.t), HOLD)
  }

  /** The cycle's control step runs in DETUMBLE and the cycle ends in it. */
  predicate StaysOnce(e: E.Exec, b: Body, k: Tick) {
    E.ModeNow(e, Fed(k, b), k.t) == DETUMBLE && NextExec(e, b, k).modes.mode == DETUMBLE
  }

  predicate Stays(e: E.Exec, b: Body, ks: seq<Tick>)
    decreases |ks|
  {
    ks == [] || (StaysOnce(e, b, ks[0]) && Stays(NextExec(e, b, ks[0]), NextBody(e, b, ks[0]), ks[1..]))
  }

  function Samples(ks: seq<Tick>): nat {
    if ks == [] then 0 else (if ks[0].sampled then 1 else 0) + Samples(ks[1..])
  }

  predicate Resting(rate: real) { Abs(rate) < DEFAULT_GAINS.rateDeadband }

  /** What a cycle that stays in DETUMBLE does to the exit count and commands. */
  lemma DetumbleCycle(e: E.Exec, inp: E.Inputs, t: nat)
    requires Safing.ResumeOk(e) && E.ModeNow(e, inp, t) == DETUMBLE
    requires E.Cycle(DEFAULT_GAINS, e, inp, t).modes.mode == DETUMBLE
    ensures var n := E.Cycle(DEFAULT_GAINS, e, inp, t);
      match inp.rate
      case None => n.doneCycles == e.doneCycles && E.Torque(DEFAULT_GAINS, e, inp, t) == 0.0
      case Some(w) =>
        && E.Torque(DEFAULT_GAINS, e, inp, t) == DetumbleTorque(DEFAULT_GAINS, w)
        && (if Resting(w) then e.doneCycles < E.DETUMBLE_DONE && n.doneCycles == e.doneCycles + 1
            else n.doneCycles == 0)
  {
    Safing.DecidedResume(e, inp, t);
  }

  lemma BodySlows(e: E.Exec, b: Body, k: Tick)
    requires Safing.ResumeOk(e) && StaysOnce(e, b, k)
    ensures Abs(NextBody(e, b, k).rate) <= Max(0.0, Abs(b.rate) - LOSS)
  {
    DetumbleCycle(e, Fed(k, b), k.t);
    if k.sampled { CycleSlows(b); } else { CoastSlows(b); }
  }

  /** How many more samples the vehicle can take in DETUMBLE, n held torques from rest. */
  function Patience(e: E.Exec, rate: real, n: nat): int {
    if Resting(rate) then E.DETUMBLE_DONE - e.doneCycles else n + E.DETUMBLE_DONE
  }

  lemma StaySpends(e: E.Exec, b: Body, k: Tick, n: nat) returns (f: E.Exec, c: Body, m: nat)
    requires Safing.ResumeOk(e) && e.doneCycles <= E.DETUMBLE_DONE && StaysOnce(e, b, k)
    requires Abs(b.rate) <= n as real * LOSS
    ensures f == NextExec(e, b, k) && c == NextBody(e, b, k)
    ensures Safing.ResumeOk(f) && f.doneCycles <= E.DETUMBLE_DONE && Abs(c.rate) <= m as real * LOSS
    ensures Patience(f, c.rate, m) <= Patience(e, b.rate, n) - (if k.sampled then 1 else 0)
  {
    f, c := NextExec(e, b, k), NextBody(e, b, k);
    m := if n == 0 then 0 else n - 1;
    BodySlows(e, b, k);
    DetumbleCycle(e, Fed(k, b), k.t);
    Safing.CycleResume(DEFAULT_GAINS, e, Fed(k, b), k.t);
  }

  /**
   * Detumble finishes. If n held torques of friction would stop the platform (the least such n is |w0| over LOSS,
   * rounded up), no run of cycles stays in DETUMBLE for more than n + 10 rate samples: by the next it has left.
   */
  lemma {:induction false} DetumbleFinishes(e: E.Exec, b: Body, ks: seq<Tick>, n: nat)
    requires Safing.ResumeOk(e) && e.doneCycles <= E.DETUMBLE_DONE && Abs(b.rate) <= n as real * LOSS
    requires Stays(e, b, ks)
    ensures Samples(ks) <= Patience(e, b.rate, n) <= n + E.DETUMBLE_DONE
    decreases |ks|
  {
    if ks != [] {
      var f, c, m := StaySpends(e, b, ks[0], n);
      DetumbleFinishes(f, c, ks[1..], m);
    }
  }
}
