/** What DETUMBLE's law does, apart from what friction would do anyway (fsw/src/attitude_control.cpp). */
module DetumbleLaw {
  import opened Wire
  import opened Attitude
  import opened Plant
  import C = ClosedLoop
  import P = Pointing

  /** Which way, and how hard: the wheel is driven the way the platform turns, and the platform feels the reaction. */
  lemma DetumbleIs(g: Gains, rate: real)
    requires Sane(g) && g.torqueMax > 0.0 && g.kRate > 0.0
    ensures var t := DetumbleTorque(g, rate);
      && (Abs(rate) < g.rateDeadband ==> t == 0.0)
      && (Abs(rate) >= g.rateDeadband ==>
            Sign(t) == Sign(rate) && Abs(t) == P.Min(g.kRate * Abs(rate), g.torqueMax))
  {
    P.ProductSign(g.kRate, rate);
    P.Opposite(g.kRate, rate);
  }

  /** The flag both laws leave behind: the actuator's limit cut the demand. */
  lemma SaturatedIff(g: Gains, s: State, rate: real)
    requires Sane(g)
    ensures Detumbled(g, s, rate).saturated <==>
      Abs(rate) >= g.rateDeadband && Abs(g.kRate * rate) > g.torqueMax
    ensures Pointed(g, s, rate).saturated <==> Abs(PointDemand(g, s, rate)) > g.torqueMax
    ensures Detumbled(g, s, rate).(saturated := s.saturated) == s == Pointed(g, s, rate).(saturated := s.saturated)
  {
  }

  /** On the rig hung free each held torque takes a fixed share, about 18 parts in 100, off the rate. */
  lemma FreeDetumble(b: Body)
    requires DEFAULT_GAINS.rateDeadband <= Abs(b.rate) <= 2.0 && Abs(b.wheel) <= 20.0
    ensures Run(P.FREE, b, DetumbleTorque(DEFAULT_GAINS, b.rate), C.HOLD).rate
         == (1.0 - 0.008 * 0.1 / 0.00453) * b.rate
  {
    DetumbleIs(DEFAULT_GAINS, b.rate);
    P.FreeHeld(b, 0.008 * b.rate);
  }
}
