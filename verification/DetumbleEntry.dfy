/** When a run enters DETUMBLE of its own accord, and how fast it was seen to turn (fsw/src/executive.cpp). */
module DetumbleEntry {
  import opened Wire
  import opened Catalog
  import opened Executive
  import A = Attitude
  import M = ModeManager
  import Safing

  /** The cycle's control step, in STANDBY or DOWNLINK, sees the platform turn faster than the entry threshold. */
  predicate Tumbling(g: A.Gains, e: Exec, inp: Inputs, t: nat) {
    ModeNow(e, inp, t) in {STANDBY, DOWNLINK}
    && inp.rate.Some? && (inp.rate.value > g.detumbleEnter || inp.rate.value < -g.detumbleEnter)
  }

  /** One more in a row, or none; inhibiting a fault is no control step. */
  function Extended(g: A.Gains, e: Exec, step: Safing.Step, n: nat): nat {
    match step
    case Cycled(inp, t) => if Tumbling(g, e, inp, t) then n + 1 else 0
    case InhibitedFault(_) => n
  }

  /** How many control steps in a row, up to the end of the run and n before it, saw that. */
  function Row(g: A.Gains, e: Exec, steps: seq<Safing.Step>, n: nat): nat
    requires A.Sane(g)
    decreases |steps|
  {
    if steps == [] then n else Row(g, Safing.Do(g, e, steps[0]), steps[1..], Extended(g, e, steps[0], n))
  }

  /** Leaving `n` in a row behind, the run has counted this many since it last entered. */
  predicate Counts(count: nat, n: nat) { count == n % 4 }

  lemma CountsOn(count: nat, n: nat)
    requires Counts(count, n)
    ensures count < 4 && (count < 3 ==> Counts(count + 1, n + 1))
    ensures count == 3 <==> (n + 1) % 4 == 0
  {
  }

  /** The control step's own work, from the state the decision left. */
  lemma ControlEntry(g: A.Gains, d: Exec, inp: Inputs, t: nat)
    requires A.Sane(g) && Safing.ResumeOk(d) && d.enterCycles < 4
    ensures var m, r := d.modes.mode, Caught(g, Steered(g, Estimated(g, d, inp, t), inp, t), inp.rate, d.modes.mode, t);
      var fast := m in {STANDBY, DOWNLINK} && inp.rate.Some?
                  && (inp.rate.value > g.detumbleEnter || inp.rate.value < -g.detumbleEnter);
      && r.enterCycles == (if !fast || d.enterCycles == 3 then 0 else d.enterCycles + 1)
      && (m != DETUMBLE ==>
            if fast && d.enterCycles == 3
            then r.modes == M.Modes(DETUMBLE, d.modes.history + [M.Transition(t, Nominal, m, DETUMBLE)])
                 && r.resumeValid && r.resumeMode == m
            else r.modes == d.modes && r.resumeValid == d.resumeValid && r.resumeMode == d.resumeMode)
  {
    Safing.SteeredResume(g, Estimated(g, d, inp, t), inp, t);
  }

  /**
   * What the control step does to the modes, n fast ones in a row behind it: the fourth in a row enters DETUMBLE and
   * notes where to resume, any other leaves the mode and the note alone.
   */
  predicate Enters(g: A.Gains, e: Exec, inp: Inputs, t: nat, n: nat)
    requires A.Sane(g)
  {
    var m, d, r := ModeNow(e, inp, t), Decided(e, inp, t), Cycle(g, e, inp, t);
    if Tumbling(g, e, inp, t) && (n + 1) % 4 == 0
    then r.modes == M.Modes(DETUMBLE, d.modes.history + [M.Transition(t, Nominal, m, DETUMBLE)])
         && r.resumeValid && r.resumeMode == m
    else r.modes == d.modes && r.resumeValid == d.resumeValid && r.resumeMode == d.resumeMode
  }

  lemma CycleEntry(g: A.Gains, e: Exec, inp: Inputs, t: nat, n: nat)
    requires A.Sane(g) && Safing.ResumeOk(e) && Counts(e.enterCycles, n)
    ensures Counts(Cycle(g, e, inp, t).enterCycles, if Tumbling(g, e, inp, t) then n + 1 else 0)
    ensures ModeNow(e, inp, t) != DETUMBLE ==> Enters(g, e, inp, t, n)
  {
    Safing.DecidedResume(e, inp, t);
    CountsOn(e.enterCycles, n);
    ControlEntry(g, Decided(e, inp, t), inp, t);
  }

  lemma EntersInto(g: A.Gains, e: Exec, inp: Inputs, t: nat, n: nat)
    requires A.Sane(g) && Enters(g, e, inp, t, n) && ModeNow(e, inp, t) != DETUMBLE
    ensures Cycle(g, e, inp, t).modes.mode == DETUMBLE <==> Tumbling(g, e, inp, t) && (n + 1) % 4 == 0
  {
    assert Decided(e, inp, t).modes.mode != DETUMBLE;
  }

  lemma EntryFrom(g: A.Gains, e: Exec, inp: Inputs, t: nat, n: nat)
    requires A.Sane(g) && Safing.Inv(e) && Counts(e.enterCycles, n) && ModeNow(e, inp, t) != DETUMBLE
    ensures Cycle(g, e, inp, t).modes.mode == DETUMBLE <==> Tumbling(g, e, inp, t) && (n + 1) % 4 == 0
    ensures Enters(g, e, inp, t, n)
  {
    CycleEntry(g, e, inp, t, n);
    EntersInto(g, e, inp, t, n);
  }

  lemma {:induction false} RunCounts(g: A.Gains, e: Exec, steps: seq<Safing.Step>, n: nat)
    requires A.Sane(g) && Safing.Inv(e) && Counts(e.enterCycles, n)
    ensures Counts(Safing.After(g, e, steps).enterCycles, Row(g, e, steps, n))
    decreases |steps|
  {
    if steps != [] {
      var step := steps[0];
      if step.Cycled? { CycleEntry(g, e, step.inp, step.t, n); }
      Safing.StepKeepsInv(g, e, step);
      RunCounts(g, Safing.Do(g, e, step), steps[1..], Extended(g, e, step, n));
    }
  }

  lemma RunFromPower(g: A.Gains, steps: seq<Safing.Step>) returns (e: Exec, n: nat)
    requires A.Sane(g)
    ensures e == Safing.After(g, Initial(), steps) && n == Row(g, Initial(), steps, 0)
    ensures Safing.Inv(e) && Counts(e.enterCycles, n)
  {
    Safing.RunKeepsInv(g, Initial(), steps);
    RunCounts(g, Initial(), steps, 0);
    e, n := Safing.After(g, Initial(), steps), Row(g, Initial(), steps, 0);
  }

  /**
   * After any run from power-on: a control step that is not in DETUMBLE puts the vehicle there if and only if it is the
   * fourth in a row, or a later fourth, in STANDBY or DOWNLINK with a rate beyond the threshold.
   */
  lemma EntryOfARun(g: A.Gains, steps: seq<Safing.Step>, inp: Inputs, t: nat) returns (e: Exec, n: nat)
    requires A.Sane(g)
    ensures e == Safing.After(g, Initial(), steps) && n == Row(g, Initial(), steps, 0)
    ensures ModeNow(e, inp, t) != DETUMBLE ==>
      && (Cycle(g, e, inp, t).modes.mode == DETUMBLE <==> Tumbling(g, e, inp, t) && (n + 1) % 4 == 0)
      && Enters(g, e, inp, t, n)
  {
    e, n := RunFromPower(g, steps);
    if ModeNow(e, inp, t) != DETUMBLE { EntryFrom(g, e, inp, t, n); }
  }

  // ---- and where the way out leads ----

  lemma ControlExit(g: A.Gains, d: Exec, inp: Inputs, t: nat)
    requires A.Sane(g) && Safing.ResumeOk(d) && d.modes.mode == DETUMBLE
    ensures var r := Caught(g, Steered(g, Estimated(g, d, inp, t), inp, t), inp.rate, DETUMBLE, t);
      var to := if d.resumeValid then d.resumeMode else STANDBY;
      if r.modes.mode == DETUMBLE then r.modes == d.modes && r.resumeValid == d.resumeValid
      else r.modes == M.Modes(to, d.modes.history + [M.Transition(t, Nominal, DETUMBLE, to)]) && !r.resumeValid
  {
  }

  /**
   * After any run: a control step that settles DETUMBLE goes back to the mode the last entry came from if that entry
   * was autonomous, and to STANDBY if it was commanded; and the resume is spent.
   */
  lemma ExitGoesBack(g: A.Gains, steps: seq<Safing.Step>, inp: Inputs, t: nat)
    requires A.Sane(g)
    requires var e := Safing.After(g, Initial(), steps);
      ModeNow(e, inp, t) == DETUMBLE && Cycle(g, e, inp, t).modes.mode != DETUMBLE
    ensures var e := Safing.After(g, Initial(), steps);
      var h, r := Decided(e, inp, t).modes.history, Cycle(g, e, inp, t);
      && h != [] && h[|h| - 1].to == DETUMBLE
      && r.modes.mode == (if h[|h| - 1].trigger == Nominal then h[|h| - 1].from else STANDBY)
      && r.modes.history == h + [M.Transition(t, Nominal, DETUMBLE, r.modes.mode)] && !r.resumeValid
  {
    Safing.RunKeepsInv(g, Initial(), steps);
    var e := Safing.After(g, Initial(), steps);
    Safing.DecidedResume(e, inp, t);
    ControlExit(g, Decided(e, inp, t), inp, t);
  }

  // ---- the peak the wheel test reports ----

  /** The rates seen since the last PULSE_WHEEL acted on, its own cycle's included. */
  function Seen(e: Exec, step: Safing.Step, rates: seq<real>): seq<real> {
    match step
    case Cycled(inp, t) =>
      var kept := if Acts(e, inp, t) && inp.command.value.id == PULSE_WHEEL then [] else rates;
      if inp.rate.Some? then kept + [inp.rate.value] else kept
    case InhibitedFault(_) => rates
  }

  function SeenOver(g: A.Gains, e: Exec, steps: seq<Safing.Step>, rates: seq<real>): seq<real>
    requires A.Sane(g)
    decreases |steps|
  {
    if steps == [] then rates else SeenOver(g, Safing.Do(g, e, steps[0]), steps[1..], Seen(e, steps[0], rates))
  }

  predicate IsPeak(p: real, rates: seq<real>) {
    && p >= 0.0 && (p == 0.0 || p in rates || -p in rates)
    && forall i :: 0 <= i < |rates| ==> -p <= rates[i] <= p
  }

  lemma PeakOn(p: real, rates: seq<real>, w: real)
    requires IsPeak(p, rates)
    ensures IsPeak(if A.Abs(w) > p then A.Abs(w) else p, rates + [w])
  {
    assert w in rates + [w];
    assert p in rates ==> p in rates + [w];
    assert -p in rates ==> -p in rates + [w];
  }

  lemma DecidedPeak(e: Exec, inp: Inputs, t: nat)
    ensures Decided(e, inp, t).pulsePeak ==
      if Acts(e, inp, t) && inp.command.value.id == PULSE_WHEEL then 0.0 else e.pulsePeak
  {
    Safing.StagedMode(Sensed(e, inp, t), t);
  }

  lemma ControlPeak(g: A.Gains, d: Exec, inp: Inputs, t: nat)
    requires A.Sane(g)
    ensures Caught(g, Steered(g, Estimated(g, d, inp, t), inp, t), inp.rate, d.modes.mode, t).pulsePeak ==
      if inp.rate.Some? && A.Abs(inp.rate.value) > d.pulsePeak then A.Abs(inp.rate.value) else d.pulsePeak
  {
  }

  lemma StepPeak(g: A.Gains, e: Exec, step: Safing.Step, rates: seq<real>)
    requires A.Sane(g) && IsPeak(e.pulsePeak, rates)
    ensures IsPeak(Safing.Do(g, e, step).pulsePeak, Seen(e, step, rates))
  {
    if step.Cycled? {
      var inp, t := step.inp, step.t;
      DecidedPeak(e, inp, t);
      ControlPeak(g, Decided(e, inp, t), inp, t);
      var fired := Acts(e, inp, t) && inp.command.value.id == PULSE_WHEEL;
      if inp.rate.Some? {
        PeakOn(if fired then 0.0 else e.pulsePeak, if fired then [] else rates, inp.rate.value);
      }
    }
  }

  /** The peak is the largest magnitude of rate since the last wheel test, or zero if there was none. */
  lemma {:induction false} PeakOfARun(g: A.Gains, e: Exec, steps: seq<Safing.Step>, rates: seq<real>)
    requires A.Sane(g) && IsPeak(e.pulsePeak, rates)
    ensures IsPeak(Safing.After(g, e, steps).pulsePeak, SeenOver(g, e, steps, rates))
    decreases |steps|
  {
    if steps != [] {
      StepPeak(g, e, steps[0], rates);
      PeakOfARun(g, Safing.Do(g, e, steps[0]), steps[1..], Seen(e, steps[0], rates));
    }
  }
}
