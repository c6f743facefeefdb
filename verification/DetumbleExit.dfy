/** How many samples in the deadband an exit from DETUMBLE has really seen (fsw/src/executive.cpp). */
module DetumbleExit {
  import opened Wire
  import opened Catalog
  import opened Executive
  import A = Attitude
  import F = FaultManager
  import H = CommandHandler
  import M = ModeManager
  import S = SensorMonitor
  import Safing

  /** One control cycle. */
  datatype Turn = Turn(inp: Inputs, t: nat)

  function Next(g: A.Gains, e: Exec, k: Turn): Exec
    requires A.Sane(g)
  {
    Cycle(g, e, k.inp, k.t)
  }

  /** The control step runs in DETUMBLE and the cycle ends in it, or elsewhere. */
  predicate Remains(g: A.Gains, e: Exec, k: Turn)
    requires A.Sane(g)
  {
    ModeNow(e, k.inp, k.t) == DETUMBLE && Next(g, e, k).modes.mode == DETUMBLE
  }

  predicate Leaves(g: A.Gains, e: Exec, k: Turn)
    requires A.Sane(g)
  {
    ModeNow(e, k.inp, k.t) == DETUMBLE && Next(g, e, k).modes.mode != DETUMBLE
  }

  /** What one cycle does to a count of samples in the deadband in a row; no sample leaves it alone. */
  function Counted(g: A.Gains, k: Turn, n: nat): nat {
    match k.inp.rate
    case None => n
    case Some(w) => if A.Abs(w) < g.rateDeadband then n + 1 else 0
  }

  lemma ControlLeavesIff(g: A.Gains, d: Exec, k: Turn)
    requires A.Sane(g) && Safing.ResumeOk(d) && d.doneCycles <= DETUMBLE_DONE && d.modes.mode == DETUMBLE
    ensures var r := Caught(g, Steered(g, Estimated(g, d, k.inp, k.t), k.inp, k.t), k.inp.rate, DETUMBLE, k.t);
      && (r.modes.mode != DETUMBLE <==> Counted(g, k, d.doneCycles) > DETUMBLE_DONE)
      && (r.modes.mode == DETUMBLE ==> r.doneCycles == Counted(g, k, d.doneCycles))
  {
  }

  /** The control step in DETUMBLE counts that way, and leaves exactly when the count would pass ten. */
  lemma LeavesIff(g: A.Gains, e: Exec, k: Turn)
    requires A.Sane(g) && Safing.ResumeOk(e) && e.doneCycles <= DETUMBLE_DONE && ModeNow(e, k.inp, k.t) == DETUMBLE
    ensures Leaves(g, e, k) <==> Counted(g, k, e.doneCycles) > DETUMBLE_DONE
    ensures Remains(g, e, k) ==> Next(g, e, k).doneCycles == Counted(g, k, e.doneCycles)
  {
    Safing.DecidedResume(e, k.inp, k.t);
    ControlLeavesIff(g, Decided(e, k.inp, k.t), k);
  }

  /** A stay in DETUMBLE up to and including the cycle that leaves. */
  predicate StaysAndLeaves(g: A.Gains, e: Exec, ks: seq<Turn>)
    requires A.Sane(g)
    decreases |ks|
  {
    ks != [] &&
    if |ks| == 1 then Leaves(g, e, ks[0]) else Remains(g, e, ks[0]) && StaysAndLeaves(g, Next(g, e, ks[0]), ks[1..])
  }

  /** Samples in the deadband in a row up to the end, n of them before the first. */
  function InARow(g: A.Gains, ks: seq<Turn>, n: nat): nat {
    if ks == [] then n else InARow(g, ks[1..], Counted(g, ks[0], n))
  }

  /** Some sample was outside the deadband. */
  predicate AnyOut(g: A.Gains, ks: seq<Turn>) {
    exists i :: 0 <= i < |ks| && ks[i].inp.rate.Some? && A.Abs(ks[i].inp.rate.value) >= g.rateDeadband
  }

  lemma {:induction false} RowFrom(g: A.Gains, ks: seq<Turn>, n: nat)
    ensures InARow(g, ks, n) == InARow(g, ks, 0) + if AnyOut(g, ks) then 0 else n
    decreases |ks|
  {
    if ks != [] {
      var rest := ks[1..];
      RowFrom(g, rest, Counted(g, ks[0], n));
      RowFrom(g, rest, Counted(g, ks[0], 0));
      AnyOutSplits(g, ks);
    }
  }

  lemma AnyOutSplits(g: A.Gains, ks: seq<Turn>)
    requires ks != []
    ensures AnyOut(g, ks) <==>
      AnyOut(g, ks[1..]) || (ks[0].inp.rate.Some? && A.Abs(ks[0].inp.rate.value) >= g.rateDeadband)
  {
    if AnyOut(g, ks[1..]) {
      var i :| 0 <= i < |ks| - 1 && ks[1..][i].inp.rate.Some? && A.Abs(ks[1..][i].inp.rate.value) >= g.rateDeadband;
      assert ks[i + 1] == ks[1..][i];
    }
  }

  /** A stay leaves on the eleventh sample in a row, counting from whatever the count was when it began. */
  lemma {:induction false} LeavesAtEleven(g: A.Gains, e: Exec, ks: seq<Turn>)
    requires A.Sane(g) && Safing.ResumeOk(e) && e.doneCycles <= DETUMBLE_DONE && StaysAndLeaves(g, e, ks)
    ensures InARow(g, ks, e.doneCycles) == DETUMBLE_DONE + 1
    decreases |ks|
  {
    LeavesIff(g, e, ks[0]);
    if |ks| == 1 {
      assert ks[1..] == [];
    } else {
      Safing.CycleResume(g, e, ks[0].inp, ks[0].t);
      LeavesAtEleven(g, Next(g, e, ks[0]), ks[1..]);
    }
  }

  /** The first cycle of a stay: DETUMBLE was entered since the last control step, or in this cycle. */
  predicate Enters(e: Exec) { e.modes.mode != DETUMBLE || e.lastMode != DETUMBLE }

  /**
   * Exactly when an exit has been earned. After any run, a stay that begins by entering DETUMBLE ends with eleven
   * samples in a row inside the deadband since that entry if and only if the control step before it was not in
   * DETUMBLE, or some sample of the stay was outside. Re-entered straight after an exit and never outside, one will do.
   */
  lemma ExitOfARun(g: A.Gains, steps: seq<Safing.Step>, ks: seq<Turn>)
    requires A.Sane(g)
    requires var e := Safing.After(g, Initial(), steps); Enters(e) && StaysAndLeaves(g, e, ks)
    ensures var e := Safing.After(g, Initial(), steps);
      && (InARow(g, ks, 0) == 11 <==> e.lastMode != DETUMBLE || AnyOut(g, ks))
      && (InARow(g, ks, 0) != 11 ==> InARow(g, ks, 0) == 1)
  {
    Safing.RunKeepsInv(g, Initial(), steps);
    ExitCount(g, Safing.After(g, Initial(), steps), ks);
  }

  lemma ExitCount(g: A.Gains, e: Exec, ks: seq<Turn>)
    requires A.Sane(g) && Safing.ResumeOk(e) && Safing.CountOk(e) && Enters(e) && StaysAndLeaves(g, e, ks)
    ensures InARow(g, ks, 0) == if e.lastMode != DETUMBLE || AnyOut(g, ks) then 11 else 1
  {
    LeavesAtEleven(g, e, ks);
    RowFrom(g, ks, e.doneCycles);
  }

  // ---- a fresh DETUMBLE that does not earn its exit ----

  /** A cycle that brings a rate of zero, perhaps a command, and nothing else. */
  function Still(command: Option<H.Command>, t: nat): Turn {
    Turn(Inputs([], command, S.Readings(None, None, None, None, None), Some(0.0), None), t)
  }

  function ToDetumble(n: nat): H.Command { H.Command.Command(SET_MODE, 2, n) }

  /** Nothing wrong so far: no fault, no wheel yet, the last command recent. */
  predicate Healthy(e: Exec, t: nat) {
    e.faults == F.Initial() && e.monitor == S.INITIAL && t <= 5000 && e.commands.lastAt == 0
  }

  lemma StillSenses(e: Exec, command: Option<H.Command>, t: nat)
    requires Healthy(e, t)
    ensures var k := Still(command, t); Sensed(e, k.inp, t) == e.(commands := Sensed(e, k.inp, t).commands)
  {
    var fed := F.UpdateAll(e.faults, [], t);
    var wheel := S.Samples(e.monitor, S.Readings(None, None, None, None, None), t);
    assert wheel == [F.Sample(WHEEL_DROPOUT, false)];
    assert wheel[1..] == [];
    assert F.UpdateAll(fed, wheel, t) == F.Update(fed, WHEEL_DROPOUT, false, t);
    assert F.NoStreaks()[WHEEL_DROPOUT := 0] == F.NoStreaks() == F.NoStreaks()[COMMAND_LINK_LOSS := 0];
  }

  /** In DETUMBLE at rest, commanded there, with n samples counted. */
  predicate AtRest(e: Exec, n: nat, t: nat) {
    && Healthy(e, t) && e.modes.mode == DETUMBLE && e.lastMode == DETUMBLE && !e.resumeValid && e.doneCycles == n
    && e.commands.last.Some? && e.commands.last.value.0 == 1
  }

  lemma CommandEnters(e: Exec, n: nat, t: nat)
    requires Healthy(e, t) && (e.modes.mode == STANDBY || (e.modes.mode == BOOT && e.bootCycles == 0))
    requires e.commands.last.Some? ==> e.commands.last.value.0 != n
    ensures var k := Still(Some(ToDetumble(n)), t);
      var d := Decided(e, k.inp, t);
      && Acts(e, k.inp, t) && d.modes.mode == DETUMBLE && !d.resumeValid
      && d.faults == e.faults && d.monitor == e.monitor && d.doneCycles == e.doneCycles
      && d.commands.lastAt == t && d.commands.last.Some? && d.commands.last.value.0 == n
  {
    StillSenses(e, Some(ToDetumble(n)), t);
  }

  lemma FirstTurn() returns (r: Exec)
    ensures r == Next(A.DEFAULT_GAINS, Initial(), Still(Some(ToDetumble(1)), 0)) && AtRest(r, 1, 0)
  {
    var k := Still(Some(ToDetumble(1)), 0);
    r := Next(A.DEFAULT_GAINS, Initial(), k);
    CommandEnters(Initial(), 1, 0);
    LeavesIff(A.DEFAULT_GAINS, Initial(), k);
    Safing.CycleKeepsDecided(A.DEFAULT_GAINS, Initial(), k.inp, 0);
    Safing.CycleCounts(A.DEFAULT_GAINS, Initial(), k.inp, 0);
    Untouched(A.DEFAULT_GAINS, Initial(), k);
  }

  /** Nothing but an autonomous entry makes a resume due. */
  lemma Untouched(g: A.Gains, e: Exec, k: Turn)
    requires A.Sane(g) && ModeNow(e, k.inp, k.t) == DETUMBLE && !Decided(e, k.inp, k.t).resumeValid
    ensures !Next(g, e, k).resumeValid
    ensures Next(g, e, k).modes.mode in {DETUMBLE, STANDBY}
  {
  }

  lemma NextTurn(e: Exec, n: nat, t: nat) returns (r: Exec)
    requires AtRest(e, n, t) && n <= DETUMBLE_DONE && Safing.ResumeOk(e)
    ensures r == Next(A.DEFAULT_GAINS, e, Still(None, t)) && Healthy(r, t) && r.lastMode == DETUMBLE
    ensures r.commands == e.commands
    ensures n < DETUMBLE_DONE ==> AtRest(r, n + 1, t)
    ensures n == DETUMBLE_DONE ==> r.modes.mode == STANDBY && r.doneCycles == DETUMBLE_DONE
  {
    var g, k := A.DEFAULT_GAINS, Still(None, t);
    r := Next(g, e, k);
    StillSenses(e, None, t);
    assert Decided(e, k.inp, t).modes == e.modes;
    LeavesIff(g, e, k);
    Safing.CycleKeepsDecided(g, e, k.inp, t);
    Safing.CycleCounts(g, e, k.inp, t);
    Untouched(g, e, k);
  }

  /** Some run from power-up with the default gains ends here. */
  ghost predicate Reachable(e: Exec) { exists steps :: Safing.After(A.DEFAULT_GAINS, Initial(), steps) == e }

  lemma {:induction false} OneMore(g: A.Gains, e: Exec, steps: seq<Safing.Step>, step: Safing.Step)
    requires A.Sane(g)
    ensures Safing.After(g, e, steps + [step]) == Safing.Do(g, Safing.After(g, e, steps), step)
    decreases |steps|
  {
    if steps == [] {
      assert [] + [step] == [step] && [step][1..] == [];
      assert Safing.After(g, Safing.Do(g, e, step), []) == Safing.Do(g, e, step);
    } else {
      assert (steps + [step])[1..] == steps[1..] + [step];
      OneMore(g, Safing.Do(g, e, steps[0]), steps[1..], step);
    }
  }

  lemma Extend(e: Exec, k: Turn)
    requires Reachable(e) && Safing.ResumeOk(e)
    ensures Reachable(Next(A.DEFAULT_GAINS, e, k)) && Safing.ResumeOk(Next(A.DEFAULT_GAINS, e, k))
  {
    var g, step := A.DEFAULT_GAINS, Safing.Cycled(k.inp, k.t);
    var steps :| Safing.After(g, Initial(), steps) == e;
    OneMore(g, Initial(), steps, step);
    assert Safing.After(g, Initial(), steps + [step]) == Next(g, e, k);
    Safing.CycleResume(g, e, k.inp, k.t);
  }

  lemma RestTurn(e: Exec, n: nat, t: nat) returns (r: Exec)
    requires Reachable(e) && Safing.ResumeOk(e) && AtRest(e, n, t) && n < DETUMBLE_DONE
    ensures Reachable(r) && Safing.ResumeOk(r) && AtRest(r, n + 1, t)
  {
    Extend(e, Still(None, t));
    r := NextTurn(e, n, t);
  }

  lemma {:induction false} RestsOn(e: Exec, n: nat, t: nat) returns (r: Exec)
    requires Reachable(e) && Safing.ResumeOk(e) && AtRest(e, n, t) && n <= DETUMBLE_DONE
    requires t + 100 * (DETUMBLE_DONE - n) <= 5000
    ensures Reachable(r) && Safing.ResumeOk(r) && AtRest(r, DETUMBLE_DONE, t + 100 * (DETUMBLE_DONE - n))
    decreases DETUMBLE_DONE - n
  {
    if n == DETUMBLE_DONE {
      r := e;
    } else {
      var m := RestTurn(e, n, t + 100);
      r := RestsOn(m, n + 1, t + 100);
    }
  }

  /** Commanded into DETUMBLE from power-up at rest, the vehicle has left for STANDBY eleven cycles later. */
  lemma LeavesFirst() returns (e: Exec)
    ensures Reachable(e) && Safing.ResumeOk(e) && Healthy(e, 1100) && e.commands.last.Some?
    ensures e.commands.last.value.0 == 1
    ensures e.modes.mode == STANDBY && e.lastMode == DETUMBLE && e.doneCycles == DETUMBLE_DONE
  {
    var a := Commanded();
    var b := RestsOn(a, 1, 0);
    Extend(b, Still(None, 1000));
    e := NextTurn(b, DETUMBLE_DONE, 1000);
  }

  lemma Commanded() returns (r: Exec)
    ensures Reachable(r) && Safing.ResumeOk(r) && AtRest(r, 1, 0)
  {
    assert Safing.After(A.DEFAULT_GAINS, Initial(), []) == Initial();
    Extend(Initial(), Still(Some(ToDetumble(1)), 0));
    r := FirstTurn();
  }

  lemma Reenters(e: Exec, k: Turn)
    requires Healthy(e, 1100) && Safing.ResumeOk(e) && e.modes.mode == STANDBY && e.doneCycles == DETUMBLE_DONE
    requires e.commands.last.Some? && e.commands.last.value.0 == 1 && k == Still(Some(ToDetumble(2)), 1100)
    ensures Acts(e, k.inp, k.t) && Leaves(A.DEFAULT_GAINS, e, k)
  {
    CommandEnters(e, 2, 1100);
    LeavesIff(A.DEFAULT_GAINS, e, k);
    assert Counted(A.DEFAULT_GAINS, k, DETUMBLE_DONE) == DETUMBLE_DONE + 1;
  }

  lemma OneSample(k: Turn)
    requires k == Still(Some(ToDetumble(2)), 1100)
    ensures InARow(A.DEFAULT_GAINS, [k], 0) == 1
  {
    assert [k][1..] == [];
  }

  /**
   * A fresh DETUMBLE does not always earn its exit from zero: commanded there again on the very next cycle after an
   * exit, one sample in the deadband is enough to leave.
   */
  lemma ReentryLeavesAtOnce() returns (e: Exec, k: Turn)
    ensures Reachable(e) && e.modes.mode == STANDBY && e.lastMode == DETUMBLE
    ensures k == Still(Some(ToDetumble(2)), 1100) && Acts(e, k.inp, k.t)
    ensures Leaves(A.DEFAULT_GAINS, e, k) && InARow(A.DEFAULT_GAINS, [k], 0) == 1
  {
    e := LeavesFirst();
    k := Still(Some(ToDetumble(2)), 1100);
    Reenters(e, k);
    OneSample(k);
  }
}
