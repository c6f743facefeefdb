/** What every run of the executive keeps: safing, the mode history, autonomous resume, edge visibility. */
module Safing {
  import opened Wire
  import opened Catalog
  import opened Executive
  import A = Attitude
  import F = FaultManager
  import H = CommandHandler
  import M = ModeManager
  import S = SensorMonitor

  /** The command the cycle acts on asks for this mode. */
  predicate Commands(e: Exec, inp: Inputs, t: nat, to: Mode) {
    Acts(e, inp, t) && inp.command.value.id == SET_MODE && inp.command.value.arg < 6
    && ModeOf(inp.command.value.arg) == to
  }

  lemma ActedSetMode(e: Exec, inp: Inputs, t: nat)
    requires Acts(e, inp, t) && inp.command.value.id == SET_MODE
    ensures inp.command.value.arg < 6
    ensures M.TransitionLegal(e.modes.mode, Command, ModeOf(inp.command.value.arg))
  {
    H.ExecutedIsValid(e.commands, inp.command.value, e.modes.mode, t);
  }

  /** Safing, the boot check and the fallbacks. */
  function Staged(s: Exec, t: nat): Exec { FellBack(Booted(Safed(s, t), t), t) }

  lemma StagedMode(s: Exec, t: nat)
    ensures var r := Staged(s, t);
      && r == s.(modes := r.modes, bootCycles := r.bootCycles)
      && (s.modes.mode == SAFE || r.modes.mode in {BOOT, DETUMBLE} ==> r.modes == s.modes)
      && (Safing(s) ==> r.modes.mode == SAFE)
      && (r.modes.mode == SAFE ==> Safing(s) || s.modes.mode == SAFE)
  {
  }

  /** Where the mode stands when the control step runs. */
  lemma ModeAtControl(e: Exec, inp: Inputs, t: nat)
    ensures var m0, m := e.modes.mode, ModeNow(e, inp, t);
      && (m0 == SAFE ==> m == if Commands(e, inp, t, STANDBY) then STANDBY else SAFE)
      && (m0 != SAFE && F.ShouldEnterSafe(Sensed(e, inp, t).faults) ==> m == SAFE)
      && (m0 != SAFE && !F.ShouldEnterSafe(Sensed(e, inp, t).faults) ==> (m == SAFE <==> Commands(e, inp, t, SAFE)))
      && (m == BOOT ==> m0 == BOOT)
  {
    var s := Sensed(e, inp, t);
    StagedMode(s, t);
    assert Decided(e, inp, t) ==
      if Acts(e, inp, t) then Dispatched(Staged(s, t), inp.command.value, Safing(s), t) else Staged(s, t);
    if Acts(e, inp, t) && inp.command.value.id == SET_MODE { ActedSetMode(e, inp, t); }
  }

  /** An executed SET_MODE is never quietly ignored: the control step runs in that mode unless the cycle safes. */
  lemma ExecutedSetModeHolds(e: Exec, inp: Inputs, t: nat, to: Mode)
    requires Commands(e, inp, t, to)
    ensures ModeNow(e, inp, t) == if Safing(Sensed(e, inp, t)) then SAFE else to
  {
    var s := Sensed(e, inp, t);
    StagedMode(s, t);
    StagedStandby(s, t);
    ActedSetMode(e, inp, t);
    assert Decided(e, inp, t) == Dispatched(Staged(s, t), inp.command.value, Safing(s), t);
  }

  lemma StagedStandby(s: Exec, t: nat)
    ensures !Safing(s) ==> Staged(s, t).modes.mode in {s.modes.mode, STANDBY}
  {
  }

  lemma ControlModes(g: A.Gains, d: Exec, inp: Inputs, t: nat)
    requires A.Sane(g) && ResumeOk(d)
    ensures var m := d.modes.mode;
      var f := Caught(g, Steered(g, Estimated(g, d, inp, t), inp, t), inp.rate, m, t).modes.mode;
      && (m in {BOOT, POINTING, SAFE} ==> f == m)
      && (m == DETUMBLE ==> f in {DETUMBLE, STANDBY, DOWNLINK})
      && (m in {STANDBY, DOWNLINK} ==> f in {m, DETUMBLE})
      && (m in {STANDBY, DOWNLINK} && d.enterCycles == 0 ==> f == m)
  {
  }

  /** What the rest of the cycle can still do to it. */
  lemma ModeAfterControl(g: A.Gains, e: Exec, inp: Inputs, t: nat)
    requires A.Sane(g) && ResumeOk(e)
    ensures var m, f := ModeNow(e, inp, t), Cycle(g, e, inp, t).modes.mode;
      && (m in {BOOT, POINTING, SAFE} ==> f == m)
      && (m == DETUMBLE ==> f in {DETUMBLE, STANDBY, DOWNLINK})
      && (m in {STANDBY, DOWNLINK} ==> f in {m, DETUMBLE})
      && (m in {STANDBY, DOWNLINK} && e.enterCycles == 0 ==> f == m)
  {
    DecidedResume(e, inp, t);
    ControlModes(g, Decided(e, inp, t), inp, t);
  }

  // ---- resuming what an autonomous DETUMBLE interrupted ----

  /** In DETUMBLE a resume is due exactly if the entry was autonomous, and then it is back to where it came from. */
  predicate ResumeOk(e: Exec) {
    e.modes.mode == DETUMBLE ==>
      && e.modes.history != []
      && var entry := e.modes.history[|e.modes.history| - 1];
         && entry.to == DETUMBLE
         && (e.resumeValid <==> entry.trigger == Nominal)
         && (e.resumeValid ==> e.resumeMode == entry.from && e.resumeMode in {STANDBY, DOWNLINK})
  }

  lemma DispatchedResume(r: Exec, c: H.Command, safing: bool, t: nat)
    requires ResumeOk(r)
    requires c.id == SET_MODE && c.arg < 6 && r.modes.mode == DETUMBLE ==>
      M.TransitionLegal(DETUMBLE, Command, ModeOf(c.arg))
    ensures ResumeOk(Dispatched(r, c, safing, t))
    ensures Dispatched(r, c, safing, t).enterCycles == r.enterCycles
    ensures Dispatched(r, c, safing, t).doneCycles == r.doneCycles
  {
  }

  lemma DecidedResume(e: Exec, inp: Inputs, t: nat)
    requires ResumeOk(e)
    ensures ResumeOk(Decided(e, inp, t))
    ensures Decided(e, inp, t).enterCycles == e.enterCycles && Decided(e, inp, t).doneCycles == e.doneCycles
  {
    var s := Sensed(e, inp, t);
    StagedMode(s, t);
    if Acts(e, inp, t) {
      if inp.command.value.id == SET_MODE { ActedSetMode(e, inp, t); }
      DispatchedResume(Staged(s, t), inp.command.value, Safing(s), t);
    }
  }

  lemma SteeredResume(g: A.Gains, d: Exec, inp: Inputs, t: nat)
    requires A.Sane(g) && ResumeOk(d)
    ensures ResumeOk(Steered(g, d, inp, t))
    ensures d.modes.mode != DETUMBLE ==> Steered(g, d, inp, t).modes == d.modes
  {
  }

  lemma CaughtResume(g: A.Gains, s: Exec, rate: Option<real>, mode: Mode, t: nat)
    requires ResumeOk(s) && (mode != DETUMBLE ==> s.modes.mode == mode)
    ensures ResumeOk(Caught(g, s, rate, mode, t))
  {
  }

  lemma CycleResume(g: A.Gains, e: Exec, inp: Inputs, t: nat)
    requires A.Sane(g) && ResumeOk(e)
    ensures ResumeOk(Cycle(g, e, inp, t))
  {
    DecidedResume(e, inp, t);
    var d := Estimated(g, Decided(e, inp, t), inp, t);
    SteeredResume(g, d, inp, t);
    CaughtResume(g, Steered(g, d, inp, t), inp.rate, d.modes.mode, t);
  }

  /** So the request that resumes is never refused. */
  lemma ResumeNeverRefused(e: Exec)
    requires ResumeOk(e) && e.modes.mode == DETUMBLE && e.resumeValid
    ensures M.TransitionLegal(DETUMBLE, Nominal, e.resumeMode)
  {
  }

  // ---- one cycle ----

  /** A vehicle in SAFE has not been counting towards DETUMBLE. */
  predicate CalmInSafe(e: Exec) { e.modes.mode == SAFE ==> e.enterCycles == 0 }

  /**
   * When a cycle ends in SAFE. An uninhibited Critical fault latched as the cycle samples its faults always ends it
   * there, unless it began in SAFE and acted on SET_MODE STANDBY; without one only a command puts it there.
   */
  lemma EndsSafeIff(g: A.Gains, e: Exec, inp: Inputs, t: nat)
    requires A.Sane(g) && ResumeOk(e) && CalmInSafe(e)
    ensures Cycle(g, e, inp, t).modes.mode == SAFE <==>
      if e.modes.mode == SAFE then !Commands(e, inp, t, STANDBY)
      else F.ShouldEnterSafe(Sensed(e, inp, t).faults) || Commands(e, inp, t, SAFE)
  {
    ModeAtControl(e, inp, t);
    ModeAfterControl(g, e, inp, t);
  }

  /** Out of SAFE there is one way, on one command, and it ends the cycle in STANDBY whatever fault is latched. */
  lemma LeavesSafeForStandby(g: A.Gains, e: Exec, inp: Inputs, t: nat)
    requires A.Sane(g) && ResumeOk(e) && CalmInSafe(e) && e.modes.mode == SAFE
    ensures Cycle(g, e, inp, t).modes.mode == if Commands(e, inp, t, STANDBY) then STANDBY else SAFE
  {
    ModeAtControl(e, inp, t);
    DecidedResume(e, inp, t);
    ModeAfterControl(g, e, inp, t);
  }

  lemma CycleCalm(g: A.Gains, e: Exec, inp: Inputs, t: nat)
    requires A.Sane(g) && ResumeOk(e)
    ensures CalmInSafe(Cycle(g, e, inp, t))
  {
    ModeAfterControl(g, e, inp, t);
  }

  lemma DispatchedChains(r: Exec, c: H.Command, safing: bool, t: nat)
    requires M.Chains(r.modes) && (c.id == SET_MODE ==> c.arg < 6)
    ensures M.Chains(Dispatched(r, c, safing, t).modes)
  {
    if c.id == SET_MODE { M.RequestChains(r.modes, ModeOf(c.arg), Command, t); }
  }

  lemma DecidedChains(e: Exec, inp: Inputs, t: nat)
    requires M.Chains(e.modes)
    ensures M.Chains(Decided(e, inp, t).modes)
  {
    var s := Sensed(e, inp, t);
    StagedChains(s, t);
    if Acts(e, inp, t) {
      if inp.command.value.id == SET_MODE { ActedSetMode(e, inp, t); }
      DispatchedChains(Staged(s, t), inp.command.value, Safing(s), t);
    }
  }

  lemma RetreatChains(m: M.Modes, faults: F.Faults, f: Fault, from: set<Mode>, t: nat)
    requires M.Chains(m)
    ensures M.Chains(Retreat(m, faults, f, from, t))
  {
    M.RequestChains(m, STANDBY, FaultEntry, t);
  }

  lemma FellBackChains(e: Exec, t: nat)
    requires M.Chains(e.modes)
    ensures M.Chains(FellBack(e, t).modes)
  {
    RetreatChains(e.modes, e.faults, ACCEL_GYRO_DROPOUT, STEERING, t);
    var m1 := Retreat(e.modes, e.faults, ACCEL_GYRO_DROPOUT, STEERING, t);
    RetreatChains(m1, e.faults, POWER_DROPOUT, STEERING + {DOWNLINK}, t);
    var m2 := Retreat(m1, e.faults, POWER_DROPOUT, STEERING + {DOWNLINK}, t);
    RetreatChains(m2, e.faults, WHEEL_DROPOUT, STEERING, t);
    RetreatChains(Retreat(m2, e.faults, WHEEL_DROPOUT, STEERING, t), e.faults, WHEEL_SATURATED, STEERING, t);
  }

  lemma StagedChains(s: Exec, t: nat)
    requires M.Chains(s.modes)
    ensures M.Chains(Staged(s, t).modes)
  {
    M.RequestChains(s.modes, SAFE, FaultEntry, t);
    M.RequestChains(Safed(s, t).modes, STANDBY, Nominal, t);
    FellBackChains(Booted(Safed(s, t), t), t);
  }

  lemma SettledChains(g: A.Gains, e: Exec, rate: real, t: nat)
    requires M.Chains(e.modes)
    ensures M.Chains(Settled(g, e, rate, t).modes)
  {
    M.RequestChains(e.modes, e.resumeMode, Nominal, t);
    M.RequestChains(e.modes, STANDBY, Nominal, t);
  }

  lemma SteeredChains(g: A.Gains, d: Exec, inp: Inputs, t: nat)
    requires A.Sane(g) && M.Chains(d.modes)
    ensures M.Chains(Steered(g, d, inp, t).modes)
  {
    if d.modes.mode == DETUMBLE && inp.rate.Some? {
      var w := inp.rate.value;
      var p := if Pulsing(d, t) then d else d.(pulseUntil := 0, pulseTorque := 0.0);
      SettledChains(g, p.(control := A.Detumbled(g, p.control, w)), w, t);
    }
  }

  lemma CycleChains(g: A.Gains, e: Exec, inp: Inputs, t: nat)
    requires A.Sane(g) && M.Chains(e.modes)
    ensures M.Chains(Cycle(g, e, inp, t).modes)
  {
    DecidedChains(e, inp, t);
    var d := Estimated(g, Decided(e, inp, t), inp, t);
    SteeredChains(g, d, inp, t);
    M.RequestChains(Steered(g, d, inp, t).modes, DETUMBLE, Nominal, t);
  }

  lemma SensedEdges(e: Exec, inp: Inputs, t: nat)
    ensures e.faults.edges <= Sensed(e, inp, t).faults.edges
    ensures |Sensed(e, inp, t).faults.edges| - |e.faults.edges| <= FAULTS
  {
    var samples := S.Samples(e.monitor, inp.readings, t);
    var fed := F.UpdateAll(e.faults, inp.reports, t);
    F.SamplesAddEdges(e.faults, inp.reports, t);
    F.SamplesAddEdges(fed, samples, t);
    var h := Sensed(e, inp, t).commands;
    F.SamplesAddEdges(F.UpdateAll(fed, samples, t), [F.Sample(COMMAND_LINK_LOSS, H.LinkLost(h, t))], t);
    F.AtMostThirteen(Sensed(e, inp, t).faults.active, FAULTS);
  }

  /** The control step judges nothing: faults, detectors and commands are as the decision left them. */
  lemma ControlKeeps(g: A.Gains, d: Exec, inp: Inputs, mode: Mode, t: nat)
    requires A.Sane(g)
    ensures var a, b, c := Estimated(g, d, inp, t), Steered(g, d, inp, t), Caught(g, d, inp.rate, mode, t);
      && a.faults == b.faults == c.faults == d.faults && a.monitor == b.monitor == c.monitor == d.monitor
      && a.commands == b.commands == c.commands == d.commands
  {
  }

  lemma CycleKeepsDecided(g: A.Gains, e: Exec, inp: Inputs, t: nat)
    requires A.Sane(g)
    ensures var d, c := Decided(e, inp, t), Cycle(g, e, inp, t);
      c.faults == d.faults && c.monitor == d.monitor && c.commands == d.commands
  {
    var d := Decided(e, inp, t);
    var m := Estimated(g, d, inp, t);
    ControlKeeps(g, d, inp, BOOT, t);
    ControlKeeps(g, m, inp, BOOT, t);
    ControlKeeps(g, Steered(g, m, inp, t), inp, m.modes.mode, t);
  }

  lemma DecidedKeepsSensed(e: Exec, inp: Inputs, t: nat)
    ensures Decided(e, inp, t).monitor == Sensed(e, inp, t).monitor
    ensures Decided(e, inp, t).commands == Sensed(e, inp, t).commands
  {
    StagedMode(Sensed(e, inp, t), t);
  }

  /** After sampling only a CLEAR_FAULT touches the faults. */
  lemma LaterEdges(g: A.Gains, e: Exec, inp: Inputs, t: nat)
    requires A.Sane(g)
    ensures var s, c := Sensed(e, inp, t).faults, Cycle(g, e, inp, t).faults;
      c == s || (Acts(e, inp, t) && inp.command.value.id == CLEAR_FAULT && inp.command.value.arg < FAULTS
                 && c == F.Clear(s, inp.command.value.arg, t))
  {
    StagedMode(Sensed(e, inp, t), t);
    CycleKeepsDecided(g, e, inp, t);
  }

  /** One cycle logs at most fourteen fault edges, so the ring of thirty-two still holds all of them. */
  lemma EdgesOfACycle(g: A.Gains, e: Exec, inp: Inputs, t: nat)
    requires A.Sane(g)
    ensures var before, after := e.faults.edges, Cycle(g, e, inp, t).faults.edges;
      && before <= after && |after| - |before| <= 14
      && forall i :: |before| <= i < |after| ==> after[i] in Recent(after)
  {
    SensedEdges(e, inp, t);
    LaterEdges(g, e, inp, t);
    var after := Cycle(g, e, inp, t).faults.edges;
    forall i | |e.faults.edges| <= i < |after| ensures after[i] in Recent(after) {
      RecentHolds(after, i);
    }
  }

  // ---- whole runs ----

  datatype Step = Cycled(inp: Inputs, t: nat) | InhibitedFault(f: Fault)

  function Do(g: A.Gains, e: Exec, step: Step): Exec
    requires A.Sane(g)
  {
    match step
    case Cycled(inp, t) => Cycle(g, e, inp, t)
    case InhibitedFault(f) => e.(faults := F.Inhibit(e.faults, f, true))
  }

  function After(g: A.Gains, e: Exec, steps: seq<Step>): Exec
    requires A.Sane(g)
    decreases |steps|
  {
    if steps == [] then e else After(g, Do(g, e, steps[0]), steps[1..])
  }

  /**
   * DETUMBLE's exit count between cycles: within ten, zero unless the last control step was in DETUMBLE, and left at
   * ten by the cycle that exits.
   */
  predicate CountOk(e: Exec) {
    && e.doneCycles <= DETUMBLE_DONE
    && (e.lastMode != DETUMBLE ==> e.doneCycles == 0)
    && (e.lastMode == DETUMBLE && e.modes.mode != DETUMBLE ==> e.doneCycles == DETUMBLE_DONE)
  }

  ghost predicate Inv(e: Exec) { M.Chains(e.modes) && ResumeOk(e) && CalmInSafe(e) && CountOk(e) }

  lemma SteeredCounts(g: A.Gains, d: Exec, inp: Inputs, t: nat)
    requires A.Sane(g) && ResumeOk(d) && d.doneCycles <= DETUMBLE_DONE
    ensures var s := Steered(g, d, inp, t);
      && s.doneCycles <= DETUMBLE_DONE && s.lastMode == d.lastMode
      && (d.modes.mode != DETUMBLE ==> s.doneCycles == 0)
      && (d.modes.mode == DETUMBLE && s.modes.mode != DETUMBLE ==> s.doneCycles == DETUMBLE_DONE)
  {
  }

  lemma ControlCounts(g: A.Gains, d: Exec, inp: Inputs, t: nat)
    requires A.Sane(g) && ResumeOk(d) && d.doneCycles <= DETUMBLE_DONE
    ensures var r := Caught(g, Steered(g, Estimated(g, d, inp, t), inp, t), inp.rate, d.modes.mode, t);
      CountOk(r) && r.lastMode == d.modes.mode
  {
    SteeredCounts(g, Estimated(g, d, inp, t), inp, t);
  }

  lemma CycleCounts(g: A.Gains, e: Exec, inp: Inputs, t: nat)
    requires A.Sane(g) && ResumeOk(e) && CountOk(e)
    ensures CountOk(Cycle(g, e, inp, t)) && Cycle(g, e, inp, t).lastMode == ModeNow(e, inp, t)
  {
    DecidedResume(e, inp, t);
    ControlCounts(g, Decided(e, inp, t), inp, t);
  }

  lemma StepKeepsInv(g: A.Gains, e: Exec, step: Step)
    requires A.Sane(g) && Inv(e)
    ensures Inv(Do(g, e, step))
  {
    match step
    case Cycled(inp, t) =>
      CycleChains(g, e, inp, t);
      CycleResume(g, e, inp, t);
      CycleCalm(g, e, inp, t);
      CycleCounts(g, e, inp, t);
    case InhibitedFault(f) =>
  }

  lemma {:induction false} RunKeepsInv(g: A.Gains, e: Exec, steps: seq<Step>)
    requires A.Sane(g) && Inv(e)
    ensures Inv(After(g, e, steps))
    decreases |steps|
  {
    if steps != [] {
      StepKeepsInv(g, e, steps[0]);
      RunKeepsInv(g, Do(g, e, steps[0]), steps[1..]);
    }
  }

  /** After any run: the history chains from BOOT, which it never re-enters, and SAFE was left only by command. */
  lemma HistoryOfARun(g: A.Gains, steps: seq<Step>)
    requires A.Sane(g)
    ensures var e := After(g, Initial(), steps);
      M.Chains(e.modes) && forall i :: 0 <= i < |e.modes.history| ==>
        && e.modes.history[i].to != BOOT
        && (e.modes.history[i].from == SAFE ==>
              e.modes.history[i].to == STANDBY && e.modes.history[i].trigger == Command)
  {
    RunKeepsInv(g, Initial(), steps);
    var m := After(g, Initial(), steps).modes;
    forall i | 0 <= i < |m.history| ensures m.history[i].to != BOOT && (m.history[i].from == SAFE ==>
      m.history[i].to == STANDBY && m.history[i].trigger == Command)
    {
      M.ChainsNeverReboot(m, i);
    }
  }

  /** Over every run: whenever the mode is DETUMBLE a resume is due iff the last transition was the autonomous entry. */
  lemma ResumeOfARun(g: A.Gains, steps: seq<Step>)
    requires A.Sane(g) && After(g, Initial(), steps).modes.mode == DETUMBLE
    ensures var e := After(g, Initial(), steps);
      && e.modes.history != []
      && (e.resumeValid <==> e.modes.history[|e.modes.history| - 1].trigger == Nominal)
      && (e.resumeValid ==> e.resumeMode == e.modes.history[|e.modes.history| - 1].from
                            && e.resumeMode in {STANDBY, DOWNLINK}
                            && M.TransitionLegal(DETUMBLE, Nominal, e.resumeMode))
  {
    RunKeepsInv(g, Initial(), steps);
    var e := After(g, Initial(), steps);
    if e.resumeValid { ResumeNeverRefused(e); }
  }

  /** Over every run: the next cycle ends in SAFE exactly when EndsSafeIff says. */
  lemma SafingOfARun(g: A.Gains, steps: seq<Step>, inp: Inputs, t: nat)
    requires A.Sane(g)
    ensures var e := After(g, Initial(), steps);
      Cycle(g, e, inp, t).modes.mode == SAFE <==>
        if e.modes.mode == SAFE then !Commands(e, inp, t, STANDBY)
        else F.ShouldEnterSafe(Sensed(e, inp, t).faults) || Commands(e, inp, t, SAFE)
  {
    RunKeepsInv(g, Initial(), steps);
    EndsSafeIff(g, After(g, Initial(), steps), inp, t);
  }
}
