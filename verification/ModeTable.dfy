/** Which mode the control step runs in, in terms of modes, faults and commands alone (fsw/src/executive.cpp). */
module ModeTable {
  import opened Wire
  import opened Catalog
  import opened Executive
  import opened WheelTorque
  import A = Attitude
  import F = FaultManager
  import M = ModeManager
  import Safing

  predicate Live(fs: F.Faults, f: Fault) { f in fs.active && f !in fs.inhibited }

  /** A fault that forces SAFE is latched and not inhibited. */
  predicate Critical(fs: F.Faults) {
    || Live(fs, COMMAND_LINK_LOSS) || Live(fs, UNDERVOLTAGE) || Live(fs, OVERVOLTAGE) || Live(fs, OVERCURRENT)
    || Live(fs, OVERTEMPERATURE)
  }

  /** One that takes the steering away: no rates, no power monitor, no wheel, or a full one. */
  predicate Blinded(fs: F.Faults) {
    || Live(fs, ACCEL_GYRO_DROPOUT) || Live(fs, POWER_DROPOUT) || Live(fs, WHEEL_DROPOUT) || Live(fs, WHEEL_SATURATED)
  }

  /** Where a cycle that began in m stands when no SET_MODE is acted on. */
  function Stands(m: Mode, boots: nat, fs: F.Faults): Mode {
    if m == SAFE || Critical(fs) then SAFE
    else match m
      case BOOT => if boots < 3 then BOOT else STANDBY
      case POINTING => if Blinded(fs) then STANDBY else POINTING
      case DETUMBLE => if Blinded(fs) then STANDBY else DETUMBLE
      case DOWNLINK => if Live(fs, POWER_DROPOUT) then STANDBY else DOWNLINK
      case _ => m
  }

  lemma CriticalIff(fs: F.Faults)
    ensures F.ShouldEnterSafe(fs) <==> Critical(fs)
  {
    if Critical(fs) {
      var f :| f in {COMMAND_LINK_LOSS, UNDERVOLTAGE, OVERVOLTAGE, OVERCURRENT, OVERTEMPERATURE} && Live(fs, f);
      assert F.ForcesSafe(f);
    }
  }

  lemma StagedStands(s: Exec, t: nat)
    ensures Safing.Staged(s, t).modes.mode == Stands(s.modes.mode, s.bootCycles, s.faults)
    ensures Executive.Safing(s) <==> s.modes.mode != SAFE && Critical(s.faults)
    ensures Safing.Staged(s, t).bootCycles ==
      if s.modes.mode == BOOT && !Critical(s.faults) && s.bootCycles < 3 then s.bootCycles + 1 else s.bootCycles
  {
    CriticalIff(s.faults);
  }

  /**
   * The whole table. A command acted on wins unless the cycle safes; otherwise the mode stands, or falls back as its
   * faults say. The faults are those the cycle has just sampled.
   */
  lemma ModeAtStep(e: Exec, inp: Inputs, t: nat)
    ensures var fs := Sensed(e, inp, t).faults;
      ModeNow(e, inp, t) ==
        if Acts(e, inp, t) && inp.command.value.id == SET_MODE && (e.modes.mode == SAFE || !Critical(fs))
        then (if inp.command.value.arg < 6 then ModeOf(inp.command.value.arg) else BOOT)
        else Stands(e.modes.mode, e.bootCycles, fs)
  {
    var s := Sensed(e, inp, t);
    StagedStands(s, t);
    if Acts(e, inp, t) && inp.command.value.id == SET_MODE {
      Safing.ActedSetMode(e, inp, t);
      Safing.ExecutedSetModeHolds(e, inp, t, ModeOf(inp.command.value.arg));
    } else {
      assert Decided(e, inp, t).modes == Safing.Staged(s, t).modes;
    }
  }

  /** The mode a SET_MODE acted on in a cycle that does not safe asks for. */
  function Asked(e: Exec, inp: Inputs, t: nat): Option<Mode> {
    if Acts(e, inp, t) && inp.command.value.id == SET_MODE && inp.command.value.arg < 6
       && (e.modes.mode == SAFE || !Critical(Sensed(e, inp, t).faults))
    then Some(ModeOf(inp.command.value.arg)) else None
  }

  /** One line of the transition log, unless the mode stays. */
  function Row(t: nat, trigger: Trigger, from: Mode, to: Mode): seq<M.Transition> {
    if from == to then [] else [M.Transition(t, trigger, from, to)]
  }

  lemma StagedLog(s: Exec, t: nat)
    ensures var m := s.modes.mode;
      var to := Stands(m, s.bootCycles, s.faults);
      Safing.Staged(s, t).modes.history ==
        s.modes.history + Row(t, if m == BOOT && to == STANDBY then Nominal else FaultEntry, m, to)
  {
    CriticalIff(s.faults);
  }

  /**
   * What is logged before the control step: a change the faults or the boot count force, with its own trigger, and
   * then one a command asked for, from where that left the mode.
   */
  lemma LogAtStep(e: Exec, inp: Inputs, t: nat)
    ensures var m := e.modes.mode;
      var to := Stands(m, e.bootCycles, Sensed(e, inp, t).faults);
      Decided(e, inp, t).modes.history ==
        e.modes.history + Row(t, if m == BOOT && to == STANDBY then Nominal else FaultEntry, m, to)
        + (match Asked(e, inp, t) case None => [] case Some(a) => Row(t, Command, to, a))
  {
    var s := Sensed(e, inp, t);
    StagedStands(s, t);
    StagedLog(s, t);
    if Acts(e, inp, t) && inp.command.value.id == SET_MODE { Safing.ActedSetMode(e, inp, t); }
    LogAfter(e, inp, t, Safing.Staged(s, t));
  }

  lemma LogAfter(e: Exec, inp: Inputs, t: nat, r: Exec)
    requires r == Safing.Staged(Sensed(e, inp, t), t)
    requires Executive.Safing(Sensed(e, inp, t)) <==> e.modes.mode != SAFE && Critical(Sensed(e, inp, t).faults)
    requires r.modes.mode in {e.modes.mode, STANDBY, SAFE} && (e.modes.mode == SAFE ==> r.modes.mode == SAFE)
    requires r.modes.mode == SAFE && e.modes.mode != SAFE ==> Critical(Sensed(e, inp, t).faults)
    requires Acts(e, inp, t) && inp.command.value.id == SET_MODE ==>
      inp.command.value.arg < 6 && M.TransitionLegal(e.modes.mode, Command, ModeOf(inp.command.value.arg))
    ensures Decided(e, inp, t).modes.history == r.modes.history +
      (match Asked(e, inp, t) case None => [] case Some(a) => Row(t, Command, r.modes.mode, a))
  {
    if Asked(e, inp, t).Some? {
      var a := Asked(e, inp, t).value;
      LegalStays(e.modes.mode, r.modes.mode, a);
      assert Decided(e, inp, t).modes == M.Request(r.modes, a, Command, t);
    } else {
      assert Decided(e, inp, t).modes == r.modes;
    }
  }

  /** What was legal to command stays legal from where the faults left the mode, unless it is already there. */
  lemma LegalStays(from: Mode, now: Mode, to: Mode)
    requires M.TransitionLegal(from, Command, to) && now in {from, STANDBY, SAFE}
    requires from == SAFE ==> now == SAFE
    requires now == SAFE ==> from == SAFE
    ensures M.TransitionLegal(now, Command, to) || to == now
  {
  }

  /**
   * Fallbacks, exactly. With no SET_MODE acted on, nothing that forces SAFE and the cycle not begun in BOOT or SAFE,
   * the control step is in STANDBY if and only if the cycle began there, or began steering with one of four faults
   * latched and not inhibited, or began in DOWNLINK with the power monitor lost; otherwise the mode has not moved.
   */
  lemma FallsBackIff(e: Exec, inp: Inputs, t: nat)
    requires !(Acts(e, inp, t) && inp.command.value.id == SET_MODE) && e.modes.mode !in {BOOT, SAFE}
    requires !Critical(Sensed(e, inp, t).faults)
    ensures var fs, m := Sensed(e, inp, t).faults, e.modes.mode;
      && (ModeNow(e, inp, t) == STANDBY <==>
            m == STANDBY || (m in {POINTING, DETUMBLE} && Blinded(fs)) || (m == DOWNLINK && Live(fs, POWER_DROPOUT)))
      && (ModeNow(e, inp, t) != STANDBY ==> ModeNow(e, inp, t) == m)
  {
    ModeAtStep(e, inp, t);
  }

  // ---- whole runs ----

  /** The control step steers blinded, or streams without a power monitor. */
  predicate Blindly(e: Exec, inp: Inputs, t: nat) {
    var fs, m := Sensed(e, inp, t).faults, ModeNow(e, inp, t);
    (m in {POINTING, DETUMBLE} && Blinded(fs)) || (m == DOWNLINK && Live(fs, POWER_DROPOUT))
  }

  /** No control step of the run steers blinded or streams without a power monitor, but for a SET_MODE it acted on. */
  predicate NeverBlind(g: A.Gains, e: Exec, steps: seq<Safing.Step>)
    requires A.Sane(g)
    decreases |steps|
  {
    steps == [] || (
      && (match steps[0]
          case Cycled(inp, t) => !Blindly(e, inp, t) || (Acts(e, inp, t) && inp.command.value.id == SET_MODE)
          case InhibitedFault(_) => true)
      && NeverBlind(g, Safing.Do(g, e, steps[0]), steps[1..]))
  }

  lemma {:induction false} FallbacksOfARun(g: A.Gains, e: Exec, steps: seq<Safing.Step>)
    requires A.Sane(g)
    ensures NeverBlind(g, e, steps)
    decreases |steps|
  {
    if steps != [] {
      if steps[0].Cycled? { ModeAtStep(e, steps[0].inp, steps[0].t); }
      FallbacksOfARun(g, Safing.Do(g, e, steps[0]), steps[1..]);
    }
  }

  // ---- boot ----

  /** Nothing in the cycle moves the mode but time. */
  predicate Uneventful(e: Exec, b: Beat) {
    && !Critical(Sensed(e, b.inp, b.at % WRAP).faults)
    && !(Acts(e, b.inp, b.at % WRAP) && b.inp.command.value.id == SET_MODE)
  }

  lemma BootCycle(g: A.Gains, e: Exec, b: Beat) returns (r: Exec)
    requires A.Sane(g) && e.modes.mode == BOOT && Uneventful(e, b)
    ensures r == Step(g, e, b) && ModeNow(e, b.inp, b.at % WRAP) == if e.bootCycles < 3 then BOOT else STANDBY
    ensures e.bootCycles < 3 ==> r.modes.mode == BOOT && r.bootCycles == e.bootCycles + 1
  {
    var t := b.at % WRAP;
    r := Step(g, e, b);
    ModeAtStep(e, b.inp, t);
    StagedStands(Sensed(e, b.inp, t), t);
    assert Decided(e, b.inp, t).bootCycles == Safing.Staged(Sensed(e, b.inp, t), t).bootCycles;
    BootControl(g, Decided(e, b.inp, t), b.inp, t);
  }

  lemma BootControl(g: A.Gains, d: Exec, inp: Inputs, t: nat)
    requires A.Sane(g)
    ensures var r := Caught(g, Steered(g, Estimated(g, d, inp, t), inp, t), inp.rate, d.modes.mode, t);
      r.bootCycles == d.bootCycles && (d.modes.mode == BOOT ==> r.modes.mode == BOOT)
  {
  }

  predicate AllUneventful(g: A.Gains, e: Exec, beats: seq<Beat>)
    requires A.Sane(g)
    decreases |beats|
  {
    beats == [] || (Uneventful(e, beats[0]) && AllUneventful(g, Step(g, e, beats[0]), beats[1..]))
  }

  /** The modes of a run's control steps. */
  function ModesOf(g: A.Gains, e: Exec, beats: seq<Beat>): (ms: seq<Mode>)
    requires A.Sane(g)
    ensures |ms| == |beats|
    decreases |beats|
  {
    if beats == [] then []
    else [ModeNow(e, beats[0].inp, beats[0].at % WRAP)] + ModesOf(g, Step(g, e, beats[0]), beats[1..])
  }

  lemma {:induction false} BootCounts(g: A.Gains, e: Exec, beats: seq<Beat>)
    requires A.Sane(g) && e.modes.mode == BOOT && AllUneventful(g, e, beats)
    requires |beats| == 4 - e.bootCycles > 0
    ensures forall i :: 0 <= i < |beats| ==> ModesOf(g, e, beats)[i] == if i < |beats| - 1 then BOOT else STANDBY
    decreases |beats|
  {
    var r := BootCycle(g, e, beats[0]);
    if |beats| > 1 {
      BootCounts(g, r, beats[1..]);
      assert forall i :: 0 < i < |beats| ==> ModesOf(g, e, beats)[i] == ModesOf(g, r, beats[1..])[i - 1];
    }
  }

  /** From power-on, nothing forcing SAFE and no SET_MODE: three control steps in BOOT, and the fourth in STANDBY. */
  lemma BootOfARun(g: A.Gains, beats: seq<Beat>)
    requires A.Sane(g) && |beats| == 4 && AllUneventful(g, Initial(), beats)
    ensures ModesOf(g, Initial(), beats) == [BOOT, BOOT, BOOT, STANDBY]
  {
    BootCounts(g, Initial(), beats);
  }
}
