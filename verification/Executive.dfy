/** The control cycle: faults in, mode decision, one wheel torque out (fsw/src/executive.cpp). */
module Executive {
  import opened Wire
  import opened Catalog
  import A = Attitude
  import F = FaultManager
  import H = CommandHandler
  import M = ModeManager
  import S = SensorMonitor

  const BOOT_CHECK := 3
  const DETUMBLE_DONE := 10
  const DETUMBLE_ENTER := 3
  const PULSE_MS := 500
  const HEADING_STEP := 6.283185307 / 256.0
  const DUMP_DONE := 5000
  const DUMP_TORQUE := 0.003

  datatype Inputs = Inputs(
    reports: seq<F.Sample>, command: Option<H.Command>, readings: S.Readings,
    rate: Option<real>, mag: Option<real>)

  datatype Exec = Exec(
    faults: F.Faults, modes: M.Modes, commands: H.Handler, monitor: S.Monitor, control: A.State,
    bootCycles: nat, lastMode: Mode, lastT: nat, ran: bool,
    doneCycles: nat, enterCycles: nat, resumeMode: Mode, resumeValid: bool,
    pulseTorque: real, pulseUntil: nat, pulsePeak: real)

  function Initial(): Exec {
    Exec(F.Initial(), M.INITIAL, H.INITIAL, S.INITIAL, A.INITIAL,
         0, BOOT, 0, false, 0, 0, STANDBY, false, 0.0, 0, 0.0)
  }

  // ---- the cycle, stage by stage ----

  /** The answer to this cycle's command, judged in the mode the cycle began in. */
  function EventOf(e: Exec, inp: Inputs, t: nat): Option<H.Event> {
    match inp.command
    case None => None
    case Some(c) => Some(H.Answer(e.commands, c, e.modes.mode, t))
  }

  predicate Acts(e: Exec, inp: Inputs, t: nat) {
    EventOf(e, inp, t).Some? && H.Executes(EventOf(e, inp, t).value)
  }

  /** Reports, sensors, the command and the loss timer have been taken in; faults are as the cycle samples them. */
  function Sensed(e: Exec, inp: Inputs, t: nat): Exec {
    var fed := F.UpdateAll(F.UpdateAll(e.faults, inp.reports, t), S.Samples(e.monitor, inp.readings, t), t);
    var h := match inp.command case None => e.commands case Some(c) => H.Handled(e.commands, c, e.modes.mode, t);
    e.(faults := F.Update(fed, COMMAND_LINK_LOSS, H.LinkLost(h, t), t),
       monitor := S.Observed(e.monitor, inp.readings, t), commands := h)
  }

  predicate Safing(e: Exec) { e.modes.mode != SAFE && F.ShouldEnterSafe(e.faults) }

  function Safed(e: Exec, t: nat): Exec {
    if Safing(e) then e.(modes := M.Request(e.modes, SAFE, FaultEntry, t)) else e
  }

  function Booted(e: Exec, t: nat): Exec {
    if e.modes.mode != BOOT then e
    else if e.bootCycles < BOOT_CHECK then e.(bootCycles := e.bootCycles + 1)
    else if !F.ShouldEnterSafe(e.faults) then e.(modes := M.Request(e.modes, STANDBY, Nominal, t))
    else e
  }

  const STEERING: set<Mode> := {POINTING, DETUMBLE}

  function Retreat(m: M.Modes, faults: F.Faults, f: Fault, from: set<Mode>, t: nat): M.Modes {
    if m.mode in from && F.ResponseActive(faults, f) then M.Request(m, STANDBY, FaultEntry, t) else m
  }

  function FellBack(e: Exec, t: nat): Exec {
    var m1 := Retreat(e.modes, e.faults, ACCEL_GYRO_DROPOUT, STEERING, t);
    var m2 := Retreat(m1, e.faults, POWER_DROPOUT, STEERING + {DOWNLINK}, t);
    var m3 := Retreat(m2, e.faults, WHEEL_DROPOUT, STEERING, t);
    e.(modes := Retreat(m3, e.faults, WHEEL_SATURATED, STEERING, t))
  }

  function Signed(b: Byte): int { if b < 128 then b else b - 256 }

  function PulseOf(arg: Byte): real { Signed(arg) as real / 1000.0 }

  /** Act on an accepted command that is not a retransmission; a safing this cycle wins over SET_MODE. */
  function Dispatched(e: Exec, c: H.Command, safing: bool, t: nat): Exec {
    if c.id == SET_MODE then
      if safing || c.arg >= 6 then e
      else e.(modes := M.Request(e.modes, ModeOf(c.arg), Command, t), resumeValid := false)
    else if c.id == CLEAR_FAULT then
      if c.arg >= FAULTS then e else e.(faults := F.Clear(e.faults, c.arg, t))
    else if c.id == SET_HEADING then
      e.(control := e.control.(target := c.arg as real * HEADING_STEP, targetCommanded := true))
    else if c.id == PULSE_WHEEL then
      e.(pulseTorque := PulseOf(c.arg), pulseUntil := (t + PULSE_MS) % WRAP, pulsePeak := 0.0)
    else e
  }

  /** Everything before the control step: it settles the mode the step runs in. */
  function Decided(e: Exec, inp: Inputs, t: nat): Exec {
    var s := Sensed(e, inp, t);
    var r := FellBack(Booted(Safed(s, t), t), t);
    if Acts(e, inp, t) then Dispatched(r, inp.command.value, Safing(s), t) else r
  }

  function Elapsed(e: Exec, t: nat): real {
    if e.ran then Since(t, e.lastT) as real / 1000.0 else 0.0
  }

  function Estimated(g: A.Gains, e: Exec, inp: Inputs, t: nat): Exec
    requires A.Sane(g)
  {
    var mode := e.modes.mode;
    var armed := if mode == POINTING && e.lastMode != POINTING then A.EnterPointing(e.control) else e.control;
    e.(lastMode := mode, lastT := t, ran := true,
       control := match inp.rate case None => armed case Some(w) => A.Updated(g, armed, w, Elapsed(e, t), inp.mag),
       pulsePeak := match inp.rate
         case None => e.pulsePeak
         case Some(w) => if A.Abs(w) > e.pulsePeak then A.Abs(w) else e.pulsePeak)
  }

  /** The signed difference `until - t` is positive. */
  predicate Pulsing(e: Exec, t: nat) {
    e.modes.mode == STANDBY && e.pulseUntil != 0 && 0 < Since(e.pulseUntil, t) < 0x8000_0000
  }

  function DumpTorque(wheel: int): real {
    if wheel > DUMP_DONE then -DUMP_TORQUE else if wheel < -DUMP_DONE then DUMP_TORQUE else 0.0
  }

  function TorqueOf(g: A.Gains, e: Exec, inp: Inputs, t: nat): real
    requires A.Sane(g)
  {
    if Pulsing(e, t) then e.pulseTorque
    else if inp.rate.Some? && e.modes.mode == DETUMBLE then A.DetumbleTorque(g, inp.rate.value)
    else if inp.rate.Some? && e.modes.mode == POINTING then A.Limit(g, A.PointDemand(g, e.control, inp.rate.value))
    else if e.modes.mode == STANDBY && inp.readings.wheel.Some? then DumpTorque(inp.readings.wheel.value)
    else 0.0
  }

  /** DETUMBLE's exit: ten samples in the deadband, then the next one leaves. */
  function Settled(g: A.Gains, e: Exec, rate: real, t: nat): Exec {
    if A.Abs(rate) >= g.rateDeadband then e.(doneCycles := 0)
    else if e.doneCycles < DETUMBLE_DONE then e.(doneCycles := e.doneCycles + 1)
    else if e.resumeValid then e.(resumeValid := false, modes := M.Request(e.modes, e.resumeMode, Nominal, t))
    else e.(modes := M.Request(e.modes, STANDBY, Nominal, t))
  }

  function Steered(g: A.Gains, e: Exec, inp: Inputs, t: nat): Exec
    requires A.Sane(g)
  {
    var p := if Pulsing(e, t) then e else e.(pulseUntil := 0, pulseTorque := 0.0);
    if e.modes.mode == DETUMBLE then
      match inp.rate
      case None => p
      case Some(w) => Settled(g, p.(control := A.Detumbled(g, p.control, w)), w, t)
    else if e.modes.mode == POINTING && inp.rate.Some? then
      p.(control := A.Pointed(g, p.control, inp.rate.value), doneCycles := 0)
    else p.(doneCycles := 0)
  }

  /** The autonomous half of DETUMBLE, from the mode the control step ran in. */
  function Caught(g: A.Gains, e: Exec, rate: Option<real>, mode: Mode, t: nat): Exec {
    if rate.Some? && mode !in {DETUMBLE, SAFE, BOOT, POINTING} && A.Abs(rate.value) > g.detumbleEnter then
      if e.enterCycles < DETUMBLE_ENTER then e.(enterCycles := e.enterCycles + 1)
      else if M.TransitionLegal(e.modes.mode, Nominal, DETUMBLE) then
        e.(modes := M.Request(e.modes, DETUMBLE, Nominal, t),
           resumeMode := mode, resumeValid := true, enterCycles := 0)
      else e
    else e.(enterCycles := 0)
  }

  /** The mode the control step runs in. */
  function ModeNow(e: Exec, inp: Inputs, t: nat): Mode { Decided(e, inp, t).modes.mode }

  function Cycle(g: A.Gains, e: Exec, inp: Inputs, t: nat): Exec
    requires A.Sane(g)
  {
    var d := Estimated(g, Decided(e, inp, t), inp, t);
    Caught(g, Steered(g, d, inp, t), inp.rate, d.modes.mode, t)
  }

  function Torque(g: A.Gains, e: Exec, inp: Inputs, t: nat): real
    requires A.Sane(g)
  {
    TorqueOf(g, Estimated(g, Decided(e, inp, t), inp, t), inp, t)
  }

  class Flight {
    const fm: F.Manager
    const mm: M.Manager
    const ch: H.Handling
    const sm: S.Watch
    const ac: A.Control
    var bootCycles: nat
    var lastMode: Mode
    var lastT: nat
    var ran: bool
    var doneCycles: nat
    var enterCycles: nat
    var resumeMode: Mode
    var resumeValid: bool
    var pulseTorque: real
    var pulseUntil: nat
    var pulsePeak: real

    ghost predicate Valid()
      reads this, fm, mm, ch
    {
      fm.Valid() && mm.Valid() && ch.Valid() && A.Sane(ac.g)
    }

    ghost function Now(): Exec
      requires Valid()
      reads this, fm, fm.streak, mm, ch, sm, ac
    {
      Exec(fm.Now(), mm.Now(), ch.Now(), sm.Now(), ac.Now(), bootCycles, lastMode, lastT, ran,
           doneCycles, enterCycles, resumeMode, resumeValid, pulseTorque, pulseUntil, pulsePeak)
    }

    constructor (g: A.Gains)
      requires A.Sane(g)
      ensures Valid() && ac.g == g && Now() == Initial()
      ensures fresh(fm) && fresh(fm.streak) && fresh(mm) && fresh(ch) && fresh(sm) && fresh(ac)
    {
      fm := new F.Manager();
      mm := new M.Manager();
      ch := new H.Handling();
      sm := new S.Watch();
      ac := new A.Control(g);
      bootCycles, lastMode, lastT, ran := 0, BOOT, 0, false;
      doneCycles, enterCycles, resumeMode, resumeValid := 0, 0, STANDBY, false;
      pulseTorque, pulseUntil, pulsePeak := 0.0, 0, 0.0;
    }

    method FeedReports(reports: seq<F.Sample>, t: nat)
      requires Valid()
      modifies fm, fm.streak
      ensures Valid() && fm.Now() == F.UpdateAll(old(fm.Now()), reports, t)
    {
      var i := 0;
      while i < |reports|
        invariant i <= |reports| && Valid()
        invariant F.UpdateAll(fm.Now(), reports[i..], t) == F.UpdateAll(old(fm.Now()), reports, t)
      {
        fm.UpdateFault(reports[i].fault, reports[i].bad, t);
        assert reports[i..][1..] == reports[i + 1..];
        i := i + 1;
      }
    }

    method Sense(inp: Inputs, t: nat) returns (ce: Option<H.Event>)
      requires Valid()
      modifies fm, fm.streak, ch, sm
      ensures Valid() && Now() == Sensed(old(Now()), inp, t) && ce == EventOf(old(Now()), inp, t)
    {
      FeedReports(inp.reports, t);
      sm.Evaluate(inp.readings, fm, t);
      ce := None;
      if inp.command.Some? {
        var answer := ch.Handle(inp.command.value, mm.current, t);
        ce := Some(answer);
      }
      var lost := ch.Silent(t);
      fm.UpdateFault(COMMAND_LINK_LOSS, lost, t);
    }

    method EnterSafe(t: nat) returns (entered: bool)
      requires Valid()
      modifies mm
      ensures Valid() && Now() == Safed(old(Now()), t) && entered == Safing(old(Now()))
    {
      entered := false;
      var should := fm.WantsSafe();
      if mm.current != SAFE && should {
        entered := mm.RequestMode(SAFE, FaultEntry, t);
      }
    }

    method LeaveBoot(t: nat)
      requires Valid()
      modifies this`bootCycles, mm
      ensures Valid() && Now() == Booted(old(Now()), t)
    {
      if mm.current == BOOT {
        var should := fm.WantsSafe();
        if bootCycles < BOOT_CHECK {
          bootCycles := bootCycles + 1;
        } else if !should {
          var ok := mm.RequestMode(STANDBY, Nominal, t);
        }
      }
    }

    method RetreatOn(f: Fault, from: set<Mode>, t: nat)
      requires Valid()
      modifies mm
      ensures Valid() && mm.Now() == Retreat(old(mm.Now()), fm.Now(), f, from, t)
    {
      if mm.current in from && f in fm.active && f !in fm.inhibited {
        var ok := mm.RequestMode(STANDBY, FaultEntry, t);
      }
    }

    method FallBack(t: nat)
      requires Valid()
      modifies mm
      ensures Valid() && Now() == FellBack(old(Now()), t)
    {
      RetreatOn(ACCEL_GYRO_DROPOUT, STEERING, t);
      RetreatOn(POWER_DROPOUT, STEERING + {DOWNLINK}, t);
      RetreatOn(WHEEL_DROPOUT, STEERING, t);
      RetreatOn(WHEEL_SATURATED, STEERING, t);
    }

    method Dispatch(c: H.Command, enteredSafe: bool, t: nat)
      requires Valid()
      requires (c.id == SET_MODE ==> c.arg < 6) && (c.id == CLEAR_FAULT ==> c.arg < FAULTS)
      modifies this, mm, fm, ac`target, ac`targetCommanded
      ensures Valid() && Now() == Dispatched(old(Now()), c, enteredSafe, t)
    {
      if c.id == SET_MODE {
        if !enteredSafe {
          var ok := mm.RequestMode(ModeOf(c.arg), Command, t);
          resumeValid := false;
        }
      } else if c.id == CLEAR_FAULT {
        fm.ClearFault(c.arg, t);
      } else if c.id == SET_HEADING {
        ac.SetTarget(c.arg as real * HEADING_STEP);
      } else if c.id == PULSE_WHEEL {
        pulseTorque := PulseOf(c.arg);
        pulseUntil := (t + PULSE_MS) % WRAP;
        pulsePeak := 0.0;
      }
    }

    method Decide(inp: Inputs, t: nat) returns (ce: Option<H.Event>)
      requires Valid()
      modifies this, fm, fm.streak, mm, ch, sm, ac`target, ac`targetCommanded
      ensures Valid() && Now() == Decided(old(Now()), inp, t) && ce == EventOf(old(Now()), inp, t)
    {
      ghost var e := Now();
      ce := Sense(inp, t);
      var enteredSafe := EnterSafe(t);
      LeaveBoot(t);
      FallBack(t);
      if ce.Some? && H.Executes(ce.value) {
        H.ExecutedIsValid(e.commands, inp.command.value, e.modes.mode, t);
        Dispatch(inp.command.value, enteredSafe, t);
      }
    }

    method Estimate(inp: Inputs, t: nat)
      requires Valid()
      modifies this`lastMode, this`lastT, this`ran, this`pulsePeak, ac
      ensures Valid() && Now() == Estimated(ac.g, old(Now()), inp, t)
    {
      Arm();
      var dt := Clock(t);
      if inp.rate.Some? {
        ac.Update(inp.rate.value, dt, inp.mag);
        WatchPeak(inp.rate.value);
      }
    }

    /** Watch for the entry into POINTING, however it came. */
    method Arm()
      modifies this`lastMode, ac
      ensures lastMode == mm.current
      ensures ac.Now() ==
        if mm.current == POINTING && old(lastMode) != POINTING then A.EnterPointing(old(ac.Now())) else old(ac.Now())
    {
      var mode := mm.current;
      if mode == POINTING && lastMode != POINTING {
        ac.ArmPointing();
      }
      lastMode := mode;
    }

    /** Seconds since the last cycle; none on the first. */
    method Clock(t: nat) returns (dt: real)
      modifies this`lastT, this`ran
      ensures dt == if old(ran) then Since(t, old(lastT)) as real / 1000.0 else 0.0
      ensures ran && lastT == t
    {
      dt := if ran then Since(t, lastT) as real / 1000.0 else 0.0;
      lastT := t;
      ran := true;
    }

    /** The largest rate since the last pulse. */
    method WatchPeak(rate: real)
      modifies this`pulsePeak
      ensures pulsePeak == if A.Abs(rate) > old(pulsePeak) then A.Abs(rate) else old(pulsePeak)
    {
      var mag := A.Abs(rate);
      if mag > pulsePeak {
        pulsePeak := mag;
      }
    }

    method Settle(rate: real, t: nat)
      requires Valid()
      modifies this`doneCycles, this`resumeValid, mm
      ensures Valid() && Now() == Settled(ac.g, old(Now()), rate, t)
    {
      if A.Abs(rate) < ac.g.rateDeadband {
        if doneCycles < DETUMBLE_DONE {
          doneCycles := doneCycles + 1;
        } else if resumeValid {
          resumeValid := false;
          var ok := mm.RequestMode(resumeMode, Nominal, t);
        } else {
          var ok := mm.RequestMode(STANDBY, Nominal, t);
        }
      } else {
        doneCycles := 0;
      }
    }

    method Steer(inp: Inputs, t: nat) returns (torque: real)
      requires Valid()
      modifies this`pulseUntil, this`pulseTorque, this`doneCycles, this`resumeValid, mm, ac`saturated
      ensures Valid() && Now() == Steered(ac.g, old(Now()), inp, t) && torque == TorqueOf(ac.g, old(Now()), inp, t)
    {
      var mode := mm.current;
      torque := 0.0;
      var left := Since(pulseUntil, t);
      var pulsing := mode == STANDBY && pulseUntil != 0 && 0 < left < 0x8000_0000;
      if !pulsing {
        pulseUntil := 0;
        pulseTorque := 0.0;
      }
      if pulsing {
        torque := pulseTorque;
      } else if inp.rate.Some? && mode == DETUMBLE {
        torque := ac.Detumble(inp.rate.value);
        Settle(inp.rate.value, t);
      } else if inp.rate.Some? && mode == POINTING {
        torque := ac.Point(inp.rate.value);
      } else if mode == STANDBY && inp.readings.wheel.Some? {
        torque := DumpTorque(inp.readings.wheel.value);
      }
      if mode != DETUMBLE {
        doneCycles := 0;
      }
    }

    method Catch(rate: Option<real>, mode: Mode, t: nat)
      requires Valid()
      modifies this`enterCycles, this`resumeMode, this`resumeValid, mm
      ensures Valid() && Now() == Caught(ac.g, old(Now()), rate, mode, t)
    {
      if rate.Some? && mode != DETUMBLE && mode != SAFE && mode != BOOT && mode != POINTING
         && A.Abs(rate.value) > ac.g.detumbleEnter {
        if enterCycles < DETUMBLE_ENTER {
          enterCycles := enterCycles + 1;
        } else {
          var ok := mm.RequestMode(DETUMBLE, Nominal, t);
          if ok {
            resumeMode := mode;
            resumeValid := true;
            enterCycles := 0;
          }
        }
      } else {
        enterCycles := 0;
      }
    }

    /** One control cycle: the torque it commands, the answer to its command, and whether the payload streams. */
    method Run(inp: Inputs, t: nat) returns (torque: real, ack: Option<H.Event>, streaming: bool)
      requires Valid()
      modifies this, fm, fm.streak, mm, ch, sm, ac
      ensures Valid() && Now() == Cycle(ac.g, old(Now()), inp, t)
      ensures torque == Torque(ac.g, old(Now()), inp, t) && ack == EventOf(old(Now()), inp, t)
      ensures streaming == (Now().modes.mode == DOWNLINK)
    {
      ack := Decide(inp, t);
      Estimate(inp, t);
      var mode := mm.current;
      torque := Steer(inp, t);
      Catch(inp.rate, mode, t);
      streaming := mm.current == DOWNLINK;
    }
  }
}
