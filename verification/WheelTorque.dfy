/** Over every run, what the one torque commanded per cycle can be (fsw/src/executive.cpp). */
module WheelTorque {
  import opened Wire
  import opened Catalog
  import opened Executive
  import A = Attitude
  import H = CommandHandler
  import S = SensorMonitor
  import Safing

  /** An accepted test pulse: its argument and when it was acted on, on a clock that never wraps. */
  datatype Pulse = Pulse(arg: Byte, at: nat)

  /** A pulse's argument is a signed byte of thousandths of a newton metre. */
  lemma PulseIsSigned(arg: Byte) returns (n: int)
    ensures -128 <= n <= 127 && n % 256 == arg && PulseOf(arg) * 1000.0 == n as real
  {
    n := Signed(arg);
  }

  /** A cycle at a real time; the executive sees the 32-bit counter. */
  datatype Beat = Beat(inp: Inputs, at: nat)

  function Step(g: A.Gains, e: Exec, b: Beat): Exec
    requires A.Sane(g)
  {
    Cycle(g, e, b.inp, b.at % WRAP)
  }

  predicate FiresPulse(e: Exec, b: Beat) {
    Acts(e, b.inp, b.at % WRAP) && b.inp.command.value.id == PULSE_WHEEL
  }

  /** The last PULSE_WHEEL acted on, forgotten at the first control step that is not in STANDBY. */
  function Tracked(p: Option<Pulse>, e: Exec, b: Beat): Option<Pulse> {
    if ModeNow(e, b.inp, b.at % WRAP) != STANDBY then None
    else if FiresPulse(e, b) then Some(Pulse(b.inp.command.value.arg, b.at))
    else p
  }

  /** Under half a second old. A pulse due to end exactly at counter value 0 reads as no pulse. */
  predicate Live(p: Option<Pulse>, at: nat) {
    p.Some? && at < p.value.at + 500 && (p.value.at + 500) % WRAP != 0
  }

  /** The executive's timer, in terms of the pulse that set it. */
  predicate TimerOk(e: Exec, p: Option<Pulse>, at: nat) {
    && (p.Some? ==> p.value.at <= at)
    && (e.pulseUntil != 0 <==> Live(p, at))
    && (e.pulseUntil != 0 ==> e.pulseUntil == (p.value.at + PULSE_MS) % WRAP && e.pulseTorque == PulseOf(p.value.arg))
  }

  const LONGEST_GAP := 0x8000_0000 - PULSE_MS

  /** The signed 32-bit difference tells a live pulse from one that is over, up to half a wrap. */
  lemma TimerReads(start: nat, at: nat)
    requires start <= at < start + 0x8000_0000
    ensures at < start + PULSE_MS <==> 0 < Since((start + PULSE_MS) % WRAP, at % WRAP) < 0x8000_0000
  {
    var end := start + PULSE_MS;
    if at <= end {
      SinceIsElapsed(at, end - at);
    } else {
      SinceNegative(end, at - end);
    }
  }

  lemma SinceNegative(end: nat, d: nat)
    requires 0 < d < WRAP
    ensures Since(end % WRAP, (end + d) % WRAP) == WRAP - d
  {
    SinceIsElapsed(end, d);
    var x, y := (end + d) % WRAP, end % WRAP;
    assert (x - y) % WRAP == d;
  }

  /** After the dispatch the timer belongs to the pulse fired this cycle, if any. */
  lemma DecidedTimer(e: Exec, b: Beat)
    ensures var d := Decided(e, b.inp, b.at % WRAP);
      if FiresPulse(e, b) then
        d.pulseUntil == (b.at % WRAP + PULSE_MS) % WRAP && d.pulseTorque == PulseOf(b.inp.command.value.arg)
      else d.pulseUntil == e.pulseUntil && d.pulseTorque == e.pulseTorque
  {
    var t := b.at % WRAP;
    var s := Sensed(e, b.inp, t);
    Safing.StagedMode(s, t);
    var r := Safing.Staged(s, t);
    assert Decided(e, b.inp, t) ==
      if Acts(e, b.inp, t) then Dispatched(r, b.inp.command.value, Executive.Safing(s), t) else r;
  }

  lemma AddWrapped(at: nat)
    ensures (at % WRAP + PULSE_MS) % WRAP == (at + PULSE_MS) % WRAP
  {
    assert at == at / WRAP * WRAP + at % WRAP;
  }

  /** A control step in STANDBY pulses exactly when the tracked pulse is live. */
  lemma PulsesIffLive(e: Exec, b: Beat, p: Option<Pulse>, last: nat)
    requires TimerOk(e, p, last) && last <= b.at < last + LONGEST_GAP
    ensures var d, q := Decided(e, b.inp, b.at % WRAP), Tracked(p, e, b);
      && (Pulsing(d, b.at % WRAP) <==> Live(q, b.at))
      && (Live(q, b.at) ==> d.pulseUntil == (q.value.at + PULSE_MS) % WRAP && d.pulseTorque == PulseOf(q.value.arg))
  {
    DecidedTimer(e, b);
    AddWrapped(b.at);
    if FiresPulse(e, b) {
      TimerReads(b.at, b.at);
    } else if e.pulseUntil != 0 {
      TimerReads(p.value.at, b.at);
    }
  }

  lemma ControlTimer(g: A.Gains, d: Exec, inp: Inputs, t: nat)
    requires A.Sane(g)
    ensures var c := Caught(g, Steered(g, Estimated(g, d, inp, t), inp, t), inp.rate, d.modes.mode, t);
      && c.pulseUntil == (if Pulsing(d, t) then d.pulseUntil else 0)
      && c.pulseTorque == (if Pulsing(d, t) then d.pulseTorque else 0.0)
  {
    assert Pulsing(Estimated(g, d, inp, t), t) == Pulsing(d, t);
  }

  lemma ControlKeepsTimer(g: A.Gains, e: Exec, inp: Inputs, t: nat)
    requires A.Sane(g)
    ensures var d, c := Decided(e, inp, t), Cycle(g, e, inp, t);
      c.pulseUntil == (if Pulsing(d, t) then d.pulseUntil else 0)
      && c.pulseTorque == (if Pulsing(d, t) then d.pulseTorque else 0.0)
  {
    ControlTimer(g, Decided(e, inp, t), inp, t);
  }

  lemma StepKeepsTimer(g: A.Gains, e: Exec, b: Beat, p: Option<Pulse>, last: nat)
    requires A.Sane(g) && TimerOk(e, p, last) && last <= b.at < last + LONGEST_GAP
    ensures TimerOk(Step(g, e, b), Tracked(p, e, b), b.at)
  {
    PulsesIffLive(e, b, p, last);
    ControlKeepsTimer(g, e, b.inp, b.at % WRAP);
  }

  /** Mode by mode, what a cycle may command. */
  predicate Disciplined(g: A.Gains, mode: Mode, torque: real, q: Option<Pulse>, b: Beat) {
    match mode
    case BOOT => torque == 0.0
    case DOWNLINK => torque == 0.0
    case SAFE => torque == 0.0
    case DETUMBLE => A.Abs(torque) <= g.torqueMax
    case POINTING => A.Abs(torque) <= g.torqueMax
    case STANDBY =>
      if Live(q, b.at) then torque == PulseOf(q.value.arg)
      else match b.inp.readings.wheel
        case None => torque == 0.0
        case Some(v) => torque == if v > 5000 then -0.003 else if v < -5000 then 0.003 else 0.0
  }

  lemma StepDisciplined(g: A.Gains, e: Exec, b: Beat, p: Option<Pulse>, last: nat)
    requires A.Sane(g) && TimerOk(e, p, last) && last <= b.at < last + LONGEST_GAP
    ensures Disciplined(g, ModeNow(e, b.inp, b.at % WRAP), Torque(g, e, b.inp, b.at % WRAP), Tracked(p, e, b), b)
  {
    PulsesIffLive(e, b, p, last);
    var t := b.at % WRAP;
    var d := Decided(e, b.inp, t);
    assert Pulsing(Estimated(g, d, b.inp, t), t) == Pulsing(d, t);
  }

  // ---- whole runs ----

  predicate Paced(beats: seq<Beat>, last: nat) {
    beats == [] || (last <= beats[0].at < last + LONGEST_GAP && Paced(beats[1..], beats[0].at))
  }

  /** Every cycle of the run commands what its mode allows, given the pulse tracked up to it. */
  predicate AllDisciplined(g: A.Gains, e: Exec, p: Option<Pulse>, beats: seq<Beat>)
    requires A.Sane(g)
    decreases |beats|
  {
    beats == [] ||
    var b, t := beats[0], beats[0].at % WRAP;
    && Disciplined(g, ModeNow(e, b.inp, t), Torque(g, e, b.inp, t), Tracked(p, e, b), b)
    && AllDisciplined(g, Step(g, e, b), Tracked(p, e, b), beats[1..])
  }

  lemma {:induction false} RunDisciplined(g: A.Gains, e: Exec, p: Option<Pulse>, last: nat, beats: seq<Beat>)
    requires A.Sane(g) && TimerOk(e, p, last) && Paced(beats, last)
    ensures AllDisciplined(g, e, p, beats)
    decreases |beats|
  {
    if beats != [] {
      StepDisciplined(g, e, beats[0], p, last);
      StepKeepsTimer(g, e, beats[0], p, last);
      RunDisciplined(g, Step(g, e, beats[0]), Tracked(p, e, beats[0]), beats[0].at, beats[1..]);
    }
  }

  /** Torque discipline: from power-on, for every sequence of inputs paced under half a wrap of the counter. */
  lemma TorqueOfARun(g: A.Gains, beats: seq<Beat>)
    requires A.Sane(g) && Paced(beats, 0)
    ensures AllDisciplined(g, Initial(), None, beats)
  {
    RunDisciplined(g, Initial(), None, 0, beats);
  }
}
