/** The bounded answer to a reaction wheel that goes quiet. */
module WheelLoss {
  import opened Wire
  import opened Catalog
  import opened Executive
  import opened WheelTorque
  import A = Attitude
  import F = FaultManager
  import H = CommandHandler
  import M = ModeManager
  import S = SensorMonitor
  import Safing

  predicate Mentions(samples: seq<F.Sample>, f: Fault) {
    exists i :: 0 <= i < |samples| && samples[i].fault == f
  }

  /** Samples of other faults leave f's debounce and latch alone. */
  lemma {:induction false} OthersLeaveAlone(s: F.Faults, samples: seq<F.Sample>, f: Fault, t: nat)
    requires !Mentions(samples, f)
    ensures var r := F.UpdateAll(s, samples, t);
      r.streak[f] == s.streak[f] && (f in r.active <==> f in s.active) && r.inhibited == s.inhibited
    decreases |samples|
  {
    if samples != [] {
      assert samples[0].fault != f;
      assert forall i :: 0 <= i < |samples| - 1 ==> samples[1..][i] == samples[i + 1];
      OthersLeaveAlone(F.Update(s, samples[0].fault, samples[0].bad, t), samples[1..], f, t);
    }
  }

  predicate Silent(m: S.Monitor, wheel: Option<int>, t: nat) { Since(t, S.SeenAt(m, wheel, t)) > S.Window(m, wheel) }

  lemma WheelAmongSamples(m: S.Monitor, r: S.Readings, t: nat)
    ensures S.Samples(m, r, t) ==
      (S.ImuSamples(m, r.imu, t) + S.PowerSamples(r.power) + S.TempSamples(r.temp))
      + [F.Sample(WHEEL_DROPOUT, Silent(m, r.wheel, t))]
      + (S.WheelSamples(m, r.wheel, t)[1..] + S.CameraSamples(r.camera))
  {
    var all := S.WheelSamples(m, r.wheel, t);
    assert all == [F.Sample(WHEEL_DROPOUT, Silent(m, r.wheel, t))] + all[1..];
  }

  /** Each cycle judges the wheel's silence once, whatever else it samples. */
  lemma SilenceIsSampledOnce(s: F.Faults, m: S.Monitor, r: S.Readings, t: nat)
    ensures var u, w := F.UpdateAll(s, S.Samples(m, r, t), t), F.Update(s, WHEEL_DROPOUT, Silent(m, r.wheel, t), t);
      && u.streak[WHEEL_DROPOUT] == w.streak[WHEEL_DROPOUT] && u.inhibited == s.inhibited
      && (WHEEL_DROPOUT in u.active <==> WHEEL_DROPOUT in w.active)
  {
    var pre := S.ImuSamples(m, r.imu, t) + S.PowerSamples(r.power) + S.TempSamples(r.temp);
    var here := [F.Sample(WHEEL_DROPOUT, Silent(m, r.wheel, t))];
    var post := S.WheelSamples(m, r.wheel, t)[1..] + S.CameraSamples(r.camera);
    WheelAmongSamples(m, r, t);
    F.UpdateAllConcat(s, pre, here, t);
    F.UpdateAllConcat(s, pre + here, post, t);
    OthersLeaveAlone(s, pre, WHEEL_DROPOUT, t);
    OthersLeaveAlone(F.UpdateAll(s, pre + here, t), post, WHEEL_DROPOUT, t);
  }

  /** A cycle's verdict on the wheel, in a world that injects none of its own. */
  lemma SensedWheel(e: Exec, inp: Inputs, t: nat)
    requires !Mentions(inp.reports, WHEEL_DROPOUT)
    ensures var s := Sensed(e, inp, t).faults;
      var w := F.Update(e.faults, WHEEL_DROPOUT, Silent(e.monitor, inp.readings.wheel, t), t);
      && s.streak[WHEEL_DROPOUT] == w.streak[WHEEL_DROPOUT] && s.inhibited == e.faults.inhibited
      && (WHEEL_DROPOUT in s.active <==> WHEEL_DROPOUT in w.active)
  {
    var fed := F.UpdateAll(e.faults, inp.reports, t);
    OthersLeaveAlone(e.faults, inp.reports, WHEEL_DROPOUT, t);
    SilenceIsSampledOnce(fed, e.monitor, inp.readings, t);
  }

  lemma RestOfCycle(g: A.Gains, e: Exec, inp: Inputs, t: nat)
    requires A.Sane(g)
    ensures var s, c := Sensed(e, inp, t), Cycle(g, e, inp, t);
      && c.faults.streak == s.faults.streak && c.faults.inhibited == s.faults.inhibited
      && c.monitor == s.monitor && c.faults.active <= s.faults.active
  {
    Safing.LaterEdges(g, e, inp, t);
    Safing.CycleKeepsDecided(g, e, inp, t);
    Safing.DecidedKeepsSensed(e, inp, t);
  }

  /** With a latched, uninhibited dropout the control step steers only if the cycle acted on SET_MODE. */
  lemma LatchedStopsSteering(e: Exec, inp: Inputs, t: nat)
    requires F.ResponseActive(Sensed(e, inp, t).faults, WHEEL_DROPOUT)
    ensures ModeNow(e, inp, t) in STEERING ==> Acts(e, inp, t) && inp.command.value.id == SET_MODE
  {
    var b := Booted(Safed(Sensed(e, inp, t), t), t);
    assert FellBack(b, t).modes.mode !in STEERING;
  }

  // ---- silence after the last frame ----

  /** Last frame at `frame`, last cycle at `last`, cycles at most `gap` apart since: the streak has kept up. */
  predicate Counting(e: Exec, frame: nat, last: nat, gap: nat) {
    && e.monitor.wheelAcquired && e.monitor.wheelSeen == frame % WRAP && frame <= last
    && WHEEL_DROPOUT !in e.faults.inhibited
    && (last > frame + S.WHEEL_TIMEOUT ==> e.faults.streak[WHEEL_DROPOUT] >= 1)
    && (last > frame + S.WHEEL_TIMEOUT + gap ==> e.faults.streak[WHEEL_DROPOUT] >= 2)
    && (last > frame + S.WHEEL_TIMEOUT + 2 * gap ==> e.faults.streak[WHEEL_DROPOUT] >= 3)
  }

  /** A cycle that brings no frame and no injected verdict, on time, before the counter comes round again. */
  predicate Quiet(b: Beat, frame: nat, last: nat, gap: nat) {
    && b.inp.readings.wheel.None? && !Mentions(b.inp.reports, WHEEL_DROPOUT)
    && last <= b.at <= last + gap && b.at < frame + WRAP
  }

  /** One quiet cycle: what the rest of the proof needs of it. */
  lemma QuietCounts(g: A.Gains, e: Exec, b: Beat, frame: nat, last: nat, gap: nat) returns (r: Exec)
    requires A.Sane(g) && e.monitor.wheelAcquired && e.monitor.wheelSeen == frame % WRAP && frame <= last
    requires Quiet(b, frame, last, gap)
    ensures r == Step(g, e, b) && r.monitor.wheelAcquired && r.monitor.wheelSeen == frame % WRAP
    ensures r.faults.inhibited == e.faults.inhibited == Sensed(e, b.inp, b.at % WRAP).faults.inhibited
    ensures b.at > frame + S.WHEEL_TIMEOUT ==>
      r.faults.streak[WHEEL_DROPOUT] >= 3 || r.faults.streak[WHEEL_DROPOUT] == e.faults.streak[WHEEL_DROPOUT] + 1
    ensures b.at > frame + S.WHEEL_TIMEOUT && r.faults.streak[WHEEL_DROPOUT] >= 3 ==>
      WHEEL_DROPOUT in Sensed(e, b.inp, b.at % WRAP).faults.active
  {
    r := Step(g, e, b);
    var t := b.at % WRAP;
    SensedWheel(e, b.inp, t);
    RestOfCycle(g, e, b.inp, t);
    SinceIsElapsed(frame, b.at - frame);
    assert Silent(e.monitor, None, t) <==> b.at > frame + S.WHEEL_TIMEOUT;
  }

  lemma QuietStep(g: A.Gains, e: Exec, b: Beat, frame: nat, last: nat, gap: nat)
    requires A.Sane(g) && Counting(e, frame, last, gap) && Quiet(b, frame, last, gap)
    ensures Counting(Step(g, e, b), frame, b.at, gap)
    ensures b.at > frame + S.WHEEL_TIMEOUT + 2 * gap ==>
      F.ResponseActive(Sensed(e, b.inp, b.at % WRAP).faults, WHEEL_DROPOUT)
  {
    var r := QuietCounts(g, e, b, frame, last, gap);
  }

  predicate AllQuiet(beats: seq<Beat>, frame: nat, last: nat, gap: nat) {
    beats == [] || (Quiet(beats[0], frame, last, gap) && AllQuiet(beats[1..], frame, beats[0].at, gap))
  }

  /** Past the deadline every cycle decides with the dropout latched, and steers only on a SET_MODE it acts on. */
  predicate AllAnswered(g: A.Gains, e: Exec, beats: seq<Beat>, deadline: int)
    requires A.Sane(g)
    decreases |beats|
  {
    beats == [] ||
    var b, t := beats[0], beats[0].at % WRAP;
    && (b.at > deadline ==>
          && F.ResponseActive(Sensed(e, b.inp, t).faults, WHEEL_DROPOUT)
          && (ModeNow(e, b.inp, t) in STEERING ==> Acts(e, b.inp, t) && b.inp.command.value.id == SET_MODE))
    && AllAnswered(g, Step(g, e, b), beats[1..], deadline)
  }

  /**
   * Bounded response, from the cycle that heard the last frame on (FrameStartsClock, with last == frame): while no
   * frame comes and cycles stay at most `gap` ms apart, every cycle past 1000 + 2 gap ms is answered.
   */
  lemma {:induction false} SilenceAnswered(g: A.Gains, e: Exec, beats: seq<Beat>, frame: nat, last: nat, gap: nat)
    requires A.Sane(g) && Counting(e, frame, last, gap) && AllQuiet(beats, frame, last, gap)
    ensures AllAnswered(g, e, beats, frame + S.WHEEL_TIMEOUT + 2 * gap)
    decreases |beats|
  {
    if beats != [] {
      var b := beats[0];
      QuietStep(g, e, b, frame, last, gap);
      if b.at > frame + S.WHEEL_TIMEOUT + 2 * gap { LatchedStopsSteering(e, b.inp, b.at % WRAP); }
      SilenceAnswered(g, Step(g, e, b), beats[1..], frame, b.at, gap);
    }
  }

  /** The cycle that hears the last frame starts the clock. */
  lemma FrameStartsClock(g: A.Gains, e: Exec, b: Beat, gap: nat)
    requires A.Sane(g) && b.inp.readings.wheel.Some? && WHEEL_DROPOUT !in e.faults.inhibited
    requires !Mentions(b.inp.reports, WHEEL_DROPOUT)
    ensures Counting(Step(g, e, b), b.at, b.at, gap)
  {
    SensedWheel(e, b.inp, b.at % WRAP);
    RestOfCycle(g, e, b.inp, b.at % WRAP);
  }

  /** On-time cycles that go on past 1000 + 2 gap ms of silence include one no later than 1000 + 3 gap ms. */
  lemma {:induction false} DeadlineIsMet(beats: seq<Beat>, frame: nat, last: nat, gap: nat) returns (i: nat)
    requires AllQuiet(beats, frame, last, gap) && last <= frame + S.WHEEL_TIMEOUT + 2 * gap
    requires beats != [] && beats[|beats| - 1].at > frame + S.WHEEL_TIMEOUT + 2 * gap
    ensures i < |beats|
    ensures frame + S.WHEEL_TIMEOUT + 2 * gap < beats[i].at <= frame + S.WHEEL_TIMEOUT + 3 * gap
  {
    if beats[0].at > frame + S.WHEEL_TIMEOUT + 2 * gap {
      i := 0;
    } else {
      var j := DeadlineIsMet(beats[1..], frame, beats[0].at, gap);
      i := j + 1;
    }
  }

  // ---- latched until cleared ----

  predicate Clears(e: Exec, b: Beat) {
    Acts(e, b.inp, b.at % WRAP) && b.inp.command.value.id == CLEAR_FAULT && b.inp.command.value.arg == WHEEL_DROPOUT
  }

  predicate NeverCleared(g: A.Gains, e: Exec, beats: seq<Beat>)
    requires A.Sane(g)
    decreases |beats|
  {
    beats == [] || (!Clears(e, beats[0]) && NeverCleared(g, Step(g, e, beats[0]), beats[1..]))
  }

  lemma LatchStep(g: A.Gains, e: Exec, b: Beat) returns (r: Exec)
    requires A.Sane(g) && F.ResponseActive(e.faults, WHEEL_DROPOUT) && !Clears(e, b)
    ensures r == Step(g, e, b) && F.ResponseActive(r.faults, WHEEL_DROPOUT)
    ensures F.ResponseActive(Sensed(e, b.inp, b.at % WRAP).faults, WHEEL_DROPOUT)
  {
    r := Step(g, e, b);
    var t := b.at % WRAP;
    var fed := F.UpdateAll(e.faults, b.inp.reports, t);
    SamplesKeepLatch(e.faults, b.inp.reports, t);
    SamplesKeepLatch(fed, S.Samples(e.monitor, b.inp.readings, t), t);
    Safing.LaterEdges(g, e, b.inp, t);
    Safing.CycleKeepsDecided(g, e, b.inp, t);
  }

  lemma {:induction false} SamplesKeepLatch(s: F.Faults, samples: seq<F.Sample>, t: nat)
    ensures s.active <= F.UpdateAll(s, samples, t).active && F.UpdateAll(s, samples, t).inhibited == s.inhibited
    decreases |samples|
  {
    if samples != [] { SamplesKeepLatch(F.Update(s, samples[0].fault, samples[0].bad, t), samples[1..], t); }
  }

  /** Whatever the wheel does next, while the latch stands no control step steers without a SET_MODE in that cycle. */
  lemma {:induction false} LatchHolds(g: A.Gains, e: Exec, beats: seq<Beat>)
    requires A.Sane(g) && F.ResponseActive(e.faults, WHEEL_DROPOUT) && NeverCleared(g, e, beats)
    ensures AllAnswered(g, e, beats, -1)
    decreases |beats|
  {
    if beats != [] {
      var r := LatchStep(g, e, beats[0]);
      LatchedStopsSteering(e, beats[0].inp, beats[0].at % WRAP);
      LatchHolds(g, r, beats[1..]);
    }
  }

  // ---- a wheel that keeps talking ----

  /** Every cycle comes within the timeout of the frame before it, and nothing is injected. */
  predicate Talking(beats: seq<Beat>, frame: nat) {
    beats == [] ||
    var b := beats[0];
    && frame <= b.at && !Mentions(b.inp.reports, WHEEL_DROPOUT)
    && (b.inp.readings.wheel.None? ==> b.at <= frame + S.WHEEL_TIMEOUT)
    && Talking(beats[1..], if b.inp.readings.wheel.Some? then b.at else frame)
  }

  predicate NeverLatched(g: A.Gains, e: Exec, beats: seq<Beat>)
    requires A.Sane(g)
    decreases |beats|
  {
    WHEEL_DROPOUT !in e.faults.active &&
    (beats == [] ||
     (WHEEL_DROPOUT !in Sensed(e, beats[0].inp, beats[0].at % WRAP).faults.active
      && NeverLatched(g, Step(g, e, beats[0]), beats[1..])))
  }

  lemma HeardIsNotSilent(m: S.Monitor, wheel: Option<int>, at: nat, frame: nat)
    requires m.wheelAcquired && m.wheelSeen == frame % WRAP && frame <= at
    requires wheel.None? ==> at <= frame + S.WHEEL_TIMEOUT
    ensures !Silent(m, wheel, at % WRAP)
  {
    if wheel.None? { SinceIsElapsed(frame, at - frame); } else { SinceIsElapsed(at, 0); }
  }

  lemma TalkingStep(g: A.Gains, e: Exec, b: Beat, frame: nat) returns (r: Exec)
    requires A.Sane(g) && e.monitor.wheelAcquired && e.monitor.wheelSeen == frame % WRAP
    requires WHEEL_DROPOUT !in e.faults.active && Talking([b], frame)
    ensures r == Step(g, e, b) && r.monitor.wheelAcquired
    ensures r.monitor.wheelSeen == (if b.inp.readings.wheel.Some? then b.at else frame) % WRAP
    ensures WHEEL_DROPOUT !in r.faults.active && WHEEL_DROPOUT !in Sensed(e, b.inp, b.at % WRAP).faults.active
  {
    r := Step(g, e, b);
    var t := b.at % WRAP;
    SensedWheel(e, b.inp, t);
    RestOfCycle(g, e, b.inp, t);
    HeardIsNotSilent(e.monitor, b.inp.readings.wheel, b.at, frame);
  }

  /** After acquisition, frames at most 1000 ms apart never latch it. */
  lemma {:induction false} TalkingNeverLatches(g: A.Gains, e: Exec, beats: seq<Beat>, frame: nat)
    requires A.Sane(g) && e.monitor.wheelAcquired && e.monitor.wheelSeen == frame % WRAP
    requires WHEEL_DROPOUT !in e.faults.active && Talking(beats, frame)
    ensures NeverLatched(g, e, beats)
    decreases |beats|
  {
    if beats != [] {
      var r := TalkingStep(g, e, beats[0], frame);
      TalkingNeverLatches(g, r, beats[1..], if beats[0].inp.readings.wheel.Some? then beats[0].at else frame);
    }
  }
}
