/** What the executive's heading and target are over whole runs (fsw/src/executive.cpp). */
module Heading {
  import opened Wire
  import opened Catalog
  import opened Executive
  import opened WheelTorque
  import A = Attitude
  import Safing

  /** The last cycle was at `last`, on a clock that never wraps. */
  predicate Ticked(e: Exec, last: nat) { e.ran && e.lastT == last % WRAP }

  function Seconds(last: nat, at: nat): real
    requires last <= at
  {
    (at - last) as real / 1000.0
  }

  /** Nothing before the control step touches the estimate or the clock; a target is set only by SET_HEADING. */
  lemma DecidedAims(e: Exec, inp: Inputs, t: nat)
    ensures var d := Decided(e, inp, t);
      && d.lastT == e.lastT && d.ran == e.ran && d.lastMode == e.lastMode
      && d.control == if Acts(e, inp, t) && inp.command.value.id == SET_HEADING
                      then e.control.(target := inp.command.value.arg as real * HEADING_STEP, targetCommanded := true)
                      else e.control
  {
    Safing.StagedMode(Sensed(e, inp, t), t);
  }

  /** All of the cycle after the decision. */
  function Controlled(g: A.Gains, d: Exec, inp: Inputs, t: nat): Exec
    requires A.Sane(g)
  {
    Caught(g, Steered(g, Estimated(g, d, inp, t), inp, t), inp.rate, d.modes.mode, t)
  }

  lemma SteeredAims(g: A.Gains, m: Exec, inp: Inputs, t: nat)
    requires A.Sane(g)
    ensures var c := Steered(g, m, inp, t);
      && c.control.heading == m.control.heading && c.control.haveMag == m.control.haveMag
      && c.control.target == m.control.target && c.control.targetCommanded == m.control.targetCommanded
      && c.lastT == m.lastT && c.ran == m.ran && c.lastMode == m.lastMode
  {
  }

  lemma CaughtAims(g: A.Gains, m: Exec, rate: Option<real>, mode: Mode, t: nat)
    ensures var c := Caught(g, m, rate, mode, t);
      c.control == m.control && c.lastT == m.lastT && c.ran == m.ran && c.lastMode == m.lastMode
  {
  }

  /** The control step moves the estimate and the clock as the filter does, and nothing after it moves them back. */
  lemma ControlAims(g: A.Gains, d: Exec, inp: Inputs, t: nat)
    requires A.Sane(g)
    ensures var m, c := Estimated(g, d, inp, t), Controlled(g, d, inp, t);
      && c.control.heading == m.control.heading && c.control.haveMag == m.control.haveMag
      && c.control.target == m.control.target && c.control.targetCommanded == m.control.targetCommanded
      && c.lastT == t && c.ran && c.lastMode == d.modes.mode
  {
    var m := Estimated(g, d, inp, t);
    SteeredAims(g, m, inp, t);
    CaughtAims(g, Steered(g, m, inp, t), inp.rate, d.modes.mode, t);
  }

  lemma ControlEstimates(g: A.Gains, d: Exec, inp: Inputs, t: nat, dt: real)
    requires A.Sane(g) && Elapsed(d, t) == dt
    ensures var c := Controlled(g, d, inp, t);
      match inp.rate
      case None => c.control.heading == d.control.heading && c.control.haveMag == d.control.haveMag
      case Some(w) =>
        var u := A.Updated(g, d.control, w, dt, inp.mag);
        c.control.heading == u.heading && c.control.haveMag == u.haveMag
  {
    ControlAims(g, d, inp, t);
  }

  lemma ControlTargets(g: A.Gains, d: Exec, inp: Inputs, t: nat)
    requires A.Sane(g)
    ensures var c := Controlled(g, d, inp, t);
      && c.control.targetCommanded == d.control.targetCommanded
      && c.control.target ==
           if !d.control.targetCommanded && d.modes.mode == POINTING && d.lastMode != POINTING then d.control.heading
           else d.control.target
  {
    ControlAims(g, d, inp, t);
  }

  /** The filter's estimate went from s to r on the cycle's sample. */
  predicate Moves(g: A.Gains, s: A.State, r: A.State, b: Beat, dt: real)
    requires A.Sane(g)
  {
    match b.inp.rate
    case None => r.heading == s.heading && r.haveMag == s.haveMag
    case Some(w) => var u := A.Updated(g, s, w, dt, b.inp.mag); r.heading == u.heading && r.haveMag == u.haveMag
  }

  /** A cycle feeds the filter the rate over the time since the last cycle, whatever mode it is in. */
  lemma UpdatesEstimate(g: A.Gains, e: Exec, b: Beat, last: nat)
    requires A.Sane(g) && Ticked(e, last) && last <= b.at < last + WRAP
    ensures var c := Step(g, e, b);
      Ticked(c, b.at) && Moves(g, e.control, c.control, b, Seconds(last, b.at))
  {
    var t := b.at % WRAP;
    var d := Decided(e, b.inp, t);
    SinceIsElapsed(last, b.at - last);
    DecidedAims(e, b.inp, t);
    ControlAims(g, d, b.inp, t);
    ControlEstimates(g, d, b.inp, t, Seconds(last, b.at));
    SameEstimate(g, e.control, d.control, b.inp, Seconds(last, b.at));
  }

  /** The target does not enter into the estimate. */
  lemma SameEstimate(g: A.Gains, a: A.State, b: A.State, inp: Inputs, dt: real)
    requires A.Sane(g) && a.heading == b.heading && a.haveMag == b.haveMag
    ensures inp.rate.Some? ==>
      var u, v := A.Updated(g, a, inp.rate.value, dt, inp.mag), A.Updated(g, b, inp.rate.value, dt, inp.mag);
      u.heading == v.heading && u.haveMag == v.haveMag
  {
  }

  /** Cycles in order, each less than a counter wrap after the one before. */
  predicate InStep(beats: seq<Beat>, last: nat) {
    beats == [] || (last <= beats[0].at < last + WRAP && InStep(beats[1..], beats[0].at))
  }

  function RunOf(g: A.Gains, e: Exec, beats: seq<Beat>): Exec
    requires A.Sane(g)
    decreases |beats|
  {
    if beats == [] then e else RunOf(g, Step(g, e, beats[0]), beats[1..])
  }

  /** Each sampled rate times the time since the cycle before it. */
  function TurnedBy(beats: seq<Beat>, last: nat): real
    requires InStep(beats, last)
  {
    if beats == [] then 0.0 else Turn(beats[0], last) + TurnedBy(beats[1..], beats[0].at)
  }

  function Turn(b: Beat, last: nat): real
    requires last <= b.at
  {
    match b.inp.rate case None => 0.0 case Some(w) => w * Seconds(last, b.at)
  }

  lemma BlindCycle(g: A.Gains, e: Exec, b: Beat, last: nat) returns (r: Exec)
    requires A.Sane(g) && Ticked(e, last) && last <= b.at < last + WRAP && b.inp.mag == None
    ensures r == Step(g, e, b) && Ticked(r, b.at) && r.control.heading == e.control.heading + Turn(b, last)
  {
    r := Step(g, e, b);
    UpdatesEstimate(g, e, b, last);
    BlindMove(g, e.control, r.control, b, last);
  }

  lemma BlindMove(g: A.Gains, s: A.State, r: A.State, b: Beat, last: nat)
    requires A.Sane(g) && last <= b.at && b.inp.mag == None && Moves(g, s, r, b, Seconds(last, b.at))
    ensures r.heading == s.heading + Turn(b, last)
  {
  }

  /** With no compass, through any modes, commands and faults, the heading is dead reckoning. */
  lemma {:induction false} DeadReckoningOfARun(g: A.Gains, e: Exec, last: nat, beats: seq<Beat>)
    requires A.Sane(g) && Ticked(e, last) && InStep(beats, last)
    requires forall i :: 0 <= i < |beats| ==> beats[i].inp.mag == None
    ensures RunOf(g, e, beats).control.heading == e.control.heading + TurnedBy(beats, last)
    decreases |beats|
  {
    if beats != [] {
      var r := BlindCycle(g, e, beats[0], last);
      DeadReckoningOfARun(g, r, beats[0].at, beats[1..]);
    }
  }

  /** The cycles bring the samples' rates at the samples' times, and the compass names the true heading. */
  predicate Brings(beats: seq<Beat>, last: nat, truth: real, run: seq<A.Sample>)
    decreases |beats|
  {
    |beats| == |run| &&
    (beats != [] ==>
      && last < beats[0].at < last + WRAP && run[0].dt == Seconds(last, beats[0].at)
      && beats[0].inp.rate == Some(run[0].rate) && beats[0].inp.mag == Some(A.Compass(truth, run[0]))
      && Brings(beats[1..], beats[0].at, A.Truth(truth, run[0]), run[1..]))
  }

  lemma {:induction false} ErrorKeeps(
      g: A.Gains, e: Exec, last: nat, beats: seq<Beat>, truth: real, bias: real, bound: real, run: seq<A.Sample>)
    requires A.Sane(g) && Ticked(e, last) && Brings(beats, last, truth, run)
    requires forall i :: 0 <= i < |run| ==> A.Abs(run[i].rate - run[i].turn) <= bias
    requires A.Off(truth, e.control.heading) <= bound && bias * g.magTau <= bound
    ensures A.Off(A.TruthAfter(truth, run), RunOf(g, e, beats).control.heading) <= bound
    decreases |beats|
  {
    if beats != [] {
      var r := Step(g, e, beats[0]);
      UpdatesEstimate(g, e, beats[0], last);
      A.UpdateBound(g, e.control, truth, run[0], bias, bound);
      ErrorKeeps(g, r, beats[0].at, beats[1..], A.Truth(truth, run[0]), bias, bound, run[1..]);
    }
  }

  /** With one, the heading stays within the larger of its first error and the gyro's worst times the time constant. */
  lemma ErrorOfARun(g: A.Gains, e: Exec, last: nat, beats: seq<Beat>, truth: real, bias: real, run: seq<A.Sample>)
    requires A.Sane(g) && Ticked(e, last) && Brings(beats, last, truth, run)
    requires forall i :: 0 <= i < |run| ==> A.Abs(run[i].rate - run[i].turn) <= bias
    ensures A.Off(A.TruthAfter(truth, run), RunOf(g, e, beats).control.heading)
         <= A.Max(A.Off(truth, e.control.heading), bias * g.magTau)
  {
    ErrorKeeps(g, e, last, beats, truth, bias, A.Max(A.Off(truth, e.control.heading), bias * g.magTau), run);
  }

  // ---- where it aims ----

  predicate SetsHeading(e: Exec, b: Beat) {
    Acts(e, b.inp, b.at % WRAP) && b.inp.command.value.id == SET_HEADING
  }

  /** A cycle's target: the heading just commanded, else the one held; never told, it holds what entry finds. */
  lemma CycleAims(g: A.Gains, e: Exec, b: Beat)
    requires A.Sane(g)
    ensures var c := Step(g, e, b);
      var m := ModeNow(e, b.inp, b.at % WRAP);
      && (c.control.targetCommanded <==> e.control.targetCommanded || SetsHeading(e, b))
      && c.control.target ==
           if SetsHeading(e, b) then b.inp.command.value.arg as real * (6.283185307 / 256.0)
           else if !e.control.targetCommanded && m == POINTING && e.lastMode != POINTING then e.control.heading
           else e.control.target
  {
    var t := b.at % WRAP;
    var d := Decided(e, b.inp, t);
    DecidedAims(e, b.inp, t);
    ControlTargets(g, d, b.inp, t);
  }

  predicate NoneSets(g: A.Gains, e: Exec, beats: seq<Beat>)
    requires A.Sane(g)
    decreases |beats|
  {
    beats == [] || (!SetsHeading(e, beats[0]) && NoneSets(g, Step(g, e, beats[0]), beats[1..]))
  }

  lemma {:induction false} TargetKeeps(g: A.Gains, e: Exec, beats: seq<Beat>)
    requires A.Sane(g) && e.control.targetCommanded && NoneSets(g, e, beats)
    ensures RunOf(g, e, beats).control.target == e.control.target
    decreases |beats|
  {
    if beats != [] {
      CycleAims(g, e, beats[0]);
      TargetKeeps(g, Step(g, e, beats[0]), beats[1..]);
    }
  }

  /** A heading once commanded is the target through every mode change until another is acted on. */
  lemma TargetOfARun(g: A.Gains, e: Exec, b: Beat, beats: seq<Beat>)
    requires A.Sane(g) && SetsHeading(e, b) && NoneSets(g, Step(g, e, b), beats)
    ensures RunOf(g, Step(g, e, b), beats).control.target == b.inp.command.value.arg as real * (6.283185307 / 256.0)
  {
    CycleAims(g, e, b);
    TargetKeeps(g, Step(g, e, b), beats);
  }
}
