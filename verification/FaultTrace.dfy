/** Why a fault is latched after a run of the whole executive (fsw/src/executive.cpp, fault_manager.cpp). */
module FaultTrace {
  import opened Wire
  import opened Catalog
  import opened Executive
  import A = Attitude
  import F = FaultManager
  import H = CommandHandler
  import S = SensorMonitor
  import Safing

  function Sampled(samples: seq<F.Sample>, t: nat): (ops: seq<F.Op>)
    ensures |ops| == |samples|
    ensures forall i :: 0 <= i < |ops| ==> ops[i] == F.Updated(samples[i].fault, samples[i].bad, t)
  {
    seq(|samples|, i requires 0 <= i < |samples| => F.Updated(samples[i].fault, samples[i].bad, t))
  }

  /** When the last command came, as far as this step. */
  function HeardAt(step: Safing.Step, heard: nat): nat {
    if step.Cycled? && step.inp.command.Some? then step.t else heard
  }

  /**
   * The trace with one step's worth on its end: the reports, then what the sensors warrant, then whether no command has
   * come for five seconds, then the CLEAR_FAULT it acts on.
   */
  function Grown(e: Exec, step: Safing.Step, ops: seq<F.Op>, heard: nat): seq<F.Op> {
    match step
    case Cycled(inp, t) =>
      ops + Sampled(inp.reports, t) + Sampled(S.Samples(e.monitor, inp.readings, t), t)
      + [F.Updated(COMMAND_LINK_LOSS, inp.command.None? && Since(t, heard) > 5000, t)] + Clears(e, inp, t)
    case InhibitedFault(f) => ops + [F.Inhibited(f, true)]
  }

  function Clears(e: Exec, inp: Inputs, t: nat): seq<F.Op> {
    if Acts(e, inp, t) && inp.command.value.id == 2 then
      H.ExecutedIsValid(e.commands, inp.command.value, e.modes.mode, t);
      [F.Cleared(inp.command.value.arg, t)]
    else []
  }

  function Trace(g: A.Gains, e: Exec, steps: seq<Safing.Step>, ops: seq<F.Op>, heard: nat): seq<F.Op>
    requires A.Sane(g)
    decreases |steps|
  {
    if steps == [] then ops
    else Trace(g, Safing.Do(g, e, steps[0]), steps[1..], Grown(e, steps[0], ops, heard), HeardAt(steps[0], heard))
  }

  lemma AfterOne(ops: seq<F.Op>, op: F.Op)
    ensures F.After(ops + [op]) == F.Do(F.After(ops), op)
  {
    assert (ops + [op])[..|ops|] == ops;
  }

  lemma {:induction false} AfterSampled(ops: seq<F.Op>, samples: seq<F.Sample>, t: nat)
    ensures F.After(ops + Sampled(samples, t)) == F.UpdateAll(F.After(ops), samples, t)
    decreases |samples|
  {
    if samples == [] {
      assert ops + Sampled(samples, t) == ops;
    } else {
      var op := F.Updated(samples[0].fault, samples[0].bad, t);
      AfterOne(ops, op);
      AfterSampled(ops + [op], samples[1..], t);
      assert ops + [op] + Sampled(samples[1..], t) == ops + Sampled(samples, t);
    }
  }

  /** The faults as the cycle samples them. */
  lemma SensedTrace(e: Exec, inp: Inputs, t: nat, ops: seq<F.Op>, heard: nat)
    requires e.faults == F.After(ops) && e.commands.lastAt == heard
    ensures Sensed(e, inp, t).faults ==
      F.After(ops + Sampled(inp.reports, t) + Sampled(S.Samples(e.monitor, inp.readings, t), t)
              + [F.Updated(COMMAND_LINK_LOSS, inp.command.None? && Since(t, heard) > 5000, t)])
    ensures Sensed(e, inp, t).commands.lastAt == if inp.command.Some? then t else heard
  {
    var a, samples := ops + Sampled(inp.reports, t), S.Samples(e.monitor, inp.readings, t);
    AfterSampled(ops, inp.reports, t);
    AfterSampled(a, samples, t);
    AfterOne(a + Sampled(samples, t), F.Updated(COMMAND_LINK_LOSS, inp.command.None? && Since(t, heard) > 5000, t));
    assert Since(t, t) == 0;
  }

  lemma DecidedClears(e: Exec, inp: Inputs, t: nat)
    ensures var s, d := Sensed(e, inp, t), Decided(e, inp, t);
      d.faults == (if Clears(e, inp, t) == [] then s.faults else F.Do(s.faults, Clears(e, inp, t)[0]))
      && |Clears(e, inp, t)| <= 1 && d.commands == s.commands
  {
    Safing.StagedMode(Sensed(e, inp, t), t);
    if Acts(e, inp, t) { H.ExecutedIsValid(e.commands, inp.command.value, e.modes.mode, t); }
  }

  lemma DecidedTrace(e: Exec, inp: Inputs, t: nat, ops: seq<F.Op>, heard: nat)
    requires e.faults == F.After(ops) && e.commands.lastAt == heard
    ensures Decided(e, inp, t).faults == F.After(Grown(e, Safing.Cycled(inp, t), ops, heard))
    ensures Decided(e, inp, t).commands.lastAt == if inp.command.Some? then t else heard
  {
    SensedTrace(e, inp, t, ops, heard);
    DecidedClears(e, inp, t);
    var before := ops + Sampled(inp.reports, t) + Sampled(S.Samples(e.monitor, inp.readings, t), t)
      + [F.Updated(COMMAND_LINK_LOSS, inp.command.None? && Since(t, heard) > 5000, t)];
    if Clears(e, inp, t) == [] {
      assert before + [] == before;
    } else {
      AfterOne(before, Clears(e, inp, t)[0]);
      assert Clears(e, inp, t) == [Clears(e, inp, t)[0]];
    }
  }

  lemma StepTrace(g: A.Gains, e: Exec, step: Safing.Step, ops: seq<F.Op>, heard: nat)
    requires A.Sane(g) && e.faults == F.After(ops) && e.commands.lastAt == heard
    ensures var r := Safing.Do(g, e, step);
      r.faults == F.After(Grown(e, step, ops, heard)) && r.commands.lastAt == HeardAt(step, heard)
  {
    match step
    case Cycled(inp, t) =>
      DecidedTrace(e, inp, t, ops, heard);
      Safing.CycleKeepsDecided(g, e, inp, t);
    case InhibitedFault(f) => AfterOne(ops, F.Inhibited(f, true));
  }

  lemma {:induction false} RunTrace(g: A.Gains, e: Exec, steps: seq<Safing.Step>, ops: seq<F.Op>, heard: nat)
    requires A.Sane(g) && e.faults == F.After(ops) && e.commands.lastAt == heard
    ensures Safing.After(g, e, steps).faults == F.After(Trace(g, e, steps, ops, heard))
    decreases |steps|
  {
    if steps != [] {
      StepTrace(g, e, steps[0], ops, heard);
      RunTrace(g, Safing.Do(g, e, steps[0]), steps[1..], Grown(e, steps[0], ops, heard), HeardAt(steps[0], heard));
    }
  }

  /**
   * After any run from power-on, a fault is latched if and only if some sample of it was the last of enough bad ones in
   * a row and no acted CLEAR_FAULT has named it since. Modes, safing and fallbacks never enter into it.
   */
  lemma LatchedOfARun(g: A.Gains, steps: seq<Safing.Step>, f: Fault) returns (tr: seq<F.Op>)
    requires A.Sane(g)
    ensures tr == Trace(g, Initial(), steps, [], 0)
    ensures f in Safing.After(g, Initial(), steps).faults.active <==>
      exists j :: 0 <= j < |tr| && F.Trips(tr, f, j) && !F.ClearedSince(tr, f, j)
  {
    tr := Trace(g, Initial(), steps, [], 0);
    RunTrace(g, Initial(), steps, [], 0);
    F.ActiveIff(tr, f);
  }
}
