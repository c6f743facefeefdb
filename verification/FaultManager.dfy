/** Debounce, latch, inhibit and the edge log (fsw/src/fault_manager.cpp). */
module FaultManager {
  import opened Catalog

  datatype Policy = Policy(severity: Severity, debounce: nat)

  function PolicyOf(f: Fault): (p: Policy)
    ensures 1 <= p.debounce <= 10
  {
    if f == COMMAND_LINK_LOSS then Policy(Critical, 1)
    else if f == WHEEL_SATURATED then Policy(Degraded, 10)
    else if f in {UNDERVOLTAGE, OVERVOLTAGE, OVERCURRENT, OVERTEMPERATURE} then Policy(Critical, 3)
    else if f in {ACCEL_GYRO_DROPOUT, POWER_DROPOUT, WHEEL_DROPOUT} then Policy(Degraded, 3)
    else Policy(Warning, 3)
  }

  predicate ForcesSafe(f: Fault) { PolicyOf(f).severity == Critical }

  datatype Edge = Edge(t: nat, fault: Fault, latched: bool)

  /** The masks as sets; `edges` is every latch and clear since power-on, whose tail is the logged ring. */
  datatype Record = Record(active: set<Fault>, inhibited: set<Fault>, streak: seq<nat>, edges: seq<Edge>)

  function NoStreaks(): (s: seq<nat>)
    ensures |s| == FAULTS && forall f :: 0 <= f < FAULTS ==> s[f] == 0
  {
    seq(FAULTS, i => 0)
  }

  type Faults = r: Record | |r.streak| == FAULTS witness Record({}, {}, NoStreaks(), [])

  function Initial(): Faults { Record({}, {}, NoStreaks(), []) }

  function Set(s: Faults, f: Fault, t: nat): Faults {
    if f in s.active then s else s.(active := s.active + {f}, edges := s.edges + [Edge(t, f, true)])
  }

  function Clear(s: Faults, f: Fault, t: nat): Faults {
    if f !in s.active then s else s.(active := s.active - {f}, edges := s.edges + [Edge(t, f, false)])
  }

  function Update(s: Faults, f: Fault, bad: bool, t: nat): Faults {
    if !bad then s.(streak := s.streak[f := 0])
    else
      var n := if s.streak[f] < PolicyOf(f).debounce then s.streak[f] + 1 else s.streak[f];
      var counted := s.(streak := s.streak[f := n]);
      if n >= PolicyOf(f).debounce then Set(counted, f, t) else counted
  }

  function Inhibit(s: Faults, f: Fault, on: bool): Faults {
    s.(inhibited := if on then s.inhibited + {f} else s.inhibited - {f})
  }

  predicate ShouldEnterSafe(s: Faults) { exists f :: f in s.active && ForcesSafe(f) && f !in s.inhibited }

  predicate ResponseActive(s: Faults, f: Fault) { f in s.active && f !in s.inhibited }

  datatype Sample = Sample(fault: Fault, bad: bool)

  /** Samples fed one after another. */
  function UpdateAll(s: Faults, samples: seq<Sample>, t: nat): Faults
    decreases |samples|
  {
    if samples == [] then s
    else UpdateAll(Update(s, samples[0].fault, samples[0].bad, t), samples[1..], t)
  }

  lemma {:induction false} UpdateAllConcat(s: Faults, a: seq<Sample>, b: seq<Sample>, t: nat)
    ensures UpdateAll(s, a + b, t) == UpdateAll(UpdateAll(s, a, t), b, t)
    decreases |a|
  {
    if a == [] {
      assert a + b == b;
    } else {
      assert (a + b)[1..] == a[1..] + b;
      UpdateAllConcat(Update(s, a[0].fault, a[0].bad, t), a[1..], b, t);
    }
  }

  class Manager {
    var active: set<Fault>
    var inhibited: set<Fault>
    const streak: array<nat>
    var log: seq<Edge>
    ghost var edges: seq<Edge>

    ghost predicate Valid()
      reads this
    {
      streak.Length == FAULTS && log == Recent(edges)
    }

    ghost function Now(): Faults
      requires Valid()
      reads this, streak
    {
      Record(active, inhibited, streak[..], edges)
    }

    constructor ()
      ensures Valid() && fresh(streak) && Now() == Initial()
    {
      active, inhibited := {}, {};
      streak := new nat[FAULTS](_ => 0);
      log, edges := [], [];
    }

    method SetFault(f: Fault, t: nat)
      requires Valid()
      modifies this
      ensures Valid() && Now() == Set(old(Now()), f, t)
    {
      if f in active {
        return;
      }
      active := active + {f};
      RingKeepsRecent(edges, Edge(t, f, true));
      log := RingPush(log, Edge(t, f, true));
      edges := edges + [Edge(t, f, true)];
    }

    method ClearFault(f: Fault, t: nat)
      requires Valid()
      modifies this
      ensures Valid() && Now() == Clear(old(Now()), f, t)
    {
      if f !in active {
        return;
      }
      active := active - {f};
      RingKeepsRecent(edges, Edge(t, f, false));
      log := RingPush(log, Edge(t, f, false));
      edges := edges + [Edge(t, f, false)];
    }

    method InhibitFault(f: Fault, on: bool)
      requires Valid()
      modifies this`inhibited
      ensures Valid() && Now() == Inhibit(old(Now()), f, on)
    {
      inhibited := if on then inhibited + {f} else inhibited - {f};
    }

    method WantsSafe() returns (b: bool)
      requires Valid()
      ensures b == ShouldEnterSafe(Now())
    {
      b := exists f :: f in active && ForcesSafe(f) && f !in inhibited;
    }

    method UpdateFault(f: Fault, bad: bool, t: nat)
      requires Valid()
      modifies this, streak
      ensures Valid() && Now() == Update(old(Now()), f, bad, t)
    {
      if bad {
        if streak[f] < PolicyOf(f).debounce {
          streak[f] := streak[f] + 1;
        }
        if streak[f] >= PolicyOf(f).debounce {
          SetFault(f, t);
        }
      } else {
        streak[f] := 0;
      }
    }
  }

  // ---- what a latch means, over every trace ----

  datatype Op = Updated(f: Fault, bad: bool, t: nat) | Cleared(f: Fault, t: nat) | Inhibited(f: Fault, on: bool)

  function Do(s: Faults, op: Op): Faults {
    match op
    case Updated(f, bad, t) => Update(s, f, bad, t)
    case Cleared(f, t) => Clear(s, f, t)
    case Inhibited(f, on) => Inhibit(s, f, on)
  }

  function After(ops: seq<Op>): Faults
    decreases |ops|
  {
    if ops == [] then Initial() else Do(After(ops[..|ops| - 1]), ops[|ops| - 1])
  }

  /** How many samples of f in a row were bad up to the end of the trace, whatever was cleared in between. */
  function TrailingBad(ops: seq<Op>, f: Fault): nat
    decreases |ops|
  {
    if ops == [] then 0
    else
      var op, before := ops[|ops| - 1], ops[..|ops| - 1];
      if op.Updated? && op.f == f then (if op.bad then TrailingBad(before, f) + 1 else 0)
      else TrailingBad(before, f)
  }

  /** Sample j of the trace is one that latches f. */
  predicate Trips(ops: seq<Op>, f: Fault, j: nat)
    requires j < |ops|
  {
    ops[j].Updated? && ops[j].f == f && ops[j].bad && TrailingBad(ops[..j + 1], f) >= PolicyOf(f).debounce
  }

  predicate ClearedSince(ops: seq<Op>, f: Fault, j: nat) {
    exists k :: j < k < |ops| && ops[k].Cleared? && ops[k].f == f
  }

  lemma {:induction false} StreakIsTrailingBad(ops: seq<Op>, f: Fault)
    ensures After(ops).streak[f] ==
      if TrailingBad(ops, f) < PolicyOf(f).debounce then TrailingBad(ops, f) else PolicyOf(f).debounce
    decreases |ops|
  {
    if ops != [] { StreakIsTrailingBad(ops[..|ops| - 1], f); }
  }

  /** A fault is active exactly when some sample after its last clear saw enough bad ones in a row. */
  lemma {:induction false} ActiveIff(ops: seq<Op>, f: Fault)
    ensures f in After(ops).active <==> exists j :: 0 <= j < |ops| && Trips(ops, f, j) && !ClearedSince(ops, f, j)
    decreases |ops|
  {
    if ops != [] {
      var last, before := |ops| - 1, ops[..|ops| - 1];
      ActiveIff(before, f);
      StreakIsTrailingBad(before, f);
      assert ops[..last + 1] == ops;
      forall j | 0 <= j < last ensures Trips(ops, f, j) == Trips(before, f, j) {
        assert ops[..j + 1] == before[..j + 1];
      }
      forall j | 0 <= j < last
        ensures ClearedSince(ops, f, j) == (ClearedSince(before, f, j) || (ops[last].Cleared? && ops[last].f == f))
      {
        if ClearedSince(before, f, j) {
          var k :| j < k < |before| && before[k].Cleared? && before[k].f == f;
          assert ops[k] == before[k];
        }
      }
      assert !ClearedSince(ops, f, last);
    }
  }

  /** Latches and clears replayed from nothing. */
  function Replay(edges: seq<Edge>): set<Fault>
    decreases |edges|
  {
    if edges == [] then {}
    else
      var e, before := edges[|edges| - 1], Replay(edges[..|edges| - 1]);
      if e.latched then before + {e.fault} else before - {e.fault}
  }

  lemma {:induction false} ReplayGivesActive(ops: seq<Op>)
    ensures Replay(After(ops).edges) == After(ops).active
    decreases |ops|
  {
    if ops != [] {
      var before := After(ops[..|ops| - 1]);
      ReplayGivesActive(ops[..|ops| - 1]);
      var es := After(ops).edges;
      assert es == before.edges || es[..|es| - 1] == before.edges;
    }
  }

  /** The log gains a line exactly when a fault latches or is unlatched, and it says which, when and which way. */
  lemma LogsChanges(s: Faults, op: Op, f: Fault)
    ensures var r := Do(s, op);
      && (f !in s.active && f in r.active ==> op.Updated? && op.f == f && r.edges == s.edges + [Edge(op.t, f, true)])
      && (f in s.active && f !in r.active ==> op.Cleared? && op.f == f && r.edges == s.edges + [Edge(op.t, f, false)])
      && (s.active == r.active ==> r.edges == s.edges)
  {
  }

  function WithoutInhibits(ops: seq<Op>): seq<Op>
    decreases |ops|
  {
    if ops == [] then []
    else
      var before := WithoutInhibits(ops[..|ops| - 1]);
      if ops[|ops| - 1].Inhibited? then before else before + [ops[|ops| - 1]]
  }

  predicate SameButInhibits(a: Faults, b: Faults) { a.(inhibited := b.inhibited) == b }

  lemma InhibitsDoNotMatter(a: Faults, b: Faults, op: Op)
    requires SameButInhibits(a, b)
    ensures SameButInhibits(if op.Inhibited? then a else Do(a, op), Do(b, op))
  {
  }

  /** Inhibiting never changes what latches, what is logged or how far a streak has got. */
  lemma {:induction false} InhibitOnlyMutes(ops: seq<Op>)
    ensures SameButInhibits(After(WithoutInhibits(ops)), After(ops))
    decreases |ops|
  {
    if ops != [] {
      var before, op := ops[..|ops| - 1], ops[|ops| - 1];
      var kept := WithoutInhibits(before);
      InhibitOnlyMutes(before);
      InhibitsDoNotMatter(After(kept), After(before), op);
      assert (kept + [op])[..|kept|] == kept;
    }
  }

  /** While nothing is cleared each fault latches at most once: every new edge is a fault more. */
  lemma {:induction false} SamplesAddEdges(s: Faults, samples: seq<Sample>, t: nat)
    ensures s.active <= UpdateAll(s, samples, t).active
    ensures |UpdateAll(s, samples, t).edges| - |s.edges| == |UpdateAll(s, samples, t).active| - |s.active|
    ensures s.edges <= UpdateAll(s, samples, t).edges
    decreases |samples|
  {
    if samples != [] {
      SamplesAddEdges(Update(s, samples[0].fault, samples[0].bad, t), samples[1..], t);
    }
  }

  lemma {:induction false} AtMostThirteen(active: set<Fault>, n: int)
    requires 0 <= n <= FAULTS && forall f :: f in active ==> f < n
    ensures |active| <= n
    decreases n
  {
    if n == 0 {
      assert active == {};
    } else {
      var top: Fault := n - 1;
      AtMostThirteen(active - {top}, n - 1);
    }
  }
}
