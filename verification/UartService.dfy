/** What the uart's interrupt gets done: every byte that can go out does, and every byte there is room for is kept. */
module UartService {
  import opened Wire
  import opened Uart

  /**
   * e is s after the next n bytes of its queue, or all of them, went out: the wire with what still waits behind it is
   * the same string, n shorter at the back; and the interrupt is on while any wait.
   */
  ghost predicate Drained(s: Lines, e: Lines, n: nat) {
    && e.wire + e.txQueue == s.wire + s.txQueue
    && |e.txQueue| == (if n < |s.txQueue| then |s.txQueue| - n else 0)
    && (n > 0 ==> (e.armed <==> e.txQueue != []))
  }

  lemma OneSent(s: Lines, a: Action) returns (e: Lines)
    requires Sound(s) && s.writer == Idle && a.Isr? && a.txe
    ensures e == Step(s, a) && Sound(e) && e.writer == Idle && Drained(s, e, 1)
  {
    StepSound(s, a);
    e := Step(s, a);
    if s.txQueue != [] {
      assert s.txQueue == [s.txQueue[0]] + s.txQueue[1..];
      assert s.wire + [s.txQueue[0]] + s.txQueue[1..] == s.wire + ([s.txQueue[0]] + s.txQueue[1..]);
    }
  }

  /**
   * While the writer is quiet, n interrupts that find the data register empty put the next n queued bytes on the wire
   * in order, whatever arrives meanwhile; and the interrupt is left enabled exactly while bytes still wait.
   */
  lemma {:induction false} DrainsOut(s: Lines, wakes: seq<Action>)
    requires Sound(s) && s.writer == Idle && Interrupts(wakes)
    requires forall i :: 0 <= i < |wakes| ==> wakes[i].txe
    ensures Possible(s, wakes) && Drained(s, After(s, wakes), |wakes|)
    decreases |wakes|
  {
    if wakes != [] {
      var t := OneSent(s, wakes[0]);
      DrainsOut(t, wakes[1..]);
    }
  }

  // ---- receiving ----

  /** Which arrivals find room, with n bytes waiting before the first: the ring holds 255. */
  function KeptBy(run: seq<Action>, n: nat): seq<Byte> {
    if run == [] then []
    else match run[0]
      case Isr(rxne, _, dr) => if rxne && n < 255 then [dr] + KeptBy(run[1..], n + 1) else KeptBy(run[1..], n)
      case Read => KeptBy(run[1..], if n == 0 then 0 else n - 1)
      case _ => KeptBy(run[1..], n)
  }

  /** How many reads find a byte. */
  function ReadBy(run: seq<Action>, n: nat): nat {
    if run == [] then 0
    else match run[0]
      case Isr(rxne, _, dr) => ReadBy(run[1..], if rxne && n < 255 then n + 1 else n)
      case Read => if n == 0 then ReadBy(run[1..], 0) else 1 + ReadBy(run[1..], n - 1)
      case _ => ReadBy(run[1..], n)
  }

  /** One step's part of both. */
  lemma StepReceives(s: Lines, a: Action, run: seq<Action>)
    requires Enabled(s, a)
    ensures var e, n := Step(s, a), |s.rxQueue|;
      && e.kept + KeptBy(run, |e.rxQueue|) == s.kept + KeptBy([a] + run, n)
      && |e.taken| + ReadBy(run, |e.rxQueue|) == |s.taken| + ReadBy([a] + run, n)
  {
    assert ([a] + run)[0] == a && ([a] + run)[1..] == run;
    if a.Isr? && a.rxne && |s.rxQueue| < 255 {
      assert s.kept + [a.dr] + KeptBy(run, |s.rxQueue| + 1) == s.kept + ([a.dr] + KeptBy(run, |s.rxQueue| + 1));
    }
  }

  lemma {:induction false} Receives(s: Lines, run: seq<Action>)
    requires Possible(s, run)
    ensures var e := After(s, run);
      e.kept == s.kept + KeptBy(run, |s.rxQueue|) && |e.taken| == |s.taken| + ReadBy(run, |s.rxQueue|)
    decreases |run|
  {
    if run == [] {
      assert s.kept + [] == s.kept;
    } else {
      Receives(Step(s, run[0]), run[1..]);
      StepReceives(s, run[0], run[1..]);
      assert run == [run[0]] + run[1..];
    }
  }

  /**
   * From power-up: a byte is kept if and only if fewer than 255 were waiting when it came, the reads return the kept
   * ones in order from the first, and the rest are waiting; only what was not kept is counted as dropped.
   */
  lemma ReceivesOfARun(run: seq<Action>)
    requires Possible(QUIET, run)
    ensures var e, kept, n := After(QUIET, run), KeptBy(run, 0), ReadBy(run, 0);
      && n <= |kept| && e.taken == kept[..n] && e.rxQueue == kept[n..]
      && e.dropped == |Arrived(run)| - |kept|
  {
    Receives(QUIET, run);
    EveryInterleaving(QUIET, run);
    var e, kept := After(QUIET, run), KeptBy(run, 0);
    assert [] + kept == kept;
    assert e.kept == e.taken + e.rxQueue;
  }
}
