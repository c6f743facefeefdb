/** The interrupt-driven uart rings (obc/Src/drivers/uart.c), as atomic steps of writer, reader and isr. */
module Uart {
  import opened Wire

  const BUF_SIZE := 256
  const CAPACITY := 255

  // ---- what the rings mean: queues and histories ----

  /** Where the one writer stands between two of its stores to shared state. */
  datatype Writer = Idle | Staged(b: Byte) | Published

  datatype Lines = Lines(
    txQueue: seq<Byte>, armed: bool, writer: Writer,
    offered: seq<Byte>, wire: seq<Byte>,
    rxQueue: seq<Byte>, kept: seq<Byte>, taken: seq<Byte>,
    arrivals: nat, dropped: nat)

  const QUIET := Lines([], false, Idle, [], [], [], [], [], 0, 0)

  /** One atomic step. Isr carries the status bits it saw and the byte in the data register. */
  datatype Action = Stage(b: Byte) | Publish | Kick | Isr(rxne: bool, txe: bool, dr: Byte) | Read

  /** The writer only stages into a ring with room, and only follows its own program order. */
  predicate Enabled(s: Lines, a: Action) {
    match a
    case Stage(_) => s.writer == Idle && |s.txQueue| < CAPACITY
    case Publish => s.writer.Staged?
    case Kick => s.writer == Published
    case _ => true
  }

  function Receive(s: Lines, rxne: bool, dr: Byte): Lines {
    if !rxne then s
    else if |s.rxQueue| < CAPACITY then
      s.(rxQueue := s.rxQueue + [dr], kept := s.kept + [dr], arrivals := s.arrivals + 1)
    else s.(arrivals := s.arrivals + 1, dropped := s.dropped + 1)
  }

  function Transmit(s: Lines, txe: bool): Lines {
    if !(txe && s.armed) then s
    else if s.txQueue == [] then s.(armed := false)
    else s.(txQueue := s.txQueue[1..], wire := s.wire + [s.txQueue[0]], armed := |s.txQueue| > 1)
  }

  function Step(s: Lines, a: Action): Lines
    requires Enabled(s, a)
  {
    match a
    case Stage(b) => s.(writer := Staged(b))
    case Publish => s.(writer := Published, txQueue := s.txQueue + [s.writer.b], offered := s.offered + [s.writer.b])
    case Kick => s.(writer := Idle, armed := true)
    case Isr(rxne, txe, dr) => Transmit(Receive(s, rxne, dr), txe)
    case Read => if s.rxQueue == [] then s else s.(rxQueue := s.rxQueue[1..], taken := s.taken + [s.rxQueue[0]])
  }

  // ---- the rings themselves ----

  function Slot(tail: nat, i: nat): nat { (tail + i) % BUF_SIZE }

  function Ring(buf: seq<Byte>, head: nat, tail: nat): (q: seq<Byte>)
    requires |buf| == BUF_SIZE && head < BUF_SIZE && tail < BUF_SIZE
    ensures |q| == (head - tail) % BUF_SIZE
  {
    seq((head - tail) % BUF_SIZE, i requires 0 <= i => buf[Slot(tail, i)])
  }

  lemma RingPush(buf: seq<Byte>, head: nat, tail: nat, b: Byte)
    requires |buf| == BUF_SIZE && head < BUF_SIZE && tail < BUF_SIZE
    ensures (head + 1) % BUF_SIZE != tail <==> |Ring(buf, head, tail)| < CAPACITY
    ensures Ring(buf[head := b], head, tail) == Ring(buf, head, tail)
    ensures (head + 1) % BUF_SIZE != tail ==>
      Ring(buf[head := b], (head + 1) % BUF_SIZE, tail) == Ring(buf, head, tail) + [b]
  {
    var n := (head - tail) % BUF_SIZE;
    forall i | 0 <= i < n ensures Slot(tail, i) != head { SlotBeforeHead(head, tail, i); }
    if (head + 1) % BUF_SIZE != tail { NextHead(head, tail); }
  }

  lemma SlotBeforeHead(head: nat, tail: nat, i: nat)
    requires head < BUF_SIZE && tail < BUF_SIZE && i < (head - tail) % BUF_SIZE
    ensures Slot(tail, i) != head
  {}

  lemma NextHead(head: nat, tail: nat)
    requires head < BUF_SIZE && tail < BUF_SIZE && (head + 1) % BUF_SIZE != tail
    ensures ((head + 1) % BUF_SIZE - tail) % BUF_SIZE == (head - tail) % BUF_SIZE + 1
    ensures Slot(tail, (head - tail) % BUF_SIZE) == head
  {}

  lemma NextTail(head: nat, tail: nat)
    requires head < BUF_SIZE && tail < BUF_SIZE && head != tail
    ensures (head - (tail + 1) % BUF_SIZE) % BUF_SIZE + 1 == (head - tail) % BUF_SIZE
    ensures Slot(tail, 0) == tail
  {}

  lemma SlotNext(tail: nat, i: nat)
    requires tail < BUF_SIZE
    ensures Slot((tail + 1) % BUF_SIZE, i) == Slot(tail, i + 1)
  {}

  lemma RingPop(buf: seq<Byte>, head: nat, tail: nat)
    requires |buf| == BUF_SIZE && head < BUF_SIZE && tail < BUF_SIZE
    ensures head == tail <==> Ring(buf, head, tail) == []
    ensures head != tail ==> Ring(buf, head, tail)[0] == buf[tail]
    ensures head != tail ==> Ring(buf, head, (tail + 1) % BUF_SIZE) == Ring(buf, head, tail)[1..]
  {
    if head != tail {
      NextTail(head, tail);
      var rest := Ring(buf, head, (tail + 1) % BUF_SIZE);
      forall i | 0 <= i < |rest| ensures rest[i] == Ring(buf, head, tail)[i + 1] { SlotNext(tail, i); }
    }
  }

  class Port {
    const txBuf: array<Byte>
    var txHead: nat
    var txTail: nat
    const rxBuf: array<Byte>
    var rxHead: nat
    var rxTail: nat
    var txeie: bool
    var dropped: nat
    ghost var ghosts: Lines

    ghost predicate Valid()
      reads this, txBuf, rxBuf
    {
      && txBuf.Length == BUF_SIZE && rxBuf.Length == BUF_SIZE && txBuf != rxBuf
      && txHead < BUF_SIZE && txTail < BUF_SIZE && rxHead < BUF_SIZE && rxTail < BUF_SIZE
      && (ghosts.writer.Staged? ==> txBuf[txHead] == ghosts.writer.b && (txHead + 1) % BUF_SIZE != txTail)
    }

    ghost function Abs(): Lines
      requires Valid()
      reads this, txBuf, rxBuf
    {
      ghosts.(txQueue := Ring(txBuf[..], txHead, txTail), armed := txeie,
              rxQueue := Ring(rxBuf[..], rxHead, rxTail), dropped := dropped)
    }

    constructor ()
      ensures Valid() && Abs() == QUIET && fresh(txBuf) && fresh(rxBuf)
    {
      txBuf := new Byte[BUF_SIZE](_ => 0);
      rxBuf := new Byte[BUF_SIZE](_ => 0);
      txHead, txTail, rxHead, rxTail, txeie, dropped := 0, 0, 0, 0, false, 0;
      ghosts := QUIET;
    }

    method Stage(b: Byte)
      requires Valid() && Enabled(Abs(), Action.Stage(b))
      modifies this`ghosts, txBuf
      ensures Valid() && Abs() == Step(old(Abs()), Action.Stage(b))
    {
      RingPush(txBuf[..], txHead, txTail, b);
      txBuf[txHead] := b;
      ghosts := ghosts.(writer := Staged(b));
      assert txBuf[..] == old(txBuf[..])[txHead := b];
    }

    method Publish()
      requires Valid() && Enabled(Abs(), Action.Publish)
      modifies this`ghosts, this`txHead
      ensures Valid() && Abs() == Step(old(Abs()), Action.Publish)
    {
      RingPush(txBuf[..], txHead, txTail, txBuf[txHead]);
      assert txBuf[..][txHead := txBuf[txHead]] == txBuf[..];
      ghosts := ghosts.(writer := Published, offered := ghosts.offered + [ghosts.writer.b]);
      txHead := (txHead + 1) % BUF_SIZE;
    }

    method Kick()
      requires Valid() && Enabled(Abs(), Action.Kick)
      modifies this`ghosts, this`txeie
      ensures Valid() && Abs() == Step(old(Abs()), Action.Kick)
    {
      txeie := true;
      ghosts := ghosts.(writer := Idle);
    }

    /** The isr's receive half: a byte arriving at a full ring is counted and discarded. */
    method ReceiveByte(dr: Byte)
      requires Valid()
      modifies this`ghosts, this`rxHead, this`dropped, rxBuf
      ensures Valid() && Abs() == Receive(old(Abs()), true, dr)
    {
      var next := (rxHead + 1) % BUF_SIZE;
      RingPush(rxBuf[..], rxHead, rxTail, dr);
      ghosts := ghosts.(arrivals := ghosts.arrivals + 1);
      if next != rxTail {
        rxBuf[rxHead] := dr;
        assert rxBuf[..] == old(rxBuf[..])[rxHead := dr];
        rxHead := next;
        ghosts := ghosts.(kept := ghosts.kept + [dr]);
      } else {
        dropped := dropped + 1;
      }
    }

    /** The isr's transmit half: one byte to the data register, and the interrupt off once empty. */
    method TransmitByte()
      requires Valid() && txeie
      modifies this`ghosts, this`txTail, this`txeie
      ensures Valid() && Abs() == Transmit(old(Abs()), true)
    {
      RingPop(txBuf[..], txHead, txTail);
      if txHead != txTail {
        ghosts := ghosts.(wire := ghosts.wire + [txBuf[txTail]]);
        txTail := (txTail + 1) % BUF_SIZE;
        RingPop(txBuf[..], txHead, txTail);
      }
      if txHead == txTail {
        txeie := false;
      }
    }

    /** Shared isr body. */
    method Interrupt(rxne: bool, txe: bool, dr: Byte)
      requires Valid()
      modifies this`ghosts, this`txTail, this`rxHead, this`txeie, this`dropped, rxBuf
      ensures Valid() && Abs() == Step(old(Abs()), Isr(rxne, txe, dr))
    {
      if rxne {
        ReceiveByte(dr);
      }
      if txe && txeie {
        TransmitByte();
      }
    }

    method ReadByte() returns (ok: bool, out: Byte)
      requires Valid()
      modifies this`ghosts, this`rxTail
      ensures Valid() && Abs() == Step(old(Abs()), Read)
      ensures ok == (old(Abs()).rxQueue != []) && (ok ==> out == old(Abs()).rxQueue[0])
    {
      RingPop(rxBuf[..], rxHead, rxTail);
      if rxHead == rxTail {
        return false, 0;
      }
      out := rxBuf[rxTail];
      rxTail := (rxTail + 1) % BUF_SIZE;
      ghosts := ghosts.(taken := ghosts.taken + [out]);
      ok := true;
    }

    method RxAvailable() returns (n: nat)
      requires Valid()
      ensures n == |Abs().rxQueue|
    {
      n := (rxHead - rxTail) % BUF_SIZE;
    }

    /** Queue a whole buffer. `wakes` are the interrupts that come while the writer sleeps, `used` how many did. */
    method Write(data: seq<Byte>, wakes: seq<Action>) returns (used: nat)
      requires Valid() && Sound(Abs()) && Abs().writer == Idle && Interrupts(wakes)
      modifies this, txBuf, rxBuf
      ensures Valid() && Sound(Abs()) && Abs().writer == Idle
      ensures used <= |wakes| && Follows(old(Abs()), Abs(), data, Arrived(wakes[..used]))
    {
      used := 0;
      for i := 0 to |data|
        invariant Valid() && Sound(Abs()) && Abs().writer == Idle
        invariant used <= |wakes| && Follows(old(Abs()), Abs(), data[..i], Arrived(wakes[..used]))
      {
        ghost var was := Abs();
        var more := WriteByte(data[i], wakes[used..]);
        Woken(old(Abs()), was, Abs(), data[..i], [data[i]], wakes, used, more);
        assert data[..i + 1] == data[..i] + [data[i]];
        used := used + more;
      }
      assert data[..|data|] == data;
    }

    /** One byte, sleeping through interrupts while the ring is full. */
    method WriteByte(b: Byte, wakes: seq<Action>) returns (used: nat)
      requires Valid() && Sound(Abs()) && Abs().writer == Idle && Interrupts(wakes)
      modifies this, txBuf, rxBuf
      ensures Valid() && Sound(Abs()) && Abs().writer == Idle
      ensures used <= |wakes| && Follows(old(Abs()), Abs(), [b], Arrived(wakes[..used]))
    {
      used := WaitForRoom(b, wakes);
      Queued(old(Abs()), Abs(), b, Arrived(wakes[..used]));
      Stage(b);
      Publish();
      Kick();
    }

    /** Any mixture of interrupts may come first; once they are all taken, transmit interrupts make room. */
    method WaitForRoom(b: Byte, wakes: seq<Action>) returns (used: nat)
      requires Valid() && Sound(Abs()) && Abs().writer == Idle && Interrupts(wakes)
      modifies this, txBuf, rxBuf
      ensures Valid() && Sound(Abs()) && Enabled(Abs(), Action.Stage(b))
      ensures used <= |wakes| && Follows(old(Abs()), Abs(), [], Arrived(wakes[..used]))
    {
      used := 0;
      var next := (txHead + 1) % BUF_SIZE;
      RingPush(txBuf[..], txHead, txTail, b);
      while next == txTail
        invariant Valid() && Sound(Abs()) && Abs().writer == Idle
        invariant next == (txHead + 1) % BUF_SIZE
        invariant next != txTail <==> |Abs().txQueue| < CAPACITY
        invariant used <= |wakes| && Follows(old(Abs()), Abs(), [], Arrived(wakes[..used]))
        decreases |wakes| - used, |Abs().txQueue|
      {
        var wake := NextWake(wakes, used);
        WokenOnce(old(Abs()), Abs(), wakes, used);
        Interrupt(wake.rxne, wake.txe, wake.dr);
        used := if used < |wakes| then used + 1 else used;
        RingPush(txBuf[..], txHead, txTail, b);
      }
    }
  }

  // ---- every interleaving ----

  /** Nothing is lost, repeated or reordered, and a waiting byte always has its interrupt armed. */
  ghost predicate Sound(s: Lines) {
    && s.offered == s.wire + s.txQueue
    && s.kept == s.taken + s.rxQueue
    && s.arrivals == |s.kept| + s.dropped
    && |s.txQueue| <= CAPACITY && |s.rxQueue| <= CAPACITY
    && (s.writer.Staged? ==> |s.txQueue| < CAPACITY)
    && (s.txQueue != [] && s.writer != Published ==> s.armed)
  }

  lemma StepSound(s: Lines, a: Action)
    requires Sound(s) && Enabled(s, a)
    ensures Sound(Step(s, a))
  {}

  ghost predicate Possible(s: Lines, run: seq<Action>)
    decreases |run|
  {
    run == [] || (Enabled(s, run[0]) && Possible(Step(s, run[0]), run[1..]))
  }

  function After(s: Lines, run: seq<Action>): Lines
    requires Possible(s, run)
    decreases |run|
  {
    if run == [] then s else After(Step(s, run[0]), run[1..])
  }

  function WrittenBy(a: Action): seq<Byte> { match a case Stage(b) => [b] case _ => [] }

  function ArrivedBy(a: Action): seq<Byte> { match a case Isr(true, _, dr) => [dr] case _ => [] }

  /** The bytes the writer has stored, in program order. */
  function Written(run: seq<Action>): seq<Byte> {
    if run == [] then [] else WrittenBy(run[0]) + Written(run[1..])
  }

  /** The bytes the line has delivered, kept or not. */
  function Arrived(run: seq<Action>): seq<Byte> {
    if run == [] then [] else ArrivedBy(run[0]) + Arrived(run[1..])
  }

  /** Bytes the writer is answerable for: queued since power-up, plus the one it holds. */
  function Given(s: Lines): seq<Byte> {
    s.offered + (match s.writer case Staged(b) => [b] case _ => [])
  }

  /** e is s after the writer stored w and the line delivered a. */
  ghost predicate Follows(s: Lines, e: Lines, w: seq<Byte>, a: seq<Byte>) {
    && Given(e) == Given(s) + w
    && e.arrivals == s.arrivals + |a|
    && s.dropped <= e.dropped
    && (e.dropped == s.dropped ==> e.kept == s.kept + a)
  }

  lemma StepFollows(s: Lines, a: Action)
    requires Enabled(s, a)
    ensures Follows(s, Step(s, a), WrittenBy(a), ArrivedBy(a))
  {}

  lemma FollowsOn(s: Lines, t: Lines, e: Lines, w: seq<Byte>, w': seq<Byte>, a: seq<Byte>, a': seq<Byte>)
    requires Follows(s, t, w, a) && Follows(t, e, w', a')
    ensures Follows(s, e, w + w', a + a')
  {
    assert (Given(s) + w) + w' == Given(s) + (w + w');
    assert (s.kept + a) + a' == s.kept + (a + a');
  }

  predicate Interrupts(run: seq<Action>) { forall i :: 0 <= i < |run| ==> run[i].Isr? }

  lemma {:induction false} ArrivedConcat(run: seq<Action>, more: seq<Action>)
    ensures Arrived(run + more) == Arrived(run) + Arrived(more)
  {
    if run == [] {
      assert run + more == more;
    } else {
      assert (run + more)[1..] == run[1..] + more;
      ArrivedConcat(run[1..], more);
    }
  }

  /** What a writer that slept through n more of the interrupts has seen arrive. */
  lemma Woken(s: Lines, t: Lines, e: Lines, w: seq<Byte>, w': seq<Byte>, wakes: seq<Action>, at: nat, n: nat)
    requires at + n <= |wakes| && Follows(s, t, w, Arrived(wakes[..at])) && Follows(t, e, w', Arrived(wakes[at..][..n]))
    ensures Follows(s, e, w + w', Arrived(wakes[..at + n]))
  {
    assert wakes[..at + n] == wakes[..at] + wakes[at..][..n];
    ArrivedConcat(wakes[..at], wakes[at..][..n]);
    FollowsOn(s, t, e, w, w', Arrived(wakes[..at]), Arrived(wakes[at..][..n]));
  }

  function NextWake(wakes: seq<Action>, used: nat): Action {
    if used < |wakes| then wakes[used] else Isr(false, true, 0)
  }

  /** A sleeping writer woken once more; with no other interrupt left, the transmit interrupt frees a slot. */
  lemma WokenOnce(s: Lines, t: Lines, wakes: seq<Action>, used: nat)
    requires Sound(t) && t.writer == Idle && Interrupts(wakes) && used <= |wakes|
    requires Follows(s, t, [], Arrived(wakes[..used]))
    ensures NextWake(wakes, used).Isr?
    ensures var e := Step(t, NextWake(wakes, used));
      && Sound(e) && e.writer == Idle
      && Follows(s, e, [], Arrived(wakes[..if used < |wakes| then used + 1 else used]))
      && (used == |wakes| && t.txQueue != [] ==> |e.txQueue| < |t.txQueue|)
  {
    var wake := NextWake(wakes, used);
    StepSound(t, wake);
    StepFollows(t, wake);
    if used < |wakes| {
      assert wakes[used..][..1] == [wake] && [wake][1..] == [];
      assert Arrived([wake]) == ArrivedBy(wake) + Arrived([]);
      Woken(s, t, Step(t, wake), [], [], wakes, used, 1);
    } else {
      FollowsOn(s, t, Step(t, wake), [], [], Arrived(wakes[..used]), []);
      assert Arrived(wakes[..used]) + [] == Arrived(wakes[..used]);
    }
  }

  /** Staging, publishing and kicking a byte into a ring with room, undisturbed. */
  lemma Queued(s: Lines, t: Lines, b: Byte, a: seq<Byte>)
    requires Sound(t) && Enabled(t, Action.Stage(b)) && Follows(s, t, [], a)
    ensures var e := Step(Step(Step(t, Action.Stage(b)), Action.Publish), Action.Kick);
      Sound(e) && e.writer == Idle && Follows(s, e, [b], a)
  {
    assert Given(s) + [] == Given(s) == t.offered;
  }

  /** Every run, however the writer, the reader and the isr interleave. */
  lemma {:induction false} EveryInterleaving(s: Lines, run: seq<Action>)
    requires Sound(s) && Possible(s, run)
    ensures Sound(After(s, run)) && Follows(s, After(s, run), Written(run), Arrived(run))
    decreases |run|
  {
    if run != [] {
      var t := Step(s, run[0]);
      StepSound(s, run[0]);
      StepFollows(s, run[0]);
      EveryInterleaving(t, run[1..]);
      FollowsOn(s, t, After(t, run[1..]), WrittenBy(run[0]), Written(run[1..]), ArrivedBy(run[0]), Arrived(run[1..]));
    }
  }

  /** From power-up: the wire carries a prefix of what was written, and every arrival is read, waiting or counted. */
  lemma BytesOnceInOrder(run: seq<Action>)
    requires Possible(QUIET, run)
    ensures var e := After(QUIET, run);
      && e.wire <= Written(run)
      && |Written(run)| - |e.wire| == |e.txQueue| + (if e.writer.Staged? then 1 else 0)
      && |Arrived(run)| == |e.taken| + |e.rxQueue| + e.dropped
      && (e.dropped == 0 ==> e.taken + e.rxQueue == Arrived(run))
  {
    EveryInterleaving(QUIET, run);
    var e := After(QUIET, run);
    assert Given(e) == Written(run);
    assert Given(e) == e.wire + (e.txQueue + (match e.writer case Staged(b) => [b] case _ => []));
  }
}
