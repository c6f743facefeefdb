/** What an acknowledgement is worth to the ground (tools/ground/session.py). */
module Acknowledged {
  import opened Wire
  import opened CommandHandler
  import opened CommandLink
  import S = Session

  /** The number was given out, and is not waiting to be sent again. */
  predicate Settled(w: World, n: nat) {
    && n <= w.ground.seqNo && |w.ground.outstanding| <= 1
    && (w.ground.outstanding != [] ==> w.ground.outstanding[0].c.seqNo != n)
  }

  lemma OtherNumber(sent: seq<Copy>, c: Command, now: real, n: nat)
    requires c.seqNo != n
    ensures CountOf(sent + Stamped([c], now), n) == CountOf(sent, n)
  {
    var one := Stamped([c], now);
    CountConcat(sent, one, n);
    assert one == [Copy(c, now)] && one[1..] == [];
  }

  lemma StepSettled(w: World, a: Action, n: nat) returns (r: World)
    requires Settled(w, n) && Possible(w, a)
    ensures r == Do(w, a) && Settled(r, n) && CountOf(r.sent, n) == CountOf(w.sent, n)
  {
    r := Do(w, a);
    var os := w.ground.outstanding;
    match a
    case Issue(id, arg, _, now) => OtherNumber(w.sent, Command.Command(id, arg, w.ground.seqNo + 1), now, n);
    case Tick(now) =>
      if os != [] {
        OneEntry(os, now, 0);
        if S.Resent(os, now) != [] { OtherNumber(w.sent, os[0].c, now, n); } else { assert r.sent == w.sent; }
      } else {
        assert r.sent == w.sent;
      }
    case HearAck => if os != [] { OneEntry(os, 0.0, w.down[0].seqNo); }
    case _ =>
  }

  lemma {:induction false} RunSettled(w: World, acts: seq<Action>, p: Timing, n: nat)
    requires Settled(w, n) && Follows(w, acts, p)
    ensures CountOf(After(w, acts, p).sent, n) == CountOf(w.sent, n)
    decreases |acts|
  {
    if acts != [] {
      var r := StepSettled(w, acts[0], n);
      RunSettled(r, acts[1..], p, n);
    }
  }

  lemma AckSettles(w: World, p: Timing) returns (r: World)
    requires Inv(w, p) && w.down != []
    ensures r == Do(w, HearAck) && Settled(r, w.down[0].seqNo) && r.sent == w.sent
  {
    r := Do(w, HearAck);
    var n := w.down[0].seqNo;
    assert Honest(w, w.down[0]);
    var i: nat :| Reports(w, w.down[0], i);
    assert Passage(w)[i] == w.heard[i].c;
    if w.ground.outstanding != [] { OneEntry(w.ground.outstanding, 0.0, n); }
  }

  /**
   * After any run, once the ground has heard an acknowledgement it never sends that number again, whatever is still in
   * flight, lost or acknowledged later.
   */
  lemma NeverSentAgain(w: World, r: World, before: seq<Action>, after: seq<Action>, p: Timing)
    requires Physical(p) && Follows(START, before, p) && w == After(START, before, p)
    requires w.down != [] && r == Do(w, HearAck) && Follows(r, after, p)
    ensures CountOf(After(r, after, p).sent, w.down[0].seqNo) == CountOf(w.sent, w.down[0].seqNo)
  {
    StartInv(p);
    var v := RunKeepsInv(START, before, p);
    FromThere(v, r, after, p);
  }

  lemma FromThere(w: World, r: World, after: seq<Action>, p: Timing)
    requires Inv(w, p) && w.down != [] && r == Do(w, HearAck) && Follows(r, after, p)
    ensures CountOf(After(r, after, p).sent, w.down[0].seqNo) == CountOf(w.sent, w.down[0].seqNo)
  {
    var q := AckSettles(w, p);
    RunSettled(r, after, p, w.down[0].seqNo);
  }
}
