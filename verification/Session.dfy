/** The ground session: command retries and the pacing of chunk requests (tools/ground/session.py). */
module Session {
  import opened Wire
  import opened Payload
  import A = Assembler
  import H = CommandHandler

  const RETRY_AFTER := 0.7
  const RETRY_LIMIT := 4
  const REQUEST_EVERY := 1.3
  const DOWNLINK_FRESH := 3.0

  datatype Unacked = Unacked(c: H.Command, tries: nat, due: real)

  /** The commands not yet acknowledged, oldest first. */
  datatype Uplink = Uplink(seqNo: nat, outstanding: seq<Unacked>)

  /** command(): number it, and remember it if it is to be retried. */
  function Issued(u: Uplink, id: Byte, arg: Byte, retry: bool, now: real): Uplink {
    var n := (u.seqNo + 1) % 0x10000;
    Uplink(n, if retry then u.outstanding + [Unacked(H.Command(id, arg, n), 1, now + RETRY_AFTER)] else u.outstanding)
  }

  /** Numbers count up from 1 through the sixteen bits the frame has for them. */
  lemma {:induction false} Numbers(u: Uplink, asked: seq<(Byte, Byte, bool, real)>) returns (v: Uplink)
    requires u.seqNo < 0x10000
    ensures v == IssuedAll(u, asked) && v.seqNo == (u.seqNo + |asked|) % 0x10000
    decreases |asked|
  {
    if asked == [] {
      v := u;
    } else {
      var x := asked[0];
      v := Numbers(Issued(u, x.0, x.1, x.2, x.3), asked[1..]);
    }
  }

  function IssuedAll(u: Uplink, asked: seq<(Byte, Byte, bool, real)>): Uplink
    decreases |asked|
  {
    if asked == [] then u
    else IssuedAll(Issued(u, asked[0].0, asked[0].1, asked[0].2, asked[0].3), asked[1..])
  }

  predicate Overdue(p: Unacked, now: real) { now >= p.due }

  /** What is still waiting after a tick: overdue entries are counted again, or given up on. */
  function Kept(ps: seq<Unacked>, now: real): seq<Unacked> {
    if ps == [] then []
    else
      var rest := Kept(ps[1..], now);
      if !Overdue(ps[0], now) then [ps[0]] + rest
      else if ps[0].tries >= RETRY_LIMIT then rest
      else [ps[0].(tries := ps[0].tries + 1, due := now + RETRY_AFTER)] + rest
  }

  /** What a tick sends again. */
  function Resent(ps: seq<Unacked>, now: real): seq<H.Command> {
    if ps == [] then []
    else if Overdue(ps[0], now) && ps[0].tries < RETRY_LIMIT then [ps[0].c] + Resent(ps[1..], now)
    else Resent(ps[1..], now)
  }

  /** An acknowledgement takes its command off the list; an unknown number changes nothing. */
  function Popped(ps: seq<Unacked>, n: nat): seq<Unacked> {
    if ps == [] then []
    else if ps[0].c.seqNo == n then Popped(ps[1..], n) else [ps[0]] + Popped(ps[1..], n)
  }

  // ---- the request clock ----

  datatype Clock = Clock(lastRequest: real, idleAt: real)

  const START := Clock(0.0, -1000000000.0)

  predicate MayRequest(k: Clock, transmit: bool, now: real) {
    transmit && now - k.idleAt <= DOWNLINK_FRESH && now - k.lastRequest >= REQUEST_EVERY
  }

  /** The request a tick makes: the newest incomplete image and its first missing chunks. */
  function RequestAt(k: Clock, transmit: bool, s: A.State, now: real): Option<(nat, seq<nat>)> {
    match A.Pending(s)
    case None => None
    case Some(p) => if MayRequest(k, transmit, now) then Some((p.0, Batch(p.1))) else None
  }

  function AfterTick(k: Clock, transmit: bool, s: A.State, now: real): Clock {
    if RequestAt(k, transmit, s, now).Some? then k.(lastRequest := now) else k
  }

  class Ground {
    const retry: bool
    const transmit: bool
    var seqNo: nat
    var outstanding: seq<Unacked>
    var lastRequest: real
    var idleAt: real

    ghost function Up(): Uplink
      reads this
    {
      Uplink(seqNo, outstanding)
    }

    ghost function Pace(): Clock
      reads this
    {
      Clock(lastRequest, idleAt)
    }

    constructor (retry: bool, transmit: bool)
      ensures this.retry == retry && this.transmit == transmit && Up() == Uplink(0, []) && Pace() == START
    {
      this.retry, this.transmit := retry, transmit;
      seqNo, outstanding := 0, [];
      lastRequest, idleAt := 0.0, -1000000000.0;
    }

    method Command(id: Byte, arg: Byte, again: bool, now: real) returns (frame: H.Command)
      modifies this`seqNo, this`outstanding
      ensures Up() == Issued(old(Up()), id, arg, again && retry, now)
      ensures frame == H.Command(id, arg, seqNo)
    {
      seqNo := (seqNo + 1) % 0x10000;
      frame := H.Command(id, arg, seqNo);
      if again && retry {
        outstanding := outstanding + [Unacked(frame, 1, now + RETRY_AFTER)];
      }
    }

    method Tick(now: real) returns (tx: seq<H.Command>)
      modifies this`outstanding
      ensures outstanding == Kept(old(outstanding), now) && tx == Resent(old(outstanding), now)
    {
      tx := [];
      var left: seq<Unacked> := [];
      var i := 0;
      while i < |outstanding|
        invariant i <= |outstanding| && outstanding == old(outstanding)
        invariant left + Kept(outstanding[i..], now) == Kept(outstanding, now)
        invariant tx + Resent(outstanding[i..], now) == Resent(outstanding, now)
      {
        var p := outstanding[i];
        assert outstanding[i..][1..] == outstanding[i + 1..];
        if now < p.due {
          left := left + [p];
        } else if p.tries < RETRY_LIMIT {
          left := left + [p.(tries := p.tries + 1, due := now + RETRY_AFTER)];
          tx := tx + [p.c];
        }
        i := i + 1;
      }
      outstanding := left;
    }

    method HearAck(n: nat)
      modifies this`outstanding
      ensures outstanding == Popped(old(outstanding), n)
    {
      var left: seq<Unacked> := [];
      var i := 0;
      while i < |outstanding|
        invariant i <= |outstanding| && outstanding == old(outstanding)
        invariant left + Popped(outstanding[i..], n) == Popped(outstanding, n)
      {
        assert outstanding[i..][1..] == outstanding[i + 1..];
        if outstanding[i].c.seqNo != n {
          left := left + [outstanding[i]];
        }
        i := i + 1;
      }
      outstanding := left;
    }

    /** A downlink status with no chunks in flight: the vehicle is in DOWNLINK and listening. */
    method HearDownlinkStatus(chunks: nat, now: real)
      modifies this`idleAt
      ensures Pace() == if chunks == 0 then old(Pace()).(idleAt := now) else old(Pace())
    {
      if chunks == 0 {
        idleAt := now;
      }
    }

    method RequestChunks(store: A.Store, now: real) returns (tx: Option<(nat, seq<nat>)>)
      modifies this`lastRequest
      ensures tx == RequestAt(old(Pace()), transmit, store.Now(), now)
      ensures Pace() == AfterTick(old(Pace()), transmit, store.Now(), now)
    {
      tx := None;
      if !transmit || now - idleAt > DOWNLINK_FRESH {
        return;
      }
      var want := store.Wanted();
      if want.None? || now - lastRequest < REQUEST_EVERY {
        return;
      }
      lastRequest := now;
      tx := Some((want.value.0, Batch(want.value.1)));
    }
  }

  // ---- the pace of requests over any run of ticks and status frames ----

  datatype Event = Ticked(s: A.State, now: real) | Idled(now: real)

  function Next(k: Clock, e: Event): Clock {
    match e
    case Ticked(s, now) => AfterTick(k, true, s, now)
    case Idled(now) => k.(idleAt := now)
  }

  /** When requests go out. */
  function RequestTimes(k: Clock, es: seq<Event>): seq<real>
    decreases |es|
  {
    if es == [] then []
    else if es[0].Ticked? && RequestAt(k, true, es[0].s, es[0].now).Some?
    then [es[0].now] + RequestTimes(Next(k, es[0]), es[1..])
    else RequestTimes(Next(k, es[0]), es[1..])
  }

  /** No two requests closer than 1.3 s, and the first no sooner than that after the last one made. */
  lemma {:induction false} RequestsAreSpaced(k: Clock, es: seq<Event>)
    ensures var ts := RequestTimes(k, es);
      && (ts != [] ==> ts[0] >= k.lastRequest + REQUEST_EVERY)
      && forall i :: 0 < i < |ts| ==> ts[i] >= ts[i - 1] + REQUEST_EVERY
    decreases |es|
  {
    if es != [] {
      RequestsAreSpaced(Next(k, es[0]), es[1..]);
    }
  }

  /** Ticks and status frames with nothing in flight, and the clock after them. */
  function AfterEvents(k: Clock, es: seq<Event>): Clock
    decreases |es|
  {
    if es == [] then k else AfterEvents(Next(k, es[0]), es[1..])
  }

  /** When the vehicle last said it was in DOWNLINK with nothing in flight. */
  function LastIdle(es: seq<Event>): Option<real> {
    if es == [] then None
    else if es[|es| - 1].Idled? then Some(es[|es| - 1].now)
    else LastIdle(es[..|es| - 1])
  }

  lemma {:induction false} EventsSnoc(k: Clock, es: seq<Event>, e: Event)
    ensures AfterEvents(k, es + [e]) == Next(AfterEvents(k, es), e)
    ensures RequestTimes(k, es + [e]) == RequestTimes(k, es) +
      if e.Ticked? && RequestAt(AfterEvents(k, es), true, e.s, e.now).Some? then [e.now] else []
    decreases |es|
  {
    if es == [] {
      assert [] + [e] == [e] && [e][1..] == [];
    } else {
      assert (es + [e])[1..] == es[1..] + [e] && (es + [e])[0] == es[0];
      EventsSnoc(Next(k, es[0]), es[1..], e);
    }
  }

  lemma {:induction false} ClockOfARun(es: seq<Event>)
    ensures var k, ts := AfterEvents(START, es), RequestTimes(START, es);
      && k.idleAt == (match LastIdle(es) case None => -1000000000.0 case Some(t) => t)
      && k.lastRequest == if ts == [] then 0.0 else ts[|ts| - 1]
    decreases |es|
  {
    if es != [] {
      var front, e := es[..|es| - 1], es[|es| - 1];
      ClockOfARun(front);
      EventsSnoc(START, front, e);
      assert es == front + [e];
    }
  }

  /**
   * Exactly when a tick asks for chunks, after any events: something is missing from the newest image on file, the
   * vehicle said within the last three seconds that it was listening, and the last request is 1.3 s old (the first
   * waits that long from the start of the clock). It asks for that image's first missing chunks.
   */
  lemma AsksIff(es: seq<Event>, s: A.State, now: real)
    requires now >= 0.0
    ensures var k, ts := AfterEvents(START, es), RequestTimes(START, es);
      && (RequestAt(k, true, s, now).Some? <==>
            && A.Pending(s).Some?
            && LastIdle(es).Some? && now <= LastIdle(es).value + 3.0
            && now >= (if ts == [] then 0.0 else ts[|ts| - 1]) + 1.3)
      && (RequestAt(k, true, s, now).Some? ==>
            RequestAt(k, true, s, now).value == (A.Pending(s).value.0, Batch(A.Pending(s).value.1)))
      && RequestAt(k, false, s, now).None?
  {
    ClockOfARun(es);
  }

  // ---- a command nobody answers ----

  lemma OneLeft(p: Unacked, now: real)
    ensures Kept([p], now) ==
      if now < p.due then [p] else if p.tries >= 4 then [] else [p.(tries := p.tries + 1, due := now + 0.7)]
    ensures Resent([p], now) == if now >= p.due && p.tries < 4 then [p.c] else []
  {
    assert [p][1..] == [];
  }

  /** Everything the ticks at these times send again, and what is left outstanding after them. */
  function Sends(ps: seq<Unacked>, ticks: seq<real>): seq<H.Command>
    decreases |ticks|
  {
    if ticks == [] then [] else Resent(ps, ticks[0]) + Sends(Kept(ps, ticks[0]), ticks[1..])
  }

  function Waiting(ps: seq<Unacked>, ticks: seq<real>): seq<Unacked>
    decreases |ticks|
  {
    if ticks == [] then ps else Waiting(Kept(ps, ticks[0]), ticks[1..])
  }

  predicate Steady(ticks: seq<real>, last: real) {
    ticks == [] || (ticks[0] >= last + 0.7 && Steady(ticks[1..], ticks[0]))
  }

  function Copies(c: H.Command, n: nat): (cs: seq<H.Command>)
    ensures |cs| == n && forall i :: 0 <= i < n ==> cs[i] == c
  {
    seq(n, i => c)
  }

  lemma {:induction false} TriesLeft(p: Unacked, ticks: seq<real>)
    requires p.tries <= 4 && Steady(ticks, p.due - 0.7)
    ensures Sends([p], ticks) == Copies(p.c, if |ticks| < 4 - p.tries then |ticks| else 4 - p.tries)
    ensures Waiting([p], ticks) == [] <==> |ticks| > 4 - p.tries
    decreases |ticks|
  {
    if ticks != [] {
      OneLeft(p, ticks[0]);
      if p.tries < 4 {
        var q := p.(tries := p.tries + 1, due := ticks[0] + 0.7);
        TriesLeft(q, ticks[1..]);
        assert Sends([p], ticks) == [p.c] + Sends([q], ticks[1..]);
      } else {
        NothingWaits(ticks[1..]);
      }
    }
  }

  lemma {:induction false} NothingWaits(ticks: seq<real>)
    ensures Sends([], ticks) == [] && Waiting([], ticks) == []
    decreases |ticks|
  {
    if ticks != [] { NothingWaits(ticks[1..]); }
  }

  /**
   * A command sent with retries and never acknowledged goes out again at each of the first three ticks that come 0.7 s
   * apart, and the fourth gives it up: four transmissions in all.
   */
  lemma UnansweredIsGivenUp(u: Uplink, id: Byte, arg: Byte, now: real, ticks: seq<real>)
    requires u.outstanding == [] && Steady(ticks, now)
    ensures var v := Issued(u, id, arg, true, now);
      && Sends(v.outstanding, ticks) == Copies(H.Command(id, arg, v.seqNo), if |ticks| < 3 then |ticks| else 3)
      && (Waiting(v.outstanding, ticks) == [] <==> |ticks| >= 4)
  {
    var v := Issued(u, id, arg, true, now);
    assert v.outstanding == [v.outstanding[0]];
    TriesLeft(v.outstanding[0], ticks);
  }
}
