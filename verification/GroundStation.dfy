/** The ground station's frame pipe (gsw/src/main.cpp): two radios in, one serial port out. */
module GroundStation {
  import opened Wire
  import opened Crc
  import opened Frame
  import opened FrameTheorems
  import PyFrames
  import Radio

  datatype Link = Lora | Nrf

  datatype Packet = Packet(link: Link, data: seq<Byte>)

  /** What the port carries for these messages: each one re-encoded whole. */
  function Forwarded(ms: seq<Message>): seq<Byte>
    requires AllFramable(ms)
  {
    if ms == [] then [] else Encoded(ms[0]) + Forwarded(ms[1..])
  }

  lemma FramableConcat(a: seq<Message>, b: seq<Message>)
    requires AllFramable(a) && AllFramable(b)
    ensures AllFramable(a + b) && (a != [] ==> AllFramable(a[1..]) && (a + b)[1..] == a[1..] + b)
  {
  }

  lemma {:induction false} ForwardedConcat(a: seq<Message>, b: seq<Message>)
    requires AllFramable(a)
    requires AllFramable(b)
    ensures AllFramable(a + b)
    ensures Forwarded(a + b) == Forwarded(a) + Forwarded(b)
  {
    FramableConcat(a, b);
    if a == [] {
      assert a + b == b;
    } else {
      ForwardedConcat(a[1..], b);
      assert Forwarded(a + b) == Encoded(a[0]) + Forwarded(a[1..] + b);
    }
  }

  class Pipe {
    const parser: FrameParser
    var frames: nat

    ghost predicate Valid()
      reads this, parser, parser.payload
    {
      parser.Valid()
    }

    constructor ()
      ensures Valid() && parser.Abs() == Hunting && frames == 0 && fresh(parser) && fresh(parser.payload)
    {
      parser := new FrameParser();
      frames := 0;
    }

    /** One byte: if it completes a frame, the frame re-encoded. */
    method Rx(byte: Byte) returns (bytes: seq<Byte>)
      requires Valid()
      modifies this, parser, parser.payload
      ensures Valid()
      ensures parser.Abs() == Next(old(parser.Abs()), byte, MAX_PAYLOAD)
      ensures AllFramable(Emit(old(parser.Abs()), byte))
      ensures bytes == Forwarded(Emit(old(parser.Abs()), byte))
      ensures frames == old(frames) + |Emit(old(parser.Abs()), byte)|
    {
      var f := parser.Decode(byte);
      if f == None {
        return [];
      }
      var m := f.value;
      var out := new Byte[MAX_SIZE](_ => 0);
      var n := Encode(m.id, m.payload, |m.payload|, out);
      assert m.payload[..|m.payload|] == m.payload;
      assert Forwarded([m]) == Encoded(m) + [];
      frames := frames + 1;
      return out[..n];
    }

    /** One packet: every whole frame in it, re-encoded. */
    method RxAll(data: seq<Byte>) returns (bytes: seq<Byte>)
      requires Valid()
      modifies this, parser, parser.payload
      ensures Valid()
      ensures parser.Abs() == End(old(parser.Abs()), data, MAX_PAYLOAD)
      ensures AllFramable(Out(old(parser.Abs()), data, MAX_PAYLOAD))
      ensures bytes == Forwarded(Out(old(parser.Abs()), data, MAX_PAYLOAD))
      ensures frames == old(frames) + |Out(old(parser.Abs()), data, MAX_PAYLOAD)|
    {
      ghost var p, ms := parser.Abs(), [];
      bytes := [];
      for i := 0 to |data|
        invariant Valid()
        invariant parser.Abs() == End(p, data[..i], MAX_PAYLOAD)
        invariant ms == Out(p, data[..i], MAX_PAYLOAD) && AllFramable(ms)
        invariant bytes == Forwarded(ms) && frames == old(frames) + |ms|
      {
        RunSnoc(p, data[..i], data[i]);
        assert data[..i + 1] == data[..i] + [data[i]];
        ghost var one := Emit(parser.Abs(), data[i]);
        var more := Rx(data[i]);
        ForwardedConcat(ms, one);
        bytes, ms := bytes + more, ms + one;
      }
      assert data[..|data|] == data;
    }
  }

  lemma RunSnoc(p: Parser, s: seq<Byte>, b: Byte)
    ensures End(p, s + [b], MAX_PAYLOAD) == Next(End(p, s, MAX_PAYLOAD), b, MAX_PAYLOAD)
    ensures Out(p, s + [b], MAX_PAYLOAD) == Out(p, s, MAX_PAYLOAD) + Emit(End(p, s, MAX_PAYLOAD), b)
  {
    RunConcat(p, s, [b], MAX_PAYLOAD);
    var q := End(p, s, MAX_PAYLOAD);
    assert End(q, [b], MAX_PAYLOAD) == End(Next(q, b, MAX_PAYLOAD), [], MAX_PAYLOAD);
    assert Out(q, [b], MAX_PAYLOAD) == Emit(q, b) + Out(Next(q, b, MAX_PAYLOAD), [], MAX_PAYLOAD);
  }

  // ---- runs: packets of the two radios in any interleaving ----

  datatype Parsers = Parsers(lora: Parser, nrf: Parser)

  function Of(ps: Parsers, link: Link): Parser { if link == Lora then ps.lora else ps.nrf }

  function Advance(ps: Parsers, p: Packet): Parsers {
    var q := End(Of(ps, p.link), p.data, MAX_PAYLOAD);
    if p.link == Lora then ps.(lora := q) else ps.(nrf := q)
  }

  function Tagged(link: Link, ms: seq<Message>): (t: seq<(Link, Message)>)
    ensures |t| == |ms| && forall i :: 0 <= i < |ms| ==> t[i] == (link, ms[i])
  {
    seq(|ms|, i requires 0 <= i < |ms| => (link, ms[i]))
  }

  /** Every message the station forwards, in port order, with the radio it came from. */
  function Log(ps: Parsers, run: seq<Packet>): seq<(Link, Message)>
    decreases |run|
  {
    if run == [] then []
    else Tagged(run[0].link, Out(Of(ps, run[0].link), run[0].data, MAX_PAYLOAD)) + Log(Advance(ps, run[0]), run[1..])
  }

  function Heard(run: seq<Packet>, link: Link): seq<Byte> {
    if run == [] then [] else (if run[0].link == link then run[0].data else []) + Heard(run[1..], link)
  }

  function From(log: seq<(Link, Message)>, link: Link): seq<Message> {
    if log == [] then [] else (if log[0].0 == link then [log[0].1] else []) + From(log[1..], link)
  }

  function Untagged(log: seq<(Link, Message)>): (ms: seq<Message>)
    ensures |ms| == |log| && forall i :: 0 <= i < |log| ==> ms[i] == log[i].1
  {
    seq(|log|, i requires 0 <= i < |log| => log[i].1)
  }

  lemma {:induction false} FromConcat(a: seq<(Link, Message)>, b: seq<(Link, Message)>, link: Link)
    ensures From(a + b, link) == From(a, link) + From(b, link)
  {
    if a == [] {
      assert a + b == b;
    } else {
      assert (a + b)[1..] == a[1..] + b && (a + b)[0] == a[0];
      FromConcat(a[1..], b, link);
    }
  }

  lemma {:induction false} FromTagged(tag: Link, ms: seq<Message>, link: Link)
    ensures From(Tagged(tag, ms), link) == if tag == link then ms else []
  {
    if ms != [] {
      assert Tagged(tag, ms)[1..] == Tagged(tag, ms[1..]);
      FromTagged(tag, ms[1..], link);
    }
  }

  /** No interleaving of the other radio's packets changes what one radio's bytes decode to. */
  lemma {:induction false} RadiosDoNotMix(ps: Parsers, run: seq<Packet>, link: Link)
    ensures From(Log(ps, run), link) == Out(Of(ps, link), Heard(run, link), MAX_PAYLOAD)
    decreases |run|
  {
    if run != [] {
      var p := run[0];
      var ms := Out(Of(ps, p.link), p.data, MAX_PAYLOAD);
      RadiosDoNotMix(Advance(ps, p), run[1..], link);
      FromConcat(Tagged(p.link, ms), Log(Advance(ps, p), run[1..]), link);
      FromTagged(p.link, ms, link);
      if p.link == link {
        RunConcat(Of(ps, link), p.data, Heard(run[1..], link), MAX_PAYLOAD);
      } else {
        assert Heard(run, link) == [] + Heard(run[1..], link) == Heard(run[1..], link);
      }
    }
  }

  lemma {:induction false} LogFramable(ps: Parsers, run: seq<Packet>)
    requires Legal(ps.lora) && Legal(ps.nrf)
    ensures AllFramable(Untagged(Log(ps, run)))
    decreases |run|
  {
    if run != [] {
      var p := run[0];
      LegalForever(Of(ps, p.link), p.data);
      LogFramable(Advance(ps, p), run[1..]);
      var a, b := Tagged(p.link, Out(Of(ps, p.link), p.data, MAX_PAYLOAD)), Log(Advance(ps, p), run[1..]);
      assert Untagged(a + b) == Untagged(a) + Untagged(b);
    }
  }

  /** A stream of whole frames decodes to exactly the messages in it, in order. */
  lemma {:induction false} ForwardedDecodes(ms: seq<Message>, limit: nat)
    requires MAX_PAYLOAD <= limit < 256 && AllFramable(ms)
    ensures Out(Hunting, Forwarded(ms), limit) == ms
    ensures End(Hunting, Forwarded(ms), limit) == Hunting
  {
    if ms != [] {
      RoundTrip(ms[0], limit);
      RunConcat(Hunting, Encoded(ms[0]), Forwarded(ms[1..]), limit);
      ForwardedDecodes(ms[1..], limit);
      assert [ms[0]] + ms[1..] == ms;
    }
  }

  // ---- the station itself ----

  function ParsersAfter(ps: Parsers, run: seq<Packet>): Parsers
    decreases |run|
  {
    if run == [] then ps else ParsersAfter(Advance(ps, run[0]), run[1..])
  }

  lemma {:induction false} LogSnoc(ps: Parsers, run: seq<Packet>, p: Packet)
    ensures ParsersAfter(ps, run + [p]) == Advance(ParsersAfter(ps, run), p)
    ensures Log(ps, run + [p]) ==
      Log(ps, run) + Tagged(p.link, Out(Of(ParsersAfter(ps, run), p.link), p.data, MAX_PAYLOAD))
    decreases |run|
  {
    if run == [] {
      assert [] + [p] == [p] && [p][1..] == [];
    } else {
      assert (run + [p])[1..] == run[1..] + [p];
      LogSnoc(Advance(ps, run[0]), run[1..], p);
    }
  }

  const BOOTED := Parsers(Hunting, Hunting)

  /** The messages the port has carried after these packets. */
  function Carried(run: seq<Packet>): (ms: seq<Message>)
    ensures AllFramable(ms)
  {
    LogFramable(BOOTED, run);
    Untagged(Log(BOOTED, run))
  }

  /** One more packet puts exactly its own whole frames behind them. */
  lemma PortStep(run: seq<Packet>, p: Packet)
    ensures var ms := Out(Of(ParsersAfter(BOOTED, run), p.link), p.data, MAX_PAYLOAD);
      AllFramable(ms) && Forwarded(Carried(run + [p])) == Forwarded(Carried(run)) + Forwarded(ms)
    ensures ParsersAfter(BOOTED, run + [p]) == Advance(ParsersAfter(BOOTED, run), p)
  {
    var ms := Out(Of(ParsersAfter(BOOTED, run), p.link), p.data, MAX_PAYLOAD);
    LogSnoc(BOOTED, run, p);
    assert Carried(run + [p]) == Carried(run) + ms;
    forall i | 0 <= i < |ms| ensures Framable(ms[i]) { assert Carried(run + [p])[|Carried(run)| + i] == ms[i]; }
    ForwardedConcat(Carried(run), ms);
  }

  class Station {
    const lora: Pipe
    const nrf: Pipe
    /** Bytes written to the serial port since boot. */
    var port: seq<Byte>
    /** The packets behind them. */
    ghost var heard: seq<Packet>

    /** Two pipes that share nothing. */
    ghost predicate Apart()
      reads lora, nrf, lora.parser, nrf.parser, lora.parser.payload, nrf.parser.payload
    {
      && lora != nrf && lora.parser != nrf.parser && lora.parser.payload != nrf.parser.payload
      && lora.Valid() && nrf.Valid()
    }

    ghost function Now(): Parsers
      requires Apart()
      reads lora, nrf, lora.parser, nrf.parser, lora.parser.payload, nrf.parser.payload
    {
      Parsers(lora.parser.Abs(), nrf.parser.Abs())
    }

    ghost predicate Valid()
      reads this, lora, nrf, lora.parser, nrf.parser, lora.parser.payload, nrf.parser.payload
    {
      Apart() && Now() == ParsersAfter(BOOTED, heard) && port == Forwarded(Carried(heard))
    }

    constructor ()
      ensures Valid() && port == [] && heard == [] && fresh(lora) && fresh(nrf)
    {
      lora := new Pipe();
      nrf := new Pipe();
      port, heard := [], [];
      new;
      assert Log(BOOTED, []) == [];
    }

    ghost function Side(link: Pipe): Link { if link == lora then Lora else Nrf }

    /** One packet through one radio's pipe: only that radio's parser moves. */
    method Take(link: Pipe, data: seq<Byte>) returns (bytes: seq<Byte>)
      requires Apart() && (link == lora || link == nrf)
      modifies link, link.parser, link.parser.payload
      ensures Apart() && Now() == Advance(old(Now()), Packet(Side(link), data))
      ensures var ms := Out(Of(old(Now()), Side(link)), data, MAX_PAYLOAD);
        AllFramable(ms) && bytes == Forwarded(ms) && link.frames == old(link.frames) + |ms|
    {
      bytes := link.RxAll(data);
    }

    /** One packet off one radio: only that radio's parser moves, only whole frames reach the port. */
    method OnLinkRx(link: Pipe, data: seq<Byte>)
      requires Valid() && (link == lora || link == nrf)
      modifies this, link, link.parser, link.parser.payload
      ensures Valid() && heard == old(heard) + [Packet(Side(link), data)]
      ensures Now() == Advance(old(Now()), Packet(Side(link), data))
      ensures var ms := Out(Of(old(Now()), Side(link)), data, MAX_PAYLOAD);
        AllFramable(ms) && port == old(port) + Forwarded(ms) && link.frames == old(link.frames) + |ms|
    {
      PortStep(heard, Packet(Side(link), data));
      var bytes := Take(link, data);
      port := port + bytes;
      heard := heard + [Packet(Side(link), data)];
    }
  }

  /**
   * End to end: once a station has heard both radios' packets, in any interleaving, its port holds every message
   * whole, each radio's in the order it sent them, and the ground decoder reads exactly those off it.
   */
  lemma TwoRadiosOnePort(station: Station, beacon: seq<Message>, payload: seq<Message>)
    requires station.Valid() && AllFramable(beacon) && AllFramable(payload)
    requires Heard(station.heard, Lora) == Forwarded(beacon)
    requires Heard(station.heard, Nrf) == Radio.AirStream(payload)
    ensures var log := Log(BOOTED, station.heard);
      && From(log, Lora) == beacon && From(log, Nrf) == payload
      && Out(Hunting, station.port, PyFrames.ANY_LENGTH) == Untagged(log)
  {
    RadiosDoNotMix(BOOTED, station.heard, Lora);
    RadiosDoNotMix(BOOTED, station.heard, Nrf);
    ForwardedDecodes(beacon, MAX_PAYLOAD);
    Radio.RadioRoundTrip(payload);
    ForwardedDecodes(Carried(station.heard), PyFrames.ANY_LENGTH);
  }
}
