/** The high-rate radio's packets (obc/Src/devices/nrf24.c) as a byte stream for the decoder. */
module Radio {
  import opened Wire
  import opened Crc
  import opened Frame
  import opened FrameTheorems

  const PACKET := 32

  function Padded(d: seq<Byte>): (p: seq<Byte>)
    requires |d| <= PACKET
    ensures |p| == PACKET
  {
    d + Zeros(PACKET - |d|)
  }

  /** Where the i-th packet's bytes start. */
  function Offset(len: nat, i: nat): (off: nat)
    ensures off <= len
  {
    if PACKET * i < len then PACKET * i else len
  }

  function Cut(d: seq<Byte>, i: nat): (c: seq<Byte>)
    ensures |c| <= PACKET
  {
    d[Offset(|d|, i)..Offset(|d|, i + 1)]
  }

  /** A buffer cut into full packets, the last one zero-padded. */
  function Packets(d: seq<Byte>): (ps: seq<seq<Byte>>)
    ensures |ps| == (|d| + PACKET - 1) / PACKET
    ensures forall i :: 0 <= i < |ps| ==> ps[i] == Padded(Cut(d, i))
  {
    seq((|d| + PACKET - 1) / PACKET, i requires 0 <= i => Padded(Cut(d, i)))
  }

  function Flatten(ps: seq<seq<Byte>>): seq<Byte> {
    if ps == [] then [] else ps[0] + Flatten(ps[1..])
  }

  /** How many of the next packets find room before the first that meets a full fifo. */
  function Accepted(busy: nat -> bool, from: nat, n: nat): (k: nat)
    requires from <= n
    ensures from <= k <= n
    ensures forall i :: from <= i < k ==> !busy(i)
    ensures k < n ==> busy(k)
    decreases n - from
  {
    if from == n || busy(from) then from else Accepted(busy, from + 1, n)
  }

  method Pad(data: seq<Byte>) returns (packet: seq<Byte>)
    requires |data| <= PACKET
    ensures packet == Padded(data)
  {
    packet := [];
    for i := 0 to PACKET
      invariant packet == Padded(data)[..i]
    {
      packet := packet + [if i < |data| then data[i] else 0];
    }
  }

  class Nrf24 {
    var configured: bool
    var sent: nat
    var dropped: nat
    /** Packets loaded into the transmit fifo, oldest first. */
    var air: seq<seq<Byte>>

    constructor (up: bool)
      ensures configured == up && sent == 0 && dropped == 0 && air == []
    {
      configured, sent, dropped, air := up, 0, 0, [];
    }

    /** `full` is the status bit read before the write. */
    method WritePacket(data: seq<Byte>, full: bool) returns (ok: bool)
      requires 0 < |data| <= PACKET
      modifies this`sent, this`dropped, this`air
      ensures ok == !full
      ensures ok ==> air == old(air) + [Padded(data)] && sent == old(sent) + 1 && dropped == old(dropped)
      ensures !ok ==> air == old(air) && sent == old(sent) && dropped == old(dropped) + 1
    {
      if full {
        dropped := dropped + 1;
        return false;
      }
      var packet := Pad(data);
      air := air + [packet];
      sent := sent + 1;
      return true;
    }

    /** Hands a buffer over until it is all away or the fifo refuses a packet. An absent buffer is an empty one. */
    method Send(data: seq<Byte>, busy: nat -> bool) returns (ok: bool)
      modifies this`sent, this`dropped, this`air
      ensures !configured || data == [] ==>
        !ok && air == old(air) && sent == old(sent) && dropped == old(dropped)
      ensures configured && data != [] ==>
        var ps := Packets(data);
        var k := Accepted(busy, 0, |ps|);
        && air == old(air) + ps[..k] && sent == old(sent) + k
        && ok == (k == |ps|) && dropped == old(dropped) + (if ok then 0 else 1)
    {
      if !configured || data == [] {
        return false;
      }
      ghost var ps := Packets(data);
      ok := true;
      var off := 0;
      var i := 0;  // which status read this is
      while off < |data|
        invariant off <= |data| && i <= |ps|
        invariant off == Offset(|data|, i) && (off == |data| ==> i == |ps|)
        invariant ok && sent == old(sent) + i && dropped == old(dropped)
        invariant air == old(air) + ps[..i]
        invariant Accepted(busy, 0, |ps|) == Accepted(busy, i, |ps|)
      {
        var n := |data| - off;
        if n > PACKET {
          n := PACKET;
        }
        assert data[off..off + n] == Cut(data, i);
        var placed := this.WritePacket(data[off..off + n], busy(i));
        if !placed {
          ok := false;
          break;
        }
        assert ps[..i + 1] == ps[..i] + [ps[i]];
        off := off + n;
        i := i + 1;
      }
    }
  }

  /** On the air a buffer is itself followed by padding. */
  lemma {:induction false} FlattenPackets(d: seq<Byte>) returns (k: nat)
    ensures Flatten(Packets(d)) == d + Zeros(k)
    decreases |d|
  {
    var ps := Packets(d);
    if d == [] {
      k := 0;
    } else if |d| <= PACKET {
      k := PACKET - |d|;
      assert ps == [Padded(d)] by { assert Cut(d, 0) == d; }
      assert Flatten(ps) == Padded(d) + [];
    } else {
      k := FlattenPackets(d[PACKET..]);
      forall i | 1 <= i < |ps| ensures ps[i] == Packets(d[PACKET..])[i - 1] {
        assert Cut(d, i) == Cut(d[PACKET..], i - 1);
      }
      assert ps[1..] == Packets(d[PACKET..]);
      assert ps[0] == d[..PACKET];
    }
  }

  lemma PacketsDecode(m: Message)
    requires Framable(m)
    ensures Out(Hunting, Flatten(Packets(Encoded(m))), MAX_PAYLOAD) == [m]
    ensures End(Hunting, Flatten(Packets(Encoded(m))), MAX_PAYLOAD) == Hunting
  {
    var s := Encoded(m);
    var k := FlattenPackets(s);
    RoundTrip(m, MAX_PAYLOAD);
    RunConcat(Hunting, s, Zeros(k), MAX_PAYLOAD);
    HuntingIgnoresZeros(k);
  }

  /** What a receiver concatenates when every packet of every message arrives. */
  function AirStream(ms: seq<Message>): seq<Byte>
    requires AllFramable(ms)
  {
    if ms == [] then [] else Flatten(Packets(Encoded(ms[0]))) + AirStream(ms[1..])
  }

  /** Any sequence of messages, encoded, cut into padded packets and delivered, decodes to itself. */
  lemma {:induction false} RadioRoundTrip(ms: seq<Message>)
    requires AllFramable(ms)
    ensures Out(Hunting, AirStream(ms), MAX_PAYLOAD) == ms
    ensures End(Hunting, AirStream(ms), MAX_PAYLOAD) == Hunting
  {
    if ms != [] {
      PacketsDecode(ms[0]);
      RunConcat(Hunting, Flatten(Packets(Encoded(ms[0]))), AirStream(ms[1..]), MAX_PAYLOAD);
      RadioRoundTrip(ms[1..]);
    }
  }
}
