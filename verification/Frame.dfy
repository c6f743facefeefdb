/** Byte-stream framing: sync, id, length, payload, checksum (common/protocol/frame.cpp). */
module Frame {
  import opened Wire
  import opened Crc

  const SYNC0: Byte := 0xAA
  const SYNC1: Byte := 0x55
  const MAX_PAYLOAD := 64
  const MAX_SIZE := 70

  datatype Message = Message(id: Byte, payload: seq<Byte>)

  /** What the wire format can carry: one length byte. The flight side stops at MAX_PAYLOAD. */
  ghost predicate Sized(m: Message) { |m.payload| < 256 }

  predicate Framable(m: Message) { |m.payload| <= MAX_PAYLOAD }

  predicate AllFramable(ms: seq<Message>) { forall i :: 0 <= i < |ms| ==> Framable(ms[i]) }

  function Body(m: Message): (b: seq<Byte>)
    requires |m.payload| < 256
  {
    [m.id, |m.payload|] + m.payload
  }

  function Field(c: Word): (f: seq<Byte>)
    ensures |f| == 2 && ByteBits(f[0]) + ByteBits(f[1]) == c
  {
    [ByteOf(c[..8]), ByteOf(c[8..])]
  }

  function Encoded(m: Message): (s: seq<Byte>)
    requires |m.payload| < 256
    ensures |s| == |m.payload| + 6
  {
    [SYNC0, SYNC1] + Body(m) + Field(Checksum(Fill(true), Body(m)))
  }

  /** out[n++] = b */
  method Put(out: array<Byte>, n: nat, b: Byte) returns (next: nat)
    requires n < out.Length
    modifies out
    ensures next == n + 1
    ensures out[..next] == old(out[..n]) + [b]
  {
    out[n] := b;
    next := n + 1;
  }

  method Encode(id: Byte, payload: seq<Byte>, len: Byte, out: array<Byte>) returns (n: nat)
    requires len <= |payload| && MAX_SIZE <= out.Length
    modifies out
    ensures len > MAX_PAYLOAD ==> n == 0 && out[..] == old(out[..])
    ensures len <= MAX_PAYLOAD ==> n == len + 6 && out[..n] == Encoded(Message(id, payload[..len]))
  {
    if len > MAX_PAYLOAD {
      return 0;
    }
    ghost var m := Message(id, payload[..len]);
    n := Put(out, 0, SYNC0);
    n := Put(out, n, SYNC1);
    n := Put(out, n, id);
    n := Put(out, n, len);
    for i := 0 to len
      invariant n == 4 + i
      invariant out[..n] == [SYNC0, SYNC1] + Body(m)[..2 + i]
    {
      assert Body(m)[..2 + i + 1] == Body(m)[..2 + i] + [payload[i]];
      n := Put(out, n, payload[i]);
    }
    assert out[2..n] == out[..n][2..] == Body(m);
    n := AppendField(out, n);
  }

  /** The checksum covers everything after the sync bytes; it goes out high byte first. */
  method AppendField(out: array<Byte>, n: nat) returns (end: nat)
    requires 2 <= n && n + 2 <= out.Length
    modifies out
    ensures end == n + 2
    ensures out[..end] == old(out[..n]) + Field(Checksum(Fill(true), old(out[2..n])))
  {
    var crc := Crc16(out, 2, n - 2);
    var field := Field(crc);
    end := Put(out, n, field[0]);
    end := Put(out, end, field[1]);
  }

  // ---- the decoder's meaning, free of stale buffer contents ----

  datatype Parser =
    | Hunting
    | SawSync0
    | AwaitId
    | AwaitLen(id: Byte)
    | AwaitPayload(id: Byte, len: Byte, got: seq<Byte>)
    | AwaitHi(id: Byte, got: seq<Byte>)
    | AwaitLo(id: Byte, got: seq<Byte>, hi: Byte)

  ghost predicate Legal(p: Parser) {
    match p
    case AwaitPayload(_, len, got) => |got| < len <= MAX_PAYLOAD
    case AwaitHi(_, got) => |got| <= MAX_PAYLOAD
    case AwaitLo(_, got, _) => |got| <= MAX_PAYLOAD
    case _ => true
  }

  /** One byte, with `limit` the largest length byte the decoder accepts. */
  function Next(p: Parser, b: Byte, limit: nat): Parser {
    match p
    case Hunting => if b == SYNC0 then SawSync0 else Hunting
    case SawSync0 => if b == SYNC1 then AwaitId else Hunting
    case AwaitId => AwaitLen(b)
    case AwaitLen(id) =>
      if b > limit then Hunting else if b == 0 then AwaitHi(id, []) else AwaitPayload(id, b, [])
    case AwaitPayload(id, len, got) =>
      if |got| + 1 >= len then AwaitHi(id, got + [b]) else AwaitPayload(id, len, got + [b])
    case AwaitHi(id, got) => AwaitLo(id, got, b)
    case AwaitLo(_, _, _) => Hunting
  }

  function Emit(p: Parser, b: Byte): seq<Message> {
    match p
    case AwaitLo(id, got, hi) =>
      if |got| < 256 && Checksum(Fill(true), Body(Message(id, got))) == ByteBits(hi) + ByteBits(b)
      then [Message(id, got)] else []
    case _ => []
  }

  function End(p: Parser, s: seq<Byte>, limit: nat): Parser
    decreases |s|
  {
    if s == [] then p else End(Next(p, s[0], limit), s[1..], limit)
  }

  function Out(p: Parser, s: seq<Byte>, limit: nat): seq<Message>
    decreases |s|
  {
    if s == [] then [] else Emit(p, s[0]) + Out(Next(p, s[0], limit), s[1..], limit)
  }

  datatype FrameState = Sync0 | Sync1 | Id | Len | Payload | CrcHi | CrcLo

  /** The incremental decoder as the firmware keeps it: one state byte, one buffer, two counters. */
  class FrameParser {
    var state: FrameState
    var msgId: Byte
    var len: Byte
    var idx: nat
    const payload: array<Byte>
    var crcRx: nat

    ghost predicate Valid()
      reads this, payload
    {
      && payload.Length == MAX_PAYLOAD
      && (state == Payload ==> idx < len <= MAX_PAYLOAD)
      && (state == CrcHi || state == CrcLo ==> idx == len <= MAX_PAYLOAD)
      && crcRx < 0x10000 && (state == CrcLo ==> crcRx % 256 == 0)
    }

    ghost function Abs(): (p: Parser)
      requires Valid()
      reads this, payload
      ensures Legal(p)
    {
      match state
      case Sync0 => Hunting
      case Sync1 => SawSync0
      case Id => AwaitId
      case Len => AwaitLen(msgId)
      case Payload => AwaitPayload(msgId, len, payload[..idx])
      case CrcHi => AwaitHi(msgId, payload[..len])
      case CrcLo => AwaitLo(msgId, payload[..len], crcRx / 256)
    }

    constructor ()
      ensures Valid() && fresh(payload) && Abs() == Hunting
    {
      state := Sync0;
      msgId, len, idx := 0, 0, 0;
      crcRx := 0;
      payload := new Byte[MAX_PAYLOAD](_ => 0);
    }

    method Decode(byte: Byte) returns (r: Option<Message>)
      requires Valid()
      modifies this, payload
      ensures Valid()
      ensures Abs() == Next(old(Abs()), byte, MAX_PAYLOAD)
      ensures (match r case None => [] case Some(m) => [m]) == Emit(old(Abs()), byte)
    {
      r := None;
      match state {
        case Sync0 =>
          if byte == SYNC0 { state := Sync1; }
        case Sync1 =>
          state := if byte == SYNC1 then Id else Sync0;
        case Id =>
          msgId := byte;
          state := Len;
        case Len =>
          len := byte;
          idx := 0;
          if byte > MAX_PAYLOAD {
            state := Sync0;
          } else {
            state := if byte == 0 then CrcHi else Payload;
          }
        case Payload =>
          Store(byte);
        case CrcHi =>
          crcRx := 256 * byte;
          state := CrcLo;
        case CrcLo =>
          r := Finish(byte);
      }
    }

    method Finish(byte: Byte) returns (r: Option<Message>)
      requires Valid() && state == CrcLo
      modifies this`crcRx, this`state
      ensures Valid() && Abs() == Hunting
      ensures (match r case None => [] case Some(m) => [m]) == Emit(old(Abs()), byte)
    {
      HighLow(crcRx, byte);
      crcRx := crcRx + byte;
      r := Check();
      state := Sync0;
    }

    method Store(byte: Byte)
      requires Valid() && state == Payload
      modifies this`idx, this`state, payload
      ensures Valid() && Abs() == Next(old(Abs()), byte, MAX_PAYLOAD)
    {
      payload[idx] := byte;
      idx := idx + 1;
      assert payload[..idx] == old(payload[..idx]) + [byte];
      if idx >= len { state := CrcHi; }
    }

    /** The last byte is in: rebuild id, length and payload in a scratch buffer and compare checksums. */
    method Check() returns (r: Option<Message>)
      requires payload.Length == MAX_PAYLOAD && len <= MAX_PAYLOAD && crcRx < 0x10000
      ensures (match r case None => [] case Some(m) => [m])
           == Emit(AwaitLo(msgId, payload[..len], crcRx / 256), crcRx % 256)
    {
      var tmp := new Byte[2 + MAX_PAYLOAD](_ => 0);
      tmp[0] := msgId;
      tmp[1] := len;
      for i := 0 to len
        invariant tmp[0] == msgId && tmp[1] == len
        invariant tmp[2..2 + i] == payload[..i]
      {
        tmp[2 + i] := payload[i];
      }
      assert tmp[0..2 + len] == Body(Message(msgId, payload[..len])) by {
        assert tmp[0..2 + len] == tmp[0..2] + tmp[2..2 + len];
      }
      var crc := Crc16(tmp, 0, 2 + len);
      r := if crc == WordOf(crcRx) then Some(Message(msgId, payload[..len])) else None;
    }
  }

  lemma HighLow(rx: nat, low: Byte)
    requires rx % 256 == 0
    ensures (rx + low) / 256 == rx / 256 && (rx + low) % 256 == low
  {
  }

  /** A checksum as received: two bytes, high first. */
  function WordOf(rx: nat): Word
    requires rx < 0x10000
  {
    ByteBits(rx / 256) + ByteBits(rx % 256)
  }
}
