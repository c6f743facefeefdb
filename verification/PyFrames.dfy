/** The ground's own decoder (tools/ground/frames.py) and how far it agrees with the firmware's. */
module PyFrames {
  import opened Wire
  import opened Crc
  import opened Frame
  import opened FrameTheorems

  /** No bound is checked on the length byte, so a byte's own range is the limit. */
  const ANY_LENGTH := 255

  class FrameDecoder {
    var state: FrameState
    var msgId: Byte
    var length: Byte
    var payload: seq<Byte>
    var crcRx: nat
    var crcErrors: nat

    ghost predicate Valid()
      reads this
    {
      && (state == Payload ==> |payload| < length)
      && (state == CrcHi || state == CrcLo ==> |payload| == length)
      && crcRx < 0x10000 && (state == CrcLo ==> crcRx % 256 == 0)
    }

    ghost function Abs(): Parser
      requires Valid()
      reads this
    {
      match state
      case Sync0 => Hunting
      case Sync1 => SawSync0
      case Id => AwaitId
      case Len => AwaitLen(msgId)
      case Payload => AwaitPayload(msgId, length, payload)
      case CrcHi => AwaitHi(msgId, payload)
      case CrcLo => AwaitLo(msgId, payload, crcRx / 256)
    }

    constructor ()
      ensures Valid() && Abs() == Hunting && crcErrors == 0
    {
      state := Sync0;
      msgId, length, payload, crcRx, crcErrors := 0, 0, [], 0, 0;
    }

    method Push(byte: Byte) returns (r: Option<Message>)
      requires Valid()
      modifies this
      ensures Valid()
      ensures Abs() == Next(old(Abs()), byte, ANY_LENGTH)
      ensures (match r case None => [] case Some(m) => [m]) == Emit(old(Abs()), byte)
      ensures crcErrors == old(crcErrors) + (if old(state) == CrcLo && r == None then 1 else 0)
    {
      r := None;
      match state {
        case Sync0 =>
          if byte == SYNC0 { state := Sync1; }
        case Sync1 =>
          state := if byte == SYNC1 then Id else Sync0;
        case Id =>
          msgId := byte;
          state := Len;
        case Len =>
          length := byte;
          payload := [];
          state := if byte == 0 then CrcHi else Payload;
        case Payload =>
          payload := payload + [byte];
          if |payload| >= length { state := CrcHi; }
        case CrcHi =>
          crcRx := 256 * byte;
          state := CrcLo;
        case CrcLo =>
          r := Finish(byte);
      }
    }

    method Finish(byte: Byte) returns (r: Option<Message>)
      requires Valid() && state == CrcLo
      modifies this`crcRx, this`state, this`crcErrors
      ensures Valid() && Abs() == Hunting
      ensures (match r case None => [] case Some(m) => [m]) == Emit(old(Abs()), byte)
      ensures crcErrors == old(crcErrors) + (if r == None then 1 else 0)
    {
      HighLow(crcRx, byte);
      crcRx := crcRx + byte;
      r := Check();
      state := Sync0;
      if r == None { crcErrors := crcErrors + 1; }
    }

    method Check() returns (r: Option<Message>)
      requires |payload| == length && crcRx < 0x10000
      ensures (match r case None => [] case Some(m) => [m])
           == Emit(AwaitLo(msgId, payload, crcRx / 256), crcRx % 256)
    {
      var body := [msgId, length] + payload;
      assert body == Body(Message(msgId, payload));
      var crc := Crc16Bytes(body);
      r := if crc == WordOf(crcRx) then Some(Message(msgId, payload)) else None;
    }
  }

  method Crc16Bytes(data: seq<Byte>) returns (crc: Word)
    ensures crc == Checksum(Fill(true), data)
  {
    crc := Fill(true);
    for i := 0 to |data|
      invariant Checksum(crc, data[i..]) == Checksum(Fill(true), data)
    {
      assert data[i..][0] == data[i] && data[i..][1..] == data[i + 1..];
      crc := ClockByte(crc, data[i]);
    }
  }

  /** Somewhere along s the ground's decoder takes a length byte the firmware would refuse. */
  ghost predicate Overlong(p: Parser, s: seq<Byte>)
    decreases |s|
  {
    s != [] && ((p.AwaitLen? && s[0] > MAX_PAYLOAD) || Overlong(Next(p, s[0], ANY_LENGTH), s[1..]))
  }

  lemma {:induction false} DecodersAgree(p: Parser, s: seq<Byte>)
    requires !Overlong(p, s)
    ensures End(p, s, ANY_LENGTH) == End(p, s, MAX_PAYLOAD)
    ensures Out(p, s, ANY_LENGTH) == Out(p, s, MAX_PAYLOAD)
    decreases |s|
  {
    if s != [] {
      assert Next(p, s[0], ANY_LENGTH) == Next(p, s[0], MAX_PAYLOAD);
      DecodersAgree(Next(p, s[0], ANY_LENGTH), s[1..]);
    }
  }

  ghost predicate Lockstep(p: Parser, s: seq<Byte>) {
    forall k :: 0 <= k <= |s| ==> End(p, s[..k], ANY_LENGTH) == End(p, s[..k], MAX_PAYLOAD)
  }

  lemma {:induction false} PrefixNotOverlong(p: Parser, s: seq<Byte>, k: nat)
    requires k <= |s| && !Overlong(p, s)
    ensures !Overlong(p, s[..k])
    decreases |s|
  {
    if k > 0 {
      assert s[..k][1..] == s[1..][..k - 1];
      PrefixNotOverlong(Next(p, s[0], ANY_LENGTH), s[1..], k - 1);
    }
  }

  lemma {:induction false} OverlongBreaksLockstep(p: Parser, s: seq<Byte>)
    requires Overlong(p, s)
    ensures exists k :: 0 <= k <= |s| && End(p, s[..k], ANY_LENGTH) != End(p, s[..k], MAX_PAYLOAD)
    decreases |s|
  {
    var any, low := Next(p, s[0], ANY_LENGTH), Next(p, s[0], MAX_PAYLOAD);
    if p.AwaitLen? && s[0] > MAX_PAYLOAD {
      assert s[..1][0] == s[0] && s[..1][1..] == [];
      assert End(p, s[..1], ANY_LENGTH) == End(any, [], ANY_LENGTH) == any;
      assert End(p, s[..1], MAX_PAYLOAD) == End(low, [], MAX_PAYLOAD) == low;
    } else {
      OverlongBreaksLockstep(any, s[1..]);
      var k :| 0 <= k <= |s[1..]| && End(any, s[1..][..k], ANY_LENGTH) != End(any, s[1..][..k], MAX_PAYLOAD);
      assert s[..k + 1][1..] == s[1..][..k];
      assert End(p, s[..k + 1], ANY_LENGTH) != End(p, s[..k + 1], MAX_PAYLOAD);
    }
  }

  /** The two decoders walk through the same states exactly on the streams without an overlong length byte. */
  lemma LockstepIff(p: Parser, s: seq<Byte>)
    ensures Lockstep(p, s) <==> !Overlong(p, s)
  {
    if Overlong(p, s) {
      OverlongBreaksLockstep(p, s);
    } else {
      forall k | 0 <= k <= |s| ensures End(p, s[..k], ANY_LENGTH) == End(p, s[..k], MAX_PAYLOAD) {
        PrefixNotOverlong(p, s, k);
        DecodersAgree(p, s[..k]);
      }
    }
  }

  /** Where they part: a frame of 65 zero bytes is a message to the ground and noise to the firmware. */
  lemma OverlongFrameSeenByGroundOnly(id: Byte)
    ensures var m := Message(id, Zeros(65));
      Out(Hunting, Encoded(m), ANY_LENGTH) == [m] && Out(Hunting, Encoded(m), MAX_PAYLOAD) == []
  {
    var m := Message(id, Zeros(65));
    RoundTrip(m, ANY_LENGTH);
    var f := Field(Checksum(Fill(true), Body(m)));
    assert Encoded(m) == [SYNC0, SYNC1] + ([id, 65] + (Zeros(65) + f));
    SyncRun([id, 65] + (Zeros(65) + f), MAX_PAYLOAD);
    RunConcat(AwaitId, [id, 65], Zeros(65) + f, MAX_PAYLOAD);
    TwoRun(AwaitId, id, 65, MAX_PAYLOAD);
    RunConcat(Hunting, Zeros(65), f, MAX_PAYLOAD);
    HuntingIgnoresZeros(65);
    assert f == [f[0], f[1]];
    TwoRun(Hunting, f[0], f[1], MAX_PAYLOAD);
  }
}
