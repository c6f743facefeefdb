/** What the frame codec is for: round trips, resynchronisation and rejection of damaged frames. */
module FrameTheorems {
  import opened Wire
  import opened Crc
  import opened Frame

  lemma {:induction false} RunConcat(p: Parser, a: seq<Byte>, b: seq<Byte>, limit: nat)
    ensures End(p, a + b, limit) == End(End(p, a, limit), b, limit)
    ensures Out(p, a + b, limit) == Out(p, a, limit) + Out(End(p, a, limit), b, limit)
    decreases |a|
  {
    if a == [] {
      assert a + b == b;
    } else {
      assert (a + b)[1..] == a[1..] + b;
      RunConcat(Next(p, a[0], limit), a[1..], b, limit);
    }
  }

  lemma {:induction false} PayloadRun(id: Byte, len: Byte, got: seq<Byte>, rest: seq<Byte>, limit: nat)
    requires rest != [] && |got| + |rest| == len
    ensures End(AwaitPayload(id, len, got), rest, limit) == AwaitHi(id, got + rest)
    ensures Out(AwaitPayload(id, len, got), rest, limit) == []
    decreases |rest|
  {
    assert got + rest == got + [rest[0]] + rest[1..];
    if |rest| > 1 {
      PayloadRun(id, len, got + [rest[0]], rest[1..], limit);
    }
  }

  lemma TwoRun(p: Parser, a: Byte, b: Byte, limit: nat)
    ensures End(p, [a, b], limit) == Next(Next(p, a, limit), b, limit)
    ensures Out(p, [a, b], limit) == Emit(p, a) + Emit(Next(p, a, limit), b)
  {
    assert [a, b][1..] == [b] && [b][1..] == [];
    var q := Next(p, a, limit);
    assert End(q, [b], limit) == End(Next(q, b, limit), [], limit);
    assert Out(q, [b], limit) == Emit(q, b) + Out(Next(q, b, limit), [], limit);
  }

  lemma HeaderAndPayloadRun(id: Byte, len: Byte, data: seq<Byte>, limit: nat)
    requires |data| == len <= limit
    ensures End(AwaitId, [id, len] + data, limit) == AwaitHi(id, data)
    ensures Out(AwaitId, [id, len] + data, limit) == []
  {
    RunConcat(AwaitId, [id, len], data, limit);
    TwoRun(AwaitId, id, len, limit);
    if len > 0 {
      PayloadRun(id, len, [], data, limit);
      assert [] + data == data;
    }
  }

  /** Everything after the sync bytes, when its length byte is honest: one verdict, then hunting again. */
  lemma BodyRun(r: seq<Byte>, limit: nat)
    requires limit < 256 && |r| >= 4 && |r| - 4 == r[1] && r[1] <= limit
    ensures End(AwaitId, r, limit) == Hunting
    ensures Out(AwaitId, r, limit) == if FieldCorrect(r) then [Message(r[0], r[2..|r| - 2])] else []
  {
    var n := |r|;
    var data, hi, lo := r[2..n - 2], r[n - 2], r[n - 1];
    var head := [r[0], r[1]] + data;
    assert r == head + [hi, lo] && r[..n - 2] == head == Body(Message(r[0], data));
    RunConcat(AwaitId, head, [hi, lo], limit);
    HeaderAndPayloadRun(r[0], r[1], data, limit);
    TwoRun(AwaitHi(r[0], data), hi, lo, limit);
  }

  lemma EncodedShape(m: Message)
    requires Sized(m)
    ensures var r := Encoded(m)[2..];
      |r| == |m.payload| + 4 && r[0] == m.id && r[1] == |m.payload| && FieldCorrect(r) &&
      r[2..|r| - 2] == m.payload && Encoded(m) == [SYNC0, SYNC1] + r
  {
    var b, f := Body(m), Field(Checksum(Fill(true), Body(m)));
    assert Encoded(m) == [SYNC0, SYNC1] + (b + f);
    var r := Encoded(m)[2..];
    assert r == b + f;
    assert r[..|r| - 2] == b && r[|r| - 2] == f[0] && r[|r| - 1] == f[1];
    assert b[2..] == m.payload;
  }

  lemma SyncRun(r: seq<Byte>, limit: nat)
    ensures End(Hunting, [SYNC0, SYNC1] + r, limit) == End(AwaitId, r, limit)
    ensures Out(Hunting, [SYNC0, SYNC1] + r, limit) == Out(AwaitId, r, limit)
  {
    RunConcat(Hunting, [SYNC0, SYNC1], r, limit);
    TwoRun(Hunting, SYNC0, SYNC1, limit);
  }

  lemma RoundTrip(m: Message, limit: nat)
    requires |m.payload| <= limit < 256
    ensures End(Hunting, Encoded(m), limit) == Hunting
    ensures Out(Hunting, Encoded(m), limit) == [m]
  {
    EncodedShape(m);
    SyncRun(Encoded(m)[2..], limit);
    BodyRun(Encoded(m)[2..], limit);
  }

  function Zeros(n: nat): (z: seq<Byte>)
    ensures |z| == n && forall i :: 0 <= i < n ==> z[i] == 0
  {
    seq(n, i => 0)
  }

  /** How many zero bytes bring the parser back to hunting. */
  function Distance(p: Parser): nat {
    match p
    case Hunting => 0
    case SawSync0 => 1
    case AwaitId => 4
    case AwaitLen(_) => 3
    case AwaitPayload(_, len, got) => if |got| < len then len - |got| + 2 else 3
    case AwaitHi(_, _) => 2
    case AwaitLo(_, _, _) => 1
  }

  lemma {:induction false} ZeroRun(p: Parser, n: nat)
    requires Legal(p)
    ensures End(p, Zeros(n), MAX_PAYLOAD) == Hunting <==> Distance(p) <= n
    ensures |Out(p, Zeros(n), MAX_PAYLOAD)| <= 1
    decreases n
  {
    if n > 0 {
      assert Zeros(n)[1..] == Zeros(n - 1);
      ZeroRun(Next(p, 0, MAX_PAYLOAD), n - 1);
      if p == Hunting || p.AwaitLo? { HuntingIgnoresZeros(n - 1); }
    }
  }

  lemma {:induction false} HuntingIgnoresZeros(n: nat)
    ensures End(Hunting, Zeros(n), MAX_PAYLOAD) == Hunting
    ensures Out(Hunting, Zeros(n), MAX_PAYLOAD) == []
  {
    if n > 0 {
      assert Zeros(n)[1..] == Zeros(n - 1);
      HuntingIgnoresZeros(n - 1);
    }
  }

  /** Sixty-six zero bytes resynchronise the decoder from anywhere it can be, and sixty-five do not. */
  lemma Resynchronises(p: Parser, m: Message)
    requires Legal(p) && Framable(m)
    ensures exists stray :: |stray| <= 1 && Out(p, Zeros(66) + Encoded(m), MAX_PAYLOAD) == stray + [m]
    ensures End(p, Zeros(66) + Encoded(m), MAX_PAYLOAD) == Hunting
  {
    ZeroRun(p, 66);
    RunConcat(p, Zeros(66), Encoded(m), MAX_PAYLOAD);
    RoundTrip(m, MAX_PAYLOAD);
    var stray := Out(p, Zeros(66), MAX_PAYLOAD);
    assert Out(p, Zeros(66) + Encoded(m), MAX_PAYLOAD) == stray + [m];
  }

  lemma SixtySixIsTight()
    ensures exists p :: Legal(p) && End(p, Zeros(65), MAX_PAYLOAD) != Hunting
  {
    var p := AwaitPayload(0, 64, []);
    ZeroRun(p, 65);
    assert Legal(p);
  }

  lemma {:induction false} LegalForever(p: Parser, s: seq<Byte>)
    requires Legal(p)
    ensures Legal(End(p, s, MAX_PAYLOAD))
    ensures AllFramable(Out(p, s, MAX_PAYLOAD))
    decreases |s|
  {
    if s != [] { LegalForever(Next(p, s[0], MAX_PAYLOAD), s[1..]); }
  }

  // ---- damaged frames ----

  /** What arrives in place of m: same length byte, anything else changed after the sync bytes. */
  ghost predicate Damaged(m: Message, got: seq<Byte>)
    requires Framable(m)
  {
    |got| == |m.payload| + 4 && got[1] == |m.payload| && got != Encoded(m)[2..]
  }

  lemma BurstRejected(m: Message, got: seq<Byte>, p: nat)
    requires Framable(m) && Damaged(m, got)
    requires forall i :: 0 <= i < 8 * |got| && Bits(Encoded(m)[2..])[i] != Bits(got)[i] ==> p <= i < p + 16
    ensures Out(Hunting, [SYNC0, SYNC1] + got, MAX_PAYLOAD) == []
    ensures End(Hunting, [SYNC0, SYNC1] + got, MAX_PAYLOAD) == Hunting
  {
    EncodedShape(m);
    BurstCaught(Encoded(m)[2..], got, p);
    SyncRun(got, MAX_PAYLOAD);
    BodyRun(got, MAX_PAYLOAD);
  }

  lemma OddErrorRejected(m: Message, got: seq<Byte>)
    requires Framable(m) && Damaged(m, got)
    requires Odd(Diff(Bits(Encoded(m)[2..]), Bits(got)))
    ensures Out(Hunting, [SYNC0, SYNC1] + got, MAX_PAYLOAD) == []
    ensures End(Hunting, [SYNC0, SYNC1] + got, MAX_PAYLOAD) == Hunting
  {
    EncodedShape(m);
    OddErrorCaught(Encoded(m)[2..], got);
    SyncRun(got, MAX_PAYLOAD);
    BodyRun(got, MAX_PAYLOAD);
  }

  lemma {:induction false} NoSyncNoFrame(s: seq<Byte>, limit: nat)
    requires forall i :: 0 <= i < |s| ==> s[i] != SYNC0
    ensures End(Hunting, s, limit) == Hunting && Out(Hunting, s, limit) == []
    decreases |s|
  {
    if s != [] { NoSyncNoFrame(s[1..], limit); }
  }

  lemma SpoiltSync(r: seq<Byte>, limit: nat)
    ensures End(Hunting, [SYNC0, SYNC0, SYNC1] + r, limit) == End(Hunting, r, limit)
    ensures Out(Hunting, [SYNC0, SYNC0, SYNC1] + r, limit) == Out(Hunting, r, limit)
  {
    RunConcat(Hunting, [SYNC0, SYNC0, SYNC1], r, limit);
    RunConcat(Hunting, [SYNC0, SYNC0], [SYNC1], limit);
    TwoRun(Hunting, SYNC0, SYNC0, limit);
    assert [SYNC0, SYNC0, SYNC1] == [SYNC0, SYNC0] + [SYNC1] && [SYNC1][1..] == [];
    assert End(Hunting, [SYNC1], limit) == End(Next(Hunting, SYNC1, limit), [], limit) == Hunting;
    assert Out(Hunting, [SYNC1], limit) == Emit(Hunting, SYNC1) + Out(Next(Hunting, SYNC1, limit), [], limit) == [];
  }

  lemma Prefixed(s: seq<Byte>, r: seq<Byte>)
    requires s == [SYNC0, SYNC1] + r
    ensures [SYNC0] + s == [SYNC0, SYNC0, SYNC1] + r
  {
  }

  /**
   * One stray first sync byte ahead of a frame spoils it: the frame's own first byte is taken for a failed second one,
   * and what follows its sync bytes is hunted through like noise. If no sync byte is in there the frame is simply lost.
   */
  lemma StraySyncLosesFrame(m: Message, limit: nat)
    requires Sized(m)
    ensures var r := Encoded(m)[2..];
      && Out(Hunting, [SYNC0] + Encoded(m), limit) == Out(Hunting, r, limit)
      && (SYNC0 !in r ==>
            Out(Hunting, [SYNC0] + Encoded(m), limit) == [] && End(Hunting, [SYNC0] + Encoded(m), limit) == Hunting)
  {
    var r := Encoded(m)[2..];
    EncodedShape(m);
    SpoiltSync(r, limit);
    Prefixed(Encoded(m), r);
    if SYNC0 !in r { NoSyncNoFrame(r, limit); }
  }
}
