/** CRC-16 over the frame body (common/protocol/frame.cpp) and the transmission errors it catches. */
module Crc {
  import opened Wire

  /** A 16-bit register, most significant bit first. */
  type Word = w: seq<bool> | |w| == 16
    witness [false, false, false, false, false, false, false, false,
             false, false, false, false, false, false, false, false]

  function Fill(b: bool): (w: Word)
    ensures forall i :: 0 <= i < 16 ==> w[i] == b
  {
    seq(16, i => b)
  }

  /** x^12 + x^5 + 1, the low sixteen coefficients of the generator 0x11021. */
  function Poly(): (w: Word)
    ensures forall i :: 0 <= i < 16 ==> w[i] == (i == 3 || i == 10 || i == 15)
  {
    seq(16, i => i == 3 || i == 10 || i == 15)
  }

  function Xor(a: Word, b: Word): (x: Word)
    ensures forall i :: 0 <= i < 16 ==> x[i] == (a[i] != b[i])
  {
    seq(16, i requires 0 <= i < 16 => a[i] != b[i])
  }

  function Left(r: Word): Word { r[1..] + [false] }

  function Shift(r: Word): Word { if r[0] then Xor(Left(r), Poly()) else Left(r) }

  function ShiftN(r: Word, n: nat): Word
    decreases n, |r|
  {
    if n == 0 then r else ShiftN(Shift(r), n - 1)
  }

  function LeftN(r: Word, n: nat): Word
    decreases n, |r|
  {
    if n == 0 then r else LeftN(Left(r), n - 1)
  }

  function Pow2(k: nat): (p: nat)
    ensures p > 0
  {
    if k == 0 then 1 else 2 * Pow2(k - 1)
  }

  /** The k low bits of n, most significant first. */
  function NatBits(n: nat, k: nat): (s: seq<bool>)
    ensures |s| == k
    decreases k, n
  {
    if k == 0 then [] else NatBits(n / 2, k - 1) + [n % 2 == 1]
  }

  function BitsNat(s: seq<bool>): (n: nat)
    ensures n < Pow2(|s|)
    ensures NatBits(n, |s|) == s
  {
    if s == [] then 0
    else
      var q := BitsNat(s[..|s| - 1]);
      var n := 2 * q + (if s[|s| - 1] then 1 else 0);
      assert n / 2 == q;
      n
  }

  lemma {:induction false} BitsNatInverse(n: nat, k: nat)
    requires n < Pow2(k)
    ensures BitsNat(NatBits(n, k)) == n
    decreases k
  {
    if k > 0 {
      assert NatBits(n, k)[..k - 1] == NatBits(n / 2, k - 1);
      BitsNatInverse(n / 2, k - 1);
    }
  }

  function ByteOf(s: seq<bool>): (b: Byte)
    requires |s| == 8
    ensures ByteBits(b) == s
  {
    assert Pow2(8) == 256;
    BitsNat(s)
  }

  function ByteBits(b: Byte): (s: seq<bool>)
    ensures |s| == 8
  {
    NatBits(b, 8)
  }

  function High(b: Byte): Word { ByteBits(b) + seq(8, i => false) }

  function Checksum(r: Word, data: seq<Byte>): Word
    decreases |data|
  {
    if data == [] then r else Checksum(ShiftN(Xor(r, High(data[0])), 8), data[1..])
  }

  method Crc16(data: array<Byte>, off: nat, len: nat) returns (crc: Word)
    requires off + len <= data.Length
    ensures crc == Checksum(Fill(true), data[off..off + len])
  {
    ghost var d := data[off..off + len];
    crc := Fill(true);
    for i := 0 to len
      invariant Checksum(crc, d[i..]) == Checksum(Fill(true), d)
    {
      assert d[i..][0] == data[off + i] && d[i..][1..] == d[i + 1..];
      crc := ClockByte(crc, data[off + i]);
    }
  }

  method ClockByte(r: Word, b: Byte) returns (crc: Word)
    ensures crc == ShiftN(Xor(r, High(b)), 8)
  {
    crc := Xor(r, High(b));
    for bit := 0 to 8
      invariant ShiftN(crc, 8 - bit) == ShiftN(Xor(r, High(b)), 8)
    {
      crc := if crc[0] then Xor(Left(crc), Poly()) else Left(crc);
    }
  }

  function FeedBit(r: Word, bit: bool): Word { Shift(r[0 := r[0] != bit]) }

  function Feed(r: Word, bits: seq<bool>): Word
    decreases |bits|
  {
    if bits == [] then r else Feed(FeedBit(r, bits[0]), bits[1..])
  }

  function Bits(data: seq<Byte>): (s: seq<bool>)
    ensures |s| == 8 * |data|
  {
    if data == [] then [] else ByteBits(data[0]) + Bits(data[1..])
  }

  lemma ShiftLinear(a: Word, b: Word)
    ensures Shift(Xor(a, b)) == Xor(Shift(a), Shift(b))
  {}

  lemma ShiftZero(a: Word)
    ensures Shift(a) == Fill(false) <==> a == Fill(false)
  {
    if Shift(a) == Fill(false) {
      assert !Shift(a)[15];
      forall i | 0 <= i < 16 ensures !a[i] { if i > 0 { assert !Shift(a)[i-1]; } }
    }
  }

  lemma FeedBitTop(r: Word, w: Word)
    ensures Shift(Xor(r, w)) == Xor(FeedBit(r, w[0]), Left(w))
  {}

  lemma {:induction false} ShiftNZero(a: Word, n: nat)
    ensures ShiftN(a, n) == Fill(false) <==> a == Fill(false)
    decreases n
  {
    if n > 0 { ShiftZero(a); ShiftNZero(Shift(a), n - 1); }
  }

  lemma {:induction false} ShiftNLinear(a: Word, b: Word, n: nat)
    ensures ShiftN(Xor(a, b), n) == Xor(ShiftN(a, n), ShiftN(b, n))
    decreases n
  {
    if n > 0 { ShiftLinear(a, b); ShiftNLinear(Shift(a), Shift(b), n - 1); }
  }

  lemma {:induction false} FeedTop(r: Word, w: Word, k: nat)
    requires k <= 16
    ensures Xor(Feed(r, w[..k]), LeftN(w, k)) == ShiftN(Xor(r, w), k)
    decreases k
  {
    if k > 0 {
      FeedBitTop(r, w);
      assert Left(w)[..k - 1] == w[..k][1..];
      FeedTop(FeedBit(r, w[0]), Left(w), k - 1);
    }
  }

  lemma LeftNShifts(w: Word, k: nat)
    requires k <= 16
    ensures LeftN(w, k) == w[k..] + Fill(false)[..k]
    decreases k
  {
    if k > 0 {
      LeftNShifts(Left(w), k - 1);
      assert Fill(false)[..k] == [false] + Fill(false)[..k-1];
    }
  }

  lemma LeftNZero(w: Word)
    ensures LeftN(w, 16) == Fill(false)
  {
    LeftNShifts(w, 16);
  }

  lemma XorIdentity(a: Word)
    ensures Xor(a, Fill(false)) == a == Xor(Fill(false), a)
  {}

  lemma FeedByte(r: Word, b: Byte)
    ensures Feed(r, ByteBits(b)) == ShiftN(Xor(r, High(b)), 8)
  {
    FeedTop(r, High(b), 8);
    LeftNShifts(High(b), 8);
    assert LeftN(High(b), 8) == Fill(false);
    assert High(b)[..8] == ByteBits(b);
    XorIdentity(Feed(r, ByteBits(b)));
  }

  lemma FeedWord(r: Word, w: Word)
    ensures Feed(r, w) == ShiftN(Xor(r, w), 16)
  {
    FeedTop(r, w, 16);
    assert w[..16] == w;
    LeftNZero(w);
    XorIdentity(Feed(r, w));
  }

  lemma {:induction false} FeedConcat(r: Word, a: seq<bool>, b: seq<bool>)
    ensures Feed(r, a + b) == Feed(Feed(r, a), b)
    decreases |a|
  {
    if a == [] {
      assert a + b == b;
    } else {
      assert (a + b)[1..] == a[1..] + b;
      FeedConcat(FeedBit(r, a[0]), a[1..], b);
    }
  }

  lemma {:induction false} BitsConcat(a: seq<Byte>, b: seq<Byte>)
    ensures Bits(a + b) == Bits(a) + Bits(b)
  {
    if a == [] {
      assert a + b == b;
    } else {
      assert (a + b)[1..] == a[1..] + b;
      BitsConcat(a[1..], b);
    }
  }

  lemma {:induction false} ChecksumFeeds(r: Word, data: seq<Byte>)
    ensures Checksum(r, data) == Feed(r, Bits(data))
    decreases |data|
  {
    if data != [] {
      FeedByte(r, data[0]);
      FeedConcat(r, ByteBits(data[0]), Bits(data[1..]));
      ChecksumFeeds(Feed(r, ByteBits(data[0])), data[1..]);
    }
  }

  lemma XorZero(a: Word, b: Word)
    ensures Xor(a, b) == Fill(false) <==> a == b
  {
    if Xor(a, b) == Fill(false) {
      forall i | 0 <= i < 16 ensures a[i] == b[i] { assert !Xor(a, b)[i]; }
    }
  }

  /** The checksum field is right exactly when the body and the field together are a multiple of the generator. */
  lemma FieldMatches(body: seq<Byte>, hi: Byte, lo: Byte)
    ensures Checksum(Fill(true), body) == ByteBits(hi) + ByteBits(lo)
       <==> Feed(Fill(true), Bits(body + [hi, lo])) == Fill(false)
  {
    var c, w := Checksum(Fill(true), body), ByteBits(hi) + ByteBits(lo);
    BitsConcat(body, [hi, lo]);
    assert Bits([hi, lo]) == w by { assert [hi, lo][1..] == [lo]; assert [lo][1..] == []; }
    FeedConcat(Fill(true), Bits(body), w);
    ChecksumFeeds(Fill(true), body);
    FeedWord(c, w);
    ShiftNZero(Xor(c, w), 16);
    XorZero(c, w);
  }

  function Diff(a: seq<bool>, b: seq<bool>): (d: seq<bool>)
    requires |a| == |b|
    ensures |d| == |a|
    ensures forall i :: 0 <= i < |a| ==> d[i] == (a[i] != b[i])
  {
    seq(|a|, i requires 0 <= i < |a| => a[i] != b[i])
  }

  lemma {:induction false} FeedLinear(r: Word, s: Word, a: seq<bool>, b: seq<bool>)
    requires |a| == |b|
    ensures Feed(Xor(r, s), Diff(a, b)) == Xor(Feed(r, a), Feed(s, b))
    decreases |a|
  {
    if a != [] {
      var x, y := r[0 := r[0] != a[0]], s[0 := s[0] != b[0]];
      ShiftLinear(x, y);
      assert Diff(a, b)[1..] == Diff(a[1..], b[1..]);
      assert Xor(r, s)[0 := Xor(r, s)[0] != Diff(a, b)[0]] == Xor(x, y);
      FeedLinear(FeedBit(r, a[0]), FeedBit(s, b[0]), a[1..], b[1..]);
    }
  }

  predicate Clear(d: seq<bool>) { forall i :: 0 <= i < |d| ==> !d[i] }

  lemma {:induction false} FeedClear(r: Word, d: seq<bool>)
    requires Clear(d)
    ensures Feed(r, d) == ShiftN(r, |d|)
    decreases |d|
  {
    if d != [] {
      assert r[0 := r[0] != d[0]] == r;
      FeedClear(Shift(r), d[1..]);
    }
  }

  lemma WordLeavesRemainder(w: Word, tail: seq<bool>)
    requires w != Fill(false) && Clear(tail)
    ensures Feed(Fill(false), w + tail) != Fill(false)
  {
    FeedConcat(Fill(false), w, tail);
    FeedWord(Fill(false), w);
    XorIdentity(w);
    ShiftNZero(w, 16);
    FeedClear(ShiftN(w, 16), tail);
    ShiftNZero(ShiftN(w, 16), |tail|);
  }

  lemma BurstLeavesRemainder(d: seq<bool>, p: nat)
    requires p + 16 <= |d|
    requires Clear(d[..p]) && Clear(d[p + 16..]) && !Clear(d[p..p + 16])
    ensures Feed(Fill(false), d) != Fill(false)
  {
    var w: Word := d[p..p + 16];
    assert d == d[..p] + (w + d[p + 16..]);
    FeedConcat(Fill(false), d[..p], w + d[p + 16..]);
    FeedClear(Fill(false), d[..p]);
    ShiftNZero(Fill(false), p);
    assert w != Fill(false);
    WordLeavesRemainder(w, d[p + 16..]);
  }

  predicate Odd(s: seq<bool>) { if s == [] then false else s[0] != Odd(s[1..]) }

  lemma {:induction false} OddConcat(a: seq<bool>, b: seq<bool>)
    ensures Odd(a + b) == (Odd(a) != Odd(b))
  {
    if a == [] { assert a + b == b; }
    else { assert (a + b)[1..] == a[1..] + b; OddConcat(a[1..], b); }
  }

  lemma {:induction false} OddDiff(a: seq<bool>, b: seq<bool>)
    requires |a| == |b|
    ensures Odd(Diff(a, b)) == (Odd(a) != Odd(b))
  {
    if a != [] {
      assert Diff(a, b)[1..] == Diff(a[1..], b[1..]);
      OddDiff(a[1..], b[1..]);
    }
  }
  lemma {:induction false} OddClear(d: seq<bool>)
    requires Clear(d)
    ensures !Odd(d)
  { if d != [] { OddClear(d[1..]); } }

  lemma OddPoly() ensures Odd(Poly())
  {
    assert Poly() == Fill(false)[..3] + ([true] + (Fill(false)[..6] + ([true] + (Fill(false)[..4] + [true]))));
    OddClear(Fill(false)[..3]); OddClear(Fill(false)[..6]); OddClear(Fill(false)[..4]);
    OddConcat(Fill(false)[..4], [true]);
    OddConcat([true], Fill(false)[..4] + [true]);
    OddConcat(Fill(false)[..6], [true] + (Fill(false)[..4] + [true]));
    OddConcat([true], Fill(false)[..6] + ([true] + (Fill(false)[..4] + [true])));
    OddConcat(Fill(false)[..3], [true] + (Fill(false)[..6] + ([true] + (Fill(false)[..4] + [true]))));
  }

  lemma OddShift(r: Word)
    ensures Odd(Shift(r)) == Odd(r)
  {
    OddConcat(r[1..], [false]);
    OddPoly();
    OddDiff(Left(r), Poly());
    assert Xor(Left(r), Poly()) == Diff(Left(r), Poly());
  }

  lemma {:induction false} OddFeed(r: Word, bits: seq<bool>)
    ensures Odd(Feed(r, bits)) == (Odd(r) != Odd(bits))
    decreases |bits|
  {
    if bits != [] {
      var x := r[0 := r[0] != bits[0]];
      assert x[1..] == r[1..];
      OddShift(x);
      OddFeed(FeedBit(r, bits[0]), bits[1..]);
    }
  }

  // ---- which transmission errors the trailing checksum catches ----

  predicate FieldCorrect(d: seq<Byte>)
    requires |d| >= 2
  {
    Checksum(Fill(true), d[..|d| - 2]) == ByteBits(d[|d| - 2]) + ByteBits(d[|d| - 1])
  }

  lemma FieldCorrectIffDivides(d: seq<Byte>)
    requires |d| >= 2
    ensures FieldCorrect(d) <==> Feed(Fill(true), Bits(d)) == Fill(false)
  {
    FieldMatches(d[..|d| - 2], d[|d| - 2], d[|d| - 1]);
    LastTwo(d);
  }

  lemma LastTwo(d: seq<Byte>)
    requires |d| >= 2
    ensures d[..|d| - 2] + [d[|d| - 2], d[|d| - 1]] == d
  {
  }

  lemma ErrorLeavesRemainder(a: seq<bool>, b: seq<bool>)
    requires |a| == |b| && Feed(Fill(true), a) == Fill(false)
    ensures Feed(Fill(true), b) == Feed(Fill(false), Diff(a, b))
  {
    FeedLinear(Fill(true), Fill(true), a, b);
    XorZero(Fill(true), Fill(true));
    XorIdentity(Feed(Fill(true), b));
  }

  lemma BurstDivides(a: seq<bool>, b: seq<bool>, p: nat)
    requires |a| == |b| >= 16 && a != b && Feed(Fill(true), a) == Fill(false)
    requires forall i :: 0 <= i < |a| && a[i] != b[i] ==> p <= i < p + 16
    ensures Feed(Fill(true), b) != Fill(false)
  {
    var d := Diff(a, b);
    var q := if p + 16 <= |a| then p else |a| - 16;
    var i :| 0 <= i < |a| && a[i] != b[i];
    assert d[q..q + 16][i - q];
    var before, after := d[..q], d[q + 16..];
    forall k | 0 <= k < |before| ensures !before[k] { }
    forall k | 0 <= k < |after| ensures !after[k] { }
    BurstLeavesRemainder(d, q);
    ErrorLeavesRemainder(a, b);
  }

  lemma OddDivides(a: seq<bool>, b: seq<bool>)
    requires |a| == |b| && Feed(Fill(true), a) == Fill(false) && Odd(Diff(a, b))
    ensures Feed(Fill(true), b) != Fill(false)
  {
    OddFeed(Fill(false), Diff(a, b));
    OddClear(Fill(false));
    ErrorLeavesRemainder(a, b);
  }

  lemma {:induction false} BitsInjective(a: seq<Byte>, b: seq<Byte>)
    requires Bits(a) == Bits(b)
    ensures a == b
  {
    if a != [] {
      assert ByteBits(a[0]) == Bits(a)[..8] == Bits(b)[..8] == ByteBits(b[0]);
      assert Bits(a[1..]) == Bits(a)[8..] == Bits(b)[8..] == Bits(b[1..]);
      assert Pow2(8) == 256;
      BitsNatInverse(a[0], 8);
      BitsNatInverse(b[0], 8);
      BitsInjective(a[1..], b[1..]);
    }
  }

  /** Any change confined to sixteen consecutive bits is noticed. */
  lemma BurstCaught(sent: seq<Byte>, got: seq<Byte>, p: nat)
    requires |sent| == |got| >= 2 && FieldCorrect(sent) && sent != got
    requires forall i :: 0 <= i < 8 * |sent| && Bits(sent)[i] != Bits(got)[i] ==> p <= i < p + 16
    ensures !FieldCorrect(got)
  {
    FieldCorrectIffDivides(sent);
    FieldCorrectIffDivides(got);
    if Bits(sent) == Bits(got) { BitsInjective(sent, got); }
    BurstDivides(Bits(sent), Bits(got), p);
  }

  /** Any odd number of flipped bits, wherever they fall, is noticed: x + 1 divides the generator. */
  lemma OddErrorCaught(sent: seq<Byte>, got: seq<Byte>)
    requires |sent| == |got| >= 2 && FieldCorrect(sent)
    requires Odd(Diff(Bits(sent), Bits(got)))
    ensures !FieldCorrect(got)
  {
    FieldCorrectIffDivides(sent);
    FieldCorrectIffDivides(got);
    OddDivides(Bits(sent), Bits(got));
  }
}
