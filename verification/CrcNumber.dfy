/** The checksum as the number the code computes (common/protocol/frame.cpp), and where its bits and bytes go. */
module CrcNumber {
  import opened Wire
  import opened Crc
  import F = Frame

  /** Place i of the k bits of n, counted from the top, is worth 2 to the k - 1 - i. */
  lemma {:induction false} NatBitsAt(n: nat, k: nat, i: nat)
    requires i < k
    ensures NatBits(n, k)[i] <==> n / Pow2(k - 1 - i) % 2 == 1
    decreases k
  {
    if i < k - 1 {
      NatBitsAt(n / 2, k - 1, i);
      HalfThenDivide(n, Pow2(k - 2 - i));
    }
  }

  lemma HalfThenDivide(n: nat, p: nat)
    requires p > 0
    ensures n / 2 / p == n / (2 * p)
  {
    var q := n / (2 * p);
    var r := n - q * (2 * p);
    assert n / 2 == q * p + r / 2;
    Apart(n / 2 / p - q, p);
    assert (n / 2 / p - q) * p == r / 2 - n / 2 % p;
  }

  lemma Apart(d: int, p: int)
    requires p >= 0
    ensures d == 0 || d * p >= p || d * p <= -p
  {
    if d > 0 { AtLeastOnce(d, p); }
    if d < 0 { AtLeastOnce(-d, p); }
  }

  lemma AtLeastOnce(d: int, p: int)
    requires d >= 1 && p >= 0
    ensures d * p >= p
  {
  }

  // ---- the register as a number ----

  /** Exclusive or, place by place. */
  function XorNat(a: nat, b: nat): nat
    decreases a + b
  {
    if a == 0 && b == 0 then 0 else 2 * XorNat(a / 2, b / 2) + if a % 2 == b % 2 then 0 else 1
  }

  /** One place up; a bit that falls out of the top brings the generator in. */
  function Double(r: nat): nat { if r >= 0x8000 then XorNat(2 * r - 0x10000, 0x1021) else 2 * r }

  function Doubled(r: nat, n: nat): nat
    decreases n, r
  {
    if n == 0 then r else Doubled(Double(r), n - 1)
  }

  /** crc16 on numbers: each byte goes into the top half, then eight places up. */
  function Number(r: nat, data: seq<Byte>): nat
    decreases |data|
  {
    if data == [] then r else Number(Doubled(XorNat(r, 256 * (data[0] as nat)), 8), data[1..])
  }

  function Bit(b: bool): nat { if b then 1 else 0 }

  /** What a row of bits is worth. */
  function Value(s: seq<bool>): nat {
    if s == [] then 0 else 2 * Value(s[..|s| - 1]) + Bit(s[|s| - 1])
  }

  lemma {:induction false} BitsNatIsValue(s: seq<bool>)
    ensures BitsNat(s) == Value(s)
  {
    if s != [] { BitsNatIsValue(s[..|s| - 1]); }
  }

  lemma {:induction false} Halves(a: seq<bool>, b: seq<bool>)
    ensures Value(a + b) == Pow2(|b|) * Value(a) + Value(b)
    decreases |b|
  {
    if b == [] {
      assert a + b == a;
    } else {
      var n := |b| - 1;
      Halves(a, b[..n]);
      assert (a + b)[..|a| + n] == a + b[..n];
      assert 2 * (Pow2(n) * Value(a)) == Pow2(n + 1) * Value(a);
    }
  }

  lemma Halves2(a: nat, x: nat)
    requires x < 2
    ensures (2 * a + x) / 2 == a && (2 * a + x) % 2 == x
  {
  }

  lemma XorStep(a: nat, b: nat, x: nat, y: nat)
    requires x < 2 && y < 2
    ensures XorNat(2 * a + x, 2 * b + y) == 2 * XorNat(a, b) + if x == y then 0 else 1
  {
    Halves2(a, x);
    Halves2(b, y);
  }

  lemma {:induction false} XorIsXor(a: seq<bool>, b: seq<bool>, x: seq<bool>)
    requires |a| == |b| == |x| && forall i :: 0 <= i < |x| ==> x[i] == (a[i] != b[i])
    ensures Value(x) == XorNat(Value(a), Value(b))
    decreases |x|
  {
    if x != [] {
      var n := |x| - 1;
      XorIsXor(a[..n], b[..n], x[..n]);
      XorStep(Value(a[..n]), Value(b[..n]), Bit(a[n]), Bit(b[n]));
    }
  }

  lemma {:induction false} TopBit(s: seq<bool>)
    requires s != []
    ensures Value(s) == Bit(s[0]) * Pow2(|s| - 1) + Value(s[1..])
  {
    var n := |s| - 1;
    if n > 0 {
      TopBit(s[..n]);
      assert s[..n][1..] == s[1..][..n - 1];
    }
  }

  lemma {:induction false} ValueBound(s: seq<bool>)
    ensures Value(s) < Pow2(|s|)
  {
    if s != [] { ValueBound(s[..|s| - 1]); }
  }

  lemma Powers()
    ensures Pow2(0) == 1 && Pow2(1) == 2 && Pow2(2) == 4 && Pow2(3) == 8
    ensures Pow2(4) == 16 && Pow2(5) == 32 && Pow2(6) == 64 && Pow2(7) == 128
    ensures Pow2(8) == 256 && Pow2(9) == 512 && Pow2(10) == 1024 && Pow2(11) == 2048
    ensures Pow2(12) == 4096 && Pow2(13) == 8192 && Pow2(14) == 16384 && Pow2(15) == 32768
  {
  }

  lemma LeftDoubles(r: Word)
    ensures Value(Left(r)) == 2 * Value(r) - (if r[0] then 0x10000 else 0)
    ensures r[0] <==> Value(r) >= 0x8000
  {
    Powers();
    TopBit(r);
    ValueBound(r[1..]);
    assert Left(r)[..15] == r[1..];
  }

  lemma PolyIs1021()
    ensures Value(Poly()) == 0x1021
  {
    var p := Poly();
    assert p == p[..4] + (p[4..11] + p[11..]);
    Halves(p[..4], p[4..11] + p[11..]);
    Halves(p[4..11], p[11..]);
    OneAtTheEnd(p[..4]);
    OneAtTheEnd(p[4..11]);
    OneAtTheEnd(p[11..]);
    assert Pow2(5) == 32 && Pow2(12) == 4096;
  }

  lemma {:induction false} NoBits(s: seq<bool>)
    requires Clear(s)
    ensures Value(s) == 0
  {
    if s != [] { NoBits(s[..|s| - 1]); }
  }

  lemma OneAtTheEnd(s: seq<bool>)
    requires s != [] && s[|s| - 1] && forall i :: 0 <= i < |s| - 1 ==> !s[i]
    ensures Value(s) == 1
  {
    NoBits(s[..|s| - 1]);
  }

  lemma ShiftIsDouble(r: Word)
    ensures Value(Shift(r)) == Double(Value(r))
  {
    LeftDoubles(r);
    if r[0] {
      PolyIs1021();
      XorIsXor(Left(r), Poly(), Shift(r));
    }
  }

  lemma {:induction false} ShiftNIsDoubled(r: Word, n: nat)
    ensures Value(ShiftN(r, n)) == Doubled(Value(r), n)
    decreases n
  {
    if n > 0 {
      ShiftIsDouble(r);
      ShiftNIsDoubled(Shift(r), n - 1);
    }
  }

  lemma TwiceTheProduct(p: nat, q: nat, x: nat)
    requires q == 2 * p
    ensures q * x == 2 * (p * x)
  {
  }

  lemma {:induction false} Padded(s: seq<bool>, n: nat)
    ensures Value(s + seq(n, i => false)) == Pow2(n) * Value(s)
  {
    var z := seq(n, i => false);
    if n == 0 {
      assert s + z == s;
    } else {
      Padded(s, n - 1);
      assert (s + z)[..|s| + n - 1] == s + seq(n - 1, i => false);
      TwiceTheProduct(Pow2(n - 1), Pow2(n), Value(s));
    }
  }

  lemma ByteValue(b: Byte)
    ensures Value(ByteBits(b)) == b
  {
    Powers();
    BitsNatInverse(b, 8);
    BitsNatIsValue(ByteBits(b));
  }

  lemma HighIsTop(b: Byte)
    ensures Value(High(b)) == 256 * (b as nat)
  {
    Powers();
    ByteValue(b);
    Padded(ByteBits(b), 8);
  }

  lemma {:induction false} ChecksumValue(r: Word, data: seq<Byte>)
    ensures Value(Checksum(r, data)) == Number(Value(r), data)
    decreases |data|
  {
    if data != [] {
      var x := Xor(r, High(data[0]));
      HighIsTop(data[0]);
      XorIsXor(r, High(data[0]), x);
      ShiftNIsDoubled(x, 8);
      ChecksumValue(ShiftN(x, 8), data[1..]);
    }
  }

  lemma {:induction false} AllBits(s: seq<bool>)
    requires forall i :: 0 <= i < |s| ==> s[i]
    ensures Value(s) + 1 == Pow2(|s|)
  {
    if s != [] { AllBits(s[..|s| - 1]); }
  }

  lemma PresetIsOnes()
    ensures Value(Fill(true)) == 0xFFFF
  {
    AllBits(Fill(true));
    Sixteen();
  }

  /** For all data the bit register ends as the number the code's sixteen-bit register ends as. */
  lemma ChecksumIsNumber(data: seq<Byte>)
    ensures BitsNat(Checksum(Fill(true), data)) == Number(0xFFFF, data)
  {
    PresetIsOnes();
    ChecksumValue(Fill(true), data);
    BitsNatIsValue(Checksum(Fill(true), data));
  }

  // ---- on the wire ----

  lemma FieldBytes(c: Word)
    ensures F.Field(c) == [BitsNat(c) / 256, BitsNat(c) % 256]
  {
    var f := F.Field(c);
    BitsNatIsValue(c);
    EightIs256();
    Halves(ByteBits(f[0]), ByteBits(f[1]));
    ByteValue(f[0]);
    ByteValue(f[1]);
    HighLow(BitsNat(c), f[0], f[1]);
  }

  lemma EightIs256()
    ensures Pow2(8) == 256
  {
    Powers();
  }

  lemma HighLow(n: nat, hi: Byte, lo: Byte)
    requires n == 256 * (hi as nat) + lo as nat
    ensures n / 256 == hi as nat && n % 256 == lo as nat
  {
  }

  /** A frame's bytes: the two sync bytes, id, length, payload, then the checksum's number, high byte first. */
  lemma FrameBytes(m: F.Message)
    requires F.Framable(m)
    ensures var n := Number(0xFFFF, [m.id, |m.payload|] + m.payload);
      n < 0x10000 && F.Encoded(m) == [0xAA, 0x55, m.id, |m.payload|] + m.payload + [n / 256, n % 256]
  {
    var c := Checksum(Fill(true), F.Body(m));
    ChecksumIsNumber(F.Body(m));
    FieldBytes(c);
    Sixteen();
    assert F.Encoded(m) == [0xAA, 0x55] + ([m.id, |m.payload|] + m.payload) + F.Field(c);
  }

  lemma Sixteen()
    ensures Pow2(16) == 0x10000
  {
    Powers();
  }
}
