/** The published check value of the checksum, worked out on numbers byte by byte (fsw/test/test_comms.cpp). */
module CheckValue {
  import opened Wire
  import opened Crc
  import opened CrcNumber

  /** One byte of the number's loop. */
  function Clocked(r: nat, b: Byte): nat { Doubled(XorNat(r, 256 * (b as nat)), 8) }

  lemma {:induction false} NumberSnoc(r: nat, data: seq<Byte>, b: Byte)
    ensures Number(r, data + [b]) == Clocked(Number(r, data), b)
    decreases |data|
  {
    if data == [] {
      assert [] + [b] == [b] && [b][1..] == [];
    } else {
      assert (data + [b])[1..] == data[1..] + [b];
      NumberSnoc(Clocked(r, data[0]), data[1..], b);
    }
  }

  lemma {:induction false} XorZero(x: nat)
    ensures XorNat(x, 0) == x
  {
    if x > 0 { XorZero(x / 2); }
  }

  lemma OnePlaceUp(x: nat, y: nat, z: nat, u: nat, v: nat, a: nat, b: nat, c: nat, d: nat)
    requires u == 2 * a + c && v == 2 * b + d && c < 2 && d < 2
    requires XorNat(x + a, y + b) == z + XorNat(a, b)
    ensures XorNat(2 * x + u, 2 * y + v) == 2 * z + XorNat(u, v)
  {
    XorStep(x + a, y + b, c, d);
    XorStep(a, b, c, d);
    assert 2 * (x + a) + c == 2 * x + u && 2 * (y + b) + d == 2 * y + v;
  }

  lemma WholeAgain(u: nat)
    ensures 2 * (u / 2) + u % 2 == u
  {
  }

  /** k places up, nothing coming in. */
  function Raised(x: nat, k: nat): nat { if k == 0 then x else 2 * Raised(x, k - 1) }

  predicate Fits(u: nat, k: nat) { u < Raised(1, k) }

  lemma HalfFits(u: nat, k: nat)
    requires k > 0 && Fits(u, k)
    ensures Fits(u / 2, k - 1)
  {
  }

  /** The low k places and the rest do not meet. */
  lemma {:induction false} XorAppend(x: nat, y: nat, u: nat, v: nat, k: nat)
    requires Fits(u, k) && Fits(v, k)
    ensures XorNat(Raised(x, k) + u, Raised(y, k) + v) == Raised(XorNat(x, y), k) + XorNat(u, v)
    decreases k
  {
    if k > 0 {
      HalfFits(u, k);
      HalfFits(v, k);
      XorAppend(x, y, u / 2, v / 2, k - 1);
      WholeAgain(u);
      WholeAgain(v);
      OnePlaceUp(Raised(x, k - 1), Raised(y, k - 1), Raised(XorNat(x, y), k - 1), u, v, u / 2, v / 2, u % 2, v % 2);
    } else {
      assert u == v == 0;
    }
  }

  lemma RaisedIs(x: nat)
    ensures Raised(x, 5) == 32 * x && Raised(x, 6) == 64 * x && Raised(x, 8) == 256 * x
  {
    assert Raised(x, 1) == 2 * x;
    assert Raised(x, 2) == 4 * x;
    assert Raised(x, 3) == 8 * x;
    assert Raised(x, 4) == 16 * x;
    assert Raised(x, 5) == 32 * x;
    assert Raised(x, 6) == 64 * x;
    assert Raised(x, 7) == 128 * x;
  }

  /** One place up; where the generator comes in, with bits 12 and 5 of what it is added to picked out. */
  datatype Place = Flat | Turn(top: nat, p: nat, mid: nat, q: nat, low: nat)

  predicate Goes(r: nat, u: Place, next: nat) {
    match u
    case Flat => r < 0x8000 && next == 2 * r
    case Turn(a, p, m, q, l) =>
      && p < 2 && m < 64 && q < 2 && l < 16
      && 2 * r == 0x10000 + 8192 * a + 4096 * p + 64 * m + 32 * q + 2 * l
      && next == 8192 * a + 4096 * (1 - p) + 64 * m + 32 * (1 - q) + 2 * l + 1
  }

  lemma AppendFive(x: nat, y: nat, u: nat, v: nat)
    requires u < 32 && v < 32
    ensures XorNat(32 * x + u, 32 * y + v) == 32 * XorNat(x, y) + XorNat(u, v)
  {
    RaisedIs(x);
    RaisedIs(y);
    RaisedIs(1);
    RaisedIs(XorNat(x, y));
    XorAppend(x, y, u, v, 5);
  }

  lemma LowPlaces(h: nat, y: nat, l: nat)
    requires l < 16
    ensures XorNat(32 * h + 2 * l, 32 * y + 1) == 32 * XorNat(h, y) + 2 * l + 1
  {
    AppendFive(h, y, 2 * l, 1);
    EvenAndOne(l);
  }

  lemma EvenAndOne(l: nat)
    ensures XorNat(2 * l, 1) == 2 * l + 1
  {
    XorStep(l, 0, 0, 1);
    XorZero(l);
  }

  lemma MiddlePlace(h: nat, q: nat)
    requires q < 2
    ensures XorNat(2 * h + q, 0x81) == 2 * XorNat(h, 0x40) + 1 - q
  {
    XorStep(h, 0x40, q, 1);
  }

  lemma TopPlaces(a: nat, p: nat, m: nat)
    requires p < 2 && m < 64
    ensures XorNat(64 * (2 * a + p) + m, 0x40) == 64 * (2 * a + 1 - p) + m
  {
    RaisedIs(2 * a + p);
    RaisedIs(1);
    RaisedIs(2 * a + 1 - p);
    XorStep(a, 0, p, 1);
    XorZero(a);
    XorAppend(2 * a + p, 1, m, 0, 6);
    XorZero(m);
  }

  lemma TurnDoubles(r: nat, u: Place, next: nat)
    requires Goes(r, u, next) && u.Turn?
    ensures Double(r) == next
  {
    var h := 64 * (2 * u.top + u.p) + u.mid;
    LowPlaces(2 * h + u.q, 0x81, u.low);
    MiddlePlace(h, u.q);
    TopPlaces(u.top, u.p, u.mid);
    assert 2 * r - 0x10000 == 32 * (2 * h + u.q) + 2 * u.low;
  }

  /** Places up one after another, and what each leaves. */
  datatype Climb = Top | Up(u: Place, next: nat, rest: Climb)

  function Length(c: Climb): nat { if c == Top then 0 else 1 + Length(c.rest) }

  predicate Climbs(r: nat, c: Climb, end: nat)
    decreases c
  {
    match c
    case Top => r == end
    case Up(u, next, rest) => Goes(r, u, next) && Climbs(next, rest, end)
  }

  lemma {:induction false} Climbed(r: nat, c: Climb, end: nat)
    requires Climbs(r, c, end)
    ensures Doubled(r, Length(c)) == end
    decreases c
  {
    if c.Up? {
      OnePlace(r, c.u, c.next);
      Climbed(c.next, c.rest, end);
    }
  }

  lemma OnePlace(r: nat, u: Place, next: nat)
    requires Goes(r, u, next)
    ensures Double(r) == next
  {
    if u.Turn? { TurnDoubles(r, u, next); }
  }

  /** A byte of the loop written out: the register's top half, the byte's bits, and the eight places up. */
  datatype Row = Row(top: seq<bool>, byte: seq<bool>, rest: nat, sum: nat, climb: Climb)

  predicate Entered(r: nat, b: nat, w: Row) {
    && |w.top| == |w.byte| == 8 && w.rest < 256
    && r == 256 * Worth(w.top) + w.rest && b == Worth(w.byte)
    && w.sum == 256 * Worth(Differing(w.top, w.byte)) + w.rest
  }

  function Worth(s: seq<bool>): nat
    requires |s| == 8
  {
    128 * Bit(s[0]) + 64 * Bit(s[1]) + 32 * Bit(s[2]) + 16 * Bit(s[3])
    + 8 * Bit(s[4]) + 4 * Bit(s[5]) + 2 * Bit(s[6]) + Bit(s[7])
  }

  function Differing(s: seq<bool>, t: seq<bool>): (d: seq<bool>)
    requires |s| == |t| == 8
    ensures |d| == 8 && forall i :: 0 <= i < 8 ==> d[i] == (s[i] != t[i])
  {
    seq(8, i requires 0 <= i < 8 => s[i] != t[i])
  }

  lemma WorthIsValue(s: seq<bool>)
    requires |s| == 8
    ensures Worth(s) == Value(s) < 256
  {
    Powers();
    ValueBound(s);
    TopBit(s);
    TopBit(s[1..]);
    TopBit(s[2..]);
    TopBit(s[3..]);
    TopBit(s[4..]);
    TopBit(s[5..]);
    TopBit(s[6..]);
    TopBit(s[7..]);
    assert forall k | 0 <= k < 8 :: s[k..][1..] == s[k + 1..];
  }

  lemma TopHalf(s: seq<bool>, t: seq<bool>)
    requires |s| == |t| == 8
    ensures XorNat(Worth(s), Worth(t)) == Worth(Differing(s, t)) && Worth(s) < 256 && Worth(t) < 256
  {
    WorthIsValue(s);
    WorthIsValue(t);
    WorthIsValue(Differing(s, t));
    XorIsXor(s, t, Differing(s, t));
  }

  lemma InTheTop(x: nat, y: nat, low: nat)
    requires low < 256
    ensures XorNat(256 * x + low, 256 * y) == 256 * XorNat(x, y) + low
  {
    RaisedIs(x);
    RaisedIs(y);
    RaisedIs(1);
    RaisedIs(XorNat(x, y));
    XorAppend(x, y, low, 0, 8);
    XorZero(low);
  }

  lemma BitsIn(s: seq<bool>, t: seq<bool>, low: nat, r: nat, c: nat, x: nat)
    requires |s| == |t| == 8 && low < 256 && r == 256 * Worth(s) + low && c == 256 * Worth(t)
    requires x == 256 * Worth(Differing(s, t)) + low
    ensures XorNat(r, c) == x
  {
    TopHalf(s, t);
    InTheTop(Worth(s), Worth(t), low);
  }

  lemma WorkedOut(r: nat, b: Byte, w: Row, next: nat)
    requires Entered(r, b as nat, w) && Climbs(w.sum, w.climb, next) && Length(w.climb) == 8
    ensures Clocked(r, b) == next
  {
    BitsIn(w.top, w.byte, w.rest, r, 256 * (b as nat), w.sum);
    Climbed(w.sum, w.climb, next);
  }

  lemma Appended(prefix: seq<Byte>, held: nat, b: Byte, next: nat, w: Row) returns (longer: seq<Byte>)
    requires Number(0xFFFF, prefix) == held
    requires Entered(held, b as nat, w) && Climbs(w.sum, w.climb, next) && Length(w.climb) == 8
    ensures longer == prefix + [b] && Number(0xFFFF, longer) == next
  {
    longer := prefix + [b];
    WorkedOut(held, b, w, next);
    NumberSnoc(0xFFFF, prefix, b);
  }

  lemma TakenOne() returns (p: seq<Byte>)
    ensures p == [0x31] && Number(0xFFFF, p) == 0xC782
  {
    p := [];
    p := Appended(p, 0xFFFF, 0x31, 0xC782, Row(
      [true, true, true, true, true, true, true, true],
      [false, false, true, true, false, false, false, true],
      255, 0xCEFF,
      Up(Turn(4, 1, 55, 1, 15), 0x8DDF, Up(Turn(0, 1, 46, 1, 15), 0x0B9F,
      Up(Flat, 0x173E, Up(Flat, 0x2E7C,
      Up(Flat, 0x5CF8, Up(Flat, 0xB9F0,
      Up(Turn(3, 1, 15, 1, 0), 0x63C1, Up(Flat, 0xC782, Top))))))))));
  }

  lemma TakenTwo() returns (p: seq<Byte>)
    ensures p == [0x31, 0x32] && Number(0xFFFF, p) == 0x3DBA
  {
    p := TakenOne();
    p := Appended(p, 0xC782, 0x32, 0x3DBA, Row(
      [true, true, false, false, false, true, true, true],
      [false, false, true, true, false, false, true, false],
      130, 0xF582,
      Up(Turn(7, 0, 44, 0, 2), 0xFB25, Up(Turn(7, 1, 25, 0, 5), 0xE66B,
      Up(Turn(6, 0, 51, 0, 11), 0xDCF7, Up(Turn(5, 1, 39, 1, 7), 0xA9CF,
      Up(Turn(2, 1, 14, 0, 15), 0x43BF, Up(Flat, 0x877E,
      Up(Turn(0, 0, 59, 1, 14), 0x1EDD, Up(Flat, 0x3DBA, Top))))))))));
  }

  lemma TakenThree() returns (p: seq<Byte>)
    ensures p == [0x31, 0x32, 0x33] && Number(0xFFFF, p) == 0x5BCE
  {
    p := TakenTwo();
    p := Appended(p, 0x3DBA, 0x33, 0x5BCE, Row(
      [false, false, true, true, true, true, false, true],
      [false, false, true, true, false, false, true, true],
      186, 0x0EBA,
      Up(Flat, 0x1D74, Up(Flat, 0x3AE8,
      Up(Flat, 0x75D0, Up(Flat, 0xEBA0,
      Up(Turn(6, 1, 29, 0, 0), 0xC761, Up(Turn(4, 0, 59, 0, 1), 0x9EE3,
      Up(Turn(1, 1, 55, 0, 3), 0x2DE7, Up(Flat, 0x5BCE, Top))))))))));
  }

  lemma TakenFour() returns (p: seq<Byte>)
    ensures p == [0x31, 0x32, 0x33, 0x34] && Number(0xFFFF, p) == 0x5349
  {
    p := TakenThree();
    p := Appended(p, 0x5BCE, 0x34, 0x5349, Row(
      [false, true, false, true, true, false, true, true],
      [false, false, true, true, false, true, false, false],
      206, 0x6FCE,
      Up(Flat, 0xDF9C, Up(Turn(5, 1, 60, 1, 12), 0xAF19,
      Up(Turn(2, 1, 56, 1, 9), 0x4E13, Up(Flat, 0x9C26,
      Up(Turn(1, 1, 33, 0, 6), 0x286D, Up(Flat, 0x50DA,
      Up(Flat, 0xA1B4, Up(Turn(2, 0, 13, 1, 4), 0x5349, Top))))))))));
  }

  lemma TakenFive() returns (p: seq<Byte>)
    ensures p == [0x31, 0x32, 0x33, 0x34, 0x35] && Number(0xFFFF, p) == 0x4560
  {
    p := TakenFour();
    p := Appended(p, 0x5349, 0x35, 0x4560, Row(
      [false, true, false, true, false, false, true, true],
      [false, false, true, true, false, true, false, true],
      73, 0x6649,
      Up(Flat, 0xCC92, Up(Turn(4, 1, 36, 1, 2), 0x8905,
      Up(Turn(0, 1, 8, 0, 5), 0x022B, Up(Flat, 0x0456,
      Up(Flat, 0x08AC, Up(Flat, 0x1158,
      Up(Flat, 0x22B0, Up(Flat, 0x4560, Top))))))))));
  }

  lemma TakenSix() returns (p: seq<Byte>)
    ensures p == [0x31, 0x32, 0x33, 0x34, 0x35, 0x36] && Number(0xFFFF, p) == 0x2EF4
  {
    p := TakenFive();
    p := Appended(p, 0x4560, 0x36, 0x2EF4, Row(
      [false, true, false, false, false, true, false, true],
      [false, false, true, true, false, true, true, false],
      96, 0x7360,
      Up(Flat, 0xE6C0, Up(Turn(6, 0, 54, 0, 0), 0xDDA1,
      Up(Turn(5, 1, 45, 0, 1), 0xAB63, Up(Turn(2, 1, 27, 0, 3), 0x46E7,
      Up(Flat, 0x8DCE, Up(Turn(0, 1, 46, 0, 14), 0x0BBD,
      Up(Flat, 0x177A, Up(Flat, 0x2EF4, Top))))))))));
  }

  lemma TakenSeven() returns (p: seq<Byte>)
    ensures p == [0x31, 0x32, 0x33, 0x34, 0x35, 0x36, 0x37] && Number(0xFFFF, p) == 0x7718
  {
    p := TakenSix();
    p := Appended(p, 0x2EF4, 0x37, 0x7718, Row(
      [false, false, true, false, true, true, true, false],
      [false, false, true, true, false, true, true, true],
      244, 0x19F4,
      Up(Flat, 0x33E8, Up(Flat, 0x67D0,
      Up(Flat, 0xCFA0, Up(Turn(4, 1, 61, 0, 0), 0x8F61,
      Up(Turn(0, 1, 59, 0, 1), 0x0EE3, Up(Flat, 0x1DC6,
      Up(Flat, 0x3B8C, Up(Flat, 0x7718, Top))))))))));
  }

  lemma TakenEight() returns (p: seq<Byte>)
    ensures p == [0x31, 0x32, 0x33, 0x34, 0x35, 0x36, 0x37, 0x38] && Number(0xFFFF, p) == 0xA12B
  {
    p := TakenSeven();
    p := Appended(p, 0x7718, 0x38, 0xA12B, Row(
      [false, true, true, true, false, true, true, true],
      [false, false, true, true, true, false, false, false],
      24, 0x4F18,
      Up(Flat, 0x9E30, Up(Turn(1, 1, 49, 1, 0), 0x2C41,
      Up(Flat, 0x5882, Up(Flat, 0xB104,
      Up(Turn(3, 0, 8, 0, 4), 0x7229, Up(Flat, 0xE452,
      Up(Turn(6, 0, 34, 1, 2), 0xD885, Up(Turn(5, 1, 4, 0, 5), 0xA12B, Top))))))))));
  }

  lemma TakenNine() returns (p: seq<Byte>)
    ensures p == [0x31, 0x32, 0x33, 0x34, 0x35, 0x36, 0x37, 0x38, 0x39] && Number(0xFFFF, p) == 0x29B1
  {
    p := TakenEight();
    p := Appended(p, 0xA12B, 0x39, 0x29B1, Row(
      [true, false, true, false, false, false, false, true],
      [false, false, true, true, true, false, false, true],
      43, 0x982B,
      Up(Turn(1, 1, 1, 0, 11), 0x2077, Up(Flat, 0x40EE,
      Up(Flat, 0x81DC, Up(Turn(0, 0, 14, 1, 12), 0x1399,
      Up(Flat, 0x2732, Up(Flat, 0x4E64,
      Up(Flat, 0x9CC8, Up(Turn(1, 1, 38, 0, 8), 0x29B1, Top))))))))));
  }

  /** The check value: the nine digits give 0x29B1. */
  lemma CheckValue(data: seq<Byte>)
    requires data == [0x31, 0x32, 0x33, 0x34, 0x35, 0x36, 0x37, 0x38, 0x39]
    ensures BitsNat(Checksum(Fill(true), data)) == 0x29B1
  {
    var p := TakenNine();
    ChecksumIsNumber(p);
  }
}
