/** Image chunks and chunk requests on the wire (common/protocol/msg.hpp, tools/ground/frames.py). */
module Payload {
  import opened Wire

  const CHUNK := 56
  const REQUEST_MAX := 28

  /** payload_data_t, its data trimmed to the valid length. */
  datatype Chunk = Chunk(image: nat, index: nat, total: nat, data: seq<Byte>)

  // ---- how a frame is cut into chunks ----

  function Count(frame: seq<Byte>): nat { (|frame| + CHUNK - 1) / CHUNK }

  function Edge(frame: seq<Byte>, k: nat): nat {
    if CHUNK * k < |frame| then CHUNK * k else |frame|
  }

  function Piece(frame: seq<Byte>, k: nat): seq<Byte> { frame[Edge(frame, k)..Edge(frame, k + 1)] }

  predicate FitsWire(c: Chunk) {
    c.image < 0x10000 && c.index < 0x10000 && c.total < 0x10000 && |c.data| <= CHUNK
  }

  /** Which chunks a list of them names. */
  function Indices(cs: seq<Chunk>): set<nat> {
    if cs == [] then {} else {cs[0].index} + Indices(cs[1..])
  }

  lemma IndicesCons(c: Chunk, rest: seq<Chunk>)
    ensures Indices([c] + rest) == {c.index} + Indices(rest)
  {
    assert ([c] + rest)[1..] == rest;
  }

  lemma {:induction false} IndicesConcat(a: seq<Chunk>, b: seq<Chunk>)
    ensures Indices(a + b) == Indices(a) + Indices(b)
  {
    if a == [] {
      assert a + b == b;
    } else {
      assert (a + b)[1..] == a[1..] + b;
      IndicesConcat(a[1..], b);
    }
  }

  // ---- struct packing, little-endian ----

  function Short(n: nat): (s: seq<Byte>)
    ensures |s| == 2
  {
    [n % 256, n / 256 % 256]
  }

  function ShortAt(p: seq<Byte>, i: nat): nat
    requires i + 2 <= |p|
  {
    (p[i] as nat) + 256 * (p[i + 1] as nat)
  }

  function Blank(n: nat): (s: seq<Byte>)
    ensures |s| == n
  {
    seq(n, i => 0)
  }

  function PackChunk(c: Chunk): (p: seq<Byte>)
    requires |c.data| <= CHUNK
    ensures |p| == 64
  {
    Short(c.image) + Short(c.index) + Short(c.total) + [|c.data|, 0] + c.data + Blank(CHUNK - |c.data|)
  }

  function UnpackChunk(p: seq<Byte>): Chunk
    requires |p| >= 8
  {
    var end := if 8 + p[6] < |p| then 8 + p[6] else |p|;
    Chunk(ShortAt(p, 0), ShortAt(p, 2), ShortAt(p, 4), p[8..end])
  }

  lemma ChunkRoundTrip(c: Chunk)
    requires FitsWire(c)
    ensures UnpackChunk(PackChunk(c)) == c
  {
    var p := PackChunk(c);
    var head := Short(c.image) + Short(c.index) + Short(c.total) + [|c.data|, 0];
    assert p == head + c.data + Blank(CHUNK - |c.data|);
    assert p[8..8 + |c.data|] == c.data;
    assert p[..8] == head;
    assert forall i :: 0 <= i < 8 ==> p[i] == head[i];
  }

  /**
   * The 64 bytes on the wire: image, index and total low byte first, the count of valid bytes, a zero, the data, and
   * zeros after it.
   */
  lemma ChunkBytes(c: Chunk)
    requires FitsWire(c)
    ensures var p := PackChunk(c);
      && p[0] as int + 256 * p[1] as int == c.image && p[2] as int + 256 * p[3] as int == c.index
      && p[4] as int + 256 * p[5] as int == c.total
      && p[6] == |c.data| && p[7] == 0
      && (forall i :: 0 <= i < |c.data| ==> p[8 + i] == c.data[i])
      && (forall i :: 8 + |c.data| <= i < 64 ==> p[i] == 0)
  {
    var p := PackChunk(c);
    var head := Short(c.image) + Short(c.index) + Short(c.total) + [|c.data|, 0];
    assert p == head + c.data + Blank(CHUNK - |c.data|);
    assert forall i :: 0 <= i < 8 ==> p[i] == head[i];
  }

  function Shorts(ns: seq<nat>): (s: seq<Byte>)
    ensures |s| == 2 * |ns|
  {
    if ns == [] then [] else Short(ns[0]) + Shorts(ns[1..])
  }

  lemma {:induction false} ShortsAt(ns: seq<nat>, i: nat)
    requires i < |ns| && ns[i] < 0x10000
    ensures ShortAt(Shorts(ns), 2 * i) == ns[i]
  {
    if i > 0 {
      ShortsAt(ns[1..], i - 1);
      assert Shorts(ns)[2 * i] == Shorts(ns[1..])[2 * (i - 1)];
      assert Shorts(ns)[2 * i + 1] == Shorts(ns[1..])[2 * (i - 1) + 1];
    }
  }

  function Batch(missing: seq<nat>): (b: seq<nat>)
    ensures |b| <= REQUEST_MAX && b <= missing
  {
    if |missing| > REQUEST_MAX then missing[..REQUEST_MAX] else missing
  }

  /** The ground's packing of chunk_request_t: unused entries are zero. */
  function PackRequest(image: nat, chunks: seq<nat>): (p: seq<Byte>)
    ensures |p| == 59
  {
    var b := Batch(chunks);
    Short(image) + [|b|] + Shorts(b) + Blank(2 * (REQUEST_MAX - |b|))
  }

  /** chunk_request_t as the vehicle copies it out of a frame: `count` is whatever the sender put there. */
  datatype Request = Request(image: nat, count: Byte, chunks: seq<nat>)

  function UnpackRequest(p: seq<Byte>): Request
    requires |p| == 59
  {
    Request(ShortAt(p, 0), p[2], seq(REQUEST_MAX, i requires 0 <= i < REQUEST_MAX => ShortAt(p, 3 + 2 * i)))
  }

  /** The entries the vehicle acts on: an overlong count is clamped to the array. */
  function Named(r: Request): seq<nat>
    requires |r.chunks| == REQUEST_MAX
  {
    r.chunks[..if r.count > REQUEST_MAX then REQUEST_MAX else r.count]
  }

  lemma RequestRoundTrip(image: nat, chunks: seq<nat>)
    requires image < 0x10000 && forall i :: 0 <= i < |chunks| ==> chunks[i] < 0x10000
    ensures UnpackRequest(PackRequest(image, chunks)).image == image
    ensures Named(UnpackRequest(PackRequest(image, chunks))) == Batch(chunks)
  {
    var p, b := PackRequest(image, chunks), Batch(chunks);
    var r := UnpackRequest(p);
    forall i | 0 <= i < |b| ensures r.chunks[i] == b[i] {
      ShortsAt(b, i);
      assert p[3 + 2 * i] == Shorts(b)[2 * i] && p[3 + 2 * i + 1] == Shorts(b)[2 * i + 1];
    }
    assert p[..3] == Short(image) + [|b|];
    assert p[0] == Short(image)[0] && p[1] == Short(image)[1] && p[2] == |b|;
  }

  /** The 59 bytes of a request: the image low byte first, how many are named, then each, and zeros after them. */
  lemma RequestBytes(image: nat, chunks: seq<nat>)
    requires image < 0x10000 && forall i :: 0 <= i < |chunks| ==> chunks[i] < 0x10000
    ensures var p, n := PackRequest(image, chunks), if |chunks| > 28 then 28 else |chunks|;
      && p[0] as int + 256 * p[1] as int == image && p[2] == n
      && (forall i :: 0 <= i < n ==> p[3 + 2 * i] as int + 256 * p[4 + 2 * i] as int == chunks[i])
      && (forall i :: 3 + 2 * n <= i < 59 ==> p[i] == 0)
  {
    var p, b := PackRequest(image, chunks), Batch(chunks);
    forall i | 0 <= i < |b| ensures p[3 + 2 * i] as int + 256 * p[4 + 2 * i] as int == chunks[i] {
      ShortsAt(b, i);
      assert p[3 + 2 * i] == Shorts(b)[2 * i] && p[4 + 2 * i] == Shorts(b)[2 * i + 1];
    }
    assert p[..3] == Short(image) + [|b|];
    assert p[0] == Short(image)[0] && p[1] == Short(image)[1] && p[2] == |b|;
    assert p[3 + 2 * |b|..] == Blank(2 * (REQUEST_MAX - |b|));
  }
}
