/** Selective repeat finishes: what each request round takes off the set of missing chunks. */
module Convergence {
  import opened Wire
  import opened Payload
  import opened Downlink
  import A = Assembler
  import C = Camera
  import S = SelectiveRepeat

  // ---- the ground ----

  /** The chunks of image id on file, for an image of `total`. */
  function Has(s: A.State, id: nat, total: nat): set<nat> {
    if id in s.images && s.images[id].chunks == total then s.images[id].parts.Keys else {}
  }

  /** The chunks of image id the ground still wants: none once it is done. */
  function Lacks(s: A.State, id: nat, total: nat): set<nat> {
    if (id, total) in s.done then {} else A.Span(0, total) - Has(s, id, total)
  }

  function PushedAll(s: A.State, cs: seq<Chunk>): A.State
    decreases |cs|
  {
    if cs == [] then s else PushedAll(A.Pushed(s, cs[0]), cs[1..])
  }

  predicate TrueOf(c: Chunk, id: nat, frames: map<nat, seq<Byte>>) {
    c.image == id && A.TruePiece(c, frames)
  }

  ghost predicate AllTrueOf(cs: seq<Chunk>, id: nat, frames: map<nat, seq<Byte>>) {
    forall k :: 0 <= k < |cs| ==> TrueOf(cs[k], id, frames)
  }

  lemma FullImage(img: A.Image, frames: map<nat, seq<Byte>>)
    requires A.TrueImage(img, frames) && A.Complete(img)
    ensures img.parts.Keys == A.Span(0, img.chunks)
  {
    assert img.parts.Keys <= A.Span(0, img.chunks) && |img.parts.Keys| == |img.parts|;
    A.Pigeonhole(img.parts.Keys, img.chunks);
  }

  lemma FiledAdds(s: A.State, c: Chunk, id: nat, frames: map<nat, seq<Byte>>)
    requires A.TrueState(s, frames) && TrueOf(c, id, frames)
    ensures var img := A.Filed(s, c);
      A.TrueImage(img, frames) && img.chunks == c.total && img.parts.Keys == Has(s, id, c.total) + {c.index}
  {
  }

  lemma PushShrinks(s: A.State, c: Chunk, id: nat, frames: map<nat, seq<Byte>>)
    requires A.TrueState(s, frames) && TrueOf(c, id, frames)
    ensures Lacks(A.Pushed(s, c), id, c.total) == Lacks(s, id, c.total) - {c.index}
  {
    if (id, c.total) !in s.done {
      FiledAdds(s, c, id, frames);
      if A.Complete(A.Filed(s, c)) {
        FullImage(A.Filed(s, c), frames);
        Completes(s, c, id);
      } else {
        Files(s, c, id);
      }
    }
  }

  lemma Completes(s: A.State, c: Chunk, id: nat)
    requires c.image == id && (id, c.total) !in s.done && A.Complete(A.Filed(s, c))
    ensures Lacks(A.Pushed(s, c), id, c.total) == {}
  {
    var done := A.Pushed(s, c).done;
    assert done[|done| - 1] == (id, c.total);
  }

  lemma Files(s: A.State, c: Chunk, id: nat)
    requires c.image == id && (id, c.total) !in s.done && !A.Complete(A.Filed(s, c))
    requires A.Filed(s, c).chunks == c.total
    ensures Lacks(A.Pushed(s, c), id, c.total) == A.Span(0, c.total) - A.Filed(s, c).parts.Keys
  {
    assert A.Pushed(s, c).images[id] == A.Filed(s, c);
  }

  /** Any list of true chunks of one image, in any order and with any repeats: the missing set never grows. */
  lemma {:induction false} ArrivalsShrink(s: A.State, cs: seq<Chunk>, id: nat, frames: map<nat, seq<Byte>>)
    requires A.TrueState(s, frames) && id in frames
    requires AllTrueOf(cs, id, frames)
    ensures A.TrueState(PushedAll(s, cs), frames)
    ensures Lacks(PushedAll(s, cs), id, Count(frames[id])) == Lacks(s, id, Count(frames[id])) - Indices(cs)
    decreases |cs|
  {
    if cs != [] {
      assert TrueOf(cs[0], id, frames);
      PushShrinks(s, cs[0], id, frames);
      A.PushKeepsTrue(s, cs[0], frames);
      ArrivalsShrink(A.Pushed(s, cs[0]), cs[1..], id, frames);
    }
  }

  // ---- the vehicle ----

  /** In DOWNLINK with the first pass over and the frame still in the FIFO. */
  predicate Parked(v: Vehicle, frame: seq<Byte>) {
    && C.Valid(v.cam) && v.active && v.chunks == 0 && v.total == Count(frame) <= MAX_CHUNKS
    && (v.cam.status == C.Ready || v.cam.status == C.Idle)
    && v.cam.frameBytes > 0 && C.Image(v.cam) == frame
    && v.count == |v.bits| && v.bits <= A.Span(0, v.total)
  }

  function Always(): nat -> bool { i => true }

  function ChunkAt(image: nat, total: nat, frame: seq<Byte>, i: nat): Chunk {
    Chunk(image, i, total, Piece(frame, i))
  }

  function First(image: nat, total: nat, bits: set<nat>, frame: seq<Byte>, i: nat): seq<Chunk> {
    if i in bits then [ChunkAt(image, total, frame, i)] else []
  }

  /** The chunks a sweep from i on sends. */
  function Wanted(image: nat, total: nat, bits: set<nat>, frame: seq<Byte>, i: nat): seq<Chunk>
    decreases total - i
  {
    if i >= total then []
    else First(image, total, bits, frame, i) + Wanted(image, total, bits, frame, i + 1)
  }

  lemma {:induction false} WantedIndices(image: nat, total: nat, bits: set<nat>, frame: seq<Byte>, i: nat)
    requires i <= total
    ensures Indices(Wanted(image, total, bits, frame, i)) == bits * A.Span(i, total)
    decreases total - i
  {
    if i == total {
      assert bits * A.Span(i, total) == {};
    } else {
      WantedIndices(image, total, bits, frame, i + 1);
      FirstIndex(image, total, bits, frame, i, Wanted(image, total, bits, frame, i + 1));
      SpanHead(bits, i, total);
    }
  }

  lemma FirstIndex(image: nat, total: nat, bits: set<nat>, frame: seq<Byte>, i: nat, rest: seq<Chunk>)
    ensures Indices(First(image, total, bits, frame, i) + rest) == (if i in bits then {i} else {}) + Indices(rest)
  {
    if i in bits {
      IndicesCons(ChunkAt(image, total, frame, i), rest);
    } else {
      assert [] + rest == rest;
    }
  }

  lemma SpanHead(bits: set<nat>, i: nat, n: nat)
    requires i < n
    ensures bits * A.Span(i, n) == (if i in bits then {i} else {}) + bits * A.Span(i + 1, n)
  {
  }

  /** A chunk already swept no longer matters to the rest of the sweep. */
  lemma {:induction false} WantedSkips(image: nat, total: nat, bits: set<nat>, left: set<nat>, frame: seq<Byte>, i: nat)
    requires forall k :: k >= i ==> (k in left <==> k in bits)
    ensures Wanted(image, total, left, frame, i) == Wanted(image, total, bits, frame, i)
    decreases total - i
  {
    if i < total { WantedSkips(image, total, bits, left, frame, i + 1); }
  }

  /** What a sweep of v from chunk i on sends. */
  function Out(v: Vehicle, frame: seq<Byte>, i: nat): seq<Chunk> { Wanted(v.image, v.total, v.bits, frame, i) }

  /** Chunk i of the frame is next under the read position. */
  predicate At(v: Vehicle, frame: seq<Byte>, i: nat) {
    && Parked(v, frame) && v.phase == Sweeping(i) && i <= v.total
    && v.cam.frameRead == Edge(frame, i) && (i < v.total ==> v.cam.status == C.Ready)
  }

  lemma StepReads(v: Vehicle, frame: seq<Byte>, i: nat)
    requires At(v, frame, i) && i < v.total
    ensures C.Taken(v.cam, CHUNK) == Piece(frame, i) != []
    ensures var c := C.ReadChunk(v.cam, CHUNK);
      && c.frameRead == Edge(frame, i + 1) && c.frameBytes == v.cam.frameBytes && C.Image(c) == frame
      && c.captures == v.cam.captures && c.status == if i + 1 < v.total then C.Ready else C.Idle
  {
    PieceRead(v.cam, i);
  }

  lemma StepSends(v: Vehicle, frame: seq<Byte>, i: nat)
    requires At(v, frame, i) && i < v.total
    ensures var r := SweepStep(v, true, true);
      && r == v.(cam := C.ReadChunk(v.cam, CHUNK), phase := Sweeping(i + 1), chunk := r.chunk, count := r.count,
                 bits := v.bits - {i}, sent := v.sent + First(v.image, v.total, v.bits, frame, i))
      && r.count == |r.bits|
  {
    StepReads(v, frame, i);
  }

  lemma StepLands(v: Vehicle, frame: seq<Byte>, i: nat) returns (r: Vehicle)
    requires At(v, frame, i) && i < v.total && v.bits <= A.Span(i, v.total)
    ensures r == SweepStep(v, true, true) && At(r, frame, i + 1)
    ensures r.total == v.total && r.bits <= A.Span(i + 1, v.total)
  {
    r := SweepStep(v, true, true);
    StepReads(v, frame, i);
    StepSends(v, frame, i);
  }

  lemma SweepGoesOn(v: Vehicle, frame: seq<Byte>, i: nat)
    requires At(v, frame, i) && i < v.total
    ensures Sweep(v, Always(), Always()) == Sweep(SweepStep(v, true, true), Always(), Always())
  {
    StepSends(v, frame, i);
  }

  /** r is v after an undisturbed sweep sent `out`. */
  predicate Swept(v: Vehicle, r: Vehicle, frame: seq<Byte>, out: seq<Chunk>) {
    && Parked(r, frame) && r.phase == Resting && r.image == v.image && r.queue == v.queue && r.bits == {}
    && r.cam.captures == v.cam.captures && r.seen == v.seen
    && r.sent == v.sent + out
  }

  lemma SweptMore(v: Vehicle, r: Vehicle, end: Vehicle, frame: seq<Byte>, head: seq<Chunk>, rest: seq<Chunk>)
    requires Swept(r, end, frame, rest) && r.image == v.image && r.queue == v.queue
    requires r.cam.captures == v.cam.captures && r.seen == v.seen && r.sent == v.sent + head
    ensures Swept(v, end, frame, head + rest)
  {
    assert v.sent + head + rest == v.sent + (head + rest);
  }

  lemma SweepFrom(v: Vehicle, r: Vehicle, end: Vehicle, frame: seq<Byte>, i: nat)
    requires At(v, frame, i) && i < v.total && r == SweepStep(v, true, true)
    requires Swept(r, end, frame, Out(r, frame, i + 1)) && end == Sweep(r, Always(), Always())
    ensures Swept(v, end, frame, Out(v, frame, i)) && end == Sweep(v, Always(), Always())
  {
    SweepGoesOn(v, frame, i);
    StepSends(v, frame, i);
    StepReads(v, frame, i);
    WantedSkips(v.image, v.total, v.bits, r.bits, frame, i + 1);
    SweptMore(v, r, end, frame, First(v.image, v.total, v.bits, frame, i), Out(r, frame, i + 1));
  }

  lemma SweepEnds(v: Vehicle, frame: seq<Byte>) returns (end: Vehicle)
    requires At(v, frame, v.total) && v.bits <= A.Span(v.total, v.total)
    ensures end == Sweep(v, Always(), Always()) && Swept(v, end, frame, Out(v, frame, v.total))
  {
    end := v.(phase := Resting);
  }

  /** An undisturbed sweep sends every marked chunk once, in order, with the frame's own bytes, and clears the marks. */
  lemma {:induction false} SweepSends(v: Vehicle, frame: seq<Byte>, i: nat) returns (end: Vehicle)
    requires At(v, frame, i) && v.bits <= A.Span(i, v.total)
    ensures end == Sweep(v, Always(), Always()) && Swept(v, end, frame, Out(v, frame, i))
    decreases v.total - i
  {
    if i == v.total {
      end := SweepEnds(v, frame);
    } else {
      var r := StepLands(v, frame, i);
      end := SweepSends(r, frame, i + 1);
      SweepFrom(v, r, end, frame, i);
    }
  }

  lemma {:induction false} WantedTrue(image: nat, total: nat, bits: set<nat>, frame: seq<Byte>, i: nat,
                                      frames: map<nat, seq<Byte>>)
    requires image in frames && frames[image] == frame && total == Count(frame)
    ensures AllTrueOf(Wanted(image, total, bits, frame, i), image, frames)
    decreases total - i
  {
    if i < total {
      WantedTrue(image, total, bits, frame, i + 1, frames);
      assert TrueOf(ChunkAt(image, total, frame, i), image, frames);
      assert AllTrueOf(First(image, total, bits, frame, i), image, frames);
      AllTrueConcat(First(image, total, bits, frame, i), Wanted(image, total, bits, frame, i + 1), image, frames);
    }
  }

  lemma AllTrueConcat(a: seq<Chunk>, b: seq<Chunk>, id: nat, frames: map<nat, seq<Byte>>)
    requires AllTrueOf(a, id, frames) && AllTrueOf(b, id, frames)
    ensures AllTrueOf(a + b, id, frames)
  {
  }

  // ---- a round: one request heard, one sweep, every chunk of it received ----

  function Request(v: Vehicle, s: A.State): Vehicle {
    match A.Pending(s)
    case None => v
    case Some(p) => EnqueueAll(v, p.0, Batch(p.1))
  }

  function Answer(v: Vehicle, s: A.State): (r: Vehicle)
    requires C.Valid(v.cam)
    ensures C.Valid(r.cam)
  {
    Serve(Drain(Request(v, s)), Always(), Always())
  }

  function Received(v: Vehicle, s: A.State): A.State
    requires C.Valid(v.cam)
  {
    var r := Answer(v, s);
    if |v.sent| <= |r.sent| then PushedAll(s, r.sent[|v.sent|..]) else s
  }

  lemma {:induction false} EnqueueFits(v: Vehicle, image: nat, ks: seq<nat>)
    requires |v.queue| + |ks| <= QUEUE_DEPTH
    ensures EnqueueAll(v, image, ks) == v.(queue := v.queue + seq(|ks|, i requires 0 <= i < |ks| => (image, ks[i])))
    decreases |ks|
  {
    if ks != [] {
      EnqueueFits(Enqueue(v, (image, ks[0])), image, ks[1..]);
    } else {
      assert EnqueueAll(v, image, ks) == v;
    }
  }

  /** A full queue takes nothing more: of the entries in order, as many go in as there is room for. */
  lemma {:induction false} EnqueueTakes(v: Vehicle, image: nat, ks: seq<nat>)
    requires |v.queue| <= 96
    ensures var n := if |v.queue| + |ks| <= 96 then |ks| else 96 - |v.queue|;
      EnqueueAll(v, image, ks) == v.(queue := v.queue + seq(n, i requires 0 <= i < n => (image, ks[i])))
    decreases |ks|
  {
    if |v.queue| + |ks| <= 96 {
      EnqueueFits(v, image, ks);
    } else if |v.queue| == 96 {
      EnqueueTakes(Enqueue(v, (image, ks[0])), image, ks[1..]);
    } else {
      EnqueueTakes(Enqueue(v, (image, ks[0])), image, ks[1..]);
    }
  }

  lemma NothingWanted(v: Vehicle, frame: seq<Byte>)
    requires v.bits == {}
    ensures Out(v, frame, 0) == []
  {
    WantedIndices(v.image, v.total, v.bits, frame, 0);
  }

  lemma ServeSends(v: Vehicle, frame: seq<Byte>)
    requires Parked(v, frame) && v.phase == Resting
    ensures Swept(v, Serve(v, Always(), Always()), frame, Out(v, frame, 0))
  {
    if v.count == 0 {
      assert |v.bits| == 0;
      NothingWanted(v, frame);
    } else {
      var b := BeginSweep(v);
      assert At(b, frame, 0);
      var end := SweepSends(b, frame, 0);
    }
  }

  /** Nothing queued, the camera's frame the one the id stands for, and the ground's store true to it. */
  predicate Settled(v: Vehicle, s: A.State, frames: map<nat, seq<Byte>>) {
    && v.image in frames && Parked(v, frames[v.image]) && v.phase == Resting && v.queue == []
    && (forall id :: id in frames ==> id <= v.image)
    && A.TrueState(s, frames)
  }

  function Elems(ks: seq<nat>): (s: set<nat>)
    ensures forall k :: k in s <==> k in ks
  {
    if ks == [] then {} else {ks[0]} + Elems(ks[1..])
  }

  predicate Rising(ks: seq<nat>) { forall i, j :: 0 <= i < j < |ks| ==> ks[i] < ks[j] }

  lemma RisingTail(ks: seq<nat>)
    requires Rising(ks) && ks != []
    ensures Rising(ks[1..]) && ks[0] !in ks[1..]
  {
  }

  lemma {:induction false} DistinctSize(ks: seq<nat>)
    requires Rising(ks)
    ensures |Elems(ks)| == |ks|
  {
    if ks != [] {
      RisingTail(ks);
      DistinctSize(ks[1..]);
    }
  }

  /** The chunks of the vehicle's image that the ground's next request names. */
  function Heard(v: Vehicle, s: A.State): set<nat> {
    match A.Pending(s)
    case None => {}
    case Some(p) => if p.0 == v.image then Elems(Batch(p.1)) else {}
  }

  lemma RequestQueues(v: Vehicle, s: A.State)
    requires v.queue == []
    ensures Request(v, s) == v.(queue := Request(v, s).queue)
    ensures forall k :: (v.image, k) in Request(v, s).queue <==> k in Heard(v, s)
  {
    var q := Request(v, s).queue;
    match A.Pending(s)
    case None =>
    case Some(p) =>
      var ks := Batch(p.1);
      EnqueueFits(v, p.0, ks);
      forall i | 0 <= i < |ks| ensures (p.0, ks[i]) in q { assert q[i] == (p.0, ks[i]); }
  }

  lemma HeardInRange(v: Vehicle, s: A.State, frames: map<nat, seq<Byte>>)
    requires Settled(v, s, frames)
    ensures Heard(v, s) <= A.Span(0, v.total)
  {
    match A.Pending(s)
    case None =>
    case Some(p) =>
      forall k | k in Batch(p.1) ensures k < s.images[p.0].chunks { assert k in p.1; }
  }

  lemma MarksAfterRequest(v: Vehicle, s: A.State, frames: map<nat, seq<Byte>>)
    requires Settled(v, s, frames)
    ensures var d := Drain(Request(v, s));
      Parked(d, frames[v.image]) && d.bits == v.bits + Heard(v, s) && d == v.(bits := d.bits, count := d.count)
  {
    RequestQueues(v, s);
    HeardInRange(v, s, frames);
    DrainMarks(Request(v, s));
  }

  /** What a loss-free round takes off the missing set: the marks already there and the chunks the request names. */
  lemma RoundShrinks(v: Vehicle, s: A.State, frames: map<nat, seq<Byte>>) returns (r: Vehicle, g: A.State)
    requires Settled(v, s, frames)
    ensures r == Answer(v, s) && g == Received(v, s)
    ensures Settled(r, g, frames) && r.bits == {} && r.image == v.image && r.total == v.total
    ensures Lacks(g, v.image, v.total) == Lacks(s, v.image, v.total) - (v.bits + Heard(v, s))
    ensures Collecting(s, v.image, v.total) ==> Collecting(g, v.image, v.total)
  {
    var frame := frames[v.image];
    var d := Drain(Request(v, s));
    r, g := Answer(v, s), Received(v, s);
    MarksAfterRequest(v, s, frames);
    ServeSends(d, frame);
    var out := Out(d, frame, 0);
    assert r.sent[|v.sent|..] == out;
    WantedIndices(d.image, d.total, d.bits, frame, 0);
    WantedTrue(d.image, d.total, d.bits, frame, 0, frames);
    ArrivalsShrink(s, out, v.image, frames);
    if Collecting(s, v.image, v.total) { ArrivalsCollect(s, out, v.image, frames); }
  }

  // ---- how many rounds ----

  /** The ground is collecting the vehicle's image, or has finished it. */
  predicate Collecting(s: A.State, id: nat, total: nat) {
    Lacks(s, id, total) != {} ==> id in s.images && s.images[id].chunks == total
  }

  lemma {:induction false} ArrivalsCollect(s: A.State, cs: seq<Chunk>, id: nat, frames: map<nat, seq<Byte>>)
    requires A.TrueState(s, frames) && id in frames && Collecting(s, id, Count(frames[id]))
    requires AllTrueOf(cs, id, frames)
    ensures Collecting(PushedAll(s, cs), id, Count(frames[id]))
    decreases |cs|
  {
    if cs != [] {
      var c := cs[0];
      assert TrueOf(c, id, frames);
      A.PushKeepsTrue(s, c, frames);
      PushCollects(s, c, id);
      ArrivalsCollect(A.Pushed(s, c), cs[1..], id, frames);
    }
  }

  lemma PushCollects(s: A.State, c: Chunk, id: nat)
    requires c.image == id && Collecting(s, id, c.total)
    ensures Collecting(A.Pushed(s, c), id, c.total)
  {
    if (id, c.total) !in s.done && A.Complete(A.Filed(s, c)) { Completes(s, c, id); }
  }

  function Min(a: nat, b: nat): nat { if a < b then a else b }

  lemma HeardIsBatch(v: Vehicle, s: A.State, frames: map<nat, seq<Byte>>) returns (m: seq<nat>)
    requires Settled(v, s, frames) && Collecting(s, v.image, v.total) && Lacks(s, v.image, v.total) != {}
    ensures Rising(m) && Lacks(s, v.image, v.total) == Elems(m) && Heard(v, s) == Elems(Batch(m))
  {
    m := A.Missing(s.images[v.image]);
    assert A.Newest(s.images.Keys) == v.image;
    LacksListed(s, v.image, v.total);
    assert A.Pending(s) == Some((v.image, m));
  }

  lemma LacksListed(s: A.State, id: nat, total: nat)
    requires Collecting(s, id, total) && Lacks(s, id, total) != {}
    ensures var m := A.Missing(s.images[id]); Rising(m) && Lacks(s, id, total) == Elems(m) && m != []
  {
    var m := A.Missing(s.images[id]);
    assert forall k :: k in Lacks(s, id, total) <==> k in m;
    assert m == [] ==> Elems(m) == {};
  }

  /** The request names the first 28 missing chunks of the vehicle's own image, or all of them if fewer. */
  lemma HeardSize(v: Vehicle, s: A.State, frames: map<nat, seq<Byte>>)
    requires Settled(v, s, frames) && Collecting(s, v.image, v.total)
    ensures var lacks := Lacks(s, v.image, v.total);
      |lacks - Heard(v, s)| == |lacks| - Min(REQUEST_MAX, |lacks|)
  {
    var lacks := Lacks(s, v.image, v.total);
    if lacks != {} {
      var m := HeardIsBatch(v, s, frames);
      BatchSize(m);
    }
  }

  lemma BatchSize(m: seq<nat>)
    requires Rising(m)
    ensures Elems(Batch(m)) <= Elems(m) && |Elems(m)| == |m|
    ensures |Elems(m) - Elems(Batch(m))| == |m| - Min(REQUEST_MAX, |m|)
  {
    DistinctSize(m);
    DistinctSize(Batch(m));
    assert forall k :: k in Batch(m) ==> k in m;
  }

  /** Between rounds, with the ground chasing the vehicle's image and nothing marked. */
  predicate Chasing(v: Vehicle, s: A.State, frames: map<nat, seq<Byte>>) {
    Settled(v, s, frames) && Collecting(s, v.image, v.total) && v.bits == {}
  }

  /** How many chunks of the vehicle's image the ground still wants. */
  function Missing(v: Vehicle, s: A.State): nat { |Lacks(s, v.image, v.total)| }

  /** A loss-free round takes exactly min(28, missing) chunks off. */
  lemma RoundTakesBatch(v: Vehicle, s: A.State, frames: map<nat, seq<Byte>>) returns (r: Vehicle, g: A.State)
    requires Chasing(v, s, frames)
    ensures r == Answer(v, s) && g == Received(v, s) && Chasing(r, g, frames)
    ensures Missing(r, g) == Missing(v, s) - Min(REQUEST_MAX, Missing(v, s))
  {
    r, g := RoundShrinks(v, s, frames);
    HeardSize(v, s, frames);
    assert v.bits + Heard(v, s) == Heard(v, s);
  }

  /** Both ends between rounds. */
  datatype Link = Link(v: Vehicle, s: A.State)

  function Round(l: Link): Link {
    if C.Valid(l.v.cam) then Link(Answer(l.v, l.s), Received(l.v, l.s)) else l
  }

  function Repeat<T>(step: T -> T, x: T, n: nat): T
    decreases n
  {
    if n == 0 then x else Repeat(step, step(x), n - 1)
  }

  /** A step that takes a batch off a count whenever it can, repeated. */
  lemma {:induction false} BatchesAddUp<T(!new)>(step: T -> T, good: T -> bool, left: T -> nat, x: T, n: nat)
    requires good(x)
    requires forall y {:trigger step(y)} :: good(y) ==>
      good(step(y)) && left(step(y)) == left(y) - Min(REQUEST_MAX, left(y))
    ensures good(Repeat(step, x, n))
    ensures left(Repeat(step, x, n)) == if REQUEST_MAX * n < left(x) then left(x) - REQUEST_MAX * n else 0
    decreases n
  {
    if n > 0 { BatchesAddUp(step, good, left, step(x), n - 1); }
  }

  lemma LinkTakesBatch(l: Link, frames: map<nat, seq<Byte>>)
    requires Chasing(l.v, l.s, frames)
    ensures var r := Round(l);
      Chasing(r.v, r.s, frames) && Missing(r.v, r.s) == Missing(l.v, l.s) - Min(REQUEST_MAX, Missing(l.v, l.s))
  {
    var v, s := RoundTakesBatch(l.v, l.s, frames);
  }

  /** So ceil(missing / 28) rounds, and no fewer, leave nothing missing. */
  lemma Converges(l: Link, frames: map<nat, seq<Byte>>, n: nat)
    requires Chasing(l.v, l.s, frames)
    ensures var r := Repeat(Round, l, n);
      Missing(r.v, r.s) == if REQUEST_MAX * n < Missing(l.v, l.s) then Missing(l.v, l.s) - REQUEST_MAX * n else 0
  {
    var good: Link -> bool := (y: Link) => Chasing(y.v, y.s, frames);
    var left: Link -> nat := (y: Link) => Missing(y.v, y.s);
    forall y: Link | good(y) ensures good(Round(y)) && left(Round(y)) == left(y) - Min(REQUEST_MAX, left(y)) {
      LinkTakesBatch(y, frames);
    }
    BatchesAddUp(Round, good, left, l, n);
  }

  /** The images a list of arrivals completes. */
  function Yields(s: A.State, cs: seq<Chunk>): seq<A.Image>
    decreases |cs|
  {
    if cs == [] then []
    else
      var rest := Yields(A.Pushed(s, cs[0]), cs[1..]);
      match A.Yield(s, cs[0]) case None => rest case Some(img) => [img] + rest
  }

  lemma NotYet(s: A.State, c: Chunk, id: nat, frames: map<nat, seq<Byte>>)
    requires A.TrueState(s, frames) && TrueOf(c, id, frames)
    requires (id, c.total) !in s.done && A.Yield(s, c).None?
    ensures Lacks(A.Pushed(s, c), id, c.total) != {}
  {
    var img := A.Filed(s, c);
    FiledAdds(s, c, id, frames);
    Files(s, c, id);
    assert |img.parts.Keys| == |img.parts|;
    assert img.parts.Keys != A.Span(0, c.total);
  }

  /** When the last missing chunk arrives the store hands over the image, and it is the frame. */
  lemma {:induction false} LastChunkYields(s: A.State, cs: seq<Chunk>, id: nat, frames: map<nat, seq<Byte>>)
    requires A.TrueState(s, frames) && id in frames
    requires AllTrueOf(cs, id, frames)
    requires Lacks(s, id, Count(frames[id])) != {} && Lacks(PushedAll(s, cs), id, Count(frames[id])) == {}
    ensures exists img :: img in Yields(s, cs) && img.id == id && A.Data(img) == frames[id]
    decreases |cs|
  {
    var c, next := cs[0], A.Pushed(s, cs[0]);
    assert TrueOf(c, id, frames);
    A.PushKeepsTrue(s, c, frames);
    if A.Yield(s, c).Some? {
      assert Yields(s, cs)[0] == A.Yield(s, c).value;
    } else {
      NotYet(s, c, id, frames);
      LastChunkYields(next, cs[1..], id, frames);
      var img :| img in Yields(next, cs[1..]) && img.id == id && A.Data(img) == frames[id];
      assert img in Yields(s, cs);
    }
  }

  // ---- from any parked state to the image handed over ----

  /** What a round puts on the links. */
  function Sent(l: Link): seq<Chunk> {
    if C.Valid(l.v.cam) && |l.v.sent| <= |Answer(l.v, l.s).sent| then Answer(l.v, l.s).sent[|l.v.sent|..] else []
  }

  /** The ground is handed the vehicle's frame, whole, in this round. */
  ghost predicate Handed(l: Link, frames: map<nat, seq<Byte>>) {
    exists img :: img in Yields(l.s, Sent(l)) && img.id == l.v.image
      && l.v.image in frames && A.Data(img) == frames[l.v.image]
  }

  /** Parked with the ground collecting the vehicle's image; a sweep cut short may have left marks behind. */
  predicate Owing(l: Link, frames: map<nat, seq<Byte>>) {
    Settled(l.v, l.s, frames) && Collecting(l.s, l.v.image, l.v.total)
  }

  lemma RoundIsTrue(l: Link, frames: map<nat, seq<Byte>>)
    requires Settled(l.v, l.s, frames)
    ensures AllTrueOf(Sent(l), l.v.image, frames) && Round(l).s == PushedAll(l.s, Sent(l))
  {
    var d := Drain(Request(l.v, l.s));
    var frame := frames[l.v.image];
    MarksAfterRequest(l.v, l.s, frames);
    ServeSends(d, frame);
    WantedTrue(d.image, d.total, d.bits, frame, 0, frames);
    assert Sent(l) == Out(d, frame, 0);
  }

  lemma {:induction false} SmallerSet(a: set<nat>, b: set<nat>)
    requires a <= b
    ensures |a| <= |b|
  {
    assert b == a + (b - a);
  }

  /** A loss-free round from there takes at least a full request off, or all that is missing, and leads to another. */
  lemma RoundAdvances(l: Link, frames: map<nat, seq<Byte>>)
    requires Owing(l, frames)
    ensures var r := Round(l);
      && Owing(r, frames) && r.v.image == l.v.image
      && Missing(r.v, r.s) <= Missing(l.v, l.s) - Min(REQUEST_MAX, Missing(l.v, l.s))
  {
    var v, s := RoundShrinks(l.v, l.s, frames);
    HeardSize(l.v, l.s, frames);
    var lacks := Lacks(l.s, l.v.image, l.v.total);
    SmallerSet(lacks - (l.v.bits + Heard(l.v, l.s)), lacks - Heard(l.v, l.s));
  }

  lemma LastRoundHands(l: Link, frames: map<nat, seq<Byte>>)
    requires Owing(l, frames) && Missing(l.v, l.s) > 0 && Missing(Round(l).v, Round(l).s) == 0
    ensures Handed(l, frames)
  {
    var v, s := RoundShrinks(l.v, l.s, frames);
    RoundIsTrue(l, frames);
    LastChunkYields(l.s, Sent(l), l.v.image, frames);
  }

  lemma RoundDoesBoth(l: Link, frames: map<nat, seq<Byte>>)
    requires Owing(l, frames)
    ensures Owing(Round(l), frames)
    ensures Missing(Round(l).v, Round(l).s) <= Missing(l.v, l.s) - Min(REQUEST_MAX, Missing(l.v, l.s))
    ensures Missing(l.v, l.s) > 0 && Missing(Round(l).v, Round(l).s) == 0 ==> Handed(l, frames)
  {
    RoundAdvances(l, frames);
    if Missing(l.v, l.s) > 0 && Missing(Round(l).v, Round(l).s) == 0 { LastRoundHands(l, frames); }
  }

  /** A step that takes at least a batch off, repeated: the count runs out, and the step where it does hands over. */
  lemma {:induction false} RunsOut<T(!new)>(
      step: T -> T, good: T -> bool, left: T -> nat, handed: T -> bool, x: T, n: nat) returns (k: nat)
    requires good(x) && 0 < left(x) <= REQUEST_MAX * n
    requires forall y {:trigger step(y)} :: good(y) ==>
      && good(step(y)) && left(step(y)) <= left(y) - Min(REQUEST_MAX, left(y))
      && (left(y) > 0 && left(step(y)) == 0 ==> handed(y))
    ensures k < n && handed(Repeat(step, x, k))
    decreases n
  {
    var y := step(x);
    if left(y) == 0 {
      k := 0;
    } else {
      var j := RunsOut(step, good, left, handed, y, n - 1);
      k := j + 1;
    }
  }

  /**
   * From every parked state with the image incomplete, marks left over or not: within ceil(missing / 28) loss-free
   * rounds the ground is handed the image, and it is the frame.
   */
  lemma Finishes(l: Link, frames: map<nat, seq<Byte>>, n: nat) returns (k: nat)
    requires Owing(l, frames) && 0 < Missing(l.v, l.s) <= REQUEST_MAX * n
    ensures k < n && Handed(Repeat(Round, l, k), frames)
  {
    ghost var good: Link -> bool := (y: Link) => Owing(y, frames);
    ghost var left: Link -> nat := (y: Link) => Missing(y.v, y.s);
    ghost var handed: Link -> bool := (y: Link) => Handed(y, frames);
    forall y: Link | good(y)
      ensures good(Round(y)) && left(Round(y)) <= left(y) - Min(REQUEST_MAX, left(y))
        && (left(y) > 0 && left(Round(y)) == 0 ==> handed(y))
    {
      RoundDoesBoth(y, frames);
    }
    k := RunsOut(Round, good, left, handed, l, n);
  }

  lemma StillWanted(s: A.State, id: nat, frames: map<nat, seq<Byte>>)
    requires A.TrueState(s, frames) && id in s.images
    ensures Lacks(s, id, s.images[id].chunks) != {}
  {
    var img := s.images[id];
    assert img.parts.Keys <= A.Span(0, img.chunks) && |img.parts.Keys| == |img.parts|;
    assert img.parts.Keys != A.Span(0, img.chunks);
  }

  /**
   * Every run that meets the premise and parks in DOWNLINK on an image the ground holds some but not all of: within
   * ceil(missing / 28) loss-free rounds the ground is handed that image, byte for byte.
   */
  lemma RunsFinish(up: bool, acts: seq<S.Action>, n: nat) returns (l: Link, k: nat)
    requires S.Follows(S.Start(up), acts, S.FULL)
    requires var w := S.After(S.Start(up), acts, S.FULL);
      && w.v.phase == Resting && w.v.active && w.v.chunks == 0 && w.v.queue == [] && S.Held(w)
      && w.v.image in w.ground.images && Missing(w.v, w.ground) <= REQUEST_MAX * n
    ensures var w := S.After(S.Start(up), acts, S.FULL);
      l == Link(w.v, w.ground) && k < n && Handed(Repeat(Round, l, k), w.frames)
  {
    S.RunKeepsInv(S.Start(up), acts, S.FULL);
    var w := S.After(S.Start(up), acts, S.FULL);
    l := ParkedOwes(w);
    k := Finishes(l, w.frames, n);
  }

  lemma ParkedOwes(w: S.World) returns (l: Link)
    requires S.Inv(w) && S.InTable(w) && w.v.phase == Resting && w.v.active && w.v.chunks == 0 && w.v.queue == []
    requires S.Held(w) && w.v.image in w.ground.images
    ensures l == Link(w.v, w.ground) && Owing(l, w.frames) && Missing(w.v, w.ground) > 0
  {
    l := Link(w.v, w.ground);
    StillWanted(w.ground, w.v.image, w.frames);
    assert S.Frame(w) != [] by { assert S.Held(w); }
  }
}
