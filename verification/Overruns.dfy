/** Runs of the image downlink that miss one premise each, and what then goes wrong. */
module Overruns {
  import opened Wire
  import opened Payload
  import opened Downlink
  import opened SelectiveRepeat
  import A = Assembler
  import C = Camera

  // ---- building runs one action at a time ----

  /** Some run from power-up, meeting p at every action, ends here. */
  ghost predicate Reachable(w: World, p: Premise) {
    exists acts :: Follows(Start(true), acts, p) && After(Start(true), acts, p) == w
  }

  lemma {:induction false} OneMore(w: World, acts: seq<Action>, a: Action, p: Premise)
    requires C.Valid(w.v.cam) && Follows(w, acts, p)
    requires var r := After(w, acts, p); C.Valid(r.v.cam) && Possible(r, a) && Meets(r, a, p)
    ensures Follows(w, acts + [a], p) && After(w, acts + [a], p) == Do(After(w, acts, p), a)
    decreases |acts|
  {
    if acts == [] {
      assert [] + [a] == [a] && [a][1..] == [];
    } else {
      assert (acts + [a])[1..] == acts[1..] + [a];
      OneMore(Do(w, acts[0]), acts[1..], a, p);
    }
  }

  lemma StartReachable(p: Premise)
    ensures Reachable(Start(true), p)
  {
    assert Follows(Start(true), [], p);
  }

  lemma Extend(w: World, a: Action, p: Premise) returns (r: World)
    requires Reachable(w, p) && C.Valid(w.v.cam) && Possible(w, a) && Meets(w, a, p)
    ensures r == Do(w, a) && Reachable(r, p) && C.Valid(r.v.cam)
  {
    var acts :| Follows(Start(true), acts, p) && After(Start(true), acts, p) == w;
    OneMore(Start(true), acts, a, p);
    r := Do(w, a);
    assert Follows(Start(true), acts + [a], p);
  }

  // ---- opening an image ----

  /** A frame the camera keeps whole: it ends at its first end-of-image marker. */
  predicate Whole(shot: seq<Byte>) { 0 < |shot| <= C.FIFO_MAX && C.JpegLength(shot) == |shot| }

  function CamWith(shot: seq<Byte>, captures: nat): C.Cam {
    C.Cam(true, C.Ready, shot, 0, |shot|, 0, captures, 0)
  }

  /** In DOWNLINK with the size of the first capture read and not yet latched. */
  function Sized(shot: seq<Byte>): World {
    World(Vehicle(CamWith(shot, 1), true, Measured(|shot|), 0, 0, 0, 0, 0, {}, 0, [], []),
          shot, 1, map[], {}, A.EMPTY, [])
  }

  lemma Captures(w: World, shot: seq<Byte>, p: Premise) returns (r: World)
    requires Reachable(w, p) && C.Valid(w.v.cam) && w.v.cam.configured && w.v.cam.status != C.Capturing
    requires Whole(shot)
    ensures r == w.(v := w.v.(cam := CamWith(shot, w.v.cam.captures + 1))) && Reachable(r, p) && C.Valid(r.v.cam)
  {
    var a := Extend(w, StartCapture(0), p);
    r := Extend(a, PollCapture(0, Some(shot)), p);
  }

  /** A new frame is found ready, and its size read. */
  lemma FindsNew(w: World, p: Premise) returns (r: World)
    requires Reachable(w, p) && C.Valid(w.v.cam) && w.v.phase == Resting && w.v.active
    requires w.v.cam.status == C.Ready && w.v.chunks == 0 && w.v.cam.captures != w.v.seen
    ensures r == w.(v := w.v.(phase := Measuring)) && Reachable(r, p)
  {
    var a := Extend(w, LookReady, p);
    r := Extend(a, LookCount, p);
  }

  lemma SizesIt(w: World, p: Premise) returns (r: World)
    requires Reachable(w, p) && C.Valid(w.v.cam) && w.v.phase == Measuring && C.FrameBytes(w.v.cam) > 0
    ensures Reachable(r, p) && r.frames == w.frames && r.asked == w.asked && r.ground == w.ground && r.saved == w.saved
    ensures r.v == w.v.(phase := Measured(C.FrameBytes(w.v.cam)))
    ensures r.shot == C.Image(w.v.cam) && r.shotAt == w.v.cam.captures
  {
    r := Extend(w, ReadSize, p);
  }

  lemma ReachDownlink(shot: seq<Byte>, p: Premise) returns (r: World)
    requires Whole(shot)
    ensures Reachable(r, p) && r == Start(true).(v := Start(true).v.(cam := CamWith(shot, 1), active := true))
  {
    StartReachable(p);
    var a := Captures(Start(true), shot, p);
    r := Extend(a, SetActive(true), p);
  }

  lemma ReachSized(shot: seq<Byte>, p: Premise)
    requires Whole(shot)
    ensures Reachable(Sized(shot), p) && C.Valid(Sized(shot).v.cam)
  {
    var a := ReachDownlink(shot, p);
    var b := FindsNew(a, p);
    assert C.Image(b.v.cam) == shot;
    var c := SizesIt(b, p);
    assert c == Sized(shot);
  }

  // ---- two torn images ----

  const SHOT_A: seq<Byte> := Blank(56) + [0xFF, 0xD9]
  const SHOT_B: seq<Byte> := [1, 0xFF, 0xD9]
  const SHOT_C: seq<Byte> := Blank(117) + [1, 0xFF, 0xD9]

  lemma Shots()
    ensures Whole(SHOT_A) && Whole(SHOT_B) && Whole(SHOT_C)
  {
    assert C.EndsAt(SHOT_A, 58) && forall m: nat :: m < 58 ==> !C.EndsAt(SHOT_A, m);
    assert C.EndsAt(SHOT_B, 3) && forall m: nat :: m < 3 ==> !C.EndsAt(SHOT_B, m);
    assert C.EndsAt(SHOT_C, 120) && forall m: nat :: m < 120 ==> !C.EndsAt(SHOT_C, m);
  }

  /** The ground has saved an image that is not the frame its id was given out for. */
  ghost predicate Torn(w: World) {
    exists i :: 0 <= i < |w.saved| && w.saved[i].id in w.frames && A.Data(w.saved[i]) != w.frames[w.saved[i].id]
  }

  /** Two chunks that arrive complete an image of their own bytes, whatever the id was given out for. */
  lemma Delivers(w: World, joined: seq<Byte>, p: Premise) returns (r: World)
    requires Reachable(w, p) && C.Valid(w.v.cam) && w.ground == A.EMPTY && w.saved == []
    requires Count(joined) == 2 && 1 in w.frames && w.frames[1] != joined
    requires Chunk(1, 0, 2, Piece(joined, 0)) in w.v.sent && Chunk(1, 1, 2, Piece(joined, 1)) in w.v.sent
    ensures Reachable(r, p) && r.frames == w.frames && Torn(r)
    ensures |r.saved| == 1 && r.saved[0].id == 1 && A.Data(r.saved[0]) == joined
  {
    var head, tail := Chunk(1, 0, 2, Piece(joined, 0)), Chunk(1, 1, 2, Piece(joined, 1));
    var a := Extend(w, ChunkArrives(head), p);
    r := Extend(a, ChunkArrives(tail), p);
    var img := JoinsTwo(joined);
    assert r.saved == [img];
    assert A.Data(r.saved[0]) == joined;
  }

  lemma JoinsTwo(joined: seq<Byte>) returns (img: A.Image)
    requires Count(joined) == 2
    ensures var (head, tail) := (Chunk(1, 0, 2, Piece(joined, 0)), Chunk(1, 1, 2, Piece(joined, 1)));
      A.Yield(A.EMPTY, head) == None && A.Yield(A.Pushed(A.EMPTY, head), tail) == Some(img)
    ensures img.id == 1 && A.Data(img) == joined
  {
    var head, tail := Chunk(1, 0, 2, Piece(joined, 0)), Chunk(1, 1, 2, Piece(joined, 1));
    var s := A.Pushed(A.EMPTY, head);
    assert s.images[1].parts == map[0 := head.data];
    img := A.Filed(s, tail);
    assert img.parts == map[0 := head.data, 1 := tail.data];
    A.CompleteIsWhole(img, map[1 := joined]);
  }

  lemma Latches(w: World, p: Premise) returns (r: World)
    requires Reachable(w, p) && C.Valid(w.v.cam) && w.v.phase.Measured?
    requires (p.steady ==> w.v.cam.captures == w.shotAt) && (p.fits ==> w.v.phase.size <= TABLE_BYTES)
    ensures r == w.(v := Latch(w.v), frames := w.frames[w.v.image + 1 := w.shot]) && Reachable(r, p)
  {
    r := Extend(w, LatchCount, p);
  }

  lemma ReadsOn(w: World, p: Premise) returns (r: World)
    requires Reachable(w, p) && C.Valid(w.v.cam) && w.v.phase == Reading
    requires p.current ==> w.v.cam.captures == w.v.seen
    ensures r == w.(v := ReadAndSend(w.v)) && Reachable(r, p) && C.Valid(r.v.cam)
  {
    r := Extend(w, ReadPass, p);
  }

  lemma FirstRead(w: World, p: Premise) returns (r: World)
    requires Reachable(w, p) && C.Valid(w.v.cam) && w.v.phase.Measured?
    requires (p.steady ==> w.v.cam.captures == w.shotAt) && (p.fits ==> w.v.phase.size <= TABLE_BYTES)
    ensures r == w.(v := ReadAndSend(Latch(w.v)), frames := w.frames[w.v.image + 1 := w.shot])
    ensures Reachable(r, p) && C.Valid(r.v.cam)
  {
    var a := Latches(w, p);
    r := ReadsOn(a, p);
  }

  lemma NextRead(w: World, p: Premise) returns (r: World)
    requires Reachable(w, p) && C.Valid(w.v.cam) && w.v.phase == Resting && w.v.active
    requires w.v.cam.status == C.Ready && w.v.chunks != 0 && (p.current ==> w.v.cam.captures == w.v.seen)
    ensures r == w.(v := ReadAndSend(w.v.(phase := Reading))) && Reachable(r, p) && C.Valid(r.v.cam)
  {
    var a := Extend(w, LookReady, p);
    r := ReadsOn(a, p);
  }

  /** The vehicle after one chunk of a two-chunk pass over the frame in the camera. */
  function HalfSent(cam: C.Cam, head: seq<Byte>): Vehicle {
    Vehicle(cam, true, Resting, 1, 1, 2, 2, cam.captures, {}, 0, [], [Chunk(1, 0, 2, head)])
  }

  lemma FirstHalf(shot: seq<Byte>, cam: C.Cam, head: seq<Byte>)
    requires Whole(shot) && Count(shot) == 2 && C.Valid(cam) && C.Taken(cam, CHUNK) == head != []
    ensures ReadAndSend(Latch(Sized(shot).v.(cam := cam))) == HalfSent(C.ReadChunk(cam, CHUNK), head)
  {
  }

  lemma SecondHalf(v: Vehicle, tail: seq<Byte>)
    requires C.Valid(v.cam) && v.image == 1 && v.chunk == 1 && v.total == 2
    requires C.Taken(v.cam, CHUNK) == tail != []
    ensures ReadAndSend(v.(phase := Reading)).sent == v.sent + [Chunk(1, 1, 2, tail)]
  {
  }

  /**
   * Without fresh reads. A capture begun and finished in the middle of a pass: send_chunk compares the capture count
   * only when it opens an image, so the second frame's bytes go out as the rest of the first.
   */
  lemma TornPass() returns (w: World)
    ensures Reachable(w, FULL.(current := false)) && Torn(w)
    ensures w.frames == map[1 := SHOT_A] && |w.saved| == 1 && A.Data(w.saved[0]) == Blank(56) + SHOT_B
  {
    var p, joined := FULL.(current := false), Blank(56) + SHOT_B;
    Shots();
    ReachSized(SHOT_A, p);
    assert C.Taken(CamWith(SHOT_A, 1), CHUNK) == Blank(56);
    FirstHalf(SHOT_A, CamWith(SHOT_A, 1), Blank(56));
    var a := FirstRead(Sized(SHOT_A), p);
    var b := Captures(a, SHOT_B, p);
    assert C.Taken(b.v.cam, CHUNK) == SHOT_B;
    SecondHalf(b.v, SHOT_B);
    var c := NextRead(b, p);
    assert Piece(joined, 0) == Blank(56) && Piece(joined, 1) == SHOT_B;
    assert c.v.sent == [Chunk(1, 0, 2, Blank(56)), Chunk(1, 1, 2, SHOT_B)];
    assert joined[56] != SHOT_A[56];
    w := Delivers(c, joined, p);
  }

  /**
   * Without a steady latch. A capture begun and finished between reading the size and latching the count: every read
   * then finds the latched count, yet the new frame goes out cut to the old one's size, and the ground completes an
   * image that is neither.
   */
  lemma LateLatch() returns (w: World)
    ensures Reachable(w, FULL.(steady := false)) && Torn(w)
    ensures w.frames == map[1 := SHOT_A] && |w.saved| == 1
    ensures A.Data(w.saved[0]) == SHOT_C[..112] && SHOT_C[..112] != SHOT_A && SHOT_C[..112] != SHOT_C
  {
    var p, joined := FULL.(steady := false), SHOT_C[..112];
    Shots();
    ReachSized(SHOT_A, p);
    var a := Captures(Sized(SHOT_A), SHOT_C, p);
    assert C.Taken(a.v.cam, CHUNK) == Piece(joined, 0);
    FirstHalf(SHOT_A, a.v.cam, Piece(joined, 0));
    var b := FirstRead(a, p);
    assert C.Taken(b.v.cam, CHUNK) == Piece(joined, 1);
    SecondHalf(b.v, Piece(joined, 1));
    var c := NextRead(b, p);
    assert c.v.sent == [Chunk(1, 0, 2, Piece(joined, 0)), Chunk(1, 1, 2, Piece(joined, 1))];
    w := Delivers(c, joined, p);
  }
}
