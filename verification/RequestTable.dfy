/** Which images the sweep can serve inside its request table of 4096 bits. */
module RequestTable {
  import opened Wire
  import opened Payload
  import opened Downlink
  import opened SelectiveRepeat
  import opened Overruns
  import A = Assembler
  import C = Camera

  /** Everything but the size of images is as the design wants it. */
  const UNSIZED := FULL.(fits := false)

  /** Image 1 is being worked on and the camera still holds it, its next read being piece k. */
  predicate Working(w: World, shot: seq<Byte>, k: nat) {
    && C.Valid(w.v.cam) && w.v.active && w.v.image == 1 && w.v.total == Count(shot)
    && w.v.seen == w.v.cam.captures && w.v.cam.frameBytes > 0 && C.Image(w.v.cam) == shot
    && w.v.cam.frameRead == Edge(shot, k)
    && (w.v.cam.status == if k < Count(shot) then C.Ready else C.Idle)
    && w.frames == map[1 := shot]
  }

  /** A first pass has sent k chunks and one request is waiting. */
  predicate Passing(w: World, shot: seq<Byte>, k: nat) {
    && Working(w, shot, k) && w.v.phase == Resting && k <= w.v.total && w.v.chunk == k
    && w.v.chunks == (if k < w.v.total then w.v.total else 0)
    && w.v.bits == {} && w.v.count == 0 && w.v.queue == [(1, 1)]
  }

  lemma {:induction false} PassFinishes(w: World, shot: seq<Byte>, k: nat) returns (r: World)
    requires Reachable(w, UNSIZED) && Passing(w, shot, k)
    ensures Reachable(r, UNSIZED) && Passing(r, shot, Count(shot))
    decreases Count(shot) - k
  {
    if k == Count(shot) {
      r := w;
    } else {
      PieceRead(w.v.cam, k);
      var n := NextRead(w, UNSIZED);
      assert Passing(n, shot, k + 1);
      r := PassFinishes(n, shot, k + 1);
    }
  }

  /** The first chunk has gone out. */
  lemma SentFirst(shot: seq<Byte>) returns (r: World)
    requires Whole(shot) && Count(shot) >= 2
    ensures Reachable(r, UNSIZED) && Passing(r.(v := r.v.(queue := [(1, 1)])), shot, 1)
    ensures r.v.sent == [Chunk(1, 0, Count(shot), Piece(shot, 0))] && r.v.queue == []
    ensures r.ground == A.EMPTY && r.asked == {}
  {
    ReachSized(shot, UNSIZED);
    assert C.Image(CamWith(shot, 1)) == shot;
    PieceRead(CamWith(shot, 1), 0);
    r := FirstRead(Sized(shot), UNSIZED);
  }

  /** It arrived, and the ground has asked for the second. */
  lemma Asked(shot: seq<Byte>) returns (r: World)
    requires Whole(shot) && Count(shot) >= 2
    ensures Reachable(r, UNSIZED) && Passing(r, shot, 1)
  {
    var a := SentFirst(shot);
    var b := AsksAfter(a, a.v.sent[0]);
    r := Queues(b);
    SamePass(a.(v := a.v.(queue := [(1, 1)])), r, shot);
  }

  lemma Queues(w: World) returns (r: World)
    requires Reachable(w, UNSIZED) && C.Valid(w.v.cam) && (1, 1) in w.asked && w.v.queue == []
    ensures Reachable(r, UNSIZED) && r.v == w.v.(queue := [(1, 1)]) && r.frames == w.frames
  {
    r := Extend(w, EntryArrives((1, 1)), UNSIZED);
  }

  lemma SamePass(w: World, r: World, shot: seq<Byte>)
    requires Passing(w, shot, 1) && r.v == w.v && r.frames == w.frames
    ensures Passing(r, shot, 1)
  {
  }

  lemma AsksAfter(w: World, head: Chunk) returns (r: World)
    requires Reachable(w, UNSIZED) && C.Valid(w.v.cam) && w.v.sent == [head] && w.ground == A.EMPTY && w.asked == {}
    requires head.image == 1 && head.index == 0 && head.total >= 2
    ensures Reachable(r, UNSIZED) && r.v == w.v && r.frames == w.frames && (1, 1) in r.asked
  {
    AsksForSecond(head);
    var a := Extend(w, ChunkArrives(head), UNSIZED);
    r := Extend(a, AskGround, UNSIZED);
  }

  lemma AsksForSecond(head: Chunk)
    requires head.image == 1 && head.index == 0 && head.total >= 2
    ensures var p := A.Pending(A.Pushed(A.EMPTY, head));
      p.Some? && p.value.0 == 1 && (1, 1) in Entries(1, Batch(p.value.1))
  {
    var s := A.Pushed(A.EMPTY, head);
    var img := A.Filed(A.EMPTY, head);
    assert img.parts.Keys == {0} && |img.parts| == 1;
    assert s.images == map[1 := img] && A.Newest(s.images.Keys) == 1;
    var m := A.Missing(img);
    assert m == A.MissingFrom(img, 1) == [1] + A.MissingFrom(img, 2);
    assert Batch(m)[0] == 1;
  }

  predicate OnSweep(w: World, shot: seq<Byte>, i: nat) {
    Working(w, shot, i) && w.v.phase == Sweeping(i) && i <= Count(shot)
  }

  /** Any frame of two chunks or more can be the one a sweep starts on. */
  lemma SweepStarts(shot: seq<Byte>) returns (r: World)
    requires Whole(shot) && Count(shot) >= 2
    ensures Reachable(r, UNSIZED) && OnSweep(r, shot, 0)
  {
    var a := Asked(shot);
    var b := PassFinishes(a, shot, 1);
    DrainMarks(b.v);
    var c := Extend(b, DrainQueue, UNSIZED);
    assert (1, 1) in b.v.queue && 1 in c.v.bits;
    r := Extend(c, BeginServing, UNSIZED);
  }

  lemma SweepPasses(w: World, shot: seq<Byte>, i: nat) returns (r: World)
    requires Reachable(w, UNSIZED) && OnSweep(w, shot, i) && i < Count(shot)
    ensures Reachable(r, UNSIZED) && OnSweep(r, shot, i + 1)
  {
    PieceRead(w.v.cam, i);
    r := Extend(w, SweepOn, UNSIZED);
    if r.v.phase.Holding? { r := SendsOn(r, shot, i); }
  }

  lemma SendsOn(w: World, shot: seq<Byte>, i: nat) returns (r: World)
    requires Reachable(w, UNSIZED) && Working(w, shot, i + 1) && i < Count(shot)
    requires w.v.phase.Holding? && w.v.phase.index == i
    ensures Reachable(r, UNSIZED) && OnSweep(r, shot, i + 1)
  {
    r := Extend(w, SendHeld, UNSIZED);
  }

  /** And left alone in DOWNLINK it comes past every chunk. */
  lemma {:induction false} SweepReaches(w: World, shot: seq<Byte>, i: nat, k: nat) returns (r: World)
    requires Reachable(w, UNSIZED) && OnSweep(w, shot, i) && i <= k <= Count(shot)
    ensures Reachable(r, UNSIZED) && OnSweep(r, shot, k)
    decreases k - i
  {
    if i == k {
      r := w;
    } else {
      var n := SweepPasses(w, shot, i);
      r := SweepReaches(n, shot, i + 1, k);
    }
  }

  /** In every run that sweeps this frame, each bit tested is one the table has. */
  ghost predicate TestsInTable(shot: seq<Byte>) {
    forall w, i: nat :: Reachable(w, UNSIZED) && C.Valid(w.v.cam) && Frame(w) == shot && TestsBit(w, SweepOn, i) ==>
      i < MAX_CHUNKS
  }

  lemma CountOfARun(w: World)
    requires Reachable(w, UNSIZED)
    ensures C.Valid(w.v.cam) && w.v.total == Count(Frame(w))
  {
    var acts :| Follows(Start(true), acts, UNSIZED) && After(Start(true), acts, UNSIZED) == w;
    StartInv(true);
    RunKeepsInv(Start(true), acts, UNSIZED);
  }

  lemma SmallFrameInTable(shot: seq<Byte>, w: World, i: nat)
    requires |shot| <= TABLE_BYTES && Reachable(w, UNSIZED) && C.Valid(w.v.cam)
    requires Frame(w) == shot && TestsBit(w, SweepOn, i)
    ensures i < MAX_CHUNKS
  {
    CountOfARun(w);
  }

  /** The sweep of a longer frame tests a bit past the table's end. */
  lemma LargeFrameOverruns(shot: seq<Byte>) returns (w: World)
    requires Whole(shot) && |shot| > TABLE_BYTES
    ensures Reachable(w, UNSIZED) && C.Valid(w.v.cam) && Frame(w) == shot && TestsBit(w, SweepOn, MAX_CHUNKS)
  {
    var a := SweepStarts(shot);
    w := SweepReaches(a, shot, 0, MAX_CHUNKS);
    PieceRead(w.v.cam, MAX_CHUNKS);
  }

  /** In every run a sweep of this frame tests only bits in the table if and only if it is at most 229376 bytes. */
  lemma InTableIff(shot: seq<Byte>)
    requires Whole(shot)
    ensures TestsInTable(shot) <==> |shot| <= 229376
  {
    if |shot| <= TABLE_BYTES {
      forall w, i: nat | Reachable(w, UNSIZED) && C.Valid(w.v.cam) && Frame(w) == shot && TestsBit(w, SweepOn, i)
        ensures i < MAX_CHUNKS
      {
        SmallFrameInTable(shot, w, i);
      }
    } else {
      var w := LargeFrameOverruns(shot);
      assert TestsBit(w, SweepOn, MAX_CHUNKS);
    }
  }

  /** One byte too many: the camera accepts the frame, it opens as 4097 chunks, and a sweep tests bit 4096. */
  lemma OneByteTooMany() returns (w: World)
    ensures Whole(Blank(229375) + [0xFF, 0xD9])
    ensures Reachable(w, UNSIZED) && C.Valid(w.v.cam) && Frame(w) == Blank(229375) + [0xFF, 0xD9]
    ensures w.v.total == 4097 && TestsBit(w, SweepOn, 4096)
  {
    var shot: seq<Byte> := Blank(229375) + [0xFF, 0xD9];
    assert C.EndsAt(shot, 229377) && forall m: nat :: m < 229377 ==> !C.EndsAt(shot, m);
    w := LargeFrameOverruns(shot);
    CountOfARun(w);
  }
}
