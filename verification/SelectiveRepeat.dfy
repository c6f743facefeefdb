/**
 * Both ends of the image downlink and the radios between them, as one transition system. Payload frames and
 * request entries may be lost, repeated and reordered: an arrival may be anything ever sent, at any time.
 */
module SelectiveRepeat {
  import opened Wire
  import opened Payload
  import opened Downlink
  import A = Assembler
  import C = Camera

  /**
   * `shot` and `shotAt` remember the frame whose size was last read and the capture count then, `frames` the shot
   * each image id was given out for, `asked` every entry the ground sent.
   */
  datatype World = World(
    v: Vehicle, shot: seq<Byte>, shotAt: nat, frames: map<nat, seq<Byte>>, asked: set<(nat, nat)>,
    ground: A.State, saved: seq<A.Image>)

  datatype Action =
    // the control task
    | StartCapture(t: nat)
    | PollCapture(t: nat, done: Option<seq<Byte>>)
    | DiscardFrame
    | SetActive(on: bool)
    // the downlink task, one driver call or none at a time
    | LookReady
    | LookCount
    | ReadSize
    | LatchCount
    | ReadPass
    | DrainQueue
    | BeginServing
    | SweepOn
    | SendHeld
    // the ground, and arrivals
    | AskGround
    | EntryArrives(entry: (nat, nat))
    | ChunkArrives(c: Chunk)

  predicate Possible(w: World, a: Action) {
    match a
    case LookReady => w.v.phase == Resting && w.v.active
    case LookCount => w.v.phase == Opening
    case ReadSize => w.v.phase == Measuring
    case LatchCount => w.v.phase.Measured?
    case ReadPass => w.v.phase == Reading
    case DrainQueue => w.v.phase == Resting
    case BeginServing => w.v.phase == Resting
    case SweepOn => w.v.phase.Sweeping?
    case SendHeld => w.v.phase.Holding?
    case EntryArrives(e) => e in w.asked
    case ChunkArrives(c) => c in w.v.sent
    case _ => true
  }

  predicate ReadsFifo(w: World, a: Action) {
    a == ReadPass || (a == SweepOn && w.v.phase.Sweeping? && w.v.phase.next < w.v.total && w.v.active)
  }

  /** A read of the FIFO that returns data finds the capture count the image was opened with. */
  predicate Fresh(w: World, a: Action)
    requires C.Valid(w.v.cam)
  {
    ReadsFifo(w, a) && C.Taken(w.v.cam, CHUNK) != [] ==> w.v.cam.captures == w.v.seen
  }

  /** No capture has begun between the size read and the latch. */
  predicate Steady(w: World, a: Action) { a == LatchCount ==> w.v.cam.captures == w.shotAt }

  /** What the request table can address. */
  const TABLE_BYTES := MAX_CHUNKS * CHUNK

  /** The image being opened fits the request table. */
  predicate Fits(w: World, a: Action) { a == LatchCount && w.v.phase.Measured? ==> w.v.phase.size <= TABLE_BYTES }

  /** Which of the three a run must meet at every action. */
  datatype Premise = Premise(current: bool, steady: bool, fits: bool)

  const FULL := Premise(true, true, true)

  predicate Meets(w: World, a: Action, p: Premise)
    requires C.Valid(w.v.cam)
  {
    (p.current ==> Fresh(w, a)) && (p.steady ==> Steady(w, a)) && (p.fits ==> Fits(w, a))
  }

  /** The action reads past chunk i in a sweep and then tests its bit in the request table. */
  predicate TestsBit(w: World, a: Action, i: nat)
    requires C.Valid(w.v.cam)
  {
    a == SweepOn && w.v.phase == Sweeping(i) && i < w.v.total && w.v.active && C.Taken(w.v.cam, CHUNK) != []
  }

  function Entries(id: nat, ks: seq<nat>): set<(nat, nat)> { set k | k in ks :: (id, k) }

  function Do(w: World, a: Action): (r: World)
    requires C.Valid(w.v.cam) && Possible(w, a)
    ensures C.Valid(r.v.cam)
  {
    var v := w.v;
    match a
    case StartCapture(t) => w.(v := v.(cam := C.CaptureStart(v.cam, t)))
    case PollCapture(t, done) => w.(v := v.(cam := C.Poll(v.cam, t, done)))
    case DiscardFrame => w.(v := v.(cam := C.Discard(v.cam)))
    case SetActive(on) => w.(v := v.(active := on))
    case LookReady => w.(v := CheckReady(v))
    case LookCount => w.(v := CheckCount(v))
    case ReadSize => w.(v := Measure(v), shot := C.Image(v.cam), shotAt := v.cam.captures)
    case LatchCount => w.(v := Latch(v), frames := w.frames[v.image + 1 := w.shot])
    case ReadPass => w.(v := ReadAndSend(v))
    case DrainQueue => w.(v := Drain(v))
    case BeginServing => w.(v := BeginSweep(v))
    case SweepOn => w.(v := SweepRead(v))
    case SendHeld => w.(v := SweepSend(v))
    case AskGround =>
      (match A.Pending(w.ground)
       case None => w
       case Some(p) => w.(asked := w.asked + Entries(p.0, Batch(p.1))))
    case EntryArrives(e) => w.(v := Enqueue(v, e))
    case ChunkArrives(c) =>
      w.(ground := A.Pushed(w.ground, c),
         saved := match A.Yield(w.ground, c) case None => w.saved case Some(img) => w.saved + [img])
  }

  function Start(up: bool): World {
    World(Vehicle(C.PowerOn(up), false, Resting, 0, 0, 0, 0, 0, {}, 0, [], []), [], 0, map[], {}, A.EMPTY, [])
  }

  // ---- the invariant ----

  /** The frame of the current image; empty before the first. */
  function Frame(w: World): seq<Byte> {
    if w.v.image in w.frames then w.frames[w.v.image] else []
  }

  /** The camera still holds the frame the current image id stands for. */
  predicate Held(w: World) { w.v.cam.captures == w.v.seen && w.v.cam.frameBytes > 0 }

  ghost predicate CameraOk(w: World) {
    var v := w.v;
    && C.Valid(v.cam) && v.seen <= v.cam.captures
    && (v.seen == v.cam.captures ==> v.cam.status == C.Idle || v.cam.status == C.Ready)
    && (v.seen < v.cam.captures ==> v.cam.frameRead == 0)
    && (Held(w) ==> C.Image(v.cam) == Frame(w))
  }

  ghost predicate ImagesOk(w: World) {
    && (forall id :: id in w.frames <==> 1 <= id <= w.v.image)
    && w.v.total == Count(Frame(w))
  }

  /** Chunk k of a pass or a sweep is read with the position at byte 56 k. */
  ghost predicate PassOk(w: World) {
    var v := w.v;
    && (v.chunks != 0 ==> v.chunks == v.total && v.chunk < v.chunks && (v.phase == Resting || v.phase == Reading))
    && (v.chunks != 0 && Held(w) ==> v.cam.frameRead == Edge(Frame(w), v.chunk))
    && match v.phase
       case Resting => true
       case Opening => true
       case Measuring => v.seen < v.cam.captures
       case Measured(n) =>
         && C.Valid(v.cam) && n == |w.shot| > 0 && v.seen < w.shotAt <= v.cam.captures
         && (v.cam.captures == w.shotAt ==>
               && (v.cam.status == C.Idle || v.cam.status == C.Ready)
               && (v.cam.frameBytes > 0 ==> C.Image(v.cam) == w.shot))
       case Reading => v.chunks != 0
       case Sweeping(i) => Held(w) ==> v.cam.frameRead == Edge(Frame(w), i)
       case Holding(i, data) =>
         i < v.total && i in v.bits && data == Piece(Frame(w), i)
         && (Held(w) ==> v.cam.frameRead == Edge(Frame(w), i + 1))
  }

  /** Request bookkeeping: the counter counts the set bits, and each is a chunk of this image the ground named. */
  ghost predicate BitsOk(w: World) {
    var v := w.v;
    && v.count == |v.bits|
    && (forall k :: k in v.bits ==> k < v.total && k < MAX_CHUNKS && (v.image, k) in w.asked)
    && (forall i :: 0 <= i < |v.queue| ==> v.queue[i] in w.asked)
    && |v.queue| <= QUEUE_DEPTH
  }

  ghost predicate AskedOk(w: World) {
    forall e :: e in w.asked ==> e.0 in w.frames && e.1 < Count(w.frames[e.0])
  }

  ghost predicate AirOk(w: World) {
    forall i :: 0 <= i < |w.v.sent| ==> A.TruePiece(w.v.sent[i], w.frames)
  }

  ghost predicate GroundOk(w: World) {
    && A.TrueState(w.ground, w.frames)
    && (forall i :: 0 <= i < |w.saved| ==>
          w.saved[i].id in w.frames && A.Data(w.saved[i]) == w.frames[w.saved[i].id])
  }

  ghost predicate Inv(w: World) {
    CameraOk(w) && ImagesOk(w) && PassOk(w) && BitsOk(w) && AskedOk(w) && AirOk(w) && GroundOk(w)
  }

  // ---- one step at a time ----

  lemma CameraStep(w: World, a: Action)
    requires Inv(w) && (a.StartCapture? || a.PollCapture? || a.DiscardFrame? || a.SetActive?)
    ensures Inv(Do(w, a))
  {
  }

  lemma LookStep(w: World, a: Action)
    requires Inv(w) && Possible(w, a) && (a == LookReady || a == LookCount || a == ReadSize)
    ensures Inv(Do(w, a))
  {
  }

  /** A new id stands for the frame whose size was read, and every earlier one for what it always did. */
  lemma LatchStep(w: World)
    requires Inv(w) && Possible(w, LatchCount) && Steady(w, LatchCount)
    ensures Inv(Do(w, LatchCount))
    ensures var r := Do(w, LatchCount);
      Frame(r) == w.shot && r.v.image !in w.frames
      && forall id :: id in w.frames ==> id in r.frames && r.frames[id] == w.frames[id]
  {
    var r := Do(w, LatchCount);
    assert w.v.image + 1 !in w.frames;
    assert forall id :: id in w.frames ==> r.frames[id] == w.frames[id];
    LatchKeepsPass(w);
  }

  lemma LatchKeepsPass(w: World)
    requires Inv(w) && Possible(w, LatchCount) && Steady(w, LatchCount)
    ensures CameraOk(Do(w, LatchCount)) && ImagesOk(Do(w, LatchCount)) && PassOk(Do(w, LatchCount))
  {
  }

  lemma ReadStep(w: World)
    requires Inv(w) && Possible(w, ReadPass) && Fresh(w, ReadPass)
    ensures Inv(Do(w, ReadPass))
  {
  }

  lemma SweepOnStep(w: World)
    requires Inv(w) && Possible(w, SweepOn) && Fresh(w, SweepOn)
    ensures Inv(Do(w, SweepOn))
  {
  }

  lemma SendStep(w: World)
    requires Inv(w) && Possible(w, SendHeld)
    ensures Inv(Do(w, SendHeld))
  {
  }

  lemma BeginStep(w: World)
    requires Inv(w) && Possible(w, BeginServing)
    ensures Inv(Do(w, BeginServing))
  {
  }

  lemma DrainStep(w: World)
    requires Inv(w) && Possible(w, DrainQueue)
    ensures Inv(Do(w, DrainQueue))
  {
    DrainMarks(w.v);
    forall k | k in Drain(w.v).bits
      ensures k < w.v.total && k < MAX_CHUNKS && (w.v.image, k) in w.asked
    {
      if k !in w.v.bits { assert (w.v.image, k) in w.v.queue; }
    }
  }

  lemma AskStep(w: World)
    requires Inv(w)
    ensures Inv(Do(w, AskGround))
  {
    var p := A.Pending(w.ground);
    if p.Some? {
      var (id, missing) := p.value;
      forall e | e in Entries(id, Batch(missing)) ensures id in w.frames && e.1 < Count(w.frames[id]) {
        assert e.1 in missing;
      }
    }
  }

  lemma EntryStep(w: World, e: (nat, nat))
    requires Inv(w) && e in w.asked
    ensures Inv(Do(w, EntryArrives(e)))
  {
  }

  lemma ArrivalKeepsGround(w: World, c: Chunk)
    requires C.Valid(w.v.cam) && AirOk(w) && GroundOk(w) && c in w.v.sent
    ensures GroundOk(Do(w, ChunkArrives(c)))
  {
    var i :| 0 <= i < |w.v.sent| && w.v.sent[i] == c;
    A.PushKeepsTrue(w.ground, c, w.frames);
  }

  lemma ArrivalKeepsVehicle(w: World, c: Chunk)
    requires Inv(w) && c in w.v.sent
    ensures var n := Do(w, ChunkArrives(c));
      CameraOk(n) && ImagesOk(n) && PassOk(n) && BitsOk(n) && AskedOk(n) && AirOk(n)
  {
  }

  lemma ChunkStep(w: World, c: Chunk)
    requires Inv(w) && c in w.v.sent
    ensures Inv(Do(w, ChunkArrives(c)))
  {
    ArrivalKeepsGround(w, c);
    ArrivalKeepsVehicle(w, c);
  }

  lemma StepKeepsInv(w: World, a: Action)
    requires Inv(w) && Possible(w, a) && Fresh(w, a) && Steady(w, a)
    ensures Inv(Do(w, a))
  {
    match a
    case LookReady => LookStep(w, a);
    case LookCount => LookStep(w, a);
    case ReadSize => LookStep(w, a);
    case LatchCount => LatchStep(w);
    case ReadPass => ReadStep(w);
    case DrainQueue => DrainStep(w);
    case BeginServing => BeginStep(w);
    case SweepOn => SweepOnStep(w);
    case SendHeld => SendStep(w);
    case AskGround => AskStep(w);
    case EntryArrives(e) => EntryStep(w, e);
    case ChunkArrives(c) => ChunkStep(w, c);
    case _ => CameraStep(w, a);
  }

  // ---- whole runs ----

  /** Each action is possible when it comes and meets the premise. */
  predicate Follows(w: World, acts: seq<Action>, p: Premise)
    requires C.Valid(w.v.cam)
    decreases |acts|
  {
    acts == [] || (Possible(w, acts[0]) && Meets(w, acts[0], p) && Follows(Do(w, acts[0]), acts[1..], p))
  }

  function After(w: World, acts: seq<Action>, p: Premise): World
    requires C.Valid(w.v.cam) && Follows(w, acts, p)
    decreases |acts|
  {
    if acts == [] then w else After(Do(w, acts[0]), acts[1..], p)
  }

  /** The current image is one the request table can address. */
  predicate InTable(w: World) { w.v.total <= MAX_CHUNKS }

  lemma StepKeepsTable(w: World, a: Action)
    requires C.Valid(w.v.cam) && Possible(w, a) && InTable(w) && Fits(w, a)
    ensures InTable(Do(w, a))
  {
  }

  lemma StartInv(up: bool)
    ensures Inv(Start(up)) && InTable(Start(up))
  {
  }

  lemma {:induction false} RunKeepsInv(w: World, acts: seq<Action>, p: Premise)
    requires Inv(w) && Follows(w, acts, p) && p.current && p.steady
    ensures Inv(After(w, acts, p))
    ensures forall id :: id in w.frames ==>
      id in After(w, acts, p).frames && After(w, acts, p).frames[id] == w.frames[id]
    ensures p.fits && InTable(w) ==> InTable(After(w, acts, p))
    decreases |acts|
  {
    if acts != [] {
      StepKeepsInv(w, acts[0]);
      if p.fits && InTable(w) { StepKeepsTable(w, acts[0]); }
      RunKeepsInv(Do(w, acts[0]), acts[1..], p);
    }
  }

  /**
   * End-to-end integrity. For every loss, repetition and reordering, and every interleaving that meets the
   * premise, an image the ground saves is byte for byte the frame whose size was read when its id was given out.
   */
  lemma EndToEnd(up: bool, acts: seq<Action>)
    requires Follows(Start(up), acts, FULL)
    ensures var w := After(Start(up), acts, FULL);
      forall i :: 0 <= i < |w.saved| ==>
        w.saved[i].id in w.frames && A.Data(w.saved[i]) == w.frames[w.saved[i].id]
  {
    StartInv(up);
    RunKeepsInv(Start(up), acts, FULL);
  }

  /** Through drains, sweeps, aborted sweeps and new images the counter is the number of set bits, each asked for. */
  lemma Bookkeeping(up: bool, acts: seq<Action>)
    requires Follows(Start(up), acts, FULL)
    ensures var w := After(Start(up), acts, FULL);
      && w.v.count == |w.v.bits| && w.v.total <= MAX_CHUNKS
      && forall k :: k in w.v.bits ==> k < w.v.total && (w.v.image, k) in w.asked
  {
    StartInv(up);
    RunKeepsInv(Start(up), acts, FULL);
  }

  /** An id is named in a request only once it exists, so a set bit was asked for since its image began. */
  lemma NobodyAsksAhead(up: bool, acts: seq<Action>)
    requires Follows(Start(up), acts, FULL)
    ensures var w := After(Start(up), acts, FULL);
      forall e :: e in w.asked ==> e.0 <= w.v.image && e.0 in w.frames && e.1 < Count(w.frames[e.0])
  {
    StartInv(up);
    RunKeepsInv(Start(up), acts, FULL);
  }

  /** What a run put on the links. */
  function New(w: World, r: World): seq<Chunk>
    requires |w.v.sent| <= |r.v.sent|
  {
    r.v.sent[|w.v.sent|..]
  }

  /** From w to r the set bits lost exactly the chunks sent, each sent once. */
  ghost predicate ClearedWhatWasSent(w: World, r: World) {
    && w.v.sent <= r.v.sent && r.v.image == w.v.image
    && Indices(New(w, r)) <= w.v.bits && r.v.bits == w.v.bits - Indices(New(w, r))
    && |r.v.bits| + |New(w, r)| == |w.v.bits|
  }

  /** Between passes: at rest, or in a sweep. */
  predicate Serving(w: World) { w.v.phase == Resting || w.v.phase.Sweeping? || w.v.phase.Holding? }

  lemma OthersLeaveBits(w: World, a: Action)
    requires C.Valid(w.v.cam) && Possible(w, a) && Serving(w)
    requires a != LookReady && a != DrainQueue && (a == SendHeld ==> !w.v.active)
    ensures var n := Do(w, a);
      n.v.sent == w.v.sent && n.v.bits == w.v.bits && n.v.image == w.v.image && Serving(n)
  {
  }

  lemma StepClearsWhatItSends(w: World, a: Action)
    requires Inv(w) && Possible(w, a) && Serving(w) && a != LookReady && a != DrainQueue
    ensures ClearedWhatWasSent(w, Do(w, a)) && Serving(Do(w, a))
  {
    if a == SendHeld && w.v.active {
      SendClears(w);
    } else {
      OthersLeaveBits(w, a);
      assert New(w, Do(w, a)) == [];
    }
  }

  lemma SendClears(w: World)
    requires Inv(w) && w.v.phase.Holding? && w.v.active
    ensures ClearedWhatWasSent(w, Do(w, SendHeld))
  {
    var i := w.v.phase.index;
    var c := Chunk(w.v.image, i, w.v.total, w.v.phase.data);
    assert New(w, Do(w, SendHeld)) == [c];
    assert [c][0].index == i && Indices([c]) == {i};
  }

  lemma ClearedConcat(w: World, n: World, r: World)
    requires ClearedWhatWasSent(w, n) && ClearedWhatWasSent(n, r)
    ensures ClearedWhatWasSent(w, r)
  {
    assert New(w, r) == New(w, n) + New(n, r);
    IndicesConcat(New(w, n), New(n, r));
  }

  /** While no new pass or drain intervenes, a run clears a bit if and only if it sent that chunk, and sends it once. */
  lemma {:induction false} SweepClearsWhatItSends(w: World, acts: seq<Action>)
    requires Inv(w) && InTable(w) && Follows(w, acts, FULL) && Serving(w)
    requires forall i :: 0 <= i < |acts| ==> acts[i] != LookReady && acts[i] != DrainQueue
    ensures ClearedWhatWasSent(w, After(w, acts, FULL))
    decreases |acts|
  {
    if acts == [] {
      assert New(w, w) == [];
    } else {
      StepKeepsInv(w, acts[0]);
      StepKeepsTable(w, acts[0]);
      StepClearsWhatItSends(w, acts[0]);
      SweepClearsWhatItSends(Do(w, acts[0]), acts[1..]);
      ClearedConcat(w, Do(w, acts[0]), After(w, acts, FULL));
    }
  }
}
