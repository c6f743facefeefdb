/**
 * Calls of send_chunk (obc/Src/freertos/downlink_task.cpp): each is a run of the downlink's separate steps with nothing
 * in between, and enough of them put a new frame on the links whole.
 */
module Passes {
  import opened Wire
  import opened Payload
  import opened Downlink
  import C = Camera
  import S = SelectiveRepeat

  // ---- one call ----

  /** No capture can begin inside a call, so its latch is steady; its read need not be fresh. */
  const UNBROKEN := S.Premise(false, true, false)

  /** The action, if it can be taken. */
  function Tried(w: S.World, a: S.Action): (r: S.World)
    requires C.Valid(w.v.cam)
    ensures C.Valid(r.v.cam)
  {
    if S.Possible(w, a) then S.Do(w, a) else w
  }

  /** Those of the actions that can be taken when their turn comes. */
  function Possibles(w: S.World, acts: seq<S.Action>): seq<S.Action>
    requires C.Valid(w.v.cam)
    decreases |acts|
  {
    if acts == [] then []
    else (if S.Possible(w, acts[0]) then [acts[0]] else []) + Possibles(Tried(w, acts[0]), acts[1..])
  }

  function Played(w: S.World, acts: seq<S.Action>): S.World
    requires C.Valid(w.v.cam)
    decreases |acts|
  {
    if acts == [] then w else Played(Tried(w, acts[0]), acts[1..])
  }

  /** Each action that can be taken keeps the premise. */
  predicate Smooth(w: S.World, acts: seq<S.Action>)
    requires C.Valid(w.v.cam)
    decreases |acts|
  {
    acts == [] ||
    ((S.Possible(w, acts[0]) ==> S.Meets(w, acts[0], UNBROKEN)) && Smooth(Tried(w, acts[0]), acts[1..]))
  }

  lemma {:induction false} PlayedIsARun(w: S.World, acts: seq<S.Action>)
    requires C.Valid(w.v.cam) && Smooth(w, acts)
    ensures S.Follows(w, Possibles(w, acts), UNBROKEN)
    ensures S.After(w, Possibles(w, acts), UNBROKEN) == Played(w, acts)
    decreases |acts|
  {
    if acts != [] {
      PlayedIsARun(Tried(w, acts[0]), acts[1..]);
      if S.Possible(w, acts[0]) {
        assert Possibles(w, acts)[1..] == Possibles(Tried(w, acts[0]), acts[1..]);
      } else {
        assert Possibles(w, acts) == Possibles(w, acts[1..]);
      }
    }
  }

  /** What one call does, driver call by driver call, for as far as it gets. */
  const CALL: seq<S.Action> := [S.LookReady, S.LookCount, S.ReadSize, S.LatchCount, S.ReadPass]

  lemma CallUnrolls(w: S.World)
    requires C.Valid(w.v.cam)
    ensures var a := Tried(w, S.LookReady);
      var b := Tried(a, S.LookCount);
      var c := Tried(b, S.ReadSize);
      var d := Tried(c, S.LatchCount);
      Played(w, CALL) == Tried(d, S.ReadPass)
  {
    assert CALL[1..] == [S.LookCount, S.ReadSize, S.LatchCount, S.ReadPass];
    assert CALL[1..][1..] == [S.ReadSize, S.LatchCount, S.ReadPass];
    assert CALL[1..][1..][1..] == [S.LatchCount, S.ReadPass];
    assert CALL[1..][1..][1..][1..] == [S.ReadPass] && [S.ReadPass][1..] == [];
  }

  lemma CallIsSmooth(w: S.World)
    requires C.Valid(w.v.cam) && w.v.phase == Resting
    ensures Smooth(w, CALL)
  {
    var a := Tried(w, S.LookReady);
    var b := Tried(a, S.LookCount);
    var c := Tried(b, S.ReadSize);
    var d := Tried(c, S.LatchCount);
    var e := Tried(d, S.ReadPass);
    assert CALL[1..] == [S.LookCount, S.ReadSize, S.LatchCount, S.ReadPass];
    assert CALL[1..][1..] == [S.ReadSize, S.LatchCount, S.ReadPass];
    assert CALL[1..][1..][1..] == [S.LatchCount, S.ReadPass];
    assert CALL[1..][1..][1..][1..] == [S.ReadPass] && [S.ReadPass][1..] == [];
    assert Smooth(e, []);
    assert Smooth(d, [S.ReadPass]);
    assert Smooth(c, [S.LatchCount, S.ReadPass]);
    assert Smooth(b, [S.ReadSize, S.LatchCount, S.ReadPass]);
    assert Smooth(a, CALL[1..]);
  }

  /** A call is the run of those separate steps that can be taken, with nothing between them. */
  lemma CallIsARun(w: S.World)
    requires C.Valid(w.v.cam) && w.v.phase == Resting && w.v.active
    ensures S.Follows(w, Possibles(w, CALL), UNBROKEN)
    ensures S.After(w, Possibles(w, CALL), UNBROKEN).v == SendChunk(w.v)
  {
    CallIsSmooth(w);
    PlayedIsARun(w, CALL);
    CallUnrolls(w);
  }

  // ---- a whole pass ----

  /** On the links since: the frame's pieces from k on, each once and in order, under one id. */
  ghost predicate Since(before: seq<Chunk>, after: seq<Chunk>, image: nat, frame: seq<Byte>, k: nat)
    requires k <= Count(frame)
  {
    && before <= after && |after| == |before| + Count(frame) - k
    && forall j :: k <= j < Count(frame) ==> after[|before| + j - k] == Chunk(image, j, Count(frame), Piece(frame, j))
  }

  lemma OneBefore(a: seq<Chunk>, b: seq<Chunk>, c: seq<Chunk>, image: nat, frame: seq<Byte>, k: nat)
    requires k < Count(frame) && b == a + [Chunk(image, k, Count(frame), Piece(frame, k))]
    requires Since(b, c, image, frame, k + 1)
    ensures Since(a, c, image, frame, k)
  {
    assert c[..|b|] == b && c[|a|] == b[|a|];
  }

  /** Piece k of the frame is next in the pass. */
  predicate Midway(v: Vehicle, frame: seq<Byte>, k: nat) {
    && C.Valid(v.cam) && v.phase == Resting && v.active && k <= Count(frame)
    && C.Image(v.cam) == frame != [] && v.cam.frameRead == Edge(frame, k)
    && (v.cam.status == if k < Count(frame) then C.Ready else C.Idle)
    && v.total == Count(frame) && v.chunk == k && v.chunks == (if k < Count(frame) then Count(frame) else 0)
  }

  /** A frame captured since the last image was opened, whole and unread. */
  predicate New(v: Vehicle) {
    && C.Valid(v.cam) && v.phase == Resting && v.active && v.chunks == 0
    && v.cam.status == C.Ready && v.cam.frameRead == 0 && v.cam.captures != v.seen
  }

  lemma NextGoesOut(v: Vehicle, frame: seq<Byte>, k: nat)
    requires Midway(v, frame, k) && k < Count(frame)
    ensures var r := SendChunk(v);
      Midway(r, frame, k + 1) && r.image == v.image && r.seen == v.seen && r.cam.captures == v.cam.captures
      && r.sent == v.sent + [Chunk(v.image, k, Count(frame), Piece(frame, k))]
  {
    PieceRead(v.cam, k);
  }

  lemma FirstGoesOut(v: Vehicle)
    requires New(v)
    ensures var r, frame := SendChunk(v), C.Image(v.cam);
      && Midway(r, frame, 1) && r.image == v.image + 1 && r.seen == r.cam.captures == v.cam.captures && r.bits == {}
      && r.sent == v.sent + [Chunk(v.image + 1, 0, Count(frame), Piece(frame, 0))]
  {
    PieceRead(v.cam, 0);
  }

  /** With the frame read out, or none held, a call sends nothing and no pass is in flight. */
  lemma NothingLeft(v: Vehicle)
    requires C.Valid(v.cam) && v.phase == Resting && v.cam.status != C.Ready
    ensures SendChunk(v) == v.(chunks := 0)
  {
  }

  lemma {:induction false} RestGoesOut(v: Vehicle, frame: seq<Byte>, k: nat, n: nat) returns (r: Vehicle)
    requires Midway(v, frame, k) && n >= Count(frame) - k
    ensures r == Pass(v, n) && Midway(r, frame, Count(frame)) && Since(v.sent, r.sent, v.image, frame, k)
    ensures r.image == v.image && r.seen == v.seen
    decreases n
  {
    if k == Count(frame) {
      NothingLeft(v);
      r := v;
    } else {
      NextGoesOut(v, frame, k);
      var u := SendChunk(v);
      r := RestGoesOut(u, frame, k + 1, n - 1);
      OneBefore(v.sent, u.sent, r.sent, v.image, frame, k);
    }
  }

  /**
   * A new frame undisturbed, with room for as many chunks as it has: every piece goes out once, in order, under the
   * next id, the pass is over, and the call after it sends nothing.
   */
  lemma PassSendsAll(v: Vehicle, n: nat) returns (r: Vehicle)
    requires New(v) && n >= Count(C.Image(v.cam))
    ensures r == Pass(v, n) && Since(v.sent, r.sent, v.image + 1, C.Image(v.cam), 0)
    ensures r.chunks == 0 && r.total == Count(C.Image(v.cam)) && r.image == v.image + 1 && r.seen == v.cam.captures
    ensures SendChunk(r).sent == r.sent
  {
    var frame := C.Image(v.cam);
    FirstGoesOut(v);
    var u := SendChunk(v);
    r := RestGoesOut(u, frame, 1, n - 1);
    OneBefore(v.sent, u.sent, r.sent, v.image + 1, frame, 0);
    NothingLeft(r);
  }

  // ---- a sweep ----

  const ANY := S.Premise(false, false, false)

  /** What a sweep does, the mode flag changing under it as guard and hold say. */
  function SweepActs(w: S.World, guard: nat -> bool, hold: nat -> bool): seq<S.Action>
    requires C.Valid(w.v.cam) && w.v.phase.Sweeping?
    decreases w.v.total - w.v.phase.next
  {
    var i := w.v.phase.next;
    if i >= w.v.total then [S.SweepOn]
    else
      var a := S.Do(S.Do(w, S.SetActive(guard(i))), S.SweepOn);
      [S.SetActive(guard(i)), S.SweepOn] +
      if a.v.phase.Holding? then
        var b := S.Do(S.Do(a, S.SetActive(hold(i))), S.SendHeld);
        [S.SetActive(hold(i)), S.SendHeld] + if b.v.phase.Sweeping? then SweepActs(b, guard, hold) else []
      else if a.v.phase.Sweeping? then SweepActs(a, guard, hold)
      else []
  }

  lemma TwoMore(w: S.World, a: S.Action, b: S.Action, rest: seq<S.Action>)
    requires C.Valid(w.v.cam) && S.Possible(w, a) && S.Possible(S.Do(w, a), b)
    requires S.Follows(S.Do(S.Do(w, a), b), rest, ANY)
    ensures S.Follows(w, [a, b] + rest, ANY)
    ensures S.After(w, [a, b] + rest, ANY) == S.After(S.Do(S.Do(w, a), b), rest, ANY)
  {
    assert ([a, b] + rest)[1..] == [b] + rest && ([b] + rest)[1..] == rest;
    assert S.Follows(S.Do(w, a), [b] + rest, ANY);
  }

  /** A sweep, complete or cut short by the mode flag, is a run of those steps. */
  lemma {:induction false} SweepIsARun(w: S.World, guard: nat -> bool, hold: nat -> bool)
    requires C.Valid(w.v.cam) && w.v.phase.Sweeping?
    ensures S.Follows(w, SweepActs(w, guard, hold), ANY)
    ensures S.After(w, SweepActs(w, guard, hold), ANY).v == Sweep(w.v, guard, hold)
    decreases w.v.total - w.v.phase.next
  {
    var i := w.v.phase.next;
    if i >= w.v.total {
      assert [S.SweepOn][1..] == [];
    } else {
      var g, h := S.SetActive(guard(i)), S.SetActive(hold(i));
      var a := S.Do(S.Do(w, g), S.SweepOn);
      var rest: seq<S.Action> := [];
      if a.v.phase.Holding? {
        var b := S.Do(S.Do(a, h), S.SendHeld);
        var tail: seq<S.Action> := [];
        if b.v.phase.Sweeping? {
          SweepIsARun(b, guard, hold);
          tail := SweepActs(b, guard, hold);
        }
        TwoMore(a, h, S.SendHeld, tail);
        rest := [h, S.SendHeld] + tail;
      } else if a.v.phase.Sweeping? {
        SweepIsARun(a, guard, hold);
        rest := SweepActs(a, guard, hold);
      }
      TwoMore(w, g, S.SweepOn, rest);
    }
  }
}
