/** The vehicle half of selective repeat (obc/Src/freertos/downlink_task.cpp). */
module Downlink {
  import opened Wire
  import opened Payload
  import C = Camera

  const MAX_CHUNKS := 4096
  const QUEUE_DEPTH := 96

  /**
   * Where the task stands between two driver calls that other tasks can interleave with. Opening an image takes
   * four: a frame is ready (Opening), its capture is new (Measuring), its size is known (Measured), then Reading.
   */
  datatype Phase =
    | Resting
    | Opening
    | Measuring
    | Measured(size: nat)
    | Reading
    | Sweeping(next: nat)
    | Holding(index: nat, data: seq<Byte>)

  /** The camera and the downlink's statics; `sent` is every chunk put on the links. No chunks means no first pass. */
  datatype Vehicle = Vehicle(
    cam: C.Cam, active: bool, phase: Phase,
    image: nat, chunk: nat, chunks: nat, total: nat, seen: nat,
    bits: set<nat>, count: int, queue: seq<(nat, nat)>, sent: seq<Chunk>)

  /** Is a frame ready; if so carry on with the pass in flight, or look for a new image. */
  function CheckReady(v: Vehicle): Vehicle {
    if v.cam.status != C.Ready then v.(chunks := 0)
    else v.(phase := if v.chunks != 0 then Reading else Opening)
  }

  /** Has its capture been seen already. */
  function CheckCount(v: Vehicle): Vehicle {
    v.(phase := if v.cam.captures == v.seen then Resting else Measuring)
  }

  /** How large is it. */
  function Measure(v: Vehicle): Vehicle
    requires C.Valid(v.cam)
  {
    v.(phase := if C.FrameBytes(v.cam) == 0 then Resting else Measured(C.FrameBytes(v.cam)))
  }

  /** Latch the capture count as it stands now, and fix the new image's shape from the size read before. */
  function Latch(v: Vehicle): Vehicle
    requires v.phase.Measured?
  {
    var n := (v.phase.size + CHUNK - 1) / CHUNK;
    v.(phase := Reading, seen := v.cam.captures, image := v.image + 1,
       chunk := 0, chunks := n, total := n, bits := {}, count := 0)
  }

  /** send_chunk up to the read, with nothing in between. */
  function Open(v: Vehicle): (r: Vehicle)
    requires C.Valid(v.cam)
    ensures r.cam == v.cam
  {
    var a := CheckReady(v);
    if a.phase != Opening then a
    else
      var b := CheckCount(a);
      if b.phase != Measuring then b
      else
        var c := Measure(b);
        if c.phase.Measured? then Latch(c) else c
  }

  /** The rest of send_chunk. */
  function ReadAndSend(v: Vehicle): (r: Vehicle)
    requires C.Valid(v.cam)
    ensures C.Valid(r.cam)
  {
    var data := C.Taken(v.cam, CHUNK);
    var w := v.(cam := C.ReadChunk(v.cam, CHUNK), phase := Resting);
    if data == [] then w.(chunks := 0)
    else w.(sent := v.sent + [Chunk(v.image, v.chunk, v.total, data)],
            chunk := v.chunk + 1, chunks := if v.chunk + 1 >= v.chunks then 0 else v.chunks)
  }

  function SendChunk(v: Vehicle): Vehicle
    requires C.Valid(v.cam)
  {
    if Open(v).phase == Reading then ReadAndSend(Open(v)) else Open(v)
  }

  /** What the task's loop does with room for n chunks: call after call until one sends nothing. */
  function Pass(v: Vehicle, n: nat): (r: Vehicle)
    requires C.Valid(v.cam)
    ensures C.Valid(r.cam)
    decreases n
  {
    if n == 0 || !v.active then v
    else
      var r := SendChunk(v);
      if r.sent == v.sent then r else Pass(r, n - 1)
  }

  function Enqueue(v: Vehicle, w: (nat, nat)): Vehicle {
    if |v.queue| < QUEUE_DEPTH then v.(queue := v.queue + [w]) else v
  }

  function EnqueueAll(v: Vehicle, image: nat, ks: seq<nat>): (r: Vehicle)
    ensures r == v.(queue := r.queue) && v.queue <= r.queue
    decreases |ks|
  {
    if ks == [] then v else EnqueueAll(Enqueue(v, (image, ks[0])), image, ks[1..])
  }

  function Accept(v: Vehicle, w: (nat, nat)): Vehicle {
    if w.0 != v.image || w.1 >= v.total || w.1 >= MAX_CHUNKS || w.1 in v.bits then v
    else v.(bits := v.bits + {w.1}, count := v.count + 1)
  }

  /** Everything waiting goes into the bitmap. */
  function Drain(v: Vehicle): (r: Vehicle)
    ensures r == v.(bits := r.bits, count := r.count, queue := [])
    decreases |v.queue|
  {
    if v.queue == [] then v else Drain(Accept(v, v.queue[0]).(queue := v.queue[1..]))
  }

  /** After a drain a chunk is marked if it was, or if an entry names it for this image, inside its range. */
  lemma {:induction false} DrainMarks(v: Vehicle)
    ensures Drain(v).count - |Drain(v).bits| == v.count - |v.bits|
    ensures forall k :: k in Drain(v).bits <==>
      k in v.bits || (k < v.total && k < MAX_CHUNKS && (v.image, k) in v.queue)
    decreases |v.queue|
  {
    if v.queue != [] {
      DrainMarks(Accept(v, v.queue[0]).(queue := v.queue[1..]));
      assert v.queue == [v.queue[0]] + v.queue[1..];
    }
  }

  lemma EdgeStep(frame: seq<Byte>, i: nat)
    requires i < Count(frame)
    ensures Edge(frame, i) < |frame|
    ensures Edge(frame, i + 1) == if Edge(frame, i) + CHUNK < |frame| then Edge(frame, i) + CHUNK else |frame|
    ensures i + 1 < Count(frame) <==> Edge(frame, i + 1) < |frame|
  {
    assert i + 1 < Count(frame) <==> CHUNK * (i + 1) < |frame|;
  }

  lemma PrefixSlice<T>(s: seq<T>, n: nat, a: nat, b: nat)
    requires a <= b <= n <= |s|
    ensures s[..n][a..b] == s[a..b]
  {
  }

  /** The i-th read of a frame from its start returns its i-th piece, and the last one leaves the driver idle. */
  lemma PieceRead(c: C.Cam, i: nat)
    requires C.Valid(c) && c.status == C.Ready && i < Count(C.Image(c)) && c.frameRead == Edge(C.Image(c), i)
    ensures C.Taken(c, CHUNK) == Piece(C.Image(c), i) != []
    ensures var d := C.ReadChunk(c, CHUNK);
      && d == c.(position := d.position, frameRead := Edge(C.Image(c), i + 1), status := d.status)
      && d.status == if i + 1 < Count(C.Image(c)) then C.Ready else C.Idle
  {
    var frame := C.Image(c);
    var a, b := Edge(frame, i), Edge(frame, i + 1);
    EdgeStep(frame, i);
    PrefixSlice(c.fifo, c.frameBytes, a, b);
    assert |frame[a..b]| == b - a > 0;
  }

  function BeginSweep(v: Vehicle): (r: Vehicle)
    requires C.Valid(v.cam)
    ensures C.Valid(r.cam)
  {
    if v.count == 0 || v.chunks != 0 || !C.CanRewind(v.cam) then v
    else v.(cam := C.Rewind(v.cam), phase := Sweeping(0))
  }

  /** One pass of the sweep's loop up to the bit test. */
  function SweepRead(v: Vehicle): (r: Vehicle)
    requires v.phase.Sweeping? && C.Valid(v.cam)
    ensures C.Valid(r.cam) && r.total == v.total
  {
    var i := v.phase.next;
    if i >= v.total || !v.active then v.(phase := Resting)
    else
      var data := C.Taken(v.cam, CHUNK);
      var w := v.(cam := C.ReadChunk(v.cam, CHUNK));
      if data == [] then w.(phase := Resting)
      else if i in v.bits then w.(phase := Holding(i, data))
      else w.(phase := Sweeping(i + 1))
  }

  /** The rest of it, once there is room or the mode was left. */
  function SweepSend(v: Vehicle): (r: Vehicle)
    requires v.phase.Holding?
    ensures r.cam == v.cam && r.total == v.total
  {
    var i := v.phase.index;
    if !v.active then v.(phase := Resting)
    else v.(sent := v.sent + [Chunk(v.image, i, v.total, v.phase.data)],
            bits := v.bits - {i}, count := v.count - 1, chunk := i, phase := Sweeping(i + 1))
  }

  /** One pass of the sweep's loop; g and h are what s_active reads in its guard and after the wait for room. */
  function SweepStep(v: Vehicle, g: bool, h: bool): (r: Vehicle)
    requires v.phase.Sweeping? && v.phase.next < v.total && C.Valid(v.cam)
    ensures C.Valid(r.cam) && r.total == v.total
    ensures r.phase == Resting || r.phase == Sweeping(v.phase.next + 1)
  {
    var r := SweepRead(v.(active := g));
    if r.phase.Holding? then SweepSend(r.(active := h)) else r
  }

  /** A sweep run to its end, the mode flag reading guard(i) and hold(i) on the way through chunk i. */
  function Sweep(v: Vehicle, guard: nat -> bool, hold: nat -> bool): (r: Vehicle)
    requires v.phase.Sweeping? && C.Valid(v.cam)
    ensures r.phase == Resting && C.Valid(r.cam)
    decreases v.total - v.phase.next
  {
    var i := v.phase.next;
    if i >= v.total then v.(phase := Resting)
    else
      var r := SweepStep(v, guard(i), hold(i));
      if r.phase.Sweeping? then Sweep(r, guard, hold) else r
  }

  lemma SweepOne(v: Vehicle, guard: nat -> bool, hold: nat -> bool) returns (r: Vehicle)
    requires v.phase.Sweeping? && v.phase.next < v.total && C.Valid(v.cam)
    ensures r == SweepStep(v, guard(v.phase.next), hold(v.phase.next)) && C.Valid(r.cam)
    ensures Sweep(v, guard, hold) == if r.phase.Sweeping? then Sweep(r, guard, hold) else r
  {
    r := SweepStep(v, guard(v.phase.next), hold(v.phase.next));
  }

  function Serve(v: Vehicle, guard: nat -> bool, hold: nat -> bool): (r: Vehicle)
    requires C.Valid(v.cam)
    ensures C.Valid(r.cam)
  {
    if BeginSweep(v).phase.Sweeping? then Sweep(BeginSweep(v), guard, hold) else BeginSweep(v)
  }

  class Task {
    const cam: C.Driver
    var active: bool
    var image: nat
    var chunk: nat
    var chunks: nat
    var total: nat
    var seen: nat
    const reqBits: array<bool>
    var reqCount: int
    var queue: seq<(nat, nat)>
    var sent: seq<Chunk>

    ghost predicate Valid()
      reads this, cam
    {
      reqBits.Length == MAX_CHUNKS && C.Valid(cam.Now())
    }

    ghost function Bits(): set<nat>
      reads reqBits
    {
      set k: nat | k < reqBits.Length && reqBits[k]
    }

    ghost function Now(): Vehicle
      reads this, cam, reqBits
    {
      Vehicle(cam.Now(), active, Resting, image, chunk, chunks, total, seen, Bits(), reqCount, queue, sent)
    }

    constructor (driver: C.Driver)
      requires C.Valid(driver.Now())
      ensures Valid() && cam == driver && fresh(reqBits)
      ensures Now() == Vehicle(driver.Now(), false, Resting, 0, 0, 0, 0, 0, {}, 0, [], [])
    {
      cam := driver;
      active := false;
      image, chunk, chunks, total, seen := 0, 0, 0, 0, 0;
      reqBits := new bool[MAX_CHUNKS](_ => false);
      reqCount, queue, sent := 0, [], [];
    }

    method ClearAll()
      requires Valid()
      modifies reqBits, this`reqCount
      ensures Bits() == {} && reqCount == 0
    {
      var i := 0;
      while i < reqBits.Length
        invariant i <= reqBits.Length
        invariant forall k :: 0 <= k < i ==> !reqBits[k]
      {
        reqBits[i] := false;
        i := i + 1;
      }
      reqCount := 0;
    }

    method FixShape() returns (begun: bool)
      requires Valid() && cam.status == C.Ready && chunks == 0
      modifies this, reqBits
      ensures Valid() && Now().(phase := Open(old(Now())).phase) == Open(old(Now()))
      ensures begun == Open(old(Now())).phase.Reading?
    {
      if cam.captures == seen {
        return false;
      }
      var remaining := cam.frameBytes - cam.frameRead;
      if remaining == 0 {
        return false;
      }
      seen := cam.captures;
      image := image + 1;
      chunk := 0;
      chunks := (remaining + CHUNK - 1) / CHUNK % 0x10000;
      total := chunks;
      ClearAll();
      begun := true;
    }

    method ReadOne() returns (ok: bool)
      requires Valid()
      modifies this, cam
      ensures Valid() && Now() == ReadAndSend(old(Now()))
      ensures ok == (C.Taken(old(cam.Now()), CHUNK) != []) && (ok <==> sent != old(sent))
    {
      var data := new Byte[CHUNK](_ => 0);
      var len := cam.Read(data, CHUNK);
      ok := len != 0;
      if len == 0 {
        chunks := 0;
        return;
      }
      sent := sent + [Chunk(image, chunk, total, data[..len])];
      chunk := chunk + 1;
      if chunk >= chunks {
        chunks := 0;
      }
    }

    method SendOne() returns (ok: bool)
      requires Valid()
      modifies this, cam, reqBits
      ensures Valid() && Now() == SendChunk(old(Now())) && (ok <==> sent != old(sent))
    {
      if cam.status != C.Ready {
        chunks := 0;
        return false;
      }
      if chunks == 0 {
        var begun := FixShape();
        if !begun {
          return false;
        }
      }
      ok := ReadOne();
    }

    /** The task's loop, with room on the links for so many chunks: it ends with the first call that sends nothing. */
    method FillLinks(room: nat)
      requires Valid()
      modifies this, cam, reqBits
      ensures Valid() && Now() == Pass(old(Now()), room)
    {
      var left := room;
      while active && left > 0
        invariant Valid() && Pass(Now(), left) == Pass(old(Now()), room)
        decreases left
      {
        var ok := SendOne();
        if !ok {
          return;
        }
        left := left - 1;
      }
    }

    method Request(r: Payload.Request)
      requires |r.chunks| == REQUEST_MAX
      modifies this`queue
      ensures Now() == EnqueueAll(old(Now()), r.image, Named(r))
    {
      var n: nat := if r.count > REQUEST_MAX then REQUEST_MAX else r.count;
      var i := 0;
      while i < n
        invariant i <= n
        invariant EnqueueAll(Now(), r.image, r.chunks[i..n]) == EnqueueAll(old(Now()), r.image, r.chunks[..n])
      {
        assert r.chunks[i..n][1..] == r.chunks[i + 1..n];
        if |queue| < QUEUE_DEPTH {
          queue := queue + [(r.image, r.chunks[i])];
        }
        i := i + 1;
      }
    }

    method DrainRequests()
      requires Valid()
      modifies this, reqBits
      ensures Valid() && Now() == Drain(old(Now()))
    {
      while queue != []
        invariant Valid() && cam.Now() == old(cam.Now())
        invariant Drain(Now()) == Drain(old(Now()))
        decreases |queue|
      {
        var w := queue[0];
        ghost var before := Now();
        queue := queue[1..];
        if w.0 == image && w.1 < total && w.1 < MAX_CHUNKS && !reqBits[w.1] {
          reqBits[w.1] := true;
          reqCount := reqCount + 1;
          assert Bits() == before.bits + {w.1};
        }
      }
    }

    /** Rewind once and sweep the frame, sending only what was asked for again. */
    method ServeRequests(guard: nat -> bool, hold: nat -> bool)
      requires Valid() && total <= MAX_CHUNKS
      modifies this, cam, reqBits
      ensures Valid() && Now() == Serve(old(Now()), guard, hold)
    {
      if reqCount == 0 || chunks != 0 {
        return;
      }
      var ok := cam.RewindFrame();
      if ok {
        SweepFrame(guard, hold);
      }
    }

    method SweepFrame(guard: nat -> bool, hold: nat -> bool)
      requires Valid() && total <= MAX_CHUNKS
      modifies this, cam, reqBits
      ensures Valid() && Now() == Sweep(old(Now()).(phase := Sweeping(0)), guard, hold)
    {
      ghost var v := Now().(phase := Sweeping(0));
      ghost var end := Sweep(v, guard, hold);
      var data := new Byte[CHUNK](_ => 0);
      var idx := 0;
      while idx < total
        invariant Valid() && total == old(total) == v.total && fresh(data)
        invariant Now() == v.(phase := Resting) && v.phase == Sweeping(idx) && Sweep(v, guard, hold) == end
      {
        v := SweepOne(v, guard, hold);
        var more := ServeOne(idx, data, guard(idx), hold(idx));
        if !more {
          return;
        }
        idx := idx + 1;
      }
    }

    method ServeOne(idx: nat, data: array<Byte>, g: bool, h: bool) returns (more: bool)
      requires Valid() && idx < total && idx < MAX_CHUNKS && data.Length == CHUNK
      modifies this, cam, reqBits, data
      ensures Valid() && total == old(total)
      ensures var r := SweepStep(old(Now()).(phase := Sweeping(idx)), g, h);
        Now() == r.(phase := Resting) && more == r.phase.Sweeping?
    {
      active := g;
      if !active {
        return false;
      }
      var len := cam.Read(data, CHUNK);
      if len == 0 {
        return false;
      }
      if reqBits[idx] {
        active := h;
        if !active {
          return false;
        }
        SendAgain(idx, data[..len]);
      }
      more := true;
    }

    method SendAgain(idx: nat, data: seq<Byte>)
      requires Valid() && active && idx < MAX_CHUNKS
      modifies this, reqBits
      ensures Valid() && Now().(phase := Sweeping(idx + 1)) == SweepSend(old(Now()).(phase := Holding(idx, data)))
    {
      ghost var before := Bits();
      sent := sent + [Chunk(image, idx, total, data)];
      reqBits[idx] := false;
      assert Bits() == before - {idx};
      reqCount := reqCount - 1;
      chunk := idx;
    }
  }
}
