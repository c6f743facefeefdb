/** The camera driver: capture state machine and FIFO reads (obc/Src/devices/ov2640.c). */
module Camera {
  import opened Wire

  datatype Status = Idle | Capturing | Ready | Failed

  const FIFO_MAX := 0x100000
  const CAPTURE_TIMEOUT := 1000

  /** The driver's statics, and the chip's memory and read position behind the bus. */
  datatype Cam = Cam(
    configured: bool, status: Status, fifo: seq<Byte>, position: nat,
    frameBytes: nat, frameRead: nat, captures: nat, startedAt: nat)

  /** After bring-up, which says whether the camera answered. */
  function PowerOn(up: bool): Cam { Cam(up, Idle, [], 0, 0, 0, 0, 0) }

  /** What every call keeps: the chip's position is where the driver believes it is. */
  predicate Valid(c: Cam) {
    && c.frameRead <= c.frameBytes <= |c.fifo| && c.frameBytes <= FIFO_MAX
    && (c.frameBytes > 0 ==> c.position == c.frameRead)
    && (c.status == Capturing || c.status == Failed ==> c.frameBytes == 0)
    && (c.status == Ready ==> c.frameRead < c.frameBytes)
  }

  /** The frame a consumer may read: up to the end-of-image marker, without the padding. */
  function Image(c: Cam): seq<Byte>
    requires Valid(c)
  {
    c.fifo[..c.frameBytes]
  }

  predicate EndsAt(s: seq<Byte>, n: nat) { 2 <= n <= |s| && s[n - 2] == 0xFF && s[n - 1] == 0xD9 }

  /** Length up to and including the first FF D9; 0 when there is none. */
  function JpegLength(s: seq<Byte>): (n: nat)
    ensures n == 0 <==> forall m: nat :: !EndsAt(s, m)
    ensures n > 0 ==> EndsAt(s, n) && forall m: nat :: m < n ==> !EndsAt(s, m)
  {
    if |s| < 2 then 0
    else
      var front := s[..|s| - 1];
      var n := JpegLength(front);
      assert forall m: nat :: m < |s| ==> EndsAt(s, m) == EndsAt(front, m);
      if n > 0 then n else if EndsAt(s, |s|) then |s| else 0
  }

  function CaptureStart(c: Cam, t: nat): (r: Cam)
    requires Valid(c)
    ensures Valid(r)
  {
    if !c.configured || c.status == Capturing then c
    else c.(status := Capturing, fifo := [], position := 0, captures := c.captures + 1,
            startedAt := t, frameBytes := 0, frameRead := 0)
  }

  /** `done` is what the chip latched, once its done flag is up. */
  function Poll(c: Cam, t: nat, done: Option<seq<Byte>>): (r: Cam)
    requires Valid(c)
    ensures Valid(r)
  {
    if c.status != Capturing then c
    else match done
      case Some(data) =>
        if |data| == 0 || |data| > FIFO_MAX then c.(status := Failed, fifo := data, position := 0)
        else
          var n := JpegLength(data);
          c.(status := if n > 0 then Ready else Failed, fifo := data, position := 0, frameBytes := n)
      case None =>
        if Since(t, c.startedAt) > CAPTURE_TIMEOUT then c.(status := Failed) else c
  }

  predicate CanRewind(c: Cam) { c.frameBytes > 0 && (c.status == Ready || c.status == Idle) }

  function Rewind(c: Cam): (r: Cam)
    requires Valid(c)
    ensures Valid(r)
  {
    if CanRewind(c) then c.(position := 0, frameRead := 0, status := Ready) else c
  }

  /** What a read of up to n bytes returns. */
  function Taken(c: Cam, n: nat): seq<Byte>
    requires Valid(c)
  {
    if c.status != Ready then []
    else c.fifo[c.frameRead .. if c.frameRead + n < c.frameBytes then c.frameRead + n else c.frameBytes]
  }

  function ReadChunk(c: Cam, n: nat): (r: Cam)
    requires Valid(c)
    ensures Valid(r)
  {
    var k := |Taken(c, n)|;
    if k == 0 then c
    else c.(position := c.position + k, frameRead := c.frameRead + k,
            status := if c.frameRead + k >= c.frameBytes then Idle else Ready)
  }

  function FrameBytes(c: Cam): nat
    requires Valid(c)
  {
    if c.status == Ready then c.frameBytes - c.frameRead else 0
  }

  function Discard(c: Cam): (r: Cam)
    ensures Valid(r)
  {
    c.(status := Idle, fifo := [], position := 0, frameBytes := 0, frameRead := 0)
  }

  /** Everything reads of up to n bytes return from here until the driver says the frame is drained. */
  function ReadOut(c: Cam, n: nat): seq<Byte>
    requires Valid(c) && n > 0
    decreases c.frameBytes - c.frameRead
  {
    if c.status != Ready then [] else Taken(c, n) + ReadOut(ReadChunk(c, n), n)
  }

  lemma ReadAdvances(c: Cam, n: nat)
    requires Valid(c) && n > 0 && c.status == Ready
    ensures var d := ReadChunk(c, n);
      && c.frameRead < d.frameRead <= |Image(c)| && Image(d) == Image(c)
      && Taken(c, n) == Image(c)[c.frameRead..d.frameRead]
      && (d.status == Ready || (d.status == Idle && d.frameRead == |Image(c)|))
  {
  }

  lemma {:induction false} ReadOutIsRest(c: Cam, n: nat)
    requires Valid(c) && n > 0 && c.status == Ready
    ensures ReadOut(c, n) == Image(c)[c.frameRead..]
    decreases c.frameBytes - c.frameRead
  {
    var d := ReadChunk(c, n);
    ReadAdvances(c, n);
    if d.status == Ready { ReadOutIsRest(d, n); }
    var i, j := c.frameRead, d.frameRead;
    assert Image(c)[i..] == Image(c)[i..j] + Image(c)[j..];
  }

  /** However often it has been read before and in chunks of any size, a rewound frame comes out whole. */
  lemma RewoundReadsWhole(c: Cam, n: nat)
    requires Valid(c) && n > 0 && CanRewind(c)
    ensures ReadOut(Rewind(c), n) == Image(c)
    ensures CanRewind(ReadChunk(Rewind(c), n)) && Image(ReadChunk(Rewind(c), n)) == Image(c)
  {
    ReadOutIsRest(Rewind(c), n);
  }

  /**
   * A capture started at `start`, on a clock that never wraps, fails for want of a frame at the first poll more than a
   * second later, and not before; so long as polls come less than a wrap after it.
   */
  lemma TimesOutIff(c: Cam, start: nat, at: nat)
    requires Valid(c) && c.status == Capturing && c.startedAt == start % WRAP && start <= at < start + WRAP
    ensures var r := Poll(c, at % WRAP, None);
      (r.status == Failed <==> at > start + 1000) && (r.status != Failed ==> r == c)
  {
    SinceIsElapsed(start, at - start);
  }

  /**
   * What a finished capture becomes: a frame ready to be read from its first byte, ending with its first FF D9, if it
   * is no longer than the memory and has such a marker; and otherwise a failure, with nothing to read.
   */
  lemma CaptureEndsIn(c: Cam, t: nat, t': nat, data: seq<Byte>)
    requires Valid(c) && c.configured && c.status != Capturing
    ensures var r := Poll(CaptureStart(c, t), t', Some(data));
      && r.captures == c.captures + 1
      && (r.status == Ready <==> |data| <= 0x100000 && exists m: nat :: EndsAt(data, m))
      && (r.status == Ready ==>
            && r.frameRead == 0 && EndsAt(data, |Image(r)|) && Image(r) == data[..|Image(r)|]
            && forall m: nat :: m < |Image(r)| ==> !EndsAt(data, m))
      && (r.status != Ready ==> r.status == Failed && !CanRewind(r) && FrameBytes(r) == 0)
  {
  }

  /** A refused start leaves the driver alone: one not brought up, or one with a capture under way. */
  lemma StartsIff(c: Cam, t: nat)
    requires Valid(c)
    ensures var r := CaptureStart(c, t);
      (c.configured && c.status != Capturing <==> r.captures == c.captures + 1)
      && (r.captures == c.captures ==> r == c)
      && (r.captures != c.captures ==> r.status == Capturing && r.startedAt == t && !CanRewind(r))
  {
  }

  /** A discarded frame cannot be read or swept again, and a new capture is still told from it by the count. */
  lemma DiscardForgets(c: Cam, n: nat)
    requires Valid(c)
    ensures var r := Discard(c);
      FrameBytes(r) == 0 && Taken(r, n) == [] && !CanRewind(r) && r.captures == c.captures
  {
  }

  class Driver {
    var configured: bool
    var status: Status
    var fifo: seq<Byte>
    var position: nat
    var frameBytes: nat
    var frameRead: nat
    var captures: nat
    var startedAt: nat

    ghost function Now(): Cam
      reads this
    {
      Cam(configured, status, fifo, position, frameBytes, frameRead, captures, startedAt)
    }

    constructor (up: bool)
      ensures Now() == PowerOn(up)
    {
      configured, status, fifo, position := up, Idle, [], 0;
      frameBytes, frameRead, captures, startedAt := 0, 0, 0, 0;
    }

    /** One byte clocked out of the FIFO. */
    method Transfer() returns (b: Byte)
      requires position < |fifo|
      modifies this`position
      ensures b == fifo[old(position)] && position == old(position) + 1
    {
      b := fifo[position];
      position := position + 1;
    }

    method ScanJpegLength() returns (end: nat)
      requires position == 0
      modifies this`position
      ensures end == JpegLength(fifo) && position == 0
    {
      end := 0;
      var prev: Byte := 0;
      var i := 0;
      while i < |fifo|
        invariant i <= |fifo| && position == i && end == 0
        invariant prev == if i == 0 then 0 else fifo[i - 1]
        invariant forall m: nat :: m <= i ==> !EndsAt(fifo, m)
      {
        var b := Transfer();
        if prev == 0xFF && b == 0xD9 {
          end := i + 1;
          assert EndsAt(fifo, end);
          break;
        }
        prev := b;
        i := i + 1;
      }
      position := 0;
    }

    method StartCapture(t: nat) returns (ok: bool)
      requires Valid(Now())
      modifies this
      ensures Now() == CaptureStart(old(Now()), t)
      ensures ok <==> captures == old(captures) + 1
    {
      if !configured || status == Capturing {
        return false;
      }
      fifo, position := [], 0;
      status := Capturing;
      captures := captures + 1;
      startedAt := t;
      frameBytes, frameRead := 0, 0;
      ok := true;
    }

    method PollCapture(t: nat, done: Option<seq<Byte>>) returns (s: Status)
      requires Valid(Now())
      modifies this
      ensures Now() == Poll(old(Now()), t, done) && s == status
    {
      if status != Capturing {
        return status;
      }
      if done.Some? {
        fifo, position := done.value, 0;
        var n := |fifo|;
        if n == 0 || n > FIFO_MAX {
          status := Failed;
          return status;
        }
        frameBytes := ScanJpegLength();
        status := if frameBytes > 0 then Ready else Failed;
        return status;
      }
      if Since(t, startedAt) > CAPTURE_TIMEOUT {
        status := Failed;
      }
      s := status;
    }

    method RewindFrame() returns (ok: bool)
      requires Valid(Now())
      modifies this
      ensures Now() == Rewind(old(Now())) && ok == CanRewind(old(Now()))
    {
      ok := false;
      if frameBytes > 0 && (status == Ready || status == Idle) {
        position := 0;
        frameRead := 0;
        status := Ready;
        ok := true;
      }
    }

    /** Fill buf with up to n bytes of the frame, in order, from where the last read stopped. */
    method Read(buf: array<Byte>, n: nat) returns (k: nat)
      requires Valid(Now()) && n <= buf.Length
      modifies this, buf
      ensures Now() == ReadChunk(old(Now()), n)
      ensures k <= n && buf[..k] == Taken(old(Now()), n)
    {
      if status != Ready || n == 0 {
        return 0;
      }
      var left := frameBytes - frameRead;
      k := if n > left then left else n;
      ghost var from := position;
      var i := 0;
      while i < k
        invariant 0 <= i <= k && from + k <= |fifo|
        invariant position == from + i
        invariant buf[..i] == fifo[from..from + i]
        invariant unchanged(`fifo) && unchanged(`configured) && unchanged(`status) && unchanged(`frameBytes)
        invariant unchanged(`frameRead) && unchanged(`captures) && unchanged(`startedAt)
      {
        buf[i] := Transfer();
        i := i + 1;
      }
      frameRead := frameRead + k;
      if frameRead >= frameBytes {
        status := Idle;
      }
    }

    method DiscardFrame()
      modifies this
      ensures Now() == Discard(old(Now()))
    {
      fifo, position := [], 0;
      status := Idle;
      frameBytes, frameRead := 0, 0;
    }
  }
}
