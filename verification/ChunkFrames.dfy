/** Image chunks all the way over the air: packed, framed, cut into packets, decoded and unpacked. */
module ChunkFrames {
  import opened Wire
  import opened Frame
  import opened Payload
  import opened Radio

  const PAYLOAD_DATA: Byte := 0x10

  function FrameOf(c: Chunk): (m: Message)
    requires |c.data| <= CHUNK
    ensures Framable(m)
  {
    Message(PAYLOAD_DATA, PackChunk(c))
  }

  predicate AllFit(cs: seq<Chunk>) { forall i :: 0 <= i < |cs| ==> FitsWire(cs[i]) }

  function FramesOf(cs: seq<Chunk>): (ms: seq<Message>)
    requires AllFit(cs)
    ensures |ms| == |cs| && AllFramable(ms) && forall i :: 0 <= i < |cs| ==> ms[i] == FrameOf(cs[i])
  {
    seq(|cs|, i requires 0 <= i < |cs| => FrameOf(cs[i]))
  }

  /** Chunks whose packets all arrive come out of the ground decoder as they went in, whatever their bytes. */
  lemma ChunksCrossTheAir(cs: seq<Chunk>)
    requires AllFit(cs)
    ensures var ms := Out(Hunting, AirStream(FramesOf(cs)), MAX_PAYLOAD);
      |ms| == |cs| && forall i :: 0 <= i < |cs| ==> |ms[i].payload| == 64 && UnpackChunk(ms[i].payload) == cs[i]
  {
    RadioRoundTrip(FramesOf(cs));
    forall i | 0 <= i < |cs| ensures UnpackChunk(FramesOf(cs)[i].payload) == cs[i] {
      ChunkRoundTrip(cs[i]);
    }
  }
}
