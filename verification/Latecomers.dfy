/** What the ground's store makes of repeats, and of chunks that contradict each other (tools/ground/payload.py). */
module Latecomers {
  import opened Wire
  import opened Payload
  import opened Assembler

  // ---- repeats of a finished image ----

  function PushAll(s: State, cs: seq<Chunk>): State
    decreases |cs|
  {
    if cs == [] then s else PushAll(Pushed(s, cs[0]), cs[1..])
  }

  /** How many images the chunks finish. */
  function Finished(s: State, cs: seq<Chunk>): nat
    decreases |cs|
  {
    if cs == [] then 0 else (if Yield(s, cs[0]).Some? then 1 else 0) + Finished(Pushed(s, cs[0]), cs[1..])
  }

  /** x is remembered as finished with exactly j images finished after it. */
  predicate Behind(done: seq<(nat, nat)>, x: (nat, nat), j: nat) {
    && |done| <= 4 && (forall i :: 0 <= i < |done| && |done| - j <= i ==> done[i] != x)
    && (j < 4 ==> j < |done| && done[|done| - 1 - j] == x)
    && (j >= 4 ==> |done| == 4)
  }

  lemma OneMoreFinished(done: seq<(nat, nat)>, x: (nat, nat), y: (nat, nat), j: nat)
    requires Behind(done, x, j) && j < 4 && y != x
    ensures Behind(Remembered(done, y), x, j + 1)
  {
  }

  lemma DoneAfter(s: State, c: Chunk) returns (r: State)
    ensures r == Pushed(s, c)
    ensures if Yield(s, c).Some? then (c.image, c.total) !in s.done && r.done == Remembered(s.done, (c.image, c.total))
      else r.done == s.done
  {
    r := Pushed(s, c);
  }

  lemma StepBehind(s: State, c: Chunk, x: (nat, nat), j: nat) returns (r: State, k: nat)
    requires Behind(s.done, x, j) && (Yield(s, c).Some? ==> j < 4)
    ensures r == Pushed(s, c) && k == j + (if Yield(s, c).Some? then 1 else 0) && Behind(r.done, x, k)
  {
    r := DoneAfter(s, c);
    k := j + if Yield(s, c).Some? then 1 else 0;
    if Yield(s, c).Some? { OneMoreFinished(s.done, x, (c.image, c.total), j); }
  }

  lemma {:induction false} StaysBehind(s: State, cs: seq<Chunk>, x: (nat, nat), j: nat) returns (e: State, n: nat)
    requires Behind(s.done, x, j) && j + Finished(s, cs) <= 4
    ensures e == PushAll(s, cs) && n == j + Finished(s, cs) && Behind(e.done, x, n)
    decreases |cs|
  {
    if cs == [] {
      e, n := s, j;
    } else {
      var r, k := StepBehind(s, cs[0], x, j);
      e, n := StaysBehind(r, cs[1..], x, k);
    }
  }

  /**
   * A chunk of a finished image changes nothing and yields nothing as long as fewer than four images have finished
   * since; at the fourth it is forgotten, and its id may be used again.
   */
  lemma RepeatsAreIgnored(s: State, c: Chunk, cs: seq<Chunk>, late: Chunk)
    requires |s.done| <= 4 && Yield(s, c).Some? && Finished(Pushed(s, c), cs) <= 4
    requires late.image == c.image && late.total == c.total
    ensures var r, n := PushAll(Pushed(s, c), cs), Finished(Pushed(s, c), cs);
      && (n < 4 ==> Pushed(r, late) == r && Yield(r, late).None?)
      && (n == 4 ==> (late.image, late.total) !in r.done)
  {
    var e, n := StaysBehind(Pushed(s, c), cs, (c.image, c.total), 0);
  }

  // ---- what is on file of an image, whatever its chunks claim ----

  /** The chunks of this id since the last one that gave another total. */
  function Current(cs: seq<Chunk>, id: nat): (r: seq<Chunk>)
    ensures forall i :: 0 <= i < |r| ==> r[i].image == id && r[i].total == r[0].total
  {
    if cs == [] then []
    else
      var c, before := cs[|cs| - 1], Current(cs[..|cs| - 1], id);
      if c.image != id then before
      else if before != [] && before[0].total == c.total then before + [c] else [c]
  }

  /** The data of the last of these chunks with index k. */
  function LastOf(cs: seq<Chunk>, k: nat): Option<seq<Byte>> {
    if cs == [] then None
    else if cs[|cs| - 1].index == k then Some(cs[|cs| - 1].data) else LastOf(cs[..|cs| - 1], k)
  }

  /** What these chunks of one image put on file. */
  ghost predicate Files(img: Image, id: nat, cs: seq<Chunk>) {
    && cs != [] && img.id == id && img.chunks == cs[0].total
    && (forall k :: k in img.parts <==> k in Indices(cs))
    && (forall k :: k in img.parts ==> LastOf(cs, k) == Some(img.parts[k]))
  }

  ghost predicate OnFile(s: State, cs: seq<Chunk>) {
    forall id ::
      && (id in s.images <==> Current(cs, id) != [])
      && (id in s.images ==> Files(s.images[id], id, Current(cs, id)))
  }

  lemma FilesOne(img: Image, cs: seq<Chunk>, c: Chunk)
    requires Files(img, c.image, cs) && img.chunks == c.total
    ensures Files(img.(parts := img.parts[c.index := c.data]), c.image, cs + [c])
  {
    IndicesConcat(cs, [c]);
    IndicesCons(c, []);
    assert [c] + [] == [c] && Indices([c]) == {c.index};
    assert (cs + [c])[..|cs|] == cs;
    forall k | k != c.index ensures LastOf(cs + [c], k) == LastOf(cs, k) {}
  }

  lemma FilesFirst(c: Chunk)
    ensures Files(Image(c.image, c.total, map[c.index := c.data]), c.image, [c])
  {
    IndicesCons(c, []);
    assert [c] + [] == [c] && Indices([c]) == {c.index};
  }

  lemma OneMoreOnFile(s: State, cs: seq<Chunk>, c: Chunk)
    requires OnFile(s, cs) && s.done == [] && Yield(s, c).None?
    ensures OnFile(Pushed(s, c), cs + [c])
  {
    assert (cs + [c])[..|cs|] == cs;
    var before, r := Current(cs, c.image), Pushed(s, c);
    if before != [] && before[0].total == c.total {
      FilesOne(s.images[c.image], before, c);
    } else {
      FilesFirst(c);
      assert map[][c.index := c.data] == map[c.index := c.data];
    }
    forall id
      ensures (id in r.images <==> Current(cs + [c], id) != [])
      ensures id in r.images ==> Files(r.images[id], id, Current(cs + [c], id))
    {
      if id != c.image { assert Current(cs + [c], id) == Current(cs, id); }
    }
  }

  lemma {:induction false} PushSnoc(s: State, cs: seq<Chunk>, c: Chunk)
    ensures PushAll(s, cs + [c]) == Pushed(PushAll(s, cs), c)
    ensures Finished(s, cs + [c]) == Finished(s, cs) + if Yield(PushAll(s, cs), c).Some? then 1 else 0
    decreases |cs|
  {
    if cs == [] {
      assert [] + [c] == [c] && [c][1..] == [];
    } else {
      assert (cs + [c])[1..] == cs[1..] + [c] && (cs + [c])[0] == cs[0];
      PushSnoc(Pushed(s, cs[0]), cs[1..], c);
    }
  }

  /**
   * Until something is finished, what is on file of an image is what its chunks brought since the last one that gave
   * another total: their indices, and for each the data that came last.
   */
  lemma {:induction false} FileOfARun(cs: seq<Chunk>)
    requires Finished(EMPTY, cs) == 0
    ensures PushAll(EMPTY, cs).done == [] && OnFile(PushAll(EMPTY, cs), cs)
    decreases |cs|
  {
    if cs != [] {
      var front, c := cs[..|cs| - 1], cs[|cs| - 1];
      assert cs == front + [c];
      PushSnoc(EMPTY, front, c);
      FileOfARun(front);
      var s := PushAll(EMPTY, front);
      var r := DoneAfter(s, c);
      OneMoreOnFile(s, front, c);
    }
  }

  /** What the ground chases is the largest id on file, and of that what it lacks; older images are never asked for. */
  lemma WantsNewest(s: State, id: nat)
    requires id in s.images && forall k :: k in s.images ==> k <= id
    ensures var lacks := Missing(s.images[id]);
      Pending(s) == if lacks == [] then None else Some((id, lacks))
  {
    assert Newest(s.images.Keys) == id;
  }
}
