/** Ground reassembly of a downlinked image (tools/ground/payload.py). */
module Assembler {
  import opened Wire
  import opened Payload

  datatype Image = Image(id: nat, chunks: nat, parts: map<nat, seq<Byte>>)

  predicate Complete(img: Image) { |img.parts| == img.chunks }

  // ---- the parts in index order ----

  function Least(keys: set<nat>): (m: nat)
    requires keys != {}
    ensures m in keys && forall k :: k in keys ==> m <= k
  {
    LeastExists(keys);
    var m :| m in keys && forall k :: k in keys ==> m <= k;
    m
  }

  lemma {:induction false} LeastExists(keys: set<nat>)
    requires keys != {}
    ensures exists m :: m in keys && forall k :: k in keys ==> m <= k
  {
    var x :| x in keys;
    var rest := keys - {x};
    if rest == {} {
      assert keys == {x};
    } else {
      LeastExists(rest);
      var m :| m in rest && forall k :: k in rest ==> m <= k;
      var best := if m < x then m else x;
      assert best in keys && forall k :: k in keys ==> best <= k by {
        assert forall k :: k in keys ==> k == x || k in rest;
      }
    }
  }

  /** The parts joined in ascending order of index. */
  function Joined(parts: map<nat, seq<Byte>>, keys: set<nat>): seq<Byte>
    requires keys <= parts.Keys
  {
    if keys == {} then [] else parts[Least(keys)] + Joined(parts, keys - {Least(keys)})
  }

  function Data(img: Image): seq<Byte> { Joined(img.parts, img.parts.Keys) }

  /** The indices from i on that have not arrived, in order. */
  function MissingFrom(img: Image, i: nat): (m: seq<nat>)
    ensures forall k :: k in m <==> i <= k < img.chunks && k !in img.parts
    ensures forall a, b :: 0 <= a < b < |m| ==> m[a] < m[b]
    decreases img.chunks - i
  {
    if i >= img.chunks then []
    else if i in img.parts then MissingFrom(img, i + 1)
    else
      var rest := MissingFrom(img, i + 1);
      assert forall b :: 0 <= b < |rest| ==> rest[b] in rest;
      [i] + rest
  }

  function Missing(img: Image): seq<nat> { MissingFrom(img, 0) }

  // ---- the assembler ----

  const DONE_MAX := 4

  datatype State = State(images: map<nat, Image>, done: seq<(nat, nat)>)

  const EMPTY := State(map[], [])

  function Remembered(done: seq<(nat, nat)>, x: (nat, nat)): (r: seq<(nat, nat)>)
    ensures |done| <= DONE_MAX ==> |r| <= DONE_MAX
  {
    if |done| < DONE_MAX then done + [x] else done[1..] + [x]
  }

  /** The image a chunk belongs to, with the chunk filed. */
  function Filed(s: State, c: Chunk): Image {
    var known := if c.image in s.images && s.images[c.image].chunks == c.total
      then s.images[c.image] else Image(c.image, c.total, map[]);
    known.(parts := known.parts[c.index := c.data])
  }

  function Pushed(s: State, c: Chunk): State {
    if (c.image, c.total) in s.done then s
    else
      var img := Filed(s, c);
      if Complete(img) then State(s.images - {c.image}, Remembered(s.done, (c.image, c.total)))
      else s.(images := s.images[c.image := img])
  }

  function Yield(s: State, c: Chunk): Option<Image> {
    if (c.image, c.total) in s.done || !Complete(Filed(s, c)) then None else Some(Filed(s, c))
  }

  /** The newest id on file, which is the only one the vehicle may still hold. */
  function Newest(keys: set<nat>): (m: nat)
    requires keys != {}
    ensures m in keys && forall k :: k in keys ==> k <= m
  {
    NewestExists(keys);
    var m :| m in keys && forall k :: k in keys ==> k <= m;
    m
  }

  lemma {:induction false} NewestExists(keys: set<nat>)
    requires keys != {}
    ensures exists m :: m in keys && forall k :: k in keys ==> k <= m
  {
    var x :| x in keys;
    var rest := keys - {x};
    if rest == {} {
      assert keys == {x};
    } else {
      NewestExists(rest);
      var m :| m in rest && forall k :: k in rest ==> k <= m;
      var best := if m < x then x else m;
      assert best in keys && forall k :: k in keys ==> k <= best by {
        assert forall k :: k in keys ==> k == x || k in rest;
      }
    }
  }

  /** The incomplete image most worth chasing, and what it lacks. */
  function Pending(s: State): Option<(nat, seq<nat>)> {
    if s.images == map[] then None
    else
      var id := Newest(s.images.Keys);
      var missing := Missing(s.images[id]);
      if missing == [] then None else Some((id, missing))
  }

  class Store {
    var images: map<nat, Image>
    var done: seq<(nat, nat)>

    ghost function Now(): State
      reads this
    {
      State(images, done)
    }

    constructor ()
      ensures Now() == EMPTY
    {
      images, done := map[], [];
    }

    method Push(c: Chunk) returns (complete: Option<Image>)
      modifies this
      ensures Now() == Pushed(old(Now()), c)
      ensures complete == Yield(old(Now()), c)
    {
      if (c.image, c.total) in done {
        return None;
      }
      var img := if c.image in images then Some(images[c.image]) else None;
      if img.None? || img.value.chunks != c.total {
        img := Some(Image(c.image, c.total, map[]));
        images := images[c.image := img.value];
      }
      var filed := img.value.(parts := img.value.parts[c.index := c.data]);
      images := images[c.image := filed];
      if |filed.parts| != filed.chunks {
        return None;
      }
      images := images - {c.image};
      done := Remembered(done, (c.image, c.total));
      complete := Some(filed);
    }

    method Wanted() returns (want: Option<(nat, seq<nat>)>)
      ensures want == Pending(Now())
    {
      if images == map[] {
        return None;
      }
      var id := Newest(images.Keys);
      var missing := Missing(images[id]);
      want := if missing == [] then None else Some((id, missing));
    }
  }

  // ---- why the joined parts are the frame ----

  /** Indices lo .. n - 1. */
  function Span(lo: nat, n: nat): (s: set<nat>)
    ensures forall k :: k in s <==> lo <= k < n
    ensures lo <= n ==> |s| == n - lo
    decreases n - lo
  {
    if lo >= n then {} else {lo} + Span(lo + 1, n)
  }

  /** n distinct indices below n are all of them. */
  lemma Pigeonhole(keys: set<nat>, n: nat)
    requires keys <= Span(0, n) && |keys| == n
    ensures keys == Span(0, n)
  {
    var rest := Span(0, n) - keys;
    assert Span(0, n) == keys + rest && keys !! rest;
    assert |rest| == 0;
  }

  lemma JoinedStep(parts: map<nat, seq<Byte>>, lo: nat, n: nat)
    requires lo < n && Span(lo, n) <= parts.Keys
    ensures Joined(parts, Span(lo, n)) == parts[lo] + Joined(parts, Span(lo + 1, n))
  {
    var keys := Span(lo, n);
    assert lo in keys && Least(keys) == lo;
    assert keys - {lo} == Span(lo + 1, n);
  }

  /** Part k is what `rest` loses from k to k + 1. */
  predicate Peels(parts: map<nat, seq<Byte>>, rest: nat -> seq<Byte>, k: nat) {
    k in parts && rest(k) == parts[k] + rest(k + 1)
  }

  lemma JoinedOne(parts: map<nat, seq<Byte>>, rest: nat -> seq<Byte>, lo: nat, n: nat)
    requires lo < n && Span(lo, n) <= parts.Keys && Peels(parts, rest, lo)
    requires Joined(parts, Span(lo + 1, n)) == rest(lo + 1)
    ensures Joined(parts, Span(lo, n)) == rest(lo)
  {
    JoinedStep(parts, lo, n);
  }

  /** Parts that each peel one element off `rest` join up to it. */
  lemma {:induction false} JoinedTail(parts: map<nat, seq<Byte>>, rest: nat -> seq<Byte>, lo: nat, n: nat)
    requires lo <= n && Span(lo, n) <= parts.Keys
    requires rest(n) == [] && forall k :: lo <= k < n ==> Peels(parts, rest, k)
    ensures Joined(parts, Span(lo, n)) == rest(lo)
    decreases n - lo
  {
    if lo == n {
      assert Span(lo, n) == {};
    } else {
      JoinedTail(parts, rest, lo + 1, n);
      JoinedOne(parts, rest, lo, n);
    }
  }

  lemma OnePieceMore(frame: seq<Byte>, k: nat)
    ensures frame[Edge(frame, k)..] == Piece(frame, k) + frame[Edge(frame, k + 1)..]
  {
  }

  lemma JoinedPieces(parts: map<nat, seq<Byte>>, frame: seq<Byte>, n: nat)
    requires CHUNK * n >= |frame| && parts.Keys == Span(0, n)
    requires forall k :: k in parts ==> parts[k] == Piece(frame, k)
    ensures Joined(parts, parts.Keys) == frame
  {
    var rest: nat -> seq<Byte> := k => frame[Edge(frame, k)..];
    forall k | 0 <= k < n ensures Peels(parts, rest, k) {
      OnePieceMore(frame, k);
      assert k in parts;
    }
    JoinedTail(parts, rest, 0, n);
  }

  /** Chunk c is a true piece of the frame sent under its image id. */
  predicate TruePiece(c: Chunk, frames: map<nat, seq<Byte>>) {
    && c.image in frames && c.total == Count(frames[c.image])
    && c.index < c.total && c.data == Piece(frames[c.image], c.index)
  }

  predicate TrueImage(img: Image, frames: map<nat, seq<Byte>>) {
    && img.id in frames && img.chunks == Count(frames[img.id])
    && (forall k :: k in img.parts ==> k < img.chunks && img.parts[k] == Piece(frames[img.id], k))
  }

  predicate TrueState(s: State, frames: map<nat, seq<Byte>>) {
    forall id :: id in s.images ==>
      && s.images[id].id == id && TrueImage(s.images[id], frames)
      && !Complete(s.images[id]) && (id, s.images[id].chunks) !in s.done
  }

  /** A complete image built from true pieces is the frame, byte for byte. */
  lemma CompleteIsWhole(img: Image, frames: map<nat, seq<Byte>>)
    requires TrueImage(img, frames) && Complete(img)
    ensures Data(img) == frames[img.id]
  {
    var frame := frames[img.id];
    forall k | k in img.parts ensures k in Span(0, img.chunks) {}
    assert |img.parts.Keys| == |img.parts|;
    Pigeonhole(img.parts.Keys, img.chunks);
    JoinedPieces(img.parts, frame, img.chunks);
  }

  lemma FiledTrue(s: State, c: Chunk, frames: map<nat, seq<Byte>>)
    requires TrueState(s, frames) && TruePiece(c, frames)
    ensures TrueImage(Filed(s, c), frames) && Filed(s, c).id == c.image && Filed(s, c).chunks == c.total
  {
  }

  lemma RememberedOnly(done: seq<(nat, nat)>, x: (nat, nat), y: (nat, nat))
    ensures y in Remembered(done, x) ==> y == x || y in done
  {
  }

  lemma PushKeepsTrueState(s: State, c: Chunk, frames: map<nat, seq<Byte>>)
    requires TrueState(s, frames) && TruePiece(c, frames)
    ensures TrueState(Pushed(s, c), frames)
  {
    FiledTrue(s, c, frames);
    var r := Pushed(s, c);
    forall id | id in r.images
      ensures r.images[id].id == id && TrueImage(r.images[id], frames)
      ensures !Complete(r.images[id]) && (id, r.images[id].chunks) !in r.done
    {
      RememberedOnly(s.done, (c.image, c.total), (id, r.images[id].chunks));
    }
  }

  /** Whatever order, repetition and gaps true pieces arrive with, the store stays true and yields only whole frames. */
  lemma PushKeepsTrue(s: State, c: Chunk, frames: map<nat, seq<Byte>>)
    requires TrueState(s, frames) && TruePiece(c, frames)
    ensures TrueState(Pushed(s, c), frames)
    ensures Yield(s, c).Some? ==>
      var img := Yield(s, c).value; img.id in frames && Data(img) == frames[img.id]
  {
    FiledTrue(s, c, frames);
    PushKeepsTrueState(s, c, frames);
    if Complete(Filed(s, c)) { CompleteIsWhole(Filed(s, c), frames); }
  }
}
