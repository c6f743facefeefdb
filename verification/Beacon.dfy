/** The beacon's three-deep outbound queue (obc/Src/freertos/telemetry_task.cpp). */
module Beacon {
  import opened Wire

  const DEPTH := 3
  const MAX_FRAME := 70

  /** The slot of the i-th waiting frame. */
  function Slot(head: nat, i: nat): (k: nat)
    ensures k < DEPTH
  {
    (head + i) % DEPTH
  }

  /** A slot holds one frame's bytes; its length is the sequence's. */
  class Queue {
    const slots: array<seq<Byte>>
    var head: nat
    var count: nat
    var dropped: nat
    /** Frames taken into the queue and frames handed to the radio, since boot, and how many were offered. */
    ghost var accepted: seq<seq<Byte>>
    ghost var sent: seq<seq<Byte>>
    ghost var offered: nat

    ghost predicate Valid()
      reads this, slots
    {
      && slots.Length == DEPTH && head < DEPTH && count <= DEPTH
      && accepted == sent + Waiting()
      && offered == |sent| + |Waiting()| + dropped
    }

    ghost function Waiting(): (q: seq<seq<Byte>>)
      requires slots.Length == DEPTH
      reads this, slots
      ensures |q| == count
    {
      seq(count, i requires 0 <= i reads this, slots => slots[Slot(head, i)])
    }

    constructor ()
      ensures Valid() && accepted == [] && sent == [] && offered == 0 && dropped == 0 && fresh(slots)
    {
      slots := new seq<Byte>[DEPTH](_ => []);
      head, count, dropped, offered := 0, 0, 0, 0;
      accepted, sent := [], [];
    }

    /** telemetry_out_beacon: refused outright when malformed, counted as dropped when the queue is full. */
    method Offer(data: seq<Byte>) returns (ok: bool)
      requires Valid()
      modifies this`count, this`dropped, this`accepted, this`offered, slots
      ensures Valid()
      ensures ok == (0 < |data| <= MAX_FRAME && |old(Waiting())| < DEPTH)
      ensures Waiting() == if ok then old(Waiting()) + [data] else old(Waiting())
      ensures accepted == if ok then old(accepted) + [data] else old(accepted)
      ensures dropped == old(dropped) + (if 0 < |data| <= MAX_FRAME && !ok then 1 else 0)
      ensures offered == old(offered) + (if 0 < |data| <= MAX_FRAME then 1 else 0)
    {
      if |data| == 0 || |data| > MAX_FRAME {
        return false;
      }
      offered := offered + 1;
      if count < DEPTH {
        assert forall i :: 0 <= i < count ==> Slot(head, i) != Slot(head, count);
        slots[Slot(head, count)] := data;
        count := count + 1;
        accepted := accepted + [data];
        ok := true;
      } else {
        dropped := dropped + 1;
        ok := false;
      }
    }

    /** service_beacon: the oldest waiting frame, copied out and its slot freed. */
    method Service() returns (frame: seq<Byte>)
      requires Valid()
      modifies this`head, this`count, this`sent
      ensures Valid()
      ensures old(Waiting()) == [] ==> frame == [] && Waiting() == [] && sent == old(sent)
      ensures old(Waiting()) != [] ==>
        frame == old(Waiting())[0] && Waiting() == old(Waiting())[1..] && sent == old(sent) + [frame]
    {
      if count == 0 {
        return [];
      }
      frame := slots[head];
      assert Slot(head, 0) == head;
      head := (head + 1) % DEPTH;
      assert forall i :: 0 <= i < count - 1 ==> Slot(head, i) == Slot(old(head), i + 1);
      count := count - 1;
      sent := sent + [frame];
    }
  }
}
