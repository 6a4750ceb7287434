/** The listen queue in place: an array of slots, a count and the queue of completed slots. */
module ListenQueues {
  import opened Basics
  import opened Backlog

  class ListenQueue {
    var slots: array<Slot>
    var curLen: nat
    var completed: seq<nat>

    ghost function Value(): Queue reads this, slots { Queue(slots[..], curLen, completed) }

    constructor (backlog: nat)
      ensures fresh(slots) && Value() == Listening(backlog)
    {
      slots := new Slot[U32(backlog + 1)](_ => FREE);
      curLen := 0;
      completed := [];
    }

    method Enqueue(syn: bool, peer: Peer, sd: int) returns (taken: bool)
      requires Sound(Value()) && peer != NO_PEER
      modifies `curLen, slots
      ensures old(curLen < slots.Length ==> FreeSlot(slots[..]) < slots.Length)
      ensures (Value(), taken) == Enqueued(old(Value()), syn, peer, sd)
    {
      hide Sound, Occupied;
      EnqueueOutcome(Value(), syn, peer, sd);
      taken := false;
      if !syn {
        return;
      }
      for k := 0 to slots.Length
        invariant forall j :: 0 <= j < k ==> slots[..][j].peer != peer
      {
        if slots[k].peer == peer {
          assert slots[..][k].peer == peer;
          return;
        }
      }
      if curLen < slots.Length {
        var k := 0;
        while k < slots.Length && slots[k].sd >= 0
          invariant k <= slots.Length && forall j :: 0 <= j < k ==> !slots[..][j].Free()
        {
          k := k + 1;
        }
        assert k == FreeSlot(slots[..]);
        assert k < slots.Length;
        curLen := curLen + 1;
        if sd < 0 {
          slots[k] := FREE;
          curLen := curLen - 1;
        } else {
          slots[k] := Slot(peer, sd);
          taken := true;
        }
      }
    }

    method Complete(sd: int)
      requires SlotOf(slots[..], sd) < slots.Length
      modifies `completed
      ensures Value() == Completed(old(Value()), sd)
    {
      var k := 0;
      while k < slots.Length && slots[k].sd != sd
        invariant k <= slots.Length && forall j :: 0 <= j < k ==> slots[..][j].sd != sd
      {
        k := k + 1;
      }
      assert k == SlotOf(slots[..], sd);
      completed := completed + [k];
    }

    method Dequeue() returns (sd: int)
      requires Sound(Value()) && completed != []
      modifies `curLen, `completed, slots
      ensures CanAccept(old(Value())) && (Value(), sd) == Accepted(old(Value()))
    {
      hide Occupied;
      AcceptKeeps(Value());
      var k := completed[0];
      completed := completed[1..];
      sd := slots[k].sd;
      slots[k] := FREE;
      assert curLen > 0;
      curLen := curLen - 1;
    }
  }
}
