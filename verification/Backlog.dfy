/** The backlog of a listening socket: a table of slots for connections not yet accepted and a queue
    of those whose handshake is over, as values, each operation taken as a whole. */
module Backlog {
  import opened Basics

  // A peer's address as a number. The all-zero bytes of a free slot are no AF_INET address.
  type Peer = nat
  const NO_PEER: Peer := 0

  datatype Slot = Slot(peer: Peer, sd: int) {
    predicate Free() { sd < 0 }
  }

  const FREE: Slot := Slot(NO_PEER, -1)

  // completed holds the indices of the completed slots, oldest first.
  datatype Queue = Queue(slots: seq<Slot>, curLen: nat, completed: seq<nat>)

  // -------------------------------------------------------------------------
  // Operations
  // -------------------------------------------------------------------------

  // The queue after the first mylisten; the sum is unsigned.
  function Listening(backlog: nat): Queue {
    Queue(seq(U32(backlog + 1), _ => FREE), 0, [])
  }

  predicate Known(slots: seq<Slot>, peer: Peer) { exists k :: 0 <= k < |slots| && slots[k].peer == peer }

  function FreeSlot(slots: seq<Slot>): (i: nat)
    ensures i <= |slots|
    ensures i < |slots| ==> slots[i].Free()
    ensures forall j :: 0 <= j < i ==> !slots[j].Free()
  {
    FirstIndex(slots, (s: Slot) => s.Free())
  }

  // A first packet from the peer; sd is the descriptor the socket layer would give, or negative.
  function Enqueued(q: Queue, syn: bool, peer: Peer, sd: int): (Queue, bool)
    requires q.curLen < |q.slots| ==> FreeSlot(q.slots) < |q.slots|
  {
    if !syn || Known(q.slots, peer) || q.curLen >= |q.slots| then (q, false)
    else
      var k := FreeSlot(q.slots);
      if sd < 0 then (q.(slots := q.slots[k := FREE]), false)
      else (q.(slots := q.slots[k := Slot(peer, sd)], curLen := q.curLen + 1), true)
  }

  // Index of the first slot with the descriptor, or the number of slots.
  function SlotOf(slots: seq<Slot>, sd: int): (i: nat)
    ensures i <= |slots|
    ensures i < |slots| ==> slots[i].sd == sd
    ensures forall j :: 0 <= j < i ==> slots[j].sd != sd
  {
    FirstIndex(slots, (s: Slot) => s.sd == sd)
  }

  function Completed(q: Queue, sd: int): Queue
    requires SlotOf(q.slots, sd) < |q.slots|
  {
    q.(completed := q.completed + [SlotOf(q.slots, sd)])
  }

  // The oldest completed connection is taken out of its slot; the count is lowered after that.
  function Emptied(q: Queue): (Queue, int)
    requires q.completed != [] && q.completed[0] < |q.slots|
  {
    var k := q.completed[0];
    (q.(slots := q.slots[k := FREE], completed := q.completed[1..]), q.slots[k].sd)
  }

  predicate CanAccept(q: Queue) { q.completed != [] && q.completed[0] < |q.slots| && q.curLen > 0 }

  function Accepted(q: Queue): (Queue, int)
    requires CanAccept(q)
  {
    var (rest, sd) := Emptied(q);
    (rest.(curLen := q.curLen - 1), sd)
  }

  // -------------------------------------------------------------------------
  // The invariant of the queue
  // -------------------------------------------------------------------------

  function Occupied(slots: seq<Slot>): (n: nat)
    ensures n <= |slots|
  {
    if slots == [] then 0 else (if slots[0].Free() then 0 else 1) + Occupied(slots[1..])
  }

  ghost predicate SlotsSound(slots: seq<Slot>) {
    && (forall k :: 0 <= k < |slots| ==> if slots[k].Free() then slots[k] == FREE else slots[k].peer != NO_PEER)
    && (forall j, k :: 0 <= j < k < |slots| && !slots[j].Free() && !slots[k].Free() ==>
          slots[j].peer != slots[k].peer && slots[j].sd != slots[k].sd)
  }

  ghost predicate CompletedSound(slots: seq<Slot>, completed: seq<nat>) {
    && (forall i :: 0 <= i < |completed| ==> completed[i] < |slots| && !slots[completed[i]].Free())
    && (forall i, j :: 0 <= i < j < |completed| ==> completed[i] != completed[j])
  }

  ghost predicate Sound(q: Queue) {
    q.curLen == Occupied(q.slots) && SlotsSound(q.slots) && CompletedSound(q.slots, q.completed)
  }

  lemma {:induction false} OccupiedUpdate(slots: seq<Slot>, k: nat, s: Slot)
    requires k < |slots|
    ensures Occupied(slots[k := s])
         == Occupied(slots) - (if slots[k].Free() then 0 else 1) + (if s.Free() then 0 else 1)
  {
    if k == 0 {
      assert slots[0 := s][1..] == slots[1..];
    } else {
      assert slots[k := s][1..] == slots[1..][k - 1 := s];
      OccupiedUpdate(slots[1..], k - 1, s);
    }
  }

  lemma {:induction false} FullIsAllTaken(slots: seq<Slot>)
    ensures Occupied(slots) == |slots| <==> forall k :: 0 <= k < |slots| ==> !slots[k].Free()
  {
    if slots != [] {
      FullIsAllTaken(slots[1..]);
      assert forall k :: 1 <= k < |slots| ==> slots[k] == slots[1..][k - 1];
    }
  }

  /** Fewer occupied slots than slots means that the scan finds a free one, and conversely. */
  lemma RoomIsFreeSlot(slots: seq<Slot>)
    ensures Occupied(slots) < |slots| <==> FreeSlot(slots) < |slots|
  {
    FullIsAllTaken(slots);
  }

  lemma AllFree(n: nat)
    ensures Occupied(seq(n, _ => FREE)) == 0
  {
    if n > 0 {
      assert seq(n, _ => FREE)[1..] == seq<Slot>(n - 1, _ => FREE);
      AllFree(n - 1);
    }
  }

  // No occupied slot has the peer, in terms of what a caller sees.
  ghost predicate Waiting(slots: seq<Slot>, peer: Peer) {
    exists k :: 0 <= k < |slots| && !slots[k].Free() && slots[k].peer == peer
  }

  /** The free-slot assertion never fails, and a connection request is queued exactly when it is a
      SYN from a peer that is not waiting yet, a slot is free and a descriptor is to be had. */
  lemma EnqueueOutcome(q: Queue, syn: bool, peer: Peer, sd: int)
    requires Sound(q) && peer != NO_PEER
    ensures q.curLen < |q.slots| ==> FreeSlot(q.slots) < |q.slots|
    ensures Enqueued(q, syn, peer, sd).1 <==>
              syn && !Waiting(q.slots, peer) && Occupied(q.slots) < |q.slots| && sd >= 0
    ensures !Enqueued(q, syn, peer, sd).1 ==> Enqueued(q, syn, peer, sd).0 == q
  {
    RoomIsFreeSlot(q.slots);
    var i := FreeSlot(q.slots);
    if i < |q.slots| {
      assert q.slots[i := FREE] == q.slots;
    }
  }

  /** A request that is queued makes its peer a waiting one, and no other. */
  lemma QueuedIsWaiting(q: Queue, peer: Peer, sd: int, other: Peer)
    requires Sound(q) && peer != NO_PEER
    requires q.curLen < |q.slots| ==> FreeSlot(q.slots) < |q.slots|
    requires Enqueued(q, true, peer, sd).1
    ensures var t := Enqueued(q, true, peer, sd).0;
            && (Waiting(t.slots, other) <==> Waiting(q.slots, other) || other == peer)
            && |t.slots| == |q.slots| && t.curLen == q.curLen + 1 && t.completed == q.completed
  {
    var k := FreeSlot(q.slots);
    var t := Enqueued(q, true, peer, sd).0;
    assert t.slots[k] == Slot(peer, sd);
    if Waiting(q.slots, other) {
      var j :| 0 <= j < |q.slots| && !q.slots[j].Free() && q.slots[j].peer == other;
      assert t.slots[j] == q.slots[j];
    }
    if Waiting(t.slots, other) {
      var j :| 0 <= j < |t.slots| && !t.slots[j].Free() && t.slots[j].peer == other;
      assert j == k || t.slots[j] == q.slots[j];
    }
  }

  /** A connection queued, completed and accepted comes out with its descriptor and leaves no trace:
      the queue is as it was, so that the peer may connect again. */
  lemma ConnectionRoundTrip(q: Queue, peer: Peer, sd: int)
    requires Sound(q) && peer != NO_PEER && q.completed == []
    requires sd >= 0 ==> forall k :: 0 <= k < |q.slots| ==> q.slots[k].sd != sd
    requires q.curLen < |q.slots| ==> FreeSlot(q.slots) < |q.slots|
    requires Enqueued(q, true, peer, sd).1
    ensures var t := Enqueued(q, true, peer, sd).0;
            && SlotOf(t.slots, sd) < |t.slots|
            && CanAccept(Completed(t, sd))
            && Accepted(Completed(t, sd)) == (q, sd)
  {
    var k, t := FreeSlot(q.slots), Enqueued(q, true, peer, sd).0;
    assert t.slots[k].sd == sd && SlotOf(t.slots, sd) == k;
    assert t.slots[k := FREE] == q.slots;
    assert ([] + [k])[1..] == q.completed;
  }

  lemma AcceptKeeps(q: Queue)
    requires Sound(q) && q.completed != []
    ensures CanAccept(q) && Sound(Accepted(q).0)
  {
    OccupiedUpdate(q.slots, q.completed[0], FREE);
  }
}
