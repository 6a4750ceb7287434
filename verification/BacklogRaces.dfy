/** Runs of a listening socket: an operation the other thread leaves alone, and what lost updates lead to. */
module BacklogRaces {
  import opened Basics
  import opened Backlog
  import opened BacklogRuns
  import opened BacklogCount

  lemma {:induction false} ExecConcat(s: Listener, a: seq<Step>, b: seq<Step>)
    requires Possible(s, a) && Possible(Exec(s, a), b)
    ensures Possible(s, a + b) && Exec(s, a + b) == Exec(Exec(s, a), b)
    decreases |a|
  {
    hide Can, AssertsHold, Do;
    if a == [] {
      assert a + b == b;
    } else {
      assert (a + b)[1..] == a[1..] + b;
      ExecConcat(Do(s, a[0]), a[1..], b);
    }
  }

  // -------------------------------------------------------------------------
  // Undisturbed operations
  // -------------------------------------------------------------------------

  function Looks(n: nat): seq<Step> { if n == 0 then [] else [Look] + Looks(n - 1) }

  lemma {:induction false} ScanPast(s: Listener, peer: Peer, k: nat, n: nat)
    requires s.taker == Scanning(peer, k) && k + n <= |s.queue.slots|
    requires forall j :: k <= j < k + n ==> s.queue.slots[j].peer != peer
    ensures Possible(s, Looks(n)) && Exec(s, Looks(n)) == s.(taker := Scanning(peer, k + n))
    decreases n
  {
    if n > 0 {
      assert Looks(n)[0] == Look && Looks(n)[1..] == Looks(n - 1);
      ScanPast(s.(taker := Scanning(peer, k + 1)), peer, k + 1, n - 1);
    }
  }

  lemma {:induction false} SearchPast(s: Listener, peer: Peer, k: nat, n: nat)
    requires s.taker == Searching(peer, k) && k + n <= |s.queue.slots|
    requires forall j :: k <= j < k + n ==> !s.queue.slots[j].Free()
    ensures Possible(s, Looks(n)) && Exec(s, Looks(n)) == s.(taker := Searching(peer, k + n))
    decreases n
  {
    if n > 0 {
      assert Looks(n)[0] == Look && Looks(n)[1..] == Looks(n - 1);
      SearchPast(s.(taker := Searching(peer, k + 1)), peer, k + 1, n - 1);
    }
  }

  function PeerSlot(slots: seq<Slot>, peer: Peer): (i: nat)
    ensures i <= |slots|
    ensures i < |slots| ==> slots[i].peer == peer
    ensures forall j :: 0 <= j < i ==> slots[j].peer != peer
  {
    FirstIndex(slots, (s: Slot) => s.peer == peer)
  }

  // Up to the look that ends the scan, and up to the one that ends the search.
  function ScanSteps(slots: seq<Slot>, peer: Peer): seq<Step> {
    [Arrive(true, peer)] + Looks(PeerSlot(slots, peer)) + [Look]
  }

  function FindSteps(slots: seq<Slot>, peer: Peer): seq<Step> {
    ScanSteps(slots, peer) + Looks(FreeSlot(slots)) + [Look]
  }

  lemma Scans(s: Listener, peer: Peer)
    requires s.taker.AtRest? && peer != NO_PEER
    ensures var q := s.queue;
            && Possible(s, ScanSteps(q.slots, peer))
            && Exec(s, ScanSteps(q.slots, peer))
               == s.(taker := if Known(q.slots, peer) || q.curLen >= |q.slots| then AtRest else Searching(peer, 0))
  {
    var slots := s.queue.slots;
    var k := PeerSlot(slots, peer);
    var s1 := s.(taker := Scanning(peer, 0));
    assert [Arrive(true, peer)][1..] == [] && [Look][1..] == [];
    assert Exec(s, [Arrive(true, peer)]) == s1;
    ScanPast(s1, peer, 0, k);
    ExecConcat(s, [Arrive(true, peer)], Looks(k));
    ExecConcat(s, [Arrive(true, peer)] + Looks(k), [Look]);
  }

  lemma Finds(s: Listener, peer: Peer)
    requires s.taker.AtRest? && peer != NO_PEER && !Known(s.queue.slots, peer)
    requires s.queue.curLen < |s.queue.slots| && FreeSlot(s.queue.slots) < |s.queue.slots|
    ensures Possible(s, FindSteps(s.queue.slots, peer))
    ensures Exec(s, FindSteps(s.queue.slots, peer)) == s.(taker := Found(peer, FreeSlot(s.queue.slots)))
  {
    var slots := s.queue.slots;
    var k := FreeSlot(slots);
    Scans(s, peer);
    var s2 := s.(taker := Searching(peer, 0));
    SearchPast(s2, peer, 0, k);
    assert [Look][1..] == [];
    ExecConcat(s, ScanSteps(slots, peer), Looks(k));
    ExecConcat(s, ScanSteps(slots, peer) + Looks(k), [Look]);
  }

  function CountSteps(t: Thread): seq<Step> { [Load(t), Store(t)] }

  function EnqueueSteps(q: Queue, syn: bool, peer: Peer, sd: int): seq<Step> {
    if !syn then [Arrive(false, peer)]
    else if Known(q.slots, peer) || q.curLen >= |q.slots| then ScanSteps(q.slots, peer)
    else
      FindSteps(q.slots, peer) + CountSteps(Taking) + [Open(sd)] + if sd < 0 then CountSteps(Taking) else []
  }

  /** Left alone, the thread that takes a packet does to the queue what its specification says. */
  lemma EnqueueAlone(s: Listener, syn: bool, peer: Peer, sd: int)
    requires s.taker.AtRest? && peer != NO_PEER && sd !in s.live && s.queue.curLen + 1 < TWO32
    requires SlotsSound(s.queue.slots)
    requires s.queue.curLen < |s.queue.slots| ==> FreeSlot(s.queue.slots) < |s.queue.slots|
    ensures var (queue, taken) := Enqueued(s.queue, syn, peer, sd);
            && Possible(s, EnqueueSteps(s.queue, syn, peer, sd))
            && Exec(s, EnqueueSteps(s.queue, syn, peer, sd))
               == if taken then s.(queue := queue, live := s.live + {sd}, blocking := s.blocking + {sd})
                  else s.(queue := queue)
  {
    hide ScanSteps, FindSteps;
    var q := s.queue;
    if syn {
      Scans(s, peer);
      if !Known(q.slots, peer) && q.curLen < |q.slots| {
        Finds(s, peer);
        var k := FreeSlot(q.slots);
        Fills(s.(taker := Found(peer, k)), peer, k, sd);
        var rest := CountSteps(Taking) + [Open(sd)] + if sd < 0 then CountSteps(Taking) else [];
        ExecConcat(s, FindSteps(q.slots, peer), rest);
        assert EnqueueSteps(q, syn, peer, sd) == FindSteps(q.slots, peer) + rest;
      }
    }
  }

  lemma Fills(s: Listener, peer: Peer, k: nat, sd: int)
    requires s.taker == Found(peer, k) && k < |s.queue.slots| && s.queue.slots[k].sd == -1
    requires sd !in s.live && s.queue.curLen + 1 < TWO32
    ensures var steps, q := CountSteps(Taking) + [Open(sd)] + if sd < 0 then CountSteps(Taking) else [], s.queue;
            && Possible(s, steps)
            && Exec(s, steps)
               == if sd < 0 then s.(taker := AtRest, queue := q.(slots := q.slots[k := FREE]))
                  else s.(taker := AtRest, live := s.live + {sd}, blocking := s.blocking + {sd},
                          queue := q.(slots := q.slots[k := Slot(peer, sd)], curLen := q.curLen + 1))
  {
    hide Possible, Exec;
    var t := s.(taker := Opening(peer, k), queue := s.queue.(curLen := s.queue.curLen + 1));
    Counts(s, Taking);
    One(t, Open(sd));
    ExecConcat(s, CountSteps(Taking), [Open(sd)]);
    if sd < 0 {
      Counts(Do(t, Open(sd)), Taking);
      ExecConcat(s, CountSteps(Taking) + [Open(sd)], CountSteps(Taking));
    } else {
      assert CountSteps(Taking) + [Open(sd)] + [] == CountSteps(Taking) + [Open(sd)];
    }
  }

  lemma One(s: Listener, step: Step)
    requires Can(s, step) && AssertsHold(s, step)
    ensures Possible(s, [step]) && Exec(s, [step]) == Do(s, step)
  {
    assert [step][1..] == [];
  }

  lemma Counts(s: Listener, t: Thread)
    requires Can(s, Load(t))
    ensures Possible(s, CountSteps(t)) && Exec(s, CountSteps(t)) == Stored(Loaded(s, t), t)
  {
    assert CountSteps(t)[1..] == [Store(t)] && [Store(t)][1..] == [];
  }

  const ACCEPT_STEPS: seq<Step> := [Accept, Check] + CountSteps(Accepting)

  /** Left alone, the accepting thread does to the queue what its specification says. */
  lemma AcceptAlone(s: Listener)
    requires s.accepter.Idle? && CanAccept(s.queue) && s.queue.curLen < TWO32
    requires s.queue.slots[s.queue.completed[0]].sd in s.live
    ensures var (queue, sd) := Accepted(s.queue);
            && Possible(s, ACCEPT_STEPS)
            && Exec(s, ACCEPT_STEPS) == s.(queue := queue, held := s.held + {sd}, accepted := s.accepted + [sd])
  {
    assert [Accept, Check][1..] == [Check] && [Check][1..] == [];
    var t := Exec(s, [Accept, Check]);
    Counts(t, Accepting);
    ExecConcat(s, [Accept, Check], CountSteps(Accepting));
  }

  // -------------------------------------------------------------------------
  // Lost updates: a backlog of one, hence two slots
  // -------------------------------------------------------------------------

  ghost predicate Reached(s: Listener) { exists steps :: Possible(Start(1), steps) && Exec(Start(1), steps) == s }

  lemma Goes(s: Listener, steps: seq<Step>)
    requires Reached(s) && Possible(s, steps)
    ensures Reached(Exec(s, steps))
  {
    hide Possible, Exec;
    var before :| Possible(Start(1), before) && Exec(Start(1), before) == s;
    ExecConcat(Start(1), before, steps);
  }

  lemma GoesOne(s: Listener, step: Step)
    requires Reached(s) && Can(s, step) && AssertsHold(s, step)
    ensures Reached(Do(s, step))
  {
    One(s, step);
    Goes(s, [step]);
  }

  // The connection with peer 1 waits to be accepted.
  const WAITING: Listener :=
    Listener(Queue([Slot(1, 10), FREE], 1, [0]), AtRest, Idle, {10}, {}, {}, [10], [])

  // It has been taken out of its slot.
  function Taken(accepter: Accepter, taker: Taker, curLen: nat): Listener {
    Listener(Queue([FREE, FREE], curLen, []), taker, accepter, {10}, {}, {10}, [10], [10])
  }

  lemma WaitingReached()
    ensures Reached(WAITING)
  {
    var s := Start(1);
    assert s.queue.slots == [FREE, FREE];
    assert Possible(s, []) && Exec(s, []) == s;
    hide Possible, Exec, Reached;
    EnqueueAlone(s, true, 1, 10);
    Goes(s, EnqueueSteps(s.queue, true, 1, 10));
    var t := s.(queue := Queue([Slot(1, 10), FREE], 1, []), live := {10}, blocking := {10});
    assert Enqueued(s.queue, true, 1, 10).0.slots == t.queue.slots;
    GoesOne(t, Complete(10));
    assert Do(t, Complete(10)) == WAITING;
  }

  lemma TakenReached()
    ensures Reached(Taken(Checked, AtRest, 1))
  {
    WaitingReached();
    GoesOne(WAITING, Accept);
    assert Emptied(WAITING.queue).0.slots == [FREE, FREE];
    GoesOne(Taken(Emptying, AtRest, 1), Check);
  }

  lemma FoundReached(accepter: Accepter)
    requires Reached(Taken(accepter, AtRest, 1))
    ensures Reached(Taken(accepter, Found(2, 0), 1))
  {
    var s := Taken(accepter, AtRest, 1);
    Finds(s, 2);
    Goes(s, FindSteps(s.queue.slots, 2));
  }

  // Both threads have loaded a count of 1.
  lemma BothLoaded()
    ensures Reached(Taken(Lowering(1), Adding(2, 0, 1), 1))
  {
    TakenReached();
    FoundReached(Checked);
    GoesOne(Taken(Checked, Found(2, 0), 1), Load(Accepting));
    GoesOne(Taken(Lowering(1), Found(2, 0), 1), Load(Taking));
  }

  // The taker stores first, and its increment is lost.
  lemma IncrementLost()
    ensures Reached(Taken(Idle, Opening(2, 0), 0))
  {
    BothLoaded();
    GoesOne(Taken(Lowering(1), Adding(2, 0, 1), 1), Store(Taking));
    GoesOne(Taken(Lowering(1), Opening(2, 0), 2), Store(Accepting));
  }

  // The accepting thread stores first, and its decrement is lost.
  lemma DecrementLost()
    ensures Reached(Taken(Idle, Opening(2, 0), 2))
  {
    BothLoaded();
    GoesOne(Taken(Lowering(1), Adding(2, 0, 1), 1), Store(Accepting));
    GoesOne(Taken(Idle, Adding(2, 0, 1), 0), Store(Taking));
  }

  // The connection with peer 2 has been given a descriptor, with the count at curLen.
  function Second(curLen: nat): Listener {
    Listener(Queue([Slot(2, 11), FREE], curLen, []), AtRest, Idle, {10, 11}, {11}, {10}, [10], [10])
  }

  lemma SecondReached(curLen: nat)
    requires Reached(Taken(Idle, Opening(2, 0), curLen))
    ensures Reached(Second(curLen))
  {
    GoesOne(Taken(Idle, Opening(2, 0), curLen), Open(11));
    assert [FREE, FREE][0 := Slot(2, 11)] == [Slot(2, 11), FREE];
  }

  /** An increment lost, and the assertion that the count is above zero fails on acceptance. */
  lemma AcceptFails() returns (s: Listener)
    ensures Reached(s) && Can(s, Check) && !AssertsHold(s, Check)
  {
    IncrementLost();
    SecondReached(0);
    GoesOne(Second(0), Complete(11));
    var t := Second(0).(queue := Queue([Slot(2, 11), FREE], 0, [0]), blocking := {}, finished := [10, 11]);
    assert Do(Second(0), Complete(11)) == t;
    GoesOne(t, Accept);
    s := Do(t, Accept);
  }

  // A third connection fills the other slot, and the count is 1.
  const THIRD: Listener :=
    Listener(Queue([Slot(2, 11), Slot(3, 12)], 1, []), AtRest, Idle, {10, 11, 12}, {11, 12}, {10}, [10], [10])

  lemma ThirdReached()
    ensures Reached(THIRD)
  {
    hide Possible, Exec, Reached;
    var s := Second(0);
    IncrementLost();
    SecondReached(0);
    assert s.queue.slots[1].Free();
    assert FreeSlot(s.queue.slots) == 1 && !Known(s.queue.slots, 3);
    assert Enqueued(s.queue, true, 3, 12) == (THIRD.queue, true) by {
      assert s.queue.slots[1 := Slot(3, 12)] == THIRD.queue.slots;
    }
    EnqueueAlone(s, true, 3, 12);
    Goes(s, EnqueueSteps(s.queue, true, 3, 12));
    assert s.live + {12} == THIRD.live && s.blocking + {12} == THIRD.blocking;
  }

  /** An increment lost, and the assertion that the search finds a free slot fails. */
  lemma SearchFails() returns (s: Listener)
    ensures Reached(s) && Can(s, Look) && !AssertsHold(s, Look)
  {
    hide Possible, Exec, Reached;
    ThirdReached();
    Scans(THIRD, 4);
    Goes(THIRD, ScanSteps(THIRD.queue.slots, 4));
    var u := THIRD.(taker := Searching(4, 0));
    SearchPast(u, 4, 0, 2);
    Goes(u, Looks(2));
    s := u.(taker := Searching(4, 2));
  }

  /** A decrement lost, and a request is refused although one of the two slots is free. */
  lemma RequestRefused() returns (s: Listener)
    ensures Reached(s) && s.taker.AtRest? && s.accepter.Idle?
    ensures FreeSlot(s.queue.slots) < |s.queue.slots| && !Known(s.queue.slots, 3) && 12 !in s.live
    ensures Possible(s, ScanSteps(s.queue.slots, 3)) && Exec(s, ScanSteps(s.queue.slots, 3)) == s
  {
    DecrementLost();
    SecondReached(2);
    s := Second(2);
    Scans(s, 3);
    assert s.queue.slots[1].Free();
  }

  // -------------------------------------------------------------------------
  // A count that never comes down far enough
  // -------------------------------------------------------------------------

  // Accepting everything that occupies a slot would leave the count at the number of slots or above.
  predicate Shut(s: Listener) {
    && (s.taker.AtRest? || s.taker.Scanning?)
    && s.queue.curLen >= |s.queue.slots| + Due(s) && s.queue.curLen < TWO32
    && (s.accepter.Lowering? ==> s.accepter.count == s.queue.curLen)
  }

  lemma ShutStep(s: Listener, step: Step, capacity: nat)
    requires Inv(s, capacity) && Shut(s) && Can(s, step) && AssertsHold(s, step)
    ensures Shut(Do(s, step)) && Do(s, step).live <= s.live
  {
    hide Inv, Occupied;
    DueStep(s, step, capacity);
  }

  /** From then on no connection is ever queued again, whatever is accepted. */
  lemma {:induction false} RefusedForEver(s: Listener, steps: seq<Step>, capacity: nat)
    requires Inv(s, capacity) && Shut(s) && Possible(s, steps)
    ensures Shut(Exec(s, steps)) && Exec(s, steps).live <= s.live
    decreases |steps|
  {
    hide Inv, Shut, Can, AssertsHold, Do;
    if steps != [] {
      ShutStep(s, steps[0], capacity);
      StepKeeps(s, steps[0], capacity);
      RefusedForEver(Do(s, steps[0]), steps[1..], capacity);
    }
  }

  /** An increment lost, no descriptor to be had, and the count wraps below zero: no connection is
      ever queued again. */
  lemma ListenerDies() returns (s: Listener)
    ensures Reached(s) && s.queue.curLen == TWO32 - 1 && Occupied(s.queue.slots) == 0
    ensures forall steps :: Possible(s, steps) ==> Exec(s, steps).live <= s.live
  {
    IncrementLost();
    GoesOne(Taken(Idle, Opening(2, 0), 0), Open(-1));
    assert [FREE, FREE][0 := FREE] == [FREE, FREE];
    GoesOne(Taken(Idle, Undoing(0), 0), Load(Taking));
    GoesOne(Taken(Idle, Subtracting(0, 0), 0), Store(Taking));
    s := Taken(Idle, AtRest, TWO32 - 1);
    assert Shut(s);
    forall steps | Possible(s, steps) ensures Exec(s, steps).live <= s.live {
      RunInv(s);
      RefusedForEver(s, steps, 2);
    }
  }

  lemma RunInv(s: Listener)
    requires Reached(s)
    ensures Inv(s, 2)
  {
    hide Possible, Exec, Inv;
    var steps :| Possible(Start(1), steps) && Exec(Start(1), steps) == s;
    StartCounts(1);
    RunKeeps(Start(1), steps, 2);
  }
}
