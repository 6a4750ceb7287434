/** Runs of a listening socket after one mylisten. The thread that takes packets and the one that
    accepts hold the same read lock, so they run at the same time, down to the loads and stores of
    the count. */
module BacklogRuns {
  import opened Basics
  import opened Backlog

  // -------------------------------------------------------------------------
  // Steps
  // -------------------------------------------------------------------------

  // Where the thread that takes packets stands in _mysock_enqueue_connection.
  datatype Taker =
    | AtRest
    | Scanning(peer: Peer, k: nat)             // compares slot k with the peer
    | Searching(peer: Peer, k: nat)            // looks whether slot k is free
    | Found(peer: Peer, k: nat)                // slot k is free
    | Adding(peer: Peer, k: nat, count: nat)   // has loaded the count
    | Opening(peer: Peer, k: nat)              // has counted the slot and opens a descriptor
    | Undoing(k: nat)                          // has none and has given the slot back
    | Subtracting(k: nat, count: nat)          // has loaded the count

  // Where the accepting thread stands in _mysock_dequeue_connection; it holds connection_lock unless Idle.
  datatype Accepter = Idle | Emptying | Checked | Lowering(count: nat)

  datatype Thread = Taking | Accepting

  // live: descriptors in use; blocking: those whose handshake is not over; held: those the
  // application has accepted. finished and accepted record the order of completion and acceptance.
  datatype Listener = Listener(
    queue: Queue, taker: Taker, accepter: Accepter, live: set<int>, blocking: set<int>, held: set<int>,
    finished: seq<int>, accepted: seq<int>)

  datatype Step =
    | Arrive(syn: bool, peer: Peer)
    | Look               // the taker looks at its next slot, or at the count when all were scanned
    | Open(sd: int)
    | Load(t: Thread)    // of the count, for ++ or --
    | Store(t: Thread)
    | Complete(sd: int)
    | Accept             // up to the slot being invalidated
    | Check              // that the count is above zero
    | Release(sd: int)

  // A new descriptor is one not in use; a handshake ends once; accepting waits for a completed
  // connection; the application gives up a descriptor it was handed.
  predicate Can(s: Listener, step: Step) {
    match step
    case Arrive(_, peer) => s.taker.AtRest? && peer != NO_PEER
    case Look => s.taker.Scanning? || s.taker.Searching?
    case Open(sd) => s.taker.Opening? && sd !in s.live
    case Load(t) => if t == Taking then s.taker.Found? || s.taker.Undoing? else s.accepter.Checked?
    case Store(t) => if t == Taking then s.taker.Adding? || s.taker.Subtracting? else s.accepter.Lowering?
    case Complete(sd) => sd in s.blocking && s.accepter.Idle?
    case Accept => s.accepter.Idle? && s.queue.completed != []
    case Check => s.accepter.Emptying?
    case Release(sd) => sd in s.held
  }

  // The source's own assertions: the search finds a slot and it is invalid; a completed connection
  // has a slot, and its descriptor a context; the count is above zero on acceptance.
  predicate AssertsHold(s: Listener, step: Step) {
    var q := s.queue;
    match step
    case Look => s.taker.Searching? ==> s.taker.k < |q.slots|
    case Open(_) => s.taker.Opening? ==> s.taker.k < |q.slots| && q.slots[s.taker.k].sd == -1
    case Complete(sd) => SlotOf(q.slots, sd) < |q.slots|
    case Accept => q.completed != [] ==> q.completed[0] < |q.slots| && q.slots[q.completed[0]].sd in s.live
    case Check => q.curLen > 0
    case _ => true
  }

  function Looked(q: Queue, t: Taker): Taker {
    match t
    case Scanning(peer, k) =>
      if k >= |q.slots| then if q.curLen < |q.slots| then Searching(peer, 0) else AtRest
      else if q.slots[k].peer == peer then AtRest
      else Scanning(peer, k + 1)
    case Searching(peer, k) =>
      if k < |q.slots| && q.slots[k].Free() then Found(peer, k) else Searching(peer, k + 1)
    case _ => t
  }

  function Loaded(s: Listener, t: Thread): Listener
    requires Can(s, Load(t))
  {
    if t == Accepting then s.(accepter := Lowering(s.queue.curLen))
    else
      match s.taker
      case Found(peer, k) => s.(taker := Adding(peer, k, s.queue.curLen))
      case Undoing(k) => s.(taker := Subtracting(k, s.queue.curLen))
  }

  function Stored(s: Listener, t: Thread): Listener
    requires Can(s, Store(t))
  {
    if t == Accepting then s.(accepter := Idle, queue := s.queue.(curLen := U32(s.accepter.count - 1)))
    else
      match s.taker
      case Adding(peer, k, c) => s.(taker := Opening(peer, k), queue := s.queue.(curLen := U32(c + 1)))
      case Subtracting(_, c) => s.(taker := AtRest, queue := s.queue.(curLen := U32(c - 1)))
  }

  // Opening a descriptor fails with a negative one.
  function Opened(s: Listener, sd: int): Listener
    requires Can(s, Open(sd)) && AssertsHold(s, Open(sd))
  {
    var k := s.taker.k;
    if sd < 0 then s.(queue := s.queue.(slots := s.queue.slots[k := FREE]), taker := Undoing(k))
    else
      s.(queue := s.queue.(slots := s.queue.slots[k := Slot(s.taker.peer, sd)]), taker := AtRest,
         live := s.live + {sd}, blocking := s.blocking + {sd})
  }

  function Do(s: Listener, step: Step): Listener
    requires Can(s, step) && AssertsHold(s, step)
  {
    match step
    case Arrive(syn, peer) => if syn then s.(taker := Scanning(peer, 0)) else s
    case Look => s.(taker := Looked(s.queue, s.taker))
    case Open(sd) => Opened(s, sd)
    case Load(t) => Loaded(s, t)
    case Store(t) => Stored(s, t)
    case Complete(sd) =>
      s.(queue := Completed(s.queue, sd), blocking := s.blocking - {sd}, finished := s.finished + [sd])
    case Accept =>
      var (queue, sd) := Emptied(s.queue);
      s.(queue := queue, accepter := Emptying, held := s.held + {sd}, accepted := s.accepted + [sd])
    case Check => s.(accepter := Checked)
    case Release(sd) => s.(live := s.live - {sd}, held := s.held - {sd})
  }

  // A failed assertion ends the program.
  predicate Possible(s: Listener, steps: seq<Step>)
    decreases |steps|
  {
    steps == [] || (Can(s, steps[0]) && AssertsHold(s, steps[0]) && Possible(Do(s, steps[0]), steps[1..]))
  }

  function Exec(s: Listener, steps: seq<Step>): Listener
    requires Possible(s, steps)
    decreases |steps|
  {
    if steps == [] then s else Exec(Do(s, steps[0]), steps[1..])
  }

  function Start(backlog: nat): Listener { Listener(Listening(backlog), AtRest, Idle, {}, {}, {}, [], []) }

  // -------------------------------------------------------------------------
  // The invariant of the slots
  // -------------------------------------------------------------------------

  // The descriptors of the completed connections, oldest first.
  function Ready(slots: seq<Slot>, completed: seq<nat>): (r: seq<int>)
    requires forall i :: 0 <= i < |completed| ==> completed[i] < |slots|
    ensures |r| == |completed|
    ensures forall i :: 0 <= i < |r| ==> r[i] == slots[completed[i]].sd
  {
    seq(|completed|, i requires 0 <= i < |completed| => slots[completed[i]].sd)
  }

  // A descriptor blocks exactly while its slot is occupied and not completed.
  ghost predicate BlockingIs(q: Queue, blocking: set<int>) {
    && (forall sd :: sd in blocking ==> 0 <= sd && SlotOf(q.slots, sd) < |q.slots|)
    && (forall k :: 0 <= k < |q.slots| && !q.slots[k].Free() ==>
          (q.slots[k].sd in blocking <==> k !in q.completed))
  }

  ghost predicate SlotsLive(slots: seq<Slot>, live: set<int>, held: set<int>) {
    forall k :: 0 <= k < |slots| && !slots[k].Free() ==> slots[k].sd in live && slots[k].sd !in held
  }

  ghost predicate Unseen(slots: seq<Slot>, peer: Peer, n: nat) {
    peer != NO_PEER && n <= |slots| && forall j :: 0 <= j < n ==> slots[j].peer != peer
  }

  // What the taker has seen stays true: only it fills slots.
  ghost predicate TakerOk(slots: seq<Slot>, t: Taker) {
    match t
    case AtRest => true
    case Scanning(peer, k) => Unseen(slots, peer, k)
    case Searching(peer, k) => Unseen(slots, peer, |slots|)
    case Found(peer, k) => Unseen(slots, peer, |slots|) && k < |slots| && slots[k].Free()
    case Adding(peer, k, _) => Unseen(slots, peer, |slots|) && k < |slots| && slots[k].Free()
    case Opening(peer, k) => Unseen(slots, peer, |slots|) && k < |slots| && slots[k].Free()
    case Undoing(k) => k < |slots| && slots[k].Free()
    case Subtracting(k, _) => k < |slots| && slots[k].Free()
  }

  ghost predicate Inv(s: Listener, capacity: nat) {
    var q := s.queue;
    && |q.slots| == capacity && SlotsSound(q.slots) && CompletedSound(q.slots, q.completed)
    && TakerOk(q.slots, s.taker)
    && SlotsLive(q.slots, s.live, s.held) && s.held <= s.live
    && BlockingIs(q, s.blocking)
    && s.finished == s.accepted + Ready(q.slots, q.completed)
  }

  lemma SlotOfIs(slots: seq<Slot>, k: nat)
    requires SlotsSound(slots) && k < |slots| && !slots[k].Free()
    ensures SlotOf(slots, slots[k].sd) == k
  {
  }

  // A slot is taken by a new descriptor.
  lemma TakenBlocking(q: Queue, blocking: set<int>, live: set<int>, held: set<int>, i: nat, s: Slot)
    requires SlotsSound(q.slots) && CompletedSound(q.slots, q.completed)
    requires i < |q.slots| && q.slots[i].Free() && !s.Free() && s.sd !in live && held <= live
    requires BlockingIs(q, blocking) && SlotsLive(q.slots, live, held)
    requires SlotsSound(q.slots[i := s])
    ensures BlockingIs(q.(slots := q.slots[i := s]), blocking + {s.sd})
    ensures SlotsLive(q.slots[i := s], live + {s.sd}, held)
    ensures CompletedSound(q.slots[i := s], q.completed)
    ensures Ready(q.slots[i := s], q.completed) == Ready(q.slots, q.completed)
  {
    hide SlotsSound;
    var slots := q.slots[i := s];
    assert i !in q.completed;
    SlotOfIs(slots, i);
    forall sd | sd in blocking ensures SlotOf(slots, sd) < |slots| {
      var k := SlotOf(q.slots, sd);
      assert k != i && slots[k].sd == sd;
    }
  }

  lemma TakenSound(slots: seq<Slot>, peer: Peer, k: nat, live: set<int>, held: set<int>, sd: int)
    requires SlotsSound(slots) && SlotsLive(slots, live, held) && sd >= 0 && sd !in live
    requires Unseen(slots, peer, |slots|) && k < |slots| && slots[k].Free()
    ensures SlotsSound(slots[k := Slot(peer, sd)])
  {
  }

  lemma OpenKeeps(s: Listener, sd: int, capacity: nat)
    requires Inv(s, capacity) && Can(s, Open(sd))
    ensures AssertsHold(s, Open(sd)) && Inv(Do(s, Open(sd)), capacity)
  {
    hide BlockingIs, Ready, CompletedSound;
    var q, k := s.queue, s.taker.k;
    if sd < 0 {
      assert q.slots[k := FREE] == q.slots;
    } else {
      TakenSound(q.slots, s.taker.peer, k, s.live, s.held, sd);
      TakenBlocking(q, s.blocking, s.live, s.held, k, Slot(s.taker.peer, sd));
    }
  }

  lemma CompletedSlots(q: Queue, blocking: set<int>, sd: int)
    requires SlotsSound(q.slots) && CompletedSound(q.slots, q.completed) && BlockingIs(q, blocking) && sd in blocking
    ensures SlotOf(q.slots, sd) < |q.slots|
    ensures var t := Completed(q, sd);
            && CompletedSound(t.slots, t.completed) && BlockingIs(t, blocking - {sd})
            && Ready(t.slots, t.completed) == Ready(q.slots, q.completed) + [sd]
  {
    var k, t := SlotOf(q.slots, sd), Completed(q, sd);
    assert !q.slots[k].Free() && k !in q.completed;
    assert Ready(t.slots, t.completed) == Ready(q.slots, q.completed) + [sd];
  }

  lemma CompletedKeeps(s: Listener, sd: int, capacity: nat)
    requires Inv(s, capacity) && Can(s, Complete(sd))
    ensures AssertsHold(s, Complete(sd)) && Inv(Do(s, Complete(sd)), capacity)
  {
    hide SlotsSound, CompletedSound, BlockingIs, SlotsLive, Ready, TakerOk;
    CompletedSlots(s.queue, s.blocking, sd);
  }

  lemma EmptiedSound(q: Queue)
    requires SlotsSound(q.slots) && CompletedSound(q.slots, q.completed) && q.completed != []
    ensures var (rest, sd) := Emptied(q); SlotsSound(rest.slots) && CompletedSound(rest.slots, rest.completed)
  {
  }

  lemma EmptiedReady(q: Queue)
    requires CompletedSound(q.slots, q.completed) && q.completed != []
    ensures var (rest, sd) := Emptied(q);
            && CompletedSound(rest.slots, rest.completed)
            && Ready(q.slots, q.completed) == [sd] + Ready(rest.slots, rest.completed)
  {
  }

  lemma EmptiedBlocking(q: Queue, blocking: set<int>)
    requires SlotsSound(q.slots) && CompletedSound(q.slots, q.completed) && q.completed != []
    requires BlockingIs(q, blocking)
    ensures BlockingIs(Emptied(q).0, blocking)
  {
    var k := q.completed[0];
    var t := Emptied(q).0;
    forall sd | sd in blocking ensures 0 <= sd && SlotOf(t.slots, sd) < |t.slots| {
      var j := SlotOf(q.slots, sd);
      assert j != k && t.slots[j].sd == sd;
    }
    forall j | 0 <= j < |t.slots| && !t.slots[j].Free()
      ensures t.slots[j].sd in blocking <==> j !in t.completed
    {
      assert j != k;
      assert q.completed == [k] + t.completed;
    }
  }

  lemma EmptiedLive(q: Queue, live: set<int>, held: set<int>)
    requires SlotsSound(q.slots) && CompletedSound(q.slots, q.completed) && q.completed != []
    requires SlotsLive(q.slots, live, held)
    ensures Emptied(q).1 in live && SlotsLive(Emptied(q).0.slots, live, held + {Emptied(q).1})
  {
  }

  lemma EmptiedSeen(q: Queue, t: Taker)
    requires CompletedSound(q.slots, q.completed) && q.completed != [] && TakerOk(q.slots, t)
    ensures TakerOk(Emptied(q).0.slots, t)
  {
  }

  lemma AcceptedKeeps(s: Listener, capacity: nat)
    requires Inv(s, capacity) && Can(s, Accept)
    ensures AssertsHold(s, Accept) && Inv(Do(s, Accept), capacity)
  {
    hide SlotsSound, BlockingIs, SlotsLive, Ready, TakerOk;
    EmptiedSound(s.queue);
    EmptiedReady(s.queue);
    EmptiedBlocking(s.queue, s.blocking);
    EmptiedLive(s.queue, s.live, s.held);
    EmptiedSeen(s.queue, s.taker);
    var (q, sd) := Emptied(s.queue);
    var rest := Ready(q.slots, q.completed);
    assert s.accepted + ([sd] + rest) == s.accepted + [sd] + rest;
  }

  lemma LookKeeps(s: Listener, capacity: nat)
    requires Inv(s, capacity) && Can(s, Look) && AssertsHold(s, Look)
    ensures Inv(Do(s, Look), capacity)
  {
    hide SlotsSound, CompletedSound, BlockingIs, SlotsLive, Ready;
  }

  lemma CountingKeeps(s: Listener, step: Step, capacity: nat)
    requires Inv(s, capacity) && Can(s, step)
    requires step.Arrive? || step.Load? || step.Store? || step.Check? || step.Release?
    ensures AssertsHold(s, step) ==> Inv(Do(s, step), capacity)
  {
    hide SlotsSound, CompletedSound, SlotOf, Ready;
  }

  /** Every step keeps the invariant of the slots, and the assertions about them hold where it is
      taken; those about the count are Look and Check. */
  lemma StepKeeps(s: Listener, step: Step, capacity: nat)
    requires Inv(s, capacity) && Can(s, step)
    ensures !step.Look? && !step.Check? ==> AssertsHold(s, step)
    ensures AssertsHold(s, step) ==> Inv(Do(s, step), capacity)
  {
    hide SlotsSound, CompletedSound, BlockingIs, SlotsLive, Ready;
    match step
    case Open(sd) => OpenKeeps(s, sd, capacity);
    case Complete(sd) => CompletedKeeps(s, sd, capacity);
    case Accept => AcceptedKeeps(s, capacity);
    case Look => if AssertsHold(s, step) { LookKeeps(s, capacity); }
    case _ => CountingKeeps(s, step, capacity);
  }

  lemma {:induction false} RunKeeps(s: Listener, steps: seq<Step>, capacity: nat)
    requires Inv(s, capacity) && Possible(s, steps)
    ensures Inv(Exec(s, steps), capacity)
    decreases |steps|
  {
    hide Inv, Can, AssertsHold, Do;
    if steps != [] {
      StepKeeps(s, steps[0], capacity);
      RunKeeps(Do(s, steps[0]), steps[1..], capacity);
    }
  }

  /** However the two threads interleave, completed entries are distinct occupied slots, occupied
      slots have distinct peers and descriptors in use, and the assertions about slots hold. */
  lemma SlotsStaySound(backlog: nat, steps: seq<Step>, step: Step)
    requires Possible(Start(backlog), steps) && Can(Exec(Start(backlog), steps), step)
    ensures var s := Exec(Start(backlog), steps);
            && |s.queue.slots| == U32(backlog + 1)
            && CompletedSound(s.queue.slots, s.queue.completed) && SlotsSound(s.queue.slots)
            && SlotsLive(s.queue.slots, s.live, s.held)
            && (!step.Look? && !step.Check? ==> AssertsHold(s, step))
  {
    hide Possible, Exec;
    RunKeeps(Start(backlog), steps, U32(backlog + 1));
    StepKeeps(Exec(Start(backlog), steps), step, U32(backlog + 1));
  }

  /** Connections are accepted in the order in which their handshakes ended, none twice and none
      left out: what is finished is what was accepted followed by what is ready. */
  lemma AcceptOrder(backlog: nat, steps: seq<Step>)
    requires Possible(Start(backlog), steps)
    ensures var s := Exec(Start(backlog), steps);
            && CompletedSound(s.queue.slots, s.queue.completed)
            && s.finished == s.accepted + Ready(s.queue.slots, s.queue.completed)
  {
    hide Possible, Exec;
    RunKeeps(Start(backlog), steps, U32(backlog + 1));
  }
}
