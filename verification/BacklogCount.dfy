/** The count of a listening socket: what it is in every run, and when it is the number of occupied slots. */
module BacklogCount {
  import opened Basics
  import opened Backlog
  import opened BacklogRuns

  // -------------------------------------------------------------------------
  // What the count should be, and what is lost
  // -------------------------------------------------------------------------

  // An occupied slot is counted, and so is one between the two statements that fill or empty it
  // and count it.
  function Due(s: Listener): nat {
    Occupied(s.queue.slots)
    + (if s.taker.Opening? || s.taker.Undoing? || s.taker.Subtracting? then 1 else 0)
    + if s.accepter.Idle? then 0 else 1
  }

  // A store is worth what the count was when it was loaded; what the other thread has changed
  // meanwhile is lost.
  function Lost(s: Listener, step: Step): int
    requires Can(s, step)
  {
    if !step.Store? then 0
    else (if step.t == Accepting then s.accepter.count else s.taker.count) - s.queue.curLen
  }

  function LostIn(s: Listener, steps: seq<Step>): int
    requires Possible(s, steps)
    decreases |steps|
  {
    if steps == [] then 0 else Lost(s, steps[0]) + LostIn(Do(s, steps[0]), steps[1..])
  }

  // No store of the run overwrites a change.
  predicate NoneLost(s: Listener, steps: seq<Step>)
    requires Possible(s, steps)
    decreases |steps|
  {
    steps == [] || (Lost(s, steps[0]) == 0 && NoneLost(Do(s, steps[0]), steps[1..]))
  }

  // -------------------------------------------------------------------------
  // The count in every run
  // -------------------------------------------------------------------------

  function Change(s: Listener, step: Step): int {
    if !step.Store? then 0 else if step.t == Taking && s.taker.Adding? then 1 else -1
  }

  lemma DueStep(s: Listener, step: Step, capacity: nat)
    requires Inv(s, capacity) && Can(s, step) && AssertsHold(s, step)
    ensures Due(Do(s, step)) == Due(s) + Change(s, step)
  {
    hide SlotsSound, BlockingIs, SlotsLive, Ready, Occupied;
    match step
    case Open(sd) => OccupiedUpdate(s.queue.slots, s.taker.k, if sd < 0 then FREE else Slot(s.taker.peer, sd));
    case Accept => OccupiedUpdate(s.queue.slots, s.queue.completed[0], FREE);
    case _ =>
  }

  lemma SameResidue(x: int, y: int, z: int)
    requires U32(x) == y
    ensures U32(x + z) == U32(y + z)
  {
    assert x == y + (x / TWO32) * TWO32;
  }

  lemma CountStep(s: Listener, step: Step, capacity: nat, lost: int)
    requires Inv(s, capacity) && Can(s, step) && AssertsHold(s, step)
    requires s.queue.curLen == U32(Due(s) + lost)
    ensures Do(s, step).queue.curLen == U32(Due(Do(s, step)) + (lost + Lost(s, step)))
  {
    hide Inv, Due, U32;
    DueStep(s, step, capacity);
    SameResidue(Due(s) + lost, s.queue.curLen, Lost(s, step) + Change(s, step));
  }

  lemma {:induction false} CountRun(s: Listener, steps: seq<Step>, capacity: nat, lost: int)
    requires Inv(s, capacity) && Possible(s, steps)
    requires s.queue.curLen == U32(Due(s) + lost)
    ensures Exec(s, steps).queue.curLen == U32(Due(Exec(s, steps)) + (lost + LostIn(s, steps)))
    decreases |steps|
  {
    hide Inv, Can, AssertsHold, Do, Due, U32, Lost;
    if steps != [] {
      var t := Do(s, steps[0]);
      CountStep(s, steps[0], capacity, lost);
      StepKeeps(s, steps[0], capacity);
      CountRun(t, steps[1..], capacity, lost + Lost(s, steps[0]));
      assert lost + (Lost(s, steps[0]) + LostIn(t, steps[1..])) == lost + Lost(s, steps[0]) + LostIn(t, steps[1..]);
    }
  }

  lemma StartCounts(backlog: nat)
    ensures Inv(Start(backlog), U32(backlog + 1)) && Due(Start(backlog)) == 0
  {
    AllFree(U32(backlog + 1));
  }

  /** In every run the count is what it should be plus what was lost, in 32 bits. At rest it is the
      number of occupied slots exactly when what was lost sums to nothing. */
  lemma CountOf(backlog: nat, steps: seq<Step>)
    requires Possible(Start(backlog), steps)
    ensures var s := Exec(Start(backlog), steps);
            && s.queue.curLen == U32(Due(s) + LostIn(Start(backlog), steps))
            && (s.taker.AtRest? && s.accepter.Idle? ==>
                 (s.queue.curLen == Occupied(s.queue.slots) <==> U32(LostIn(Start(backlog), steps)) == 0))
  {
    hide Possible, Exec, LostIn, Inv, Occupied;
    StartCounts(backlog);
    CountRun(Start(backlog), steps, U32(backlog + 1), 0);
    RunKeeps(Start(backlog), steps, U32(backlog + 1));
    var s, lost := Exec(Start(backlog), steps), LostIn(Start(backlog), steps);
    if s.taker.AtRest? && s.accepter.Idle? {
      Fits(s, U32(backlog + 1));
      Residue(Occupied(s.queue.slots), lost);
    }
  }

  lemma Fits(s: Listener, capacity: nat)
    requires Inv(s, capacity) && capacity < TWO32
    ensures Occupied(s.queue.slots) < TWO32
  {
  }

  lemma Residue(n: int, x: int)
    requires 0 <= n < TWO32
    ensures U32(n + x) == n <==> U32(x) == 0
  {
    if U32(n + x) == n { SameResidue(n + x, n, -n); }
    if U32(x) == 0 { SameResidue(x, 0, n); }
  }

  // -------------------------------------------------------------------------
  // Runs in which nothing is lost
  // -------------------------------------------------------------------------

  ghost predicate FreeFrom(slots: seq<Slot>, k: nat) { exists j :: k <= j < |slots| && slots[j].Free() }

  ghost predicate Counted(s: Listener) {
    && s.queue.curLen == Due(s) <= |s.queue.slots|
    && (s.taker.Searching? || s.taker.Found? || s.taker.Adding? ==> Due(s) < |s.queue.slots|)
    && (s.taker.Searching? ==> FreeFrom(s.queue.slots, s.taker.k))
  }

  lemma SearchGoesOn(q: Queue, peer: Peer, k: nat)
    requires FreeFrom(q.slots, k)
    ensures k < |q.slots|
    ensures Looked(q, Searching(peer, k)).Searching? ==> FreeFrom(q.slots, k + 1)
  {
  }

  lemma EmptyingFrees(q: Queue, k: nat)
    requires q.completed != [] && q.completed[0] < |q.slots| && FreeFrom(q.slots, k)
    ensures FreeFrom(Emptied(q).0.slots, k)
  {
    var j :| k <= j < |q.slots| && q.slots[j].Free();
    assert Emptied(q).0.slots[j].Free();
  }

  lemma LookCounted(s: Listener, capacity: nat)
    requires Inv(s, capacity) && Counted(s) && Can(s, Look)
    ensures AssertsHold(s, Look) && Counted(Do(s, Look))
  {
    hide Inv, Occupied;
    if s.taker.Searching? {
      SearchGoesOn(s.queue, s.taker.peer, s.taker.k);
    } else {
      RoomIsFreeSlot(s.queue.slots);
    }
  }

  lemma CountedStep(s: Listener, step: Step, capacity: nat)
    requires Inv(s, capacity) && capacity < TWO32 && Counted(s) && Can(s, step) && Lost(s, step) == 0
    ensures AssertsHold(s, step) && Counted(Do(s, step))
  {
    hide Inv, Occupied, FreeFrom;
    StepKeeps(s, step, capacity);
    Structure(s, capacity);
    if step.Look? {
      LookCounted(s, capacity);
    } else {
      DueStep(s, step, capacity);
      if step.Accept? && s.taker.Searching? { EmptyingFrees(s.queue, s.taker.k); }
    }
  }

  lemma Structure(s: Listener, capacity: nat)
    requires Inv(s, capacity)
    ensures |s.queue.slots| == capacity && SlotsSound(s.queue.slots)
    ensures CompletedSound(s.queue.slots, s.queue.completed)
  {
  }

  lemma {:induction false} CountedRun(s: Listener, steps: seq<Step>, capacity: nat)
    requires Inv(s, capacity) && capacity < TWO32 && Counted(s) && Possible(s, steps) && NoneLost(s, steps)
    ensures Inv(Exec(s, steps), capacity) && Counted(Exec(s, steps))
    decreases |steps|
  {
    hide Inv, Counted, Can, AssertsHold, Do, Lost;
    if steps != [] {
      CountedStep(s, steps[0], capacity);
      StepKeeps(s, steps[0], capacity);
      CountedRun(Do(s, steps[0]), steps[1..], capacity);
    }
  }

  /** As long as no store has overwritten a change, the count is the number of slots it should be,
      it stays within the backlog plus one, none of the source's assertions fails at any possible
      step, and the queue is sound whenever both threads are at rest. */
  lemma BacklogInvariant(backlog: nat, steps: seq<Step>, step: Step)
    requires Possible(Start(backlog), steps) && NoneLost(Start(backlog), steps)
    requires Can(Exec(Start(backlog), steps), step)
    ensures var s := Exec(Start(backlog), steps);
            && s.queue.curLen == Due(s) <= U32(backlog + 1) && AssertsHold(s, step)
            && (s.taker.AtRest? && s.accepter.Idle? ==> Sound(s.queue))
  {
    hide Possible, Exec, NoneLost, Occupied, Inv;
    StartCounts(backlog);
    var s := Exec(Start(backlog), steps);
    CountedRun(Start(backlog), steps, U32(backlog + 1));
    Structure(s, U32(backlog + 1));
    if !step.Store? { CountedStep(s, step, U32(backlog + 1)); }
  }

  // -------------------------------------------------------------------------
  // When nothing is lost
  // -------------------------------------------------------------------------

  predicate Between(s: Listener, t: Thread) {
    if t == Taking then s.taker.Adding? || s.taker.Subtracting? else s.accepter.Lowering?
  }

  // Neither thread loads the count while the other is between its load and its store.
  predicate OneAtATime(s: Listener, steps: seq<Step>)
    requires Possible(s, steps)
    decreases |steps|
  {
    steps == []
    || (&& (steps[0].Load? ==> !Between(s, if steps[0].t == Taking then Accepting else Taking))
        && OneAtATime(Do(s, steps[0]), steps[1..]))
  }

  predicate Current(s: Listener) {
    && !(Between(s, Taking) && Between(s, Accepting))
    && (Between(s, Taking) ==> s.taker.count == s.queue.curLen)
    && (Between(s, Accepting) ==> s.accepter.count == s.queue.curLen)
  }

  lemma {:induction false} OneAtATimeLosesNothing(s: Listener, steps: seq<Step>)
    requires Possible(s, steps) && Current(s) && OneAtATime(s, steps)
    ensures NoneLost(s, steps)
    decreases |steps|
  {
    hide AssertsHold;
    if steps != [] {
      CurrentStep(s, steps[0]);
      OneAtATimeLosesNothing(Do(s, steps[0]), steps[1..]);
    }
  }

  lemma CurrentStep(s: Listener, step: Step)
    requires Can(s, step) && AssertsHold(s, step) && Current(s)
    requires step.Load? ==> !Between(s, if step.t == Taking then Accepting else Taking)
    ensures Current(Do(s, step)) && Lost(s, step) == 0
  {
  }

  /** A lock around each of the three statements that change the count is all that is missing: in
      a run that respects one, nothing is lost. */
  lemma LockSuffices(backlog: nat, steps: seq<Step>)
    requires Possible(Start(backlog), steps) && OneAtATime(Start(backlog), steps)
    ensures NoneLost(Start(backlog), steps)
  {
    OneAtATimeLosesNothing(Start(backlog), steps);
  }
}
