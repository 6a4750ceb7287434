/** When a test stops holding before its thread acts on it: exactly when the other thread sends the
    same request again in between. */
module ArpOvertaking {
  import opened Basics
  import opened ArpState
  import opened ArpRuns
  import opened ArpThreads
  import opened ArpGuarantees

  // No test reads an earlier time than the one before it.
  ghost predicate ClockForward(states: seq<Router>, steps: seq<Step>)
    requires |states| == |steps| + 1
  {
    forall k :: 0 <= k < |steps| && steps[k].Test? ==> steps[k].now >= states[k].clock
  }

  // Thread t acts on the request at id by sending it again.
  predicate Retries(s: Router, step: Step, t: Thread, id: nat) {
    step == Act(t) && s.In(t) && s.Top(t).Tested? && !s.Top(t).giveUp && s.Top(t).id == id
  }

  // It does so with a reading of the clock less than a second before now, or as the last of the tries.
  predicate Overtakes(s: Router, step: Step, t: Thread, id: nat, now: int) {
    && Retries(s, step, t, id)
    && match At(s.cache.requests, id)
       case Some(r) => now - s.Top(t).now < 1 || r.timesSent + 1 >= MAX_TRIES
       case None => false
  }

  // Sending the request again, tested at time now, is no longer in order.
  predicate TooLate(r: Option<Request>, now: int) { r.Some? && !Timely(r.value, now, false) }

  predicate SameTries(before: Option<Request>, after: Option<Request>) {
    match (before, after)
    case (Some(r), Some(r')) => r'.id == r.id && r'.ip == r.ip && r'.sent == r.sent && r'.timesSent == r.timesSent
    case (None, None) => true
    case _ => false
  }

  // -------------------------------------------------------------------------
  // One step of the other thread
  // -------------------------------------------------------------------------

  // What the step leaves of a request that thread t has in hand.
  lemma OthersStep(s: Router, step: Step, t: Thread, id: nat)
    requires Books(s) && !Dangling(s) && Can(s, step) && Defined(s, step) && !Fatal(s, step)
    requires step.Of() == t.Other() && s.In(t) && Refers(s.Top(t), id)
    ensures var u := Do(s, step);
            && u.Calls(t) == s.Calls(t)
            && match At(s.cache.requests, id)
               case None => false
               case Some(r) =>
                 if Retries(s, step, t.Other(), id) then
                   At(u.cache.requests, id) == Some(r.(sent := s.Top(t.Other()).now, timesSent := r.timesSent + 1))
                 else SameTries(Some(r), At(u.cache.requests, id))
  {
    hide BooksKept, WellAddressed, EntriesTaught, PendingUnknown, CallsOk, Sound, AnyRefers, Acted, Enqueued, AgedAll;
    BooksIs(s);
    HeldPresent(s, t, id);
    match step
    case Queue(o) => QueueLeaves(s, o, id);
    case Act(o) => ActLeaves(s, o, t, id);
    case Reply(_, _, _) => WalkingWhileIn(s);
    case _ =>
  }

  lemma HeldPresent(s: Router, t: Thread, id: nat)
    requires !Dangling(s) && s.In(t) && Refers(s.Top(t), id)
    ensures Present(s.cache.requests, id) && At(s.cache.requests, id).Some? && InUse(s, id)
  {
    TopPresent(s, t);
    TopAndBelow(s, t);
  }

  lemma WalkingWhileIn(s: Router)
    requires Books(s) && s.walk.Off?
    ensures !s.In(Sweeper)
  {
  }

  lemma QueueLeaves(s: Router, o: Thread, id: nat)
    requires Books(s) && Can(s, Queue(o)) && Defined(s, Queue(o)) && Present(s.cache.requests, id)
    ensures SameTries(At(s.cache.requests, id), At(Do(s, Queue(o)).cache.requests, id))
  {
    hide BooksKept, WellAddressed, EntriesTaught, PendingUnknown, CallsOk, Enqueued;
    BooksIs(s);
    InUseBelow(s, id);
    AtEnqueued(s.cache.requests, s.Top(o).ip, s.Top(o).frame, s.nextId, id);
  }

  lemma ActLeaves(s: Router, o: Thread, t: Thread, id: nat)
    requires Books(s) && Can(s, Act(o)) && Defined(s, Act(o)) && !Fatal(s, Act(o)) && t == o.Other()
    requires s.In(t) && Refers(s.Top(t), id) && Present(s.cache.requests, id)
    ensures match At(s.cache.requests, id)
            case None => false
            case Some(r) =>
              At(Do(s, Act(o)).cache.requests, id)
              == Some(if Retries(s, Act(o), o, id) then r.(sent := s.Top(o).now, timesSent := r.timesSent + 1) else r)
  {
    hide BooksKept, WellAddressed, EntriesTaught, PendingUnknown, CallsOk, Sound, Acted, AnyRefers;
    BooksIs(s);
    var requests, c := s.cache.requests, s.Top(o);
    PlaceAt(requests, Place(requests, c.id));
    ActedFor(requests, c, id);
    TopAndBelow(s, t);
    UseIs(Returned(s, o), t, id);
  }

  // -------------------------------------------------------------------------
  // Readings of the clock
  // -------------------------------------------------------------------------

  // What the thread is about to send again it has tested at time now or later.
  predicate Fresh(s: Router, t: Thread, now: int) {
    s.In(t) && s.Top(t).Tested? && !s.Top(t).giveUp ==> s.Top(t).now >= now
  }

  lemma FreshAfter(s: Router, step: Step, o: Thread, now: int)
    requires Books(s) && Can(s, step) && Defined(s, step) && step.Of() == o
    requires step.Test? ==> step.now >= now
    requires Fresh(s, o, now) || step.Act?
    ensures Fresh(Do(s, step), o, now)
  {
    hide BooksKept, WellAddressed, EntriesTaught, PendingUnknown, Sound, Acted, Enqueued, AgedAll, Answered, Lookup;
    assert CallsOk(s.Calls(o), s.cache.entries, s.nextId);
    if s.In(o) && |s.Below(o)| > 0 {
      assert GivingUp(s.Calls(o)[|s.Below(o)| - 1]);
    }
  }

  lemma ClockAfter(s: Router, step: Step)
    requires Can(s, step) && Defined(s, step) && (step.Test? ==> step.now >= s.clock)
    ensures Do(s, step).clock >= s.clock
    ensures step.Test? ==> Do(s, step).clock == step.now
  {
    hide Answered, Acted, Enqueued, AgedAll, Lookup;
  }

  // -------------------------------------------------------------------------
  // From the test to the action
  // -------------------------------------------------------------------------

  // The steps between i and j are the other thread's.
  predicate OthersBetween(steps: seq<Step>, t: Thread, i: nat, j: nat) {
    forall k :: i < k < j <= |steps| ==> steps[k].Of() == t.Other()
  }

  ghost predicate OvertakenBetween(states: seq<Router>, steps: seq<Step>, t: Thread, id: nat, now: int, i: nat, j: nat)
    requires |states| == |steps| + 1 && j <= |steps|
  {
    exists k :: i < k < j && Overtakes(states[k], steps[k], t.Other(), id, now)
  }

  // How things stand at j, thread t having tested the request at id in step i with the reading now.
  ghost predicate Standing(states: seq<Router>, steps: seq<Step>, t: Thread, id: nat, now: int, i: nat, j: nat)
    requires |states| == |steps| + 1 && i < j <= |steps|
  {
    var s := states[j];
    && Books(s) && !Dangling(s)
    && s.Calls(t) == states[i + 1].Calls(t)
    && At(s.cache.requests, id).Some?
    && s.clock >= now
    && (TooLate(At(s.cache.requests, id), now) <==> OvertakenBetween(states, steps, t, id, now, i, j))
    && (OvertakenBetween(states, steps, t, id, now, i, j) ==> Fresh(s, t.Other(), now))
  }

  lemma StandsAfterTest(states: seq<Router>, steps: seq<Step>, t: Thread, id: nat, now: int, i: nat)
    requires Run(states, steps) && NoneFatal(states, steps) && i < |steps|
    requires steps[i] == Test(t, now) && states[i + 1].In(t) && states[i + 1].Top(t) == Tested(id, now, false)
    ensures Standing(states, steps, t, id, now, i, i + 1)
  {
    hide Books, Dangling, Fatal, Stepped;
    BooksUpTo(states, steps, i);
    BooksUpTo(states, steps, i + 1);
    assert Stepped(states[i], steps[i], states[i + 1]);
    AfterTest(states[i], t, id, now, states[i + 1]);
  }

  lemma AfterTest(s: Router, t: Thread, id: nat, now: int, u: Router)
    requires Books(s) && !Dangling(s) && Stepped(s, Test(t, now), u)
    requires u.In(t) && u.Top(t) == Tested(id, now, false)
    ensures At(u.cache.requests, id).Some? && !TooLate(At(u.cache.requests, id), now) && u.clock == now
  {
    TopDefined(s, Test(t, now));
    if !Due(s.cache.requests[Place(s.cache.requests, s.Top(t).id)], now) {
      OuterGivesUp(s, t);
    }
  }

  // Had the test ended the call, the one further out would be giving a request up.
  lemma OuterGivesUp(s: Router, t: Thread)
    requires Books(s) && s.In(t)
    ensures forall i :: 0 <= i < |s.Below(t)| ==> GivingUp(s.Below(t)[i])
  {
    assert CallsOk(s.Calls(t), s.cache.entries, s.nextId);
  }

  lemma StandsOn(states: seq<Router>, steps: seq<Step>, t: Thread, id: nat, now: int, i: nat, j: nat)
    requires Run(states, steps) && NoneFatal(states, steps) && ClockForward(states, steps) && i < j < |steps|
    requires states[i + 1].In(t) && states[i + 1].Top(t) == Tested(id, now, false)
    requires Standing(states, steps, t, id, now, i, j) && steps[j].Of() == t.Other()
    ensures Standing(states, steps, t, id, now, i, j + 1)
  {
    hide Books, Dangling, Fatal, Do, Defined, Can, Place;
    var s, step, o := states[j], steps[j], t.Other();
    assert Stepped(s, step, states[j + 1]);
    StepGoes(s, step);
    BooksUpTo(states, steps, j + 1);
    OthersStep(s, step, t, id);
    ClockAfter(s, step);
    OvertakenSnoc(states, steps, t, id, now, i, j);
    if OvertakenBetween(states, steps, t, id, now, i, j) || Overtakes(s, step, o, id, now) {
      FreshAfter(s, step, o, now);
    }
  }

  lemma OvertakenSnoc(states: seq<Router>, steps: seq<Step>, t: Thread, id: nat, now: int, i: nat, j: nat)
    requires |states| == |steps| + 1 && i < j < |steps|
    ensures OvertakenBetween(states, steps, t, id, now, i, j + 1) <==>
              OvertakenBetween(states, steps, t, id, now, i, j) || Overtakes(states[j], steps[j], t.Other(), id, now)
  {
    hide Overtakes;
    if OvertakenBetween(states, steps, t, id, now, i, j + 1) {
      var k :| i < k < j + 1 && Overtakes(states[k], steps[k], t.Other(), id, now);
      assert k < j || k == j;
    }
  }

  lemma {:induction false} StandsUpTo(states: seq<Router>, steps: seq<Step>, t: Thread, id: nat, now: int,
                                      i: nat, j: nat)
    requires Run(states, steps) && NoneFatal(states, steps) && ClockForward(states, steps) && i < j <= |steps|
    requires steps[i] == Test(t, now) && states[i + 1].In(t) && states[i + 1].Top(t) == Tested(id, now, false)
    requires OthersBetween(steps, t, i, j)
    ensures Standing(states, steps, t, id, now, i, j)
  {
    hide Standing, Stepped, Fatal;
    if j == i + 1 {
      StandsAfterTest(states, steps, t, id, now, i);
    } else {
      StandsUpTo(states, steps, t, id, now, i, j - 1);
      assert steps[j - 1].Of() == t.Other();
      StandsOn(states, steps, t, id, now, i, j - 1);
    }
  }

  /** In a run without a fatal step whose clock does not go back, let a thread find a request due, and
      let the steps after that, up to the moment it is to send the request again, be the other
      thread's. Its test has then ceased to hold if and only if the other thread has sent the same
      request again in between, with a reading of the clock less than a second before, or as the last
      of the five tries. This holds of either thread overtaking the other. */
  lemma OvertakenIff(states: seq<Router>, steps: seq<Step>, t: Thread, id: nat, now: int, i: nat, j: nat)
    requires Run(states, steps) && NoneFatal(states, steps) && ClockForward(states, steps) && i < j <= |steps|
    requires steps[i] == Test(t, now) && states[i + 1].In(t) && states[i + 1].Top(t) == Tested(id, now, false)
    requires OthersBetween(steps, t, i, j)
    ensures Outdated(states[j], t) <==>
            exists k :: i < k < j && Overtakes(states[k], steps[k], t.Other(), id, now)
  {
    hide Stepped, Fatal, Books, Dangling, Fresh, Timely;
    StandsUpTo(states, steps, t, id, now, i, j);
    assert states[j].Top(t) == Tested(id, now, false);
  }
}
