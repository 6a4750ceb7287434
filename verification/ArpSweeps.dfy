/** Runs step by step, and the sweep that nothing disturbs: test by test and action by action it comes
    to what the walk computes as a whole. */
module ArpSweeps {
  import opened Basics
  import opened ArpState
  import opened ArpRuns
  import opened ArpThreads
  import opened ArpGuarantees

  // A run that reaches s without a fatal step.
  ghost predicate Reaches(states: seq<Router>, steps: seq<Step>, s: Router) {
    Run(states, steps) && NoneFatal(states, steps) && states[|steps|] == s
  }

  lemma OneMore(states: seq<Router>, steps: seq<Step>, s: Router, step: Step)
    returns (longer: seq<Router>, more: seq<Step>)
    requires Reaches(states, steps, s) && Can(s, step)
    ensures Defined(s, step)
    ensures more == steps + [step] && longer == states + [Do(s, step)] && Run(longer, more)
    ensures !Fatal(s, step) ==> Reaches(longer, more, Do(s, step))
    ensures Books(s) && !Dangling(s)
  {
    hide Do, Fatal, Defined, Can, Books, Dangling;
    BooksUpTo(states, steps, |steps|);
    StepGoes(s, step);
    longer, more := states + [Do(s, step)], steps + [step];
    forall k | 0 <= k < |more| ensures Stepped(longer[k], more[k], longer[k + 1]) {
      if k < |steps| { assert Stepped(states[k], steps[k], states[k + 1]); }
    }
    forall k | 0 <= k < |steps| ensures !Fatal(longer[k], more[k]) {
      assert !Fatal(states[k], steps[k]);
    }
  }

  lemma NotActing(s: Router, step: Step)
    requires !step.Act?
    ensures !Fatal(s, step)
  {
  }

  // -------------------------------------------------------------------------
  // One request of the walk
  // -------------------------------------------------------------------------

  // The walk is about to go on with the request at index i, and nothing else is going on.
  predicate WalkAt(s: Router, i: nat) {
    s.walk == On(IdAt(s.cache.requests, i)) && s.handler == [] && s.sweeper == [] && i <= |s.cache.requests|
  }

  lemma VisitAt(s: Router, i: nat)
    requires Apart(s.cache.requests) && AllCanAsk(s.cache.requests) && i < |s.cache.requests|
    requires s.walk == On(IdAt(s.cache.requests, i)) && s.sweeper == []
    ensures Can(s, Visit) && Defined(s, Visit)
    ensures Do(s, Visit)
         == s.(walk := On(IdAt(s.cache.requests, i + 1)), sweeper := [Holding(s.cache.requests[i].id)])
  {
    PlaceAt(s.cache.requests, i);
  }

  // The thread tests the request at index i, its calls further out being below.
  lemma TestAt(s: Router, t: Thread, below: seq<Call>, i: nat, now: int)
    requires Apart(s.cache.requests) && AllCanAsk(s.cache.requests) && i < |s.cache.requests|
    requires s.Calls(t) == below + [Holding(s.cache.requests[i].id)]
    ensures Can(s, Test(t, now)) && Defined(s, Test(t, now))
    ensures var r := s.cache.requests[i];
            Do(s, Test(t, now))
            == s.(clock := now)
               .WithCalls(t, below + if Due(r, now) then [Tested(r.id, now, r.timesSent >= MAX_TRIES)] else [])
  {
    PlaceAt(s.cache.requests, i);
    assert s.Below(t) == below;
  }

  lemma ActAt(s: Router, t: Thread, below: seq<Call>, i: nat, now: int, giveUp: bool)
    requires Apart(s.cache.requests) && AllCanAsk(s.cache.requests) && i < |s.cache.requests|
    requires s.Calls(t) == below + [Tested(s.cache.requests[i].id, now, giveUp)] && (giveUp ==> s.Locks(t))
    ensures Can(s, Act(t)) && Defined(s, Act(t))
    ensures var (next, seen) := Acted(s.cache.requests, i, now, giveUp);
            Do(s, Act(t)) == s.(cache := s.cache.(requests := next), trace := s.trace + seen).WithCalls(t, below)
  {
    PlaceAt(s.cache.requests, i);
    assert s.Below(t) == below;
  }

  lemma RetryHarmless(s: Router, t: Thread)
    requires Can(s, Act(t)) && !s.Top(t).giveUp
    ensures !Fatal(s, Act(t))
  {
  }

  lemma ActHarmless(s: Router, i: nat, now: int, giveUp: bool)
    requires Apart(s.cache.requests) && i < |s.cache.requests| && s.walk == On(IdAt(s.cache.requests, i + 1))
    requires s.sweeper == [Tested(s.cache.requests[i].id, now, giveUp)] && s.handler == []
    ensures !Fatal(s, Act(Sweeper))
  {
  }

  lemma WalkOn(requests: seq<Request>, i: nat, now: int)
    requires i < |requests| && AllCanAsk(requests)
    ensures var next := Handled(requests, i, now).0;
            && |requests| - 1 <= |next| <= |requests| && AllCanAsk(next)
            && IdAt(requests, i + 1) == IdAt(next, if |next| == |requests| then i + 1 else i)
  {
    var rest := Without(requests, i);
    assert forall k :: 0 <= k < |rest| ==> rest[k] == requests[if k < i then k else k + 1];
  }

  // The walk fetches the request at index i and tests it.
  lemma VisitAndTest(states: seq<Router>, steps: seq<Step>, s: Router, i: nat, now: int)
    returns (longer: seq<Router>, more: seq<Step>, t: Router)
    requires Reaches(states, steps, s) && WalkAt(s, i) && i < |s.cache.requests|
    ensures Reaches(longer, more, t)
    ensures var r := s.cache.requests[i];
            t == s.(walk := On(IdAt(s.cache.requests, i + 1)), clock := now,
                    sweeper := if Due(r, now) then [Tested(r.id, now, r.timesSent >= MAX_TRIES)] else [])
  {
    hide Reaches, Fatal, Do, Can, Defined, Due, Apart, AllCanAsk, IdAt, Books, Dangling;
    ReachedBooks(states, steps, s);
    VisitAt(s, i);
    NotActing(s, Visit);
    var states1, steps1 := OneMore(states, steps, s, Visit);
    var s1 := Do(s, Visit);
    assert s1.sweeper == [] + [Holding(s.cache.requests[i].id)];
    TestAt(s1, Sweeper, [], i, now);
    NotActing(s1, Test(Sweeper, now));
    longer, more := OneMore(states1, steps1, s1, Test(Sweeper, now));
    t := Do(s1, Test(Sweeper, now));
  }

  // The steps that handle the request at index i.
  lemma HandleOne(states: seq<Router>, steps: seq<Step>, s: Router, i: nat, now: int)
    returns (longer: seq<Router>, more: seq<Step>, t: Router)
    requires Reaches(states, steps, s) && WalkAt(s, i) && i < |s.cache.requests|
    ensures AllCanAsk(s.cache.requests) && Reaches(longer, more, t)
    ensures var (next, seen) := Handled(s.cache.requests, i, now);
            && t == s.(cache := s.cache.(requests := next), trace := s.trace + seen, clock := now, walk := t.walk)
            && WalkAt(t, if |next| == |s.cache.requests| then i + 1 else i)
  {
    hide Reaches, Fatal, Do, Can, Defined, Due;
    var requests := s.cache.requests;
    var r := requests[i];
    ReachedBooks(states, steps, s);
    WalkOn(requests, i, now);
    longer, more, t := VisitAndTest(states, steps, s, i, now);
    if Due(r, now) {
      var u := t;
      assert u.sweeper == [] + [Tested(r.id, now, r.timesSent >= MAX_TRIES)];
      ActAt(u, Sweeper, [], i, now, r.timesSent >= MAX_TRIES);
      ActHarmless(u, i, now, r.timesSent >= MAX_TRIES);
      longer, more := OneMore(longer, more, u, Act(Sweeper));
      t := Do(u, Act(Sweeper));
    } else {
      assert s.trace + [] == s.trace;
    }
  }

  lemma ReachedBooks(states: seq<Router>, steps: seq<Step>, s: Router)
    requires Reaches(states, steps, s)
    ensures Books(s) && !Dangling(s) && Apart(s.cache.requests) && AllCanAsk(s.cache.requests)
  {
    hide Stepped, Fatal;
    BooksUpTo(states, steps, |steps|);
    BooksIs(s);
  }

  // -------------------------------------------------------------------------
  // The whole walk
  // -------------------------------------------------------------------------

  // What handling makes of a request.
  function HandledOutcome(r: Request, now: int): Option<Request> {
    if Due(r, now) then Outcome(r, now, r.timesSent >= MAX_TRIES) else Some(r)
  }

  lemma HandledAt(requests: seq<Request>, i: nat, now: int, id: nat)
    requires Apart(requests) && AllCanAsk(requests) && i < |requests|
    ensures var next, p := Handled(requests, i, now).0, Place(requests, id);
            && Apart(next) && AllCanAsk(next)
            && At(next, id) == (if id == requests[i].id then HandledOutcome(requests[i], now) else At(requests, id))
            && Place(next, id) == if |next| == |requests| then p
                                  else if p == i then |next| else if p > i then p - 1 else p
  {
    hide Place, Apart, At;
    var r := requests[i];
    WalkOn(requests, i, now);
    PlaceAt(requests, i);
    if Due(r, now) {
      ActedAt(requests, i, now, r.timesSent >= MAX_TRIES, id);
      if r.timesSent >= MAX_TRIES {
        ApartWithout(requests, i);
        PlaceWithout(requests, i, id);
      } else {
        AtUpdate(requests, i, r.(sent := now, timesSent := r.timesSent + 1), id);
        PlaceUpdate(requests, i, r.(sent := now, timesSent := r.timesSent + 1), id);
      }
    } else {
      AtOf(requests, i);
    }
  }

  lemma AtOf(requests: seq<Request>, i: nat)
    requires Apart(requests) && i < |requests|
    ensures At(requests, requests[i].id) == Some(requests[i])
  {
    PlaceAt(requests, i);
  }

  /** The walk handles each request from index i on exactly once, whatever becomes of the others. */
  lemma {:induction false} SweptEach(requests: seq<Request>, i: nat, now: int, id: nat)
    requires Apart(requests) && AllCanAsk(requests) && i <= |requests|
    ensures var p := Place(requests, id);
            At(SweptFrom(requests, i, now).0, id)
            == if i <= p < |requests| then HandledOutcome(requests[p], now) else At(requests, id)
    decreases |requests| - i
  {
    hide Handled, Place, Apart;
    if i < |requests| {
      var next := Handled(requests, i, now).0;
      WalkOn(requests, i, now);
      HandledAt(requests, i, now, id);
      PlaceAt(requests, i);
      SweptEach(next, if |next| == |requests| then i + 1 else i, now, id);
    }
  }

  lemma {:induction false} WalkFrom(states: seq<Router>, steps: seq<Step>, s: Router, i: nat, now: int)
    returns (longer: seq<Router>, more: seq<Step>, t: Router)
    requires Reaches(states, steps, s) && WalkAt(s, i)
    ensures AllCanAsk(s.cache.requests) && Reaches(longer, more, t)
    ensures var (last, seen) := SweptFrom(s.cache.requests, i, now);
            t == s.(cache := s.cache.(requests := last), trace := s.trace + seen, clock := t.clock, walk := On(None))
    decreases |s.cache.requests| - i
  {
    hide Reaches, Handled;
    ReachedBooks(states, steps, s);
    if i == |s.cache.requests| {
      assert s.trace + [] == s.trace;
      longer, more, t := states, steps, s;
    } else {
      var (next, seen) := Handled(s.cache.requests, i, now);
      WalkOn(s.cache.requests, i, now);
      var states1, steps1, s1 := HandleOne(states, steps, s, i, now);
      longer, more, t := WalkFrom(states1, steps1, s1, if |next| == |s.cache.requests| then i + 1 else i, now);
      var rest := SweptFrom(s1.cache.requests, if |next| == |s.cache.requests| then i + 1 else i, now).1;
      assert s.trace + seen + rest == s.trace + (seen + rest);
    }
  }

  /** A sweep that nothing disturbs, its tests reading one time, comes to the walk as a whole: every
      request is handled once, in order, also when others are given up on the way. */
  lemma UndisturbedSweep(states: seq<Router>, steps: seq<Step>, s: Router, now: int)
    returns (longer: seq<Router>, more: seq<Step>, t: Router)
    requires Reaches(states, steps, s) && s.walk.Off? && s.handler == []
    ensures AllCanAsk(s.cache.requests) && Reaches(longer, more, t)
    ensures var (last, seen) := SweptFrom(s.cache.requests, 0, now);
            t == s.(cache := Cache(AgedAll(s.cache.entries, now), last), trace := s.trace + seen, clock := t.clock)
  {
    hide Reaches, SweptFrom, AgedAll, Fatal;
    ReachedBooks(states, steps, s);
    WalkingOff(s);
    NotActing(s, Begin(now));
    var states1, steps1 := OneMore(states, steps, s, Begin(now));
    var s1 := Do(s, Begin(now));
    var states2, steps2, s2 := WalkFrom(states1, steps1, s1, 0, now);
    NotActing(s2, Finish);
    longer, more := OneMore(states2, steps2, s2, Finish);
    t := Do(s2, Finish);
  }

  lemma WalkingOff(s: Router)
    requires Books(s) && s.walk.Off?
    ensures s.sweeper == []
  {
  }
}
