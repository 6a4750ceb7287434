/** Runs that go wrong: two that use a freed request, two that send a request a sixth time. */
module ArpRaces {
  import opened Basics
  import opened ArpState
  import opened ArpRuns
  import opened ArpThreads
  import opened ArpGuarantees
  import opened ArpSweeps

  // -------------------------------------------------------------------------
  // The seconds before
  // -------------------------------------------------------------------------

  function Entries(): seq<Entry> { seq(CACHE_SIZE, _ => Entry(false, 0, [], 0)) }

  // The requests of base, asked for n times, the last time in second n.
  function AtTry(base: seq<Request>, n: nat): (r: seq<Request>)
    ensures |r| == |base|
  {
    seq(|base|, k requires 0 <= k < |base| => base[k].(sent := n, timesSent := n))
  }

  // Nothing is going on; the cache is empty.
  predicate Quiet(s: Router, base: seq<Request>, n: nat) {
    s.cache == Cache(Entries(), AtTry(base, n)) && s.handler == [] && s.sweeper == [] && s.walk.Off?
  }

  lemma NothingCached(now: int, ip: Ip)
    ensures Lookup(Entries(), ip).None? && AgedAll(Entries(), now) == Entries()
  {
  }

  // A sweep in the next second asks for every address once more.
  lemma {:induction false} SweptAll(requests: seq<Request>, i: nat, now: int)
    requires AllCanAsk(requests) && i <= |requests|
    requires forall k :: i <= k < |requests| ==> Due(requests[k], now) && requests[k].timesSent < MAX_TRIES
    ensures var r := SweptFrom(requests, i, now).0;
            && |r| == |requests|
            && forall k :: 0 <= k < |requests| ==>
                 r[k] == if k < i then requests[k]
                         else requests[k].(sent := now, timesSent := requests[k].timesSent + 1)
    decreases |requests| - i
  {
    if i < |requests| {
      var next := Handled(requests, i, now).0;
      WalkOn(requests, i, now);
      SweptAll(next, i + 1, now);
    }
  }

  lemma {:induction false} Seconds(states: seq<Router>, steps: seq<Step>, s: Router, base: seq<Request>, n: nat)
    returns (longer: seq<Router>, more: seq<Step>, t: Router)
    requires Reaches(states, steps, s) && Quiet(s, base, 1) && 1 <= n <= MAX_TRIES
    ensures Reaches(longer, more, t) && Quiet(t, base, n)
  {
    hide Reaches, SweptFrom, Place;
    if n == 1 {
      longer, more, t := states, steps, s;
    } else {
      var states1, steps1, s1 := Seconds(states, steps, s, base, n - 1);
      ReachedBooks(states1, steps1, s1);
      NothingCached(n, 0);
      SweptAll(s1.cache.requests, 0, n);
      longer, more, t := UndisturbedSweep(states1, steps1, s1, n);
      assert t.cache.requests == AtTry(base, n);
    }
  }

  // -------------------------------------------------------------------------
  // Frames arriving
  // -------------------------------------------------------------------------

  // A frame is queued for the address of the i-th request, or for a new one.
  lemma Queued(states: seq<Router>, steps: seq<Step>, s: Router, ip: Ip, frame: Frame)
    returns (longer: seq<Router>, more: seq<Step>, t: Router)
    requires Reaches(states, steps, s) && s.cache.entries == Entries() && s.handler == [] && s.walk.Off?
    requires frame.bytes != []
    ensures Reaches(longer, more, t)
    ensures var next, i := Enqueued(s.cache.requests, ip, frame, s.nextId), Find(s.cache.requests, ip);
            && i < |next| && t.cache == s.cache.(requests := next) && t.handler == [Holding(next[i].id)]
            && t.walk == s.walk && t.sweeper == s.sweeper && t.trace == s.trace
  {
    hide Reaches, Fatal, Enqueued, Find;
    var look, queue := Look(Handler, ip, frame), Queue(Handler);
    ReachedBooks(states, steps, s);
    FindEnqueued(s.cache.requests, ip, frame, s.nextId);
    NothingCached(0, ip);
    NotActing(s, look);
    var states1, steps1 := OneMore(states, steps, s, look);
    var s1 := Do(s, look);
    assert s1.handler == [Missed(ip, frame)];
    NotActing(s1, queue);
    longer, more := OneMore(states1, steps1, s1, queue);
    t := Do(s1, queue);
  }

  // A thread finds the i-th request due and not yet tried five times.
  lemma FoundDue(states: seq<Router>, steps: seq<Step>, s: Router, t: Thread, i: nat, now: int)
    returns (longer: seq<Router>, more: seq<Step>, u: Router)
    requires Reaches(states, steps, s) && i < |s.cache.requests|
    requires s.Calls(t) == [Holding(s.cache.requests[i].id)] && Due(s.cache.requests[i], now)
    ensures Reaches(longer, more, u)
    ensures var r := s.cache.requests[i];
            u == s.(clock := now).WithCalls(t, [Tested(r.id, now, r.timesSent >= MAX_TRIES)])
  {
    hide Reaches, Fatal, Do, Can, Defined;
    ReachedBooks(states, steps, s);
    assert s.Calls(t) == [] + [Holding(s.cache.requests[i].id)];
    TestAt(s, t, [], i, now);
    NotActing(s, Test(t, now));
    longer, more := OneMore(states, steps, s, Test(t, now));
    u := Do(s, Test(t, now));
    var c := Tested(s.cache.requests[i].id, now, s.cache.requests[i].timesSent >= MAX_TRIES);
    assert [] + [c] == [c];
  }

  // It sends the request again.
  lemma SentAgain(states: seq<Router>, steps: seq<Step>, s: Router, t: Thread, i: nat, now: int)
    returns (longer: seq<Router>, more: seq<Step>, u: Router)
    requires Reaches(states, steps, s) && i < |s.cache.requests|
    requires s.Calls(t) == [Tested(s.cache.requests[i].id, now, false)]
    ensures Reaches(longer, more, u) && more == steps + [Act(t)] && longer == states + [u]
    ensures s.cache.requests[i].packets != []
    ensures var r := s.cache.requests[i];
            u == s.(cache := s.cache.(requests := s.cache.requests[i := r.(sent := now, timesSent := r.timesSent + 1)]),
                    trace := s.trace + [Asked(r.ip, r.packets[0].iface, now)])
                 .WithCalls(t, [])
  {
    hide Reaches, Fatal, Do, Can, Defined, Apart, Books, Dangling;
    ReachedBooks(states, steps, s);
    assert s.Calls(t) == [] + [Tested(s.cache.requests[i].id, now, false)];
    ActAt(s, t, [], i, now, false);
    RetryHarmless(s, t);
    longer, more := OneMore(states, steps, s, Act(t));
    u := Do(s, Act(t));
    assert CanAsk(s.cache.requests[i]);
  }

  lemma Beginning()
    ensures Reaches([Start()], [], Start()) && Start().cache == Cache(Entries(), [])
  {
  }

  function New(id: nat, ip: Ip, frame: Frame): Request { Request(id, ip, 0, 0, [frame]) }

  // An address that no request is for yet is asked for in second 1.
  lemma FirstAsked(states: seq<Router>, steps: seq<Step>, s: Router, base: seq<Request>, ip: Ip, frame: Frame)
    returns (longer: seq<Router>, more: seq<Step>, t: Router)
    requires Reaches(states, steps, s) && Quiet(s, base, 1) && frame.bytes != []
    requires forall k :: 0 <= k < |base| ==> base[k].ip != ip
    ensures Reaches(longer, more, t) && Quiet(t, base + [New(s.nextId, ip, frame)], 1)
  {
    hide Reaches;
    var requests, r := s.cache.requests, New(s.nextId, ip, frame);
    FindIs(requests, ip, |requests|);
    assert [frame] + [] == [frame];
    var states1, steps1, s1 := Queued(states, steps, s, ip, frame);
    assert s1.cache.requests == requests + [r];
    var states2, steps2, s2 := FoundDue(states1, steps1, s1, Handler, |requests|, 1);
    longer, more, t := SentAgain(states2, steps2, s2, Handler, |requests|, 1);
    assert t.cache.requests == AtTry(base + [r], 1);
  }

  // One address has been asked for in seconds 1 to n.
  lemma OneAsked(ip: Ip, frame: Frame, n: nat) returns (states: seq<Router>, steps: seq<Step>, s: Router)
    requires frame.bytes != [] && 1 <= n <= MAX_TRIES
    ensures Reaches(states, steps, s) && Quiet(s, [New(0, ip, frame)], n)
  {
    hide Reaches;
    Beginning();
    var states1, steps1, s1 := FirstAsked([Start()], [], Start(), [], ip, frame);
    assert [] + [New(0, ip, frame)] == [New(0, ip, frame)];
    states, steps, s := Seconds(states1, steps1, s1, [New(0, ip, frame)], n);
  }

  // Then another frame for it is queued.
  lemma Joined(ip: Ip, first: Frame, second: Frame, n: nat)
    returns (states: seq<Router>, steps: seq<Step>, s: Router)
    requires first.bytes != [] && second.bytes != [] && 1 <= n <= MAX_TRIES
    ensures Reaches(states, steps, s) && s.cache == Cache(Entries(), [Request(0, ip, n, n, [second, first])])
    ensures s.handler == [Holding(0)] && s.sweeper == [] && s.walk.Off?
  {
    hide Reaches;
    var states1, steps1, s1 := OneAsked(ip, first, n);
    var r := Request(0, ip, n, n, [first]);
    assert s1.cache.requests == [r];
    FindIs([r], ip, 0);
    assert [second] + [first] == [second, first];
    states, steps, s := Queued(states1, steps1, s1, ip, second);
    assert [r][0 := r.(packets := [second, first])] == [r.(packets := [second, first])];
  }

  // A sweep takes the lock and goes to the first request.
  lemma SweepStarts(states: seq<Router>, steps: seq<Step>, s: Router, now: int)
    returns (longer: seq<Router>, more: seq<Step>, t: Router)
    requires Reaches(states, steps, s) && s.cache.entries == Entries() && s.cache.requests != []
    requires s.sweeper == [] && s.walk.Off?
    ensures Reaches(longer, more, t)
    ensures t == s.(walk := On(IdAt(s.cache.requests, 1)), sweeper := [Holding(s.cache.requests[0].id)])
  {
    hide Reaches, Fatal, AgedAll, Place;
    ReachedBooks(states, steps, s);
    NothingCached(now, 0);
    NotActing(s, Begin(now));
    var states1, steps1 := OneMore(states, steps, s, Begin(now));
    var s1 := Do(s, Begin(now));
    VisitAt(s1, 0);
    NotActing(s1, Visit);
    longer, more := OneMore(states1, steps1, s1, Visit);
    t := Do(s1, Visit);
  }

  // -------------------------------------------------------------------------
  // A freed request in the packet thread's hand
  // -------------------------------------------------------------------------

  /** An address has been asked for in seconds 1 to 5 when another frame is queued for it. The sweep in
      second 6 gives both frames up and frees the request; the packet thread still has it in hand and
      is about to test it. */
  lemma FreedWhileInHand(ip: Ip, first: Frame, second: Frame)
    returns (states: seq<Router>, steps: seq<Step>, t: Router)
    requires first.bytes != [] && second.bytes != []
    ensures Run(states, steps) && t == states[|steps|]
    ensures Can(t, Test(Handler, 6)) && !Defined(t, Test(Handler, 6))
    ensures t.cache.requests == [] && t.trace != [] && t.trace[|t.trace| - 1] == GaveUp(ip, [second, first], 6)
  {
    hide Reaches, Fatal, Do;
    var states1, steps1, s1 := Joined(ip, first, second, MAX_TRIES);
    var states2, steps2, s2 := SweepStarts(states1, steps1, s1, 6);
    var states3, steps3, s3 := FoundDue(states2, steps2, s2, Sweeper, 0, 6);
    ReachedBooks(states3, steps3, s3);
    assert s3.sweeper == [] + [Tested(0, 6, true)];
    ActAt(s3, Sweeper, [], 0, 6, true);
    states, steps := OneMore(states3, steps3, s3, Act(Sweeper));
    t := Do(s3, Act(Sweeper));
    LastOf(states3, steps3, s3);
    assert t.cache.requests == [] && t.handler == [Holding(0)];
  }

  lemma LastOf(states: seq<Router>, steps: seq<Step>, s: Router)
    requires Reaches(states, steps, s)
    ensures |states| == |steps| + 1 && states[|steps|] == s && Run(states, steps) && NoneFatal(states, steps)
  {
  }

  // -------------------------------------------------------------------------
  // A freed request ahead of the walk
  // -------------------------------------------------------------------------

  // Two addresses have been asked for in seconds 1 to 5.
  lemma TwoAsked(a: Ip, b: Ip, first: Frame, second: Frame)
    returns (states: seq<Router>, steps: seq<Step>, s: Router, id: nat)
    requires first.bytes != [] && second.bytes != [] && a != b
    ensures Reaches(states, steps, s) && Quiet(s, [New(0, a, first), New(id, b, second)], MAX_TRIES) && id != 0
  {
    hide Reaches;
    var states1, steps1, s1 := OneAsked(a, first, 1);
    var base := [New(0, a, first)];
    id := s1.nextId;
    var states2, steps2, s2 := FirstAsked(states1, steps1, s1, base, b, second);
    assert base + [New(id, b, second)] == [New(0, a, first), New(id, b, second)];
    states, steps, s := Seconds(states2, steps2, s2, [New(0, a, first), New(id, b, second)], MAX_TRIES);
    DifferentIds(states, steps, s);
  }

  lemma DifferentIds(states: seq<Router>, steps: seq<Step>, s: Router)
    requires Reaches(states, steps, s) && |s.cache.requests| == 2
    ensures s.cache.requests[0].id != s.cache.requests[1].id
  {
    ReachedBooks(states, steps, s);
  }

  // The sweep in second 6 is to give up the first request, the second being next.
  lemma GivingUpFirst(a: Ip, b: Ip, first: Frame, second: Frame)
    returns (states: seq<Router>, steps: seq<Step>, s: Router, id: nat)
    requires first.bytes != [] && second.bytes != [] && a != b
    ensures Reaches(states, steps, s) && id != 0
    ensures s.cache == Cache(Entries(), [Request(0, a, 5, 5, [first]), Request(id, b, 5, 5, [second])])
    ensures s.walk == On(Some(id)) && s.sweeper == [Tested(0, 6, true)] && s.handler == []
  {
    hide Reaches, Fatal, Do, Place;
    var states1, steps1, s1;
    states1, steps1, s1, id := TwoAsked(a, b, first, second);
    assert s1.cache.requests == [Request(0, a, 5, 5, [first]), Request(id, b, 5, 5, [second])];
    var states2, steps2, s2 := SweepStarts(states1, steps1, s1, 6);
    states, steps, s := FoundDue(states2, steps2, s2, Sweeper, 0, 6);
  }

  /** Two addresses have been asked for in seconds 1 to 5. The sweep in second 6 gives the first one up
      and has a message to send about its frame, which is for the second address. The nested handling
      of that gives the second one up too and frees it, and the walk is to go on with it. */
  lemma NextFreed(a: Ip, b: Ip, first: Frame, second: Frame, message: Frame)
    returns (states: seq<Router>, steps: seq<Step>, t: Router)
    requires first.bytes != [] && second.bytes != [] && message.bytes != [] && a != b
    ensures Run(states, steps) && t == states[|steps|]
    ensures t.sweeper == [] && Can(t, Visit) && !Defined(t, Visit)
  {
    hide Reaches, Fatal, Do, Place, Can, Defined;
    var states1, steps1, s1, id := GivingUpFirst(a, b, first, second);
    var states2, steps2, s2 := MessageQueued(states1, steps1, s1, id, a, b, first, second, message);
    states, steps, t := BothGivenUp(states2, steps2, s2, id, a, b, first, second, message);
  }

  // The message about the first request's frame joins the second request.
  lemma MessageQueued(states: seq<Router>, steps: seq<Step>, s: Router, id: nat,
                      a: Ip, b: Ip, first: Frame, second: Frame, message: Frame)
    returns (longer: seq<Router>, more: seq<Step>, t: Router)
    requires Reaches(states, steps, s) && message.bytes != [] && a != b
    requires s.cache == Cache(Entries(), [Request(0, a, 5, 5, [first]), Request(id, b, 5, 5, [second])])
    requires s.walk == On(Some(id)) && s.sweeper == [Tested(0, 6, true)] && s.handler == []
    ensures Reaches(longer, more, t)
    ensures t.cache.requests == [Request(0, a, 5, 5, [first]), Request(id, b, 5, 5, [message, second])]
    ensures t.walk == On(Some(id)) && t.sweeper == [Tested(0, 6, true), Tested(id, 6, true)] && t.handler == []
  {
    hide Reaches, Fatal;
    var look, queue := Look(Sweeper, b, message), Queue(Sweeper);
    var requests := s.cache.requests;
    ReachedBooks(states, steps, s);
    FindIs(requests, b, 1);
    FindEnqueued(requests, b, message, s.nextId);
    NothingCached(0, b);
    NotActing(s, look);
    var states1, steps1 := OneMore(states, steps, s, look);
    var s1 := Do(s, look);
    assert s1.sweeper == [Tested(0, 6, true)] + [Missed(b, message)];
    NotActing(s1, queue);
    var states2, steps2 := OneMore(states1, steps1, s1, queue);
    var s2 := Do(s1, queue);
    assert [message] + [second] == [message, second];
    assert s2.cache.requests == [Request(0, a, 5, 5, [first]), Request(id, b, 5, 5, [message, second])];
    assert s2.sweeper == [Tested(0, 6, true)] + [Holding(id)];
    ReachedBooks(states2, steps2, s2);
    TestAt(s2, Sweeper, [Tested(0, 6, true)], 1, 6);
    NotActing(s2, Test(Sweeper, 6));
    longer, more := OneMore(states2, steps2, s2, Test(Sweeper, 6));
    t := Do(s2, Test(Sweeper, 6));
  }

  lemma BothGivenUp(states: seq<Router>, steps: seq<Step>, s: Router, id: nat,
                    a: Ip, b: Ip, first: Frame, second: Frame, message: Frame)
    returns (longer: seq<Router>, more: seq<Step>, t: Router)
    requires Reaches(states, steps, s) && id != 0
    requires s.cache.requests == [Request(0, a, 5, 5, [first]), Request(id, b, 5, 5, [message, second])]
    requires s.walk == On(Some(id)) && s.sweeper == [Tested(0, 6, true), Tested(id, 6, true)] && s.handler == []
    ensures Run(longer, more) && t == longer[|more|]
    ensures t.sweeper == [] && Can(t, Visit) && !Defined(t, Visit)
  {
    hide Fatal, Reaches;
    var outer, requests := [Tested(0, 6, true)], s.cache.requests;
    LastOf(states, steps, s);
    ReachedBooks(states, steps, s);
    assert s.sweeper == outer + [Tested(id, 6, true)];
    ActAt(s, Sweeper, outer, 1, 6, true);
    var states1, steps1 := OneMore(states, steps, s, Act(Sweeper));
    var s1 := Do(s, Act(Sweeper));
    assert s1.cache.requests == [requests[0]];
    assert s1.sweeper == [] + outer;
    ActAt(s1, Sweeper, [], 0, 6, true);
    t := Do(s1, Act(Sweeper));
    assert t.cache.requests == [];
    longer, more := states1 + [t], steps1 + [Act(Sweeper)];
    forall k | 0 <= k < |more| ensures Stepped(longer[k], more[k], longer[k + 1]) {
      if k < |steps1| { assert Stepped(states1[k], steps1[k], states1[k + 1]); }
    }
  }

  // -------------------------------------------------------------------------
  // A sixth request
  // -------------------------------------------------------------------------

  // The last step, a thread's sending again, is outdated.
  lemma Impatient(states: seq<Router>, steps: seq<Step>, s: Router, t: Thread,
                  longer: seq<Router>, more: seq<Step>, u: Router)
    requires Reaches(states, steps, s) && Outdated(s, t)
    requires more == steps + [Act(t)] && longer == states + [u] && Reaches(longer, more, u)
    ensures !Patient(u.trace)
  {
    hide Fatal, Outdated, Patient, Stepped;
    PatientUpTo(longer, more, |more|);
    assert more[|steps|] == Act(t) && longer[|steps|] == s;
  }

  lemma FifthGone(s: Router, t: Thread, r: Request)
    requires s.cache.requests == [r] && r.timesSent >= MAX_TRIES && s.Calls(t) == [Tested(r.id, 5, false)]
    ensures Outdated(s, t)
  {
    PlaceIs([r], r.id, 0);
  }

  // Both threads have tested the request before either acts; first and second act in this order.
  lemma BothSend(states: seq<Router>, steps: seq<Step>, s: Router, first: Thread, r: Request)
    returns (longer: seq<Router>, more: seq<Step>, t: Router)
    requires Reaches(states, steps, s) && s.cache.requests == [r] && r.timesSent == 4 && r.packets != []
    requires s.Calls(first) == s.Calls(first.Other()) == [Tested(r.id, 5, false)]
    ensures Reaches(longer, more, t) && !Patient(t.trace)
    ensures |t.cache.requests| == 1 && t.cache.requests[0].timesSent == 6
    ensures var n := |t.trace|;
            n >= 2 && t.trace[n - 1] == t.trace[n - 2] == Asked(r.ip, r.packets[0].iface, 5)
  {
    hide Reaches, Outdated, Patient;
    var states1, steps1, s1 := SentAgain(states, steps, s, first, 0, 5);
    var r1 := r.(sent := 5, timesSent := 5);
    assert s1.cache.requests == [r1];
    FifthGone(s1, first.Other(), r1);
    longer, more, t := SentAgain(states1, steps1, s1, first.Other(), 0, 5);
    Impatient(states1, steps1, s1, first.Other(), longer, more, t);
  }

  /** An address has been asked for in seconds 1 to 4 when another frame is queued for it. In second 5
      the sweep and the packet thread both find the request due, and then both send it, whichever
      comes first: a sixth request, in the second of the fifth. No memory is misused. */
  lemma SixthRequest(ip: Ip, earlier: Frame, later: Frame, first: Thread)
    returns (states: seq<Router>, steps: seq<Step>, t: Router)
    requires earlier.bytes != [] && later.bytes != []
    ensures Reaches(states, steps, t) && !Patient(t.trace)
    ensures |t.cache.requests| == 1 && t.cache.requests[0].timesSent == 6
    ensures var n := |t.trace|;
            n >= 2 && t.trace[n - 1] == t.trace[n - 2] == Asked(ip, later.iface, 5)
  {
    hide Reaches, Patient;
    var states1, steps1, s1 := Joined(ip, earlier, later, 4);
    var states2, steps2, s2 := SweepStarts(states1, steps1, s1, 5);
    var states3, steps3, s3 := FoundDue(states2, steps2, s2, Sweeper, 0, 5);
    var states4, steps4, s4 := FoundDue(states3, steps3, s3, Handler, 0, 5);
    states, steps, t := BothSend(states4, steps4, s4, first, Request(0, ip, 4, 4, [later, earlier]));
  }
}
