/** Every step of the router's two threads: what it keeps, when it frees a request that is in use, and
    when it breaks the rules on trying. */
module ArpThreads {
  import opened Basics
  import opened ArpState
  import opened ArpRuns

  // -------------------------------------------------------------------------
  // Queueing a frame
  // -------------------------------------------------------------------------

  lemma ReversedCons<T>(x: T, s: seq<T>)
    ensures Reversed([x] + s) == Reversed(s) + [x]
  {
  }

  lemma PendingEnqueued(requests: seq<Request>, to: Ip, frame: Frame, id: nat, ip: Ip)
    requires Distinct(requests) && frame.bytes != []
    ensures Pending(Enqueued(requests, to, frame, id), ip)
         == if ip != to then Pending(requests, ip)
            else match Pending(requests, ip)
                 case None => Some(Request(id, to, 0, 0, [frame]))
                 case Some(r) => Some(r.(packets := [frame] + r.packets))
  {
    var i := Find(requests, to);
    if i < |requests| {
      PendingUpdate(requests, i, requests[i].(packets := [frame] + requests[i].packets), ip);
    } else {
      assert [frame] + [] == [frame];
      PendingAppend(requests, Request(id, to, 0, 0, [frame]), ip);
    }
  }

  lemma SoundEnqueued(requests: seq<Request>, nextId: nat, ip: Ip, frame: Frame)
    requires Sound(requests, nextId) && frame.bytes != []
    ensures Sound(Enqueued(requests, ip, frame, nextId), nextId + 1)
  {
  }

  /** Queueing a frame keeps every book. */
  lemma EnqueuedKeeps(requests: seq<Request>, nextId: nat, ip: Ip, frame: Frame,
                      queued: seq<(Ip, Frame)>, trace: seq<Happening>)
    requires Kept(requests, nextId, queued, trace) && frame.bytes != []
    ensures Kept(Enqueued(requests, ip, frame, nextId), nextId + 1, queued + [(ip, frame)], trace)
  {
    SoundEnqueued(requests, nextId, ip, frame);
    SoundIs(requests, nextId);
    hide Sound, WellAddressed, Tries, LastAsked, Left, QueuedFor, Pending, Enqueued, Distinct;
    var next, longer := Enqueued(requests, ip, frame, nextId), queued + [(ip, frame)];
    forall other: Ip ensures Balanced(next, longer, trace, other) {
      assert Balanced(requests, queued, trace, other);
      PendingEnqueued(requests, ip, frame, nextId, other);
      SnocQueued(queued, ip, frame, other);
      match Pending(requests, other)
      case None => ReversedCons<Frame>(frame, []);
      case Some(r) => ReversedCons(frame, r.packets);
    }
  }

  // Queueing changes no request but for the frames it holds.
  lemma AtEnqueued(requests: seq<Request>, ip: Ip, frame: Frame, newId: nat, id: nat)
    requires Apart(requests) && id < newId && frame.bytes != []
    ensures match At(requests, id)
            case None => At(Enqueued(requests, ip, frame, newId), id) == None
            case Some(r) =>
              At(Enqueued(requests, ip, frame, newId), id)
              == Some(if r.ip == ip && Find(requests, ip) == Place(requests, id) then
                        r.(packets := [frame] + r.packets)
                      else r)
  {
    var i := Find(requests, ip);
    if i < |requests| {
      PlaceAt(requests, i);
      AtUpdate(requests, i, requests[i].(packets := [frame] + requests[i].packets), id);
    } else {
      assert [frame] + [] == [frame];
      PlaceAppend(requests, Request(newId, ip, 0, 0, [frame]), id);
    }
  }

  // -------------------------------------------------------------------------
  // The cached entries
  // -------------------------------------------------------------------------

  lemma UnknownIs(entries: seq<Entry>, ip: Ip)
    ensures Unknown(entries, ip) <==> forall i :: 0 <= i < |entries| ==> !Live(entries[i], ip)
  {
  }

  lemma UnknownStays(before: seq<Entry>, after: seq<Entry>, ip: Ip)
    requires Unknown(before, ip) && |after| == |before|
    requires forall i :: 0 <= i < |after| && Live(after[i], ip) ==> Live(before[i], ip)
    ensures Unknown(after, ip)
  {
    UnknownIs(before, ip);
    UnknownIs(after, ip);
  }

  lemma EntriesTaughtStays(entries: seq<Entry>, trace: seq<Happening>, more: seq<Happening>)
    requires EntriesTaught(entries, trace)
    ensures EntriesTaught(entries, trace + more)
  {
    forall i | 0 <= i < |entries| && entries[i].valid ensures Origin(entries[i]) in trace + more {
      assert Origin(entries[i]) in trace;
    }
  }

  lemma HitTaught(entries: seq<Entry>, trace: seq<Happening>, ip: Ip)
    requires EntriesTaught(entries, trace) && Lookup(entries, ip).Some?
    ensures Taught(trace, ip, Lookup(entries, ip).value.mac)
  {
    var e := Lookup(entries, ip).value;
    var i :| 0 <= i < |entries| && entries[i] == e;
    assert Origin(e) in trace;
  }

  lemma StoredUnknown(entries: seq<Entry>, e: Entry, ip: Ip)
    requires Unknown(entries, ip) && e.ip != ip
    ensures Unknown(Stored(entries, e), ip)
  {
    UnknownStays(entries, Stored(entries, e), ip);
  }

  lemma StoredTaught(entries: seq<Entry>, e: Entry, trace: seq<Happening>)
    requires EntriesTaught(entries, trace) && Origin(e) in trace
    ensures EntriesTaught(Stored(entries, e), trace) && |Stored(entries, e)| == |entries|
  {
  }

  lemma AgedUnknown(entries: seq<Entry>, now: int, ip: Ip)
    requires Unknown(entries, ip)
    ensures Unknown(AgedAll(entries, now), ip)
  {
    UnknownStays(entries, AgedAll(entries, now), ip);
  }

  lemma AgedTaught(entries: seq<Entry>, now: int, trace: seq<Happening>)
    requires EntriesTaught(entries, trace)
    ensures EntriesTaught(AgedAll(entries, now), trace)
  {
    var aged := AgedAll(entries, now);
    forall i | 0 <= i < |aged| && aged[i].valid ensures Origin(aged[i]) in trace {
      assert Origin(entries[i]) in trace;
    }
  }

  // -------------------------------------------------------------------------
  // Calls
  // -------------------------------------------------------------------------

  lemma RefersSnoc(calls: seq<Call>, c: Call, id: nat)
    ensures AnyRefers(calls + [c], id) <==> AnyRefers(calls, id) || Refers(c, id)
  {
    var all := calls + [c];
    if AnyRefers(calls, id) {
      var i :| 0 <= i < |calls| && Refers(calls[i], id);
      assert Refers(all[i], id);
    }
    if Refers(c, id) { assert Refers(all[|calls|], id); }
    if AnyRefers(all, id) {
      var i :| 0 <= i < |all| && Refers(all[i], id);
      assert i < |calls| ==> Refers(calls[i], id);
    }
  }

  lemma TopAndBelow(s: Router, t: Thread)
    requires s.In(t)
    ensures s.Calls(t) == s.Below(t) + [s.Top(t)]
    ensures forall id: nat :: AnyRefers(s.Calls(t), id) <==> AnyRefers(s.Below(t), id) || Refers(s.Top(t), id)
  {
    forall id: nat
      ensures AnyRefers(s.Calls(t), id) <==> AnyRefers(s.Below(t), id) || Refers(s.Top(t), id)
    {
      RefersSnoc(s.Below(t), s.Top(t), id);
    }
  }

  lemma CallsPop(calls: seq<Call>, entries: seq<Entry>, nextId: nat)
    requires CallsOk(calls, entries, nextId) && calls != []
    ensures var below := calls[..|calls| - 1];
            CallsOk(below, entries, nextId) && forall i :: 0 <= i < |below| ==> GivingUp(below[i])
  {
  }

  lemma CallsPush(calls: seq<Call>, c: Call, entries: seq<Entry>, nextId: nat)
    requires CallsOk(calls, entries, nextId) && forall i :: 0 <= i < |calls| ==> GivingUp(calls[i])
    requires CallsOk([c], entries, nextId)
    ensures CallsOk(calls + [c], entries, nextId)
  {
    assert [c][0] == c;
  }

  lemma CallsStay(calls: seq<Call>, entries: seq<Entry>, entries': seq<Entry>, nextId: nat, nextId': nat)
    requires CallsOk(calls, entries, nextId) && nextId <= nextId'
    requires forall ip: Ip :: Unknown(entries, ip) ==> Unknown(entries', ip)
    ensures CallsOk(calls, entries', nextId')
  {
    hide Unknown;
    forall i | 0 <= i < |calls|
      ensures match calls[i]
              case Missed(ip, frame) => frame.bytes != [] && Unknown(entries', ip)
              case Holding(id) => id < nextId'
              case Tested(id, _, _) => id < nextId'
    {
      assert calls[i].Missed? ==> Unknown(entries, calls[i].ip);
    }
  }

  // -------------------------------------------------------------------------
  // Fatal and outdated steps
  // -------------------------------------------------------------------------

  // The thread is done with the call it is in.
  function Returned(s: Router, t: Thread): Router
    requires s.In(t)
  {
    s.WithCalls(t, s.Below(t))
  }

  // The step gives up and frees a request that is still in use: by the other thread, by a call further
  // out of the same thread, or as the one the walk is to go on with.
  predicate Fatal(s: Router, step: Step) {
    && step.Act? && Can(s, step) && s.Top(step.t).giveUp
    && InUse(Returned(s, step.t), s.Top(step.t).id)
  }

  // The thread is about to act on a test that no longer holds.
  predicate Outdated(s: Router, t: Thread) {
    && s.In(t) && s.Top(t).Tested? && Present(s.cache.requests, s.Top(t).id)
    && !Timely(s.cache.requests[Place(s.cache.requests, s.Top(t).id)], s.Top(t).now, s.Top(t).giveUp)
  }

  // What one step promises: the books are kept, a request in use is freed exactly by a fatal step,
  // and the rules on trying are kept exactly unless a thread acts on an outdated test.
  ghost predicate Goes(s: Router, step: Step, t: Router) {
    && Books(t)
    && (Dangling(t) <==> Fatal(s, step))
    && (Patient(s.trace) ==> (Patient(t.trace) <==> !(step.Act? && Outdated(s, step.t))))
  }

  lemma BooksIs(s: Router)
    requires Books(s)
    ensures Distinct(s.cache.requests) && Apart(s.cache.requests) && AllCanAsk(s.cache.requests)
    ensures forall i :: 0 <= i < |s.cache.requests| ==> CanAsk(s.cache.requests[i])
    ensures Kept(s.cache.requests, s.nextId, s.queued, s.trace)
    ensures forall t: Thread :: CallsOk(s.Calls(t), s.cache.entries, s.nextId)
  {
  }

  lemma TopDefined(s: Router, step: Step)
    requires Books(s) && !Dangling(s) && Can(s, step)
    ensures Defined(s, step)
  {
    hide Place, CallsOk, Sound;
    BooksIs(s);
    match step
    case Look(t, _, _) => if s.In(t) { TopPresent(s, t); }
    case Queue(t) => TopNonEmpty(s, t);
    case Test(t, _) => TopPresent(s, t);
    case Act(t) => TopPresent(s, t);
    case Visit => assert InUse(s, s.walk.next.value);
    case _ =>
  }

  lemma TopPresent(s: Router, t: Thread)
    requires !Dangling(s) && s.In(t) && !s.Top(t).Missed?
    ensures Present(s.cache.requests, s.Top(t).id)
  {
    hide Place;
    TopAndBelow(s, t);
    assert InUse(s, s.Top(t).id);
  }

  lemma TopNonEmpty(s: Router, t: Thread)
    requires Books(s) && s.In(t) && s.Top(t).Missed?
    ensures s.Top(t).frame.bytes != [] && Unknown(s.cache.entries, s.Top(t).ip)
  {
    assert CallsOk(s.Calls(t), s.cache.entries, s.nextId);
  }

  // A step that sends a frame at once.
  lemma PassGoes(s: Router, t: Thread, ip: Ip, frame: Frame)
    requires Books(s) && !Dangling(s) && Lookup(s.cache.entries, ip).Some?
    ensures var e := Lookup(s.cache.entries, ip).value;
            Goes(s, Look(t, ip, frame), s.(trace := s.trace + [Passed(ip, e.mac, frame)]))
  {
    hide Taught, Tries, LastAsked, Left, Lookup, Patient, WellAddressed, EntriesTaught, CallsOk, Sound, InUse, Pending;
    var h := Passed(ip, Lookup(s.cache.entries, ip).value.mac, frame);
    var u := s.(trace := s.trace + [h]);
    HitTaught(s.cache.entries, s.trace, ip);
    PatientSnoc(s.trace, h);
    AddressedSnoc(s.trace, h);
    EntriesTaughtStays(s.cache.entries, s.trace, [h]);
    SameUse(s, u);
    forall t: Thread ensures CallsOk(u.Calls(t), u.cache.entries, u.nextId) {
      assert CallsOk(s.Calls(t), s.cache.entries, s.nextId);
    }
    forall other: Ip ensures Balanced(s.cache.requests, s.queued, s.trace + [h], other) {
      assert Balanced(s.cache.requests, s.queued, s.trace, other);
      Snoc(s.trace, h, other);
    }
  }

  lemma SameUse(s: Router, u: Router)
    requires s.handler == u.handler && s.sweeper == u.sweeper && s.walk == u.walk
    ensures forall id: nat :: InUse(s, id) <==> InUse(u, id)
  {
  }

  lemma UseIs(s: Router, t: Thread, id: nat)
    ensures InUse(s, id) <==>
              AnyRefers(s.Calls(t), id) || AnyRefers(s.Calls(t.Other()), id) || s.walk == On(Some(id))
  {
  }

  lemma CallsOkBoth(s: Router, t: Thread)
    requires CallsOk(s.Calls(t), s.cache.entries, s.nextId) && CallsOk(s.Calls(t.Other()), s.cache.entries, s.nextId)
    ensures forall u: Thread :: CallsOk(s.Calls(u), s.cache.entries, s.nextId)
  {
    hide CallsOk;
    forall u: Thread ensures CallsOk(s.Calls(u), s.cache.entries, s.nextId) { assert u == t || u == t.Other(); }
  }

  // A look-up that fails.
  lemma MissGoes(s: Router, t: Thread, ip: Ip, frame: Frame)
    requires Books(s) && !Dangling(s) && Can(s, Look(t, ip, frame)) && Unknown(s.cache.entries, ip)
    ensures Goes(s, Look(t, ip, frame), s.WithCalls(t, s.Calls(t) + [Missed(ip, frame)]))
  {
    hide Patient, WellAddressed, EntriesTaught, Sound, Pending, Unknown, BooksKept, AnyRefers, CallsOk;
    hide PendingUnknown, Place;
    var u := s.WithCalls(t, s.Calls(t) + [Missed(ip, frame)]);
    BooksIs(s);
    MissedOk(s.Calls(t), ip, frame, s.cache.entries, s.nextId);
    assert CallsOk(s.Calls(t.Other()), s.cache.entries, s.nextId);
    CallsOkBoth(u, t);
    forall id: nat ensures InUse(u, id) <==> InUse(s, id) {
      RefersSnoc(s.Calls(t), Missed(ip, frame), id);
      UseIs(u, t, id);
      UseIs(s, t, id);
    }
  }

  lemma MissedOk(calls: seq<Call>, ip: Ip, frame: Frame, entries: seq<Entry>, nextId: nat)
    requires CallsOk(calls, entries, nextId) && (calls != [] ==> GivingUp(calls[|calls| - 1]))
    requires Unknown(entries, ip) && frame.bytes != []
    ensures CallsOk(calls + [Missed(ip, frame)], entries, nextId)
  {
    hide Unknown;
    CallsPush(calls, Missed(ip, frame), entries, nextId);
  }

  lemma QueueGoes(s: Router, t: Thread)
    requires Books(s) && !Dangling(s) && Can(s, Queue(t))
    ensures Defined(s, Queue(t)) && Goes(s, Queue(t), Do(s, Queue(t)))
  {
    hide Patient, WellAddressed, EntriesTaught, Pending, Unknown, BooksKept, AnyRefers, CallsOk, PendingUnknown, Place;
    hide Enqueued, Find, Sound, Distinct, Apart, Unknown;
    TopDefined(s, Queue(t));
    TopNonEmpty(s, t);
    BooksIs(s);
    var ip, frame, requests := s.Top(t).ip, s.Top(t).frame, s.cache.requests;
    FindEnqueued(requests, ip, frame, s.nextId);
    EnqueuedKeeps(requests, s.nextId, ip, frame, s.queued, s.trace);
    var u := Do(s, Queue(t));
    StillUnknown(s, ip, frame);
    QueuedPresent(s, t);
    QueuedCalls(s, t);
  }

  lemma StillUnknown(s: Router, ip: Ip, frame: Frame)
    requires PendingUnknown(s.cache) && Distinct(s.cache.requests)
    requires frame.bytes != [] && Unknown(s.cache.entries, ip)
    ensures PendingUnknown(s.cache.(requests := Enqueued(s.cache.requests, ip, frame, s.nextId)))
  {
    hide Pending, Unknown, Enqueued, Distinct;
    var next := Enqueued(s.cache.requests, ip, frame, s.nextId);
    forall other: Ip | Pending(next, other).Some? ensures Unknown(s.cache.entries, other) {
      PendingEnqueued(s.cache.requests, ip, frame, s.nextId, other);
    }
  }

  lemma QueuedPresent(s: Router, t: Thread)
    requires Books(s) && !Dangling(s) && Can(s, Queue(t)) && Defined(s, Queue(t))
    ensures !Dangling(Do(s, Queue(t)))
  {
    hide Patient, WellAddressed, EntriesTaught, Pending, Unknown, BooksKept, AnyRefers, PendingUnknown, Place;
    hide Enqueued, Find;
    BooksIs(s);
    TopNonEmpty(s, t);
    var u, requests := Do(s, Queue(t)), s.cache.requests;
    var ip, frame := s.Top(t).ip, s.Top(t).frame;
    FindEnqueued(requests, ip, frame, s.nextId);
    SoundEnqueued(requests, s.nextId, ip, frame);
    SoundIs(u.cache.requests, u.nextId);
    var mine := u.cache.requests[Find(requests, ip)].id;
    PlaceAt(u.cache.requests, Find(requests, ip));
    TopAndBelow(s, t);
    forall id: nat | InUse(u, id) ensures Present(u.cache.requests, id) {
      UseIs(u, t, id);
      UseIs(s, t, id);
      RefersSnoc(s.Below(t), Holding(mine), id);
      if id != mine {
        assert InUse(s, id) && Present(requests, id);
        InUseBelow(s, id);
        AtEnqueued(requests, ip, frame, s.nextId, id);
      }
    }
  }

  lemma InUseBelow(s: Router, id: nat)
    requires Sound(s.cache.requests, s.nextId) && Present(s.cache.requests, id)
    ensures id < s.nextId
  {
  }

  lemma QueuedCalls(s: Router, t: Thread)
    requires Books(s) && Can(s, Queue(t)) && Defined(s, Queue(t))
    ensures var u := Do(s, Queue(t)); forall v: Thread :: CallsOk(u.Calls(v), u.cache.entries, u.nextId)
  {
    hide Patient, WellAddressed, EntriesTaught, Pending, Unknown, BooksKept, CallsOk, PendingUnknown, Place;
    hide Enqueued, Find;
    BooksIs(s);
    TopNonEmpty(s, t);
    var u, requests := Do(s, Queue(t)), s.cache.requests;
    FindEnqueued(requests, s.Top(t).ip, s.Top(t).frame, s.nextId);
    SoundEnqueued(requests, s.nextId, s.Top(t).ip, s.Top(t).frame);
    var mine := u.cache.requests[Find(requests, s.Top(t).ip)].id;
    CallsPop(s.Calls(t), s.cache.entries, s.nextId);
    CallsStay(s.Below(t), s.cache.entries, s.cache.entries, s.nextId, u.nextId);
    HoldingOk(s.Below(t), mine, u.cache.entries, u.nextId);
    CallsStay(s.Calls(t.Other()), s.cache.entries, s.cache.entries, s.nextId, u.nextId);
    CallsOkBoth(u, t);
  }

  lemma HoldingOk(calls: seq<Call>, id: nat, entries: seq<Entry>, nextId: nat)
    requires CallsOk(calls, entries, nextId) && (forall i :: 0 <= i < |calls| ==> GivingUp(calls[i])) && id < nextId
    ensures CallsOk(calls + [Holding(id)], entries, nextId)
  {
    CallsPush(calls, Holding(id), entries, nextId);
  }

  lemma TestedOk(calls: seq<Call>, id: nat, now: int, giveUp: bool, entries: seq<Entry>, nextId: nat)
    requires CallsOk(calls, entries, nextId) && (forall i :: 0 <= i < |calls| ==> GivingUp(calls[i])) && id < nextId
    ensures CallsOk(calls + [Tested(id, now, giveUp)], entries, nextId)
  {
    CallsPush(calls, Tested(id, now, giveUp), entries, nextId);
  }

  lemma TestGoes(s: Router, t: Thread, now: int)
    requires Books(s) && !Dangling(s) && Can(s, Test(t, now))
    ensures Defined(s, Test(t, now)) && Goes(s, Test(t, now), Do(s, Test(t, now)))
  {
    hide Patient, WellAddressed, EntriesTaught, Pending, Unknown, BooksKept, AnyRefers, CallsOk, PendingUnknown, Sound;
    TopDefined(s, Test(t, now));
    BooksIs(s);
    var u, id, below := Do(s, Test(t, now)), s.Top(t).id, s.Below(t);
    var r := s.cache.requests[Place(s.cache.requests, id)];
    hide Place;
    InUseBelow(s, id);
    CallsPop(s.Calls(t), s.cache.entries, s.nextId);
    if Due(r, now) {
      TestedOk(below, id, now, r.timesSent >= MAX_TRIES, s.cache.entries, s.nextId);
    } else {
      assert below + [] == below;
    }
    assert CallsOk(s.Calls(t.Other()), s.cache.entries, s.nextId);
    CallsOkBoth(u, t);
    TopAndBelow(s, t);
    forall other: nat | InUse(u, other) ensures Present(u.cache.requests, other) {
      UseIs(u, t, other);
      UseIs(s, t, other);
      if Due(r, now) { RefersSnoc(below, Tested(id, now, r.timesSent >= MAX_TRIES), other); }
      assert InUse(s, other);
    }
  }

  lemma ActBooks(s: Router, t: Thread)
    requires Books(s) && Can(s, Act(t)) && Defined(s, Act(t))
    ensures var u := Do(s, Act(t));
            Books(u) && (Patient(s.trace) ==> (Patient(u.trace) <==> !Outdated(s, t)))
  {
    hide BooksKept, WellAddressed, EntriesTaught, Patient, Pending, Acted, CallsOk, Unknown;
    BooksIs(s);
    var requests, c := s.cache.requests, s.Top(t);
    var i := Place(requests, c.id);
    ActedKeeps(requests, s.nextId, i, c.now, c.giveUp, s.queued, s.trace);
    ActedPatient(requests, s.nextId, i, c.now, c.giveUp, s.queued, s.trace);
    hide Sound, Place, Timely;
    var u := Do(s, Act(t));
    EntriesTaughtStays(s.cache.entries, s.trace, Acted(requests, i, c.now, c.giveUp).1);
    CallsPop(s.Calls(t), s.cache.entries, s.nextId);
    assert CallsOk(s.Calls(t.Other()), s.cache.entries, s.nextId);
    CallsOkBoth(u, t);
  }

  lemma PresentIs(requests: seq<Request>, id: nat)
    ensures Present(requests, id) <==> At(requests, id).Some?
  {
  }

  lemma ActUses(s: Router, t: Thread)
    requires Books(s) && !Dangling(s) && Can(s, Act(t)) && Defined(s, Act(t))
    ensures Dangling(Do(s, Act(t))) <==> Fatal(s, Act(t))
  {
    hide BooksKept, WellAddressed, EntriesTaught, Pending, Acted, CallsOk, Unknown, AnyRefers, Sound, PendingUnknown;
    BooksIs(s);
    var requests, c, u, back := s.cache.requests, s.Top(t), Do(s, Act(t)), Returned(s, t);
    PlaceAt(requests, Place(requests, c.id));
    TopAndBelow(s, t);
    SameUse(u, back);
    hide Place, Apart, Present;
    forall id: nat
      ensures Present(u.cache.requests, id) <==> Present(requests, id) && !(c.giveUp && id == c.id)
      ensures InUse(u, id) ==> InUse(s, id)
    {
      PresentIs(requests, id);
      PresentIs(u.cache.requests, id);
      ActedFor(requests, c, id);
      UseIs(u, t, id);
      UseIs(s, t, id);
    }
  }

  // Acting on the request a call refers to.
  lemma ActedFor(requests: seq<Request>, c: Call, id: nat)
    requires Apart(requests) && AllCanAsk(requests) && c.Tested? && Present(requests, c.id)
    ensures var i := Place(requests, c.id);
            At(Acted(requests, i, c.now, c.giveUp).0, id)
            == if id == c.id then Outcome(requests[i], c.now, c.giveUp) else At(requests, id)
  {
    ActedAt(requests, Place(requests, c.id), c.now, c.giveUp, id);
  }

  lemma ActGoes(s: Router, t: Thread)
    requires Books(s) && !Dangling(s) && Can(s, Act(t))
    ensures Defined(s, Act(t)) && Goes(s, Act(t), Do(s, Act(t)))
  {
    hide Books, Dangling, Fatal, Outdated, Patient, Do;
    TopDefined(s, Act(t));
    ActBooks(s, t);
    ActUses(s, t);
  }

  lemma LearnKeeps(requests: seq<Request>, nextId: nat, queued: seq<(Ip, Frame)>, trace: seq<Happening>,
                   ip: Ip, mac: Mac, now: int)
    requires Kept(requests, nextId, queued, trace)
    ensures Kept(requests, nextId, queued, trace + [Learned(ip, mac, now)])
    ensures Taught(trace + [Learned(ip, mac, now)], ip, mac)
    ensures Patient(trace) ==> Patient(trace + [Learned(ip, mac, now)])
  {
    hide Tries, LastAsked, Left, QueuedFor, Pending, Patient, WellAddressed;
    var h := Learned(ip, mac, now);
    assert (trace + [h])[|trace|] == h;
    PatientSnoc(trace, h);
    AddressedSnoc(trace, h);
    forall other: Ip ensures Balanced(requests, queued, trace + [h], other) {
      assert Balanced(requests, queued, trace, other);
      Snoc(trace, h, other);
    }
  }

  lemma FlushKeeps(requests: seq<Request>, nextId: nat, i: nat, mac: Mac,
                   queued: seq<(Ip, Frame)>, trace: seq<Happening>)
    requires Kept(requests, nextId, queued, trace) && i < |requests| && Taught(trace, requests[i].ip, mac)
    ensures var h := Flushed(requests[i].ip, mac, requests[i].packets);
            Kept(Without(requests, i), nextId, queued, trace + [h]) && (Patient(trace) ==> Patient(trace + [h]))
  {
    hide Sound, Patient, WellAddressed, Without, Tries, LastAsked, Left, QueuedFor, Pending, Taught;
    var r := requests[i];
    var h := Flushed(r.ip, mac, r.packets);
    SoundIs(requests, nextId);
    SoundWithout(requests, nextId, i);
    PendingAt(requests, i);
    assert Balanced(requests, queued, trace, r.ip);
    PatientSnoc(trace, h);
    AddressedSnoc(trace, h);
    forall ip: Ip ensures Balanced(Without(requests, i), queued, trace + [h], ip) {
      assert Balanced(requests, queued, trace, ip);
      PendingWithout(requests, i, ip);
      Snoc(trace, h, ip);
    }
  }

  /** A reply keeps every book and leaves no request for its address. */
  lemma AnsweredKeeps(c: Cache, nextId: nat, ip: Ip, mac: Mac, now: int,
                      queued: seq<(Ip, Frame)>, trace: seq<Happening>)
    requires Kept(c.requests, nextId, queued, trace)
    ensures var (c', seen) := Answered(c, ip, mac, now);
            && Kept(c'.requests, nextId, queued, trace + seen)
            && Learned(ip, mac, now) in seen
            && (Patient(trace) ==> Patient(trace + seen))
    ensures forall other: Ip :: Pending(Answered(c, ip, mac, now).0.requests, other).Some? ==>
              other != ip && Pending(c.requests, other).Some?
  {
    hide Kept, Pending, Without, Stored, Taught, Patient;
    var i := Find(c.requests, ip);
    var learned := Learned(ip, mac, now);
    LearnKeeps(c.requests, nextId, queued, trace, ip, mac, now);
    if i < |c.requests| {
      KeptIs(c.requests, nextId, queued, trace);
      FlushKeeps(c.requests, nextId, i, mac, queued, trace + [learned]);
      var flushed := Flushed(ip, mac, c.requests[i].packets);
      assert trace + [learned] + [flushed] == trace + [learned, flushed];
      forall other: Ip ensures Pending(Without(c.requests, i), other).Some? ==>
          other != ip && Pending(c.requests, other).Some? {
        PendingWithout(c.requests, i, other);
      }
    } else {
      NothingPending(c.requests, ip);
    }
  }

  lemma NothingPending(requests: seq<Request>, ip: Ip)
    requires Find(requests, ip) == |requests|
    ensures Pending(requests, ip).None?
  {
  }

  // While the lock is free and the packet thread idle, no request is in use.
  lemma NothingInUse(s: Router)
    requires Books(s) && s.walk.Off? && !s.In(Handler)
    ensures forall id: nat :: !InUse(s, id)
    ensures s.handler == [] && s.sweeper == []
  {
  }

  lemma ReplyGoes(s: Router, ip: Ip, mac: Mac, now: int)
    requires Books(s) && Can(s, Reply(ip, mac, now))
    ensures Defined(s, Reply(ip, mac, now)) && Goes(s, Reply(ip, mac, now), Do(s, Reply(ip, mac, now)))
  {
    NothingInUse(s);
    hide BooksKept, Patient, WellAddressed, Unknown, Taught, EntriesTaught, Pending, Without, Stored, InUse;
    BooksIs(s);
    hide Sound;
    var (cache, seen) := Answered(s.cache, ip, mac, now);
    var u := Do(s, Reply(ip, mac, now));
    var e := Entry(true, ip, mac, now);
    AnsweredKeeps(s.cache, s.nextId, ip, mac, now, s.queued, s.trace);
    EntriesTaughtStays(s.cache.entries, s.trace, seen);
    StoredTaught(s.cache.entries, e, s.trace + seen);
    assert cache.entries == Stored(s.cache.entries, e);
    SameUse(s, u);
    forall other: Ip | Pending(cache.requests, other).Some? ensures Unknown(cache.entries, other) {
      StoredUnknown(s.cache.entries, e, other);
    }
  }

  lemma FirstPresent(requests: seq<Request>, i: nat)
    requires Apart(requests) && i < |requests|
    ensures Present(requests, requests[i].id) && Place(requests, requests[i].id) == i
  {
    PlaceAt(requests, i);
  }

  lemma BeginGoes(s: Router, now: int)
    requires Books(s) && !Dangling(s) && s.walk.Off?
    ensures Defined(s, Begin(now)) && Goes(s, Begin(now), Do(s, Begin(now)))
  {
    hide BooksKept, Patient, WellAddressed, Unknown, EntriesTaught, Pending, AgedAll, CallsOk, AnyRefers, Place;
    BooksIs(s);
    var u := Do(s, Begin(now));
    AgedTaught(s.cache.entries, now, s.trace);
    forall ip: Ip | Unknown(s.cache.entries, ip) ensures Unknown(u.cache.entries, ip) {
      AgedUnknown(s.cache.entries, now, ip);
    }
    forall t: Thread ensures CallsOk(u.Calls(t), u.cache.entries, u.nextId) {
      CallsStay(s.Calls(t), s.cache.entries, u.cache.entries, s.nextId, s.nextId);
    }
    if s.cache.requests != [] { FirstPresent(s.cache.requests, 0); }
    forall id: nat | InUse(u, id) ensures Present(u.cache.requests, id) {
      UseIs(u, Handler, id);
      UseIs(s, Handler, id);
      assert InUse(s, id) || IdAt(s.cache.requests, 0) == Some(id);
    }
  }

  lemma VisitGoes(s: Router)
    requires Books(s) && !Dangling(s) && Can(s, Visit)
    ensures Defined(s, Visit) && Goes(s, Visit, Do(s, Visit))
  {
    hide BooksKept, Patient, WellAddressed, Unknown, EntriesTaught, Pending, CallsOk, AnyRefers, PendingUnknown;
    TopDefined(s, Visit);
    BooksIs(s);
    var u, requests, id := Do(s, Visit), s.cache.requests, s.walk.next.value;
    var i := Place(requests, id);
    if i + 1 < |requests| { FirstPresent(requests, i + 1); }
    hide Place;
    HoldingOk([], id, s.cache.entries, s.nextId) by { NoCalls(s.cache.entries, s.nextId); }
    assert [] + [Holding(id)] == [Holding(id)];
    assert CallsOk(s.Calls(Handler), s.cache.entries, s.nextId);
    CallsOkBoth(u, Sweeper);
    forall other: nat | InUse(u, other) ensures Present(u.cache.requests, other) {
      UseIs(u, Sweeper, other);
      UseIs(s, Sweeper, other);
      RefersSnoc([], Holding(id), other);
      NoRefers(other);
      assert InUse(s, id);
      assert InUse(s, other) || IdAt(requests, i + 1) == Some(other) || other == id;
    }
  }

  lemma NoCalls(entries: seq<Entry>, nextId: nat)
    ensures CallsOk([], entries, nextId)
  {
  }

  lemma NoRefers(id: nat)
    ensures !AnyRefers([], id)
  {
  }

  lemma FinishGoes(s: Router)
    requires Books(s) && !Dangling(s) && Can(s, Finish)
    ensures Defined(s, Finish) && Goes(s, Finish, Do(s, Finish))
  {
    hide BooksKept, Patient, WellAddressed, Unknown, EntriesTaught, Pending, CallsOk, AnyRefers, PendingUnknown, Place;
    BooksIs(s);
    var u := Do(s, Finish);
    assert CallsOk(s.Calls(Handler), s.cache.entries, s.nextId) && CallsOk(s.Calls(Sweeper), s.cache.entries, s.nextId);
    CallsOkBoth(u, Sweeper);
    forall id: nat | InUse(u, id) ensures Present(u.cache.requests, id) {
      UseIs(u, Handler, id);
      UseIs(s, Handler, id);
      assert InUse(s, id);
    }
  }

  lemma LookGoes(s: Router, t: Thread, ip: Ip, frame: Frame)
    requires Books(s) && !Dangling(s) && Can(s, Look(t, ip, frame))
    ensures Defined(s, Look(t, ip, frame)) && Goes(s, Look(t, ip, frame), Do(s, Look(t, ip, frame)))
  {
    hide Books, Goes, Dangling, Lookup;
    TopDefined(s, Look(t, ip, frame));
    if Lookup(s.cache.entries, ip).Some? {
      PassGoes(s, t, ip, frame);
    } else {
      MissGoes(s, t, ip, frame);
    }
  }

  /** Every step of either thread keeps the books as long as no freed request is used; a request in
      use is freed exactly by a fatal step; and the rules on trying are kept exactly unless a thread
      acts on a test that no longer holds. */
  lemma StepGoes(s: Router, step: Step)
    requires Books(s) && !Dangling(s) && Can(s, step)
    ensures Defined(s, step) && Goes(s, step, Do(s, step))
  {
    hide Books, Goes, Dangling, Do, Can, Defined;
    match step
    case Look(t, ip, frame) => LookGoes(s, t, ip, frame);
    case Queue(t) => QueueGoes(s, t);
    case Test(t, now) => TestGoes(s, t, now);
    case Act(t) => ActGoes(s, t);
    case Reply(ip, mac, now) => ReplyGoes(s, ip, mac, now);
    case Begin(now) => BeginWhenOff(s, now);
    case Visit => VisitGoes(s);
    case Finish => FinishGoes(s);
  }

  lemma BeginWhenOff(s: Router, now: int)
    requires Books(s) && !Dangling(s) && Can(s, Begin(now))
    ensures Defined(s, Begin(now)) && Goes(s, Begin(now), Do(s, Begin(now)))
  {
    BeginGoes(s, now);
  }
}
