/** What a reply teaches the cache, for how long, and what a sweep makes of the pending requests. */
module ArpLearning {
  import opened Basics
  import opened ArpState
  import opened ArpThreads
  import opened ArpGuarantees

  // -------------------------------------------------------------------------
  // One reply
  // -------------------------------------------------------------------------

  predicate LiveAfter(entries: seq<Entry>, i: nat, ip: Ip) { exists j :: i < j < |entries| && Live(entries[j], ip) }

  // Filling an invalid entry changes what the cache answers for that address only, and not even for
  // it if a later entry is live.
  lemma {:induction false} LookupFilled(entries: seq<Entry>, i: nat, e: Entry, ip: Ip)
    requires i < |entries| && !entries[i].valid && e.valid
    ensures Lookup(entries[i := e], ip)
         == if e.ip == ip && !LiveAfter(entries, i, ip) then Some(e) else Lookup(entries, ip)
    decreases |entries|
  {
    var n := |entries| - 1;
    if i < n {
      assert entries[i := e][..n] == entries[..n][i := e];
      LookupFilled(entries[..n], i, e, ip);
      LiveAfterFront(entries, i, ip);
    } else {
      assert entries[i := e][..n] == entries[..n];
    }
  }

  lemma LiveAfterFront(entries: seq<Entry>, i: nat, ip: Ip)
    requires i < |entries| - 1
    ensures LiveAfter(entries, i, ip) <==>
              LiveAfter(entries[..|entries| - 1], i, ip) || Live(entries[|entries| - 1], ip)
  {
    var n := |entries| - 1;
    if LiveAfter(entries, i, ip) {
      var j :| i < j < |entries| && Live(entries[j], ip);
      assert j == n || entries[..n][j] == entries[j];
    }
    if LiveAfter(entries[..n], i, ip) {
      var j :| i < j < n && Live(entries[..n][j], ip);
      assert Live(entries[j], ip);
    }
  }

  /** A reply makes the cache answer with its address, unless no entry is free or a later entry for the
      same address is still valid; then the answer, like that for every other address, is as before. */
  lemma ReplyIsLearned(c: Cache, ip: Ip, mac: Mac, now: int, other: Ip)
    ensures var after, i := Answered(c, ip, mac, now).0.entries, FreeEntry(c.entries);
            && |after| == |c.entries|
            && Lookup(after, ip) == (if i < |c.entries| && !LiveAfter(c.entries, i, ip)
                                     then Some(Entry(true, ip, mac, now)) else Lookup(c.entries, ip))
            && (other != ip ==> Lookup(after, other) == Lookup(c.entries, other))
  {
    var i := FreeEntry(c.entries);
    if i < |c.entries| {
      LookupFilled(c.entries, i, Entry(true, ip, mac, now), ip);
      LookupFilled(c.entries, i, Entry(true, ip, mac, now), other);
    }
  }

  /** A cache that knows no address yet, and has an invalid entry, answers with what the reply says. */
  lemma UnknownIsLearned(c: Cache, ip: Ip, mac: Mac, now: int)
    requires Lookup(c.entries, ip).None? && exists i :: 0 <= i < |c.entries| && !c.entries[i].valid
    ensures Lookup(Answered(c, ip, mac, now).0.entries, ip) == Some(Entry(true, ip, mac, now))
  {
    ReplyIsLearned(c, ip, mac, now, ip);
  }

  // -------------------------------------------------------------------------
  // What is known over a run
  // -------------------------------------------------------------------------

  // e is the one live entry for its address.
  ghost predicate OnlyAt(entries: seq<Entry>, i: nat, ip: Ip) {
    && i < |entries| && Live(entries[i], ip)
    && forall j :: 0 <= j < |entries| && j != i ==> !Live(entries[j], ip)
  }

  lemma {:induction false} LookupOnly(entries: seq<Entry>, i: nat, ip: Ip)
    requires OnlyAt(entries, i, ip)
    ensures Lookup(entries, ip) == Some(entries[i])
    decreases |entries|
  {
    var n := |entries| - 1;
    if i < n {
      assert entries[..n][i] == entries[i];
      LookupOnly(entries[..n], i, ip);
    }
  }

  // What an address learned at second now with this mac comes to: known at entry i, or forgotten.
  ghost predicate Remembers(entries: seq<Entry>, e: Entry, expired: bool) {
    if expired then Lookup(entries, e.ip).None?
    else exists i: nat :: OnlyAt(entries, i, e.ip) && entries[i] == e
  }

  lemma Learns(c: Cache, ip: Ip, mac: Mac, now: int)
    requires Lookup(c.entries, ip).None? && FreeEntry(c.entries) < |c.entries|
    ensures Remembers(Answered(c, ip, mac, now).0.entries, Entry(true, ip, mac, now), false)
  {
    assert OnlyAt(Answered(c, ip, mac, now).0.entries, FreeEntry(c.entries), ip);
  }

  lemma OtherReply(c: Cache, ip: Ip, mac: Mac, now: int, e: Entry, expired: bool)
    requires Remembers(c.entries, e, expired) && e.valid && ip != e.ip
    ensures Remembers(Answered(c, ip, mac, now).0.entries, e, expired)
  {
    var after := Answered(c, ip, mac, now).0.entries;
    if expired {
      ReplyIsLearned(c, ip, mac, now, e.ip);
    } else {
      var i: nat :| OnlyAt(c.entries, i, e.ip) && c.entries[i] == e;
      assert OnlyAt(after, i, e.ip);
    }
  }

  lemma Ages(entries: seq<Entry>, now: int, e: Entry, expired: bool)
    requires Remembers(entries, e, expired) && e.valid
    ensures Remembers(AgedAll(entries, now), e, expired || now - e.added > 15)
  {
    var after := AgedAll(entries, now);
    if !expired {
      var i: nat :| OnlyAt(entries, i, e.ip) && entries[i] == e;
      if now - e.added <= 15 { assert OnlyAt(after, i, e.ip); }
    }
  }

  predicate RepliesFor(step: Step, ip: Ip) { step.Reply? && step.ip == ip }

  predicate ExpiresAfter(step: Step, added: int) { step.Begin? && step.now - added > 15 }

  // A sweep among the steps from the first to before the last begins more than fifteen seconds later.
  ghost predicate Expired(steps: seq<Step>, first: nat, last: nat, added: int) {
    exists m :: first <= m < last && m < |steps| && ExpiresAfter(steps[m], added)
  }

  lemma ExpiredSnoc(steps: seq<Step>, first: nat, last: nat, added: int)
    requires first <= last < |steps|
    ensures Expired(steps, first, last + 1, added) <==>
              Expired(steps, first, last, added) || ExpiresAfter(steps[last], added)
  {
    if Expired(steps, first, last + 1, added) {
      var m :| first <= m < last + 1 && m < |steps| && ExpiresAfter(steps[m], added);
      assert m == last || m < last;
    }
  }

  lemma StepRemembers(s: Router, step: Step, e: Entry, expired: bool)
    requires Can(s, step) && Defined(s, step) && !RepliesFor(step, e.ip) && e.valid
    requires Remembers(s.cache.entries, e, expired)
    ensures Remembers(Do(s, step).cache.entries, e, expired || ExpiresAfter(step, e.added))
  {
    hide Remembers, AgedAll, Answered, Enqueued, Acted, Lookup;
    match step
    case Begin(now) => Ages(s.cache.entries, now, e, expired);
    case Reply(ip, mac, now) => OtherReply(s.cache, ip, mac, now, e, expired);
    case _ =>
  }

  lemma {:induction false} RunRemembers(states: seq<Router>, steps: seq<Step>, k: nat, j: nat, e: Entry)
    requires Run(states, steps) && NoneFatal(states, steps) && k < j <= |steps| && e.valid
    requires Remembers(states[k + 1].cache.entries, e, false)
    requires forall m :: k < m < j ==> !RepliesFor(steps[m], e.ip)
    ensures Remembers(states[j].cache.entries, e, Expired(steps, k + 1, j, e.added))
    decreases j
  {
    hide Remembers, Fatal, Do, Can, Defined, Books, Dangling;
    if j > k + 1 {
      RunRemembers(states, steps, k, j - 1, e);
      BooksUpTo(states, steps, j - 1);
      assert Stepped(states[j - 1], steps[j - 1], states[j]);
      StepGoes(states[j - 1], steps[j - 1]);
      StepRemembers(states[j - 1], steps[j - 1], e, Expired(steps, k + 1, j - 1, e.added));
      ExpiredSnoc(steps, k + 1, j - 1, e.added);
    }
  }

  lemma EntryCount(s: Router)
    requires Books(s)
    ensures |s.cache.entries| == 100
  {
  }

  /** In every run without a fatal step, let a reply teach an address that was not known, with an entry
      free. Until the next reply for it the cache answers with it, to the second it was learned in,
      exactly as long as no sweep has begun more than fifteen seconds later. */
  lemma KnownForFifteenSeconds(states: seq<Router>, steps: seq<Step>, k: nat, j: nat, ip: Ip, mac: Mac, now: int)
    requires Run(states, steps) && NoneFatal(states, steps) && k < j <= |steps| && steps[k] == Reply(ip, mac, now)
    requires Lookup(states[k].cache.entries, ip).None?
    requires exists i :: 0 <= i < |states[k].cache.entries| && !states[k].cache.entries[i].valid
    requires forall m :: k < m < j ==> !RepliesFor(steps[m], ip)
    ensures |states[j].cache.entries| == 100
    ensures Lookup(states[j].cache.entries, ip)
         == if exists m :: k < m < j && steps[m].Begin? && steps[m].now - now > 15 then None
            else Some(Entry(true, ip, mac, now))
  {
    hide Fatal, Books, Dangling, Lookup;
    var e := Entry(true, ip, mac, now);
    BooksUpTo(states, steps, k);
    BooksUpTo(states, steps, j);
    EntryCount(states[j]);
    assert Stepped(states[k], steps[k], states[k + 1]);
    StepGoes(states[k], steps[k]);
    Learns(states[k].cache, ip, mac, now);
    RunRemembers(states, steps, k, j, e);
    if m :| k < m < j && steps[m].Begin? && steps[m].now - now > 15 {
      assert ExpiresAfter(steps[m], now);
    }
    if !Expired(steps, k + 1, j, now) {
      var i: nat :| OnlyAt(states[j].cache.entries, i, ip) && states[j].cache.entries[i] == e;
      LookupOnly(states[j].cache.entries, i, ip);
    }
  }

  /** A frame that a thread looks the address up for leaves at once for that hardware address as long as it
      is known, and is neither queued nor asked for; after that it goes on to be queued. */
  lemma KnownIsPassed(states: seq<Router>, steps: seq<Step>, k: nat, j: nat, ip: Ip, mac: Mac, now: int,
                      t: Thread, frame: Frame)
    requires Run(states, steps) && NoneFatal(states, steps) && k < j <= |steps| && steps[k] == Reply(ip, mac, now)
    requires Lookup(states[k].cache.entries, ip).None?
    requires exists i :: 0 <= i < |states[k].cache.entries| && !states[k].cache.entries[i].valid
    requires forall m :: k < m < j ==> !RepliesFor(steps[m], ip)
    requires Can(states[j], Look(t, ip, frame))
    ensures var s := states[j];
            && Defined(s, Look(t, ip, frame))
            && Do(s, Look(t, ip, frame))
               == if exists m :: k < m < j && steps[m].Begin? && steps[m].now - now > 15
                  then s.WithCalls(t, s.Calls(t) + [Missed(ip, frame)])
                  else s.(trace := s.trace + [Passed(ip, mac, frame)])
  {
    hide Fatal, Books, Dangling, Lookup, Can;
    KnownForFifteenSeconds(states, steps, k, j, ip, mac, now);
    BooksUpTo(states, steps, j);
    StepGoes(states[j], Look(t, ip, frame));
  }

  /** A frame queued for an address joins the one request for it, in front of those that wait, and a new
      request has not been sent yet; a frame of no bytes only makes the request. Requests for other
      addresses stay as they are. */
  lemma FrameIsQueued(requests: seq<Request>, ip: Ip, frame: Frame, id: nat, other: Ip)
    requires other != ip
    ensures var after, before := Enqueued(requests, ip, frame, id), Pending(requests, ip);
            && Pending(after, ip) == Some(match before
                                          case None => Request(id, ip, 0, 0, if frame.bytes == [] then [] else [frame])
                                          case Some(r) =>
                                            r.(packets := (if frame.bytes == [] then [] else [frame]) + r.packets))
            && Pending(after, other) == Pending(requests, other)
  {
    FrameJoins(requests, ip, frame, id);
    var after := Enqueued(requests, ip, frame, id);
    FindIs(after, other, if Find(requests, other) == |requests| then |after| else Find(requests, other));
  }

  lemma FrameJoins(requests: seq<Request>, ip: Ip, frame: Frame, id: nat)
    ensures Pending(Enqueued(requests, ip, frame, id), ip)
         == Some(match Pending(requests, ip)
                 case None => Request(id, ip, 0, 0, if frame.bytes == [] then [] else [frame])
                 case Some(r) => r.(packets := (if frame.bytes == [] then [] else [frame]) + r.packets))
  {
    FindIs(Enqueued(requests, ip, frame, id), ip, Find(requests, ip));
    assert [frame] + [] == [frame];
    if Find(requests, ip) < |requests| {
      assert [] + requests[Find(requests, ip)].packets == requests[Find(requests, ip)].packets;
    }
  }

  // -------------------------------------------------------------------------
  // A sweep request by request
  // -------------------------------------------------------------------------

  // What a sweep leaves of a request, and what it reports.
  function Remaining(r: Request, now: int): seq<Request> {
    if now - r.sent < 1 then [r]
    else if r.timesSent < 5 then [r.(sent := now, timesSent := r.timesSent + 1)]
    else []
  }

  function Reported(r: Request, now: int): seq<Happening>
    requires r.packets != []
  {
    if now - r.sent < 1 then []
    else if r.timesSent < 5 then [Asked(r.ip, r.packets[0].iface, now)]
    else [GaveUp(r.ip, r.packets, now)]
  }

  function RemainingOf(requests: seq<Request>, now: int): seq<Request> {
    if requests == [] then [] else Remaining(requests[0], now) + RemainingOf(requests[1..], now)
  }

  function ReportedOf(requests: seq<Request>, now: int): seq<Happening>
    requires AllCanAsk(requests)
  {
    if requests == [] then [] else Reported(requests[0], now) + ReportedOf(requests[1..], now)
  }

  lemma HandledSplit(requests: seq<Request>, i: nat, now: int)
    requires i < |requests| && AllCanAsk(requests)
    ensures var (next, seen) := Handled(requests, i, now);
            && seen == Reported(requests[i], now)
            && next == requests[..i] + Remaining(requests[i], now) + requests[i + 1..]
  {
    var r := requests[i];
    assert requests == requests[..i] + [r] + requests[i + 1..];
    if Due(r, now) && r.timesSent < MAX_TRIES {
      var r' := r.(sent := now, timesSent := r.timesSent + 1);
      assert requests[i := r'] == requests[..i] + [r'] + requests[i + 1..];
    }
  }

  lemma AskingLeft(requests: seq<Request>, i: nat, left: seq<Request>)
    requires i < |requests| && AllCanAsk(requests) && AllCanAsk(left)
    ensures AllCanAsk(requests[..i] + left + requests[i + 1..]) && AllCanAsk(requests[i..])
  {
  }

  /** The walk that looks up the next request before one may be removed comes to this: each request is
      left alone in the second it was last sent in, sent again up to five times, and given up after
      that, in the order of the queue and whatever becomes of the others. */
  lemma {:induction false} SweepRequestByRequest(requests: seq<Request>, i: nat, now: int)
    requires i <= |requests| && AllCanAsk(requests)
    ensures AllCanAsk(requests[i..])
    ensures SweptFrom(requests, i, now)
         == (requests[..i] + RemainingOf(requests[i..], now), ReportedOf(requests[i..], now))
    decreases |requests| - i
  {
    hide Handled, Reported;
    if i == |requests| {
      assert requests[i..] == [] && requests[..i] + [] == requests;
    } else {
      var (next, seen) := Handled(requests, i, now);
      var left := Remaining(requests[i], now);
      HandledSplit(requests, i, now);
      AskingLeft(requests, i, left);
      var i' := if |next| == |requests| then i + 1 else i;
      SweepRequestByRequest(next, i', now);
      assert next[..i'] == requests[..i] + left && next[i'..] == requests[i..][1..];
      var tail := RemainingOf(requests[i..][1..], now);
      assert requests[..i] + left + tail == requests[..i] + (left + tail);
    }
  }
}
