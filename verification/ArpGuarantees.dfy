/** What holds in the runs of the router's two threads, and exactly when: as long as no request is freed
    that is still in use, and as long as no thread acts on a test that no longer holds. */
module ArpGuarantees {
  import opened ArpState
  import opened ArpRuns
  import opened ArpThreads

  // -------------------------------------------------------------------------
  // Runs
  // -------------------------------------------------------------------------

  // Where a step is not defined, anything may follow.
  ghost predicate Stepped(s: Router, step: Step, t: Router) { Can(s, step) && (Defined(s, step) ==> t == Do(s, step)) }

  function Start(): Router {
    Router(Cache(seq(CACHE_SIZE, _ => Entry(false, 0, [], 0)), []), 0, [], [], Off, 0, [], [])
  }

  // states[k] is the state after the first k steps.
  ghost predicate Run(states: seq<Router>, steps: seq<Step>) {
    && |states| == |steps| + 1 && states[0] == Start()
    && forall k :: 0 <= k < |steps| ==> Stepped(states[k], steps[k], states[k + 1])
  }

  // No step frees a request that is in use.
  ghost predicate NoneFatal(states: seq<Router>, steps: seq<Step>)
    requires |states| == |steps| + 1
  {
    forall k :: 0 <= k < |steps| ==> !Fatal(states[k], steps[k])
  }

  // Neither thread acts on a test that no longer holds.
  ghost predicate NoneOutdated(states: seq<Router>, steps: seq<Step>)
    requires |states| == |steps| + 1
  {
    forall k :: 0 <= k < |steps| && steps[k].Act? ==> !Outdated(states[k], steps[k].t)
  }

  lemma StartHolds()
    ensures Books(Start()) && !Dangling(Start()) && Patient(Start().trace)
  {
    var entries := Start().cache.entries;
    assert forall i :: 0 <= i < |entries| ==> !entries[i].valid;
    assert forall ip: Ip :: Pending([], ip).None? && QueuedFor([], ip) == [] == Left([], ip) && Tries([], ip) == 0;
    assert forall t: Thread :: Start().Calls(t) == [];
  }

  lemma {:induction false} BooksUpTo(states: seq<Router>, steps: seq<Step>, n: nat)
    requires Run(states, steps) && n <= |steps| && forall k :: 0 <= k < n ==> !Fatal(states[k], steps[k])
    ensures Books(states[n]) && !Dangling(states[n])
  {
    hide Books, Fatal, Dangling, Do, Patient;
    if n == 0 {
      StartHolds();
    } else {
      BooksUpTo(states, steps, n - 1);
      assert Stepped(states[n - 1], steps[n - 1], states[n]);
      StepGoes(states[n - 1], steps[n - 1]);
    }
  }

  // -------------------------------------------------------------------------
  // Requests in use
  // -------------------------------------------------------------------------

  /** In any run no thread ever has a freed request in hand, and the walk never goes on with one, if
      and only if no step gives up a request that is in use elsewhere: by the other thread, by a call
      further out of the same thread, or as the walk's next. */
  lemma FreedOnlyByFatalStep(states: seq<Router>, steps: seq<Step>)
    requires Run(states, steps)
    ensures (forall k :: 0 <= k <= |steps| ==> !Dangling(states[k])) <==> NoneFatal(states, steps)
  {
    hide Books, Fatal, Dangling, Do, Patient;
    if NoneFatal(states, steps) {
      forall k | 0 <= k <= |steps| ensures !Dangling(states[k]) { BooksUpTo(states, steps, k); }
    } else {
      var k := FirstFatal(states, steps, |steps|);
      BooksUpTo(states, steps, k);
      assert Stepped(states[k], steps[k], states[k + 1]);
      StepGoes(states[k], steps[k]);
      assert Dangling(states[k + 1]);
    }
  }

  lemma FirstFatal(states: seq<Router>, steps: seq<Step>, n: nat) returns (k: nat)
    requires |states| == |steps| + 1 && n <= |steps|
    requires exists j :: 0 <= j < n && Fatal(states[j], steps[j])
    ensures k < n && Fatal(states[k], steps[k]) && forall j :: 0 <= j < k ==> !Fatal(states[j], steps[j])
  {
    hide Fatal;
    if j :| 0 <= j < n - 1 && Fatal(states[j], steps[j]) {
      k := FirstFatal(states, steps, n - 1);
    } else {
      k := n - 1;
    }
  }

  // -------------------------------------------------------------------------
  // Pending requests and frames
  // -------------------------------------------------------------------------

  /** In every run without a fatal step pending requests have distinct addresses, none of which the
      cache knows, each holds a frame, and the source's assertion holds at any step. */
  lemma PendingRequests(states: seq<Router>, steps: seq<Step>, step: Step, i: nat)
    requires Run(states, steps) && NoneFatal(states, steps)
    requires i < |states[|steps|].cache.requests| && Can(states[|steps|], step)
    ensures var c := states[|steps|].cache;
            var r := c.requests[i];
            && r.packets != []
            && (forall j :: 0 <= j < |c.requests| && j != i ==> c.requests[j].ip != r.ip)
            && (forall k :: 0 <= k < |c.entries| ==> !Live(c.entries[k], r.ip))
    ensures Defined(states[|steps|], step)
    ensures NoneOutdated(states, steps) ==> states[|steps|].cache.requests[i].timesSent <= MAX_TRIES
  {
    hide BooksKept, Patient, WellAddressed, EntriesTaught, Fatal, Outdated, Stepped, Do, Goes;
    var s := states[|steps|];
    BooksUpTo(states, steps, |steps|);
    PendingAt(s.cache.requests, i);
    UnknownIs(s.cache.entries, s.cache.requests[i].ip);
    StepGoes(s, step);
    PatientUpTo(states, steps, |steps|);
    if NoneOutdated(states, steps) { PatientBounds(s.cache.requests, s.nextId, i, s.queued, s.trace); }
  }

  /** In every run without a fatal step each frame queued for an address is in exactly one place: in
      one of the batches that left, batches leaving in order of arrival and each newest first, or
      waiting in the one request. */
  lemma FramesConserved(states: seq<Router>, steps: seq<Step>, ip: Ip)
    requires Run(states, steps) && NoneFatal(states, steps)
    ensures var s := states[|steps|];
            QueuedFor(s.queued, ip)
            == Left(s.trace, ip) + match Pending(s.cache.requests, ip)
                                   case None => []
                                   case Some(r) => Reversed(r.packets)
  {
    hide Fatal, Stepped, Left, QueuedFor, Tries, LastAsked, Pending;
    BooksUpTo(states, steps, |steps|);
    var s := states[|steps|];
    assert Balanced(s.cache.requests, s.queued, s.trace, ip);
  }

  /** And whatever is sent goes to an address learned from a reply before. */
  lemma WellAddressedAlways(states: seq<Router>, steps: seq<Step>, k: nat)
    requires Run(states, steps) && NoneFatal(states, steps) && k < |states[|steps|].trace|
    ensures var h := states[|steps|].trace[k];
            h.Flushed? || h.Passed? ==> Taught(states[|steps|].trace[..k], h.ip, h.mac)
  {
    hide Fatal, Stepped, Taught;
    BooksUpTo(states, steps, |steps|);
  }

  /** Right after a sweep has expired entries, whatever the cache answers was learned from a reply no
      more than fifteen seconds before. */
  lemma AnswersAreRecent(states: seq<Router>, steps: seq<Step>, now: int, ip: Ip)
    requires Run(states, steps) && NoneFatal(states, steps) && Can(states[|steps|], Begin(now))
    ensures Defined(states[|steps|], Begin(now))
    ensures var s := states[|steps|];
            var entries := Do(s, Begin(now)).cache.entries;
            Lookup(entries, ip).Some? ==>
              var e := Lookup(entries, ip).value;
              Learned(ip, e.mac, e.added) in s.trace && now - e.added <= CACHE_SECONDS
  {
    hide Stepped, BooksKept, WellAddressed, PendingUnknown, CallsOk, InUse;
    var s := states[|steps|];
    BooksUpTo(states, steps, |steps|);
    AgedTaught(s.cache.entries, now, s.trace);
    var entries := AgedAll(s.cache.entries, now);
    if Lookup(entries, ip).Some? {
      var e := Lookup(entries, ip).value;
      var i :| 0 <= i < |entries| && entries[i] == e;
      assert Origin(e) in s.trace;
    }
  }

  // -------------------------------------------------------------------------
  // Trying
  // -------------------------------------------------------------------------

  lemma TraceGrows(s: Router, step: Step)
    requires Can(s, step) && Defined(s, step)
    ensures s.trace <= Do(s, step).trace
  {
    hide Answered, SweptFrom, AgedAll, Handled, Acted, Lookup, Enqueued;
  }

  lemma {:induction false} PatientUpTo(states: seq<Router>, steps: seq<Step>, n: nat)
    requires Run(states, steps) && n <= |steps| && forall k :: 0 <= k < n ==> !Fatal(states[k], steps[k])
    ensures Patient(states[n].trace) <==> forall k :: 0 <= k < n && steps[k].Act? ==> !Outdated(states[k], steps[k].t)
  {
    hide Books, Fatal, Dangling, Outdated, Do, Patient;
    if n == 0 {
      StartHolds();
    } else {
      var s, t := states[n - 1], states[n];
      PatientUpTo(states, steps, n - 1);
      BooksUpTo(states, steps, n - 1);
      assert Stepped(s, steps[n - 1], t);
      StepGoes(s, steps[n - 1]);
      TraceGrows(s, steps[n - 1]);
      if Patient(t.trace) {
        assert t.trace == s.trace + t.trace[|s.trace|..];
        PatientPrefix(s.trace, t.trace[|s.trace|..]);
      }
    }
  }

  /** In a run without a fatal step the rules on trying are kept if and only if neither thread
      ever acts on a test that no longer holds: frames are given up only after five requests since the last
      batch, a sixth is never sent, and each comes at least a second after the one before. */
  lemma PatienceIff(states: seq<Router>, steps: seq<Step>)
    requires Run(states, steps) && NoneFatal(states, steps)
    ensures NoneOutdated(states, steps) <==>
            forall k :: 0 <= k < |states[|steps|].trace| ==>
              var h, before := states[|steps|].trace[k], states[|steps|].trace[..k];
              && (h.GaveUp? ==> Tries(before, h.ip) == MAX_TRIES)
              && (h.Asked? ==> Tries(before, h.ip) < MAX_TRIES)
              && ((h.Asked? || h.GaveUp?) && Tries(before, h.ip) > 0 ==> h.at - LastAsked(before, h.ip) >= 1)
  {
    hide Fatal, Outdated, Stepped, Tries, LastAsked;
    PatientUpTo(states, steps, |steps|);
    var trace := states[|steps|].trace;
    forall k | 0 <= k < |trace|
      ensures var h, before := trace[k], trace[..k];
              Fits(before, h) <==>
                && (h.GaveUp? ==> Tries(before, h.ip) == MAX_TRIES)
                && (h.Asked? ==> Tries(before, h.ip) < MAX_TRIES)
                && ((h.Asked? || h.GaveUp?) && Tries(before, h.ip) > 0 ==> h.at - LastAsked(before, h.ip) >= 1)
    {
    }
  }
}
