/** The books kept about the ARP cache's frames and requests: what queueing, giving up and asking again
    do to them, whatever led to it. */
module ArpRuns {
  import opened Basics
  import opened ArpState

  // -------------------------------------------------------------------------
  // The pending request of an address, and the request at a place in memory
  // -------------------------------------------------------------------------

  lemma PendingWithout(requests: seq<Request>, i: nat, ip: Ip)
    requires Distinct(requests) && i < |requests|
    ensures Pending(Without(requests, i), ip) == if ip == requests[i].ip then None else Pending(requests, ip)
  {
    var k := Find(requests, ip);
    var rest := Without(requests, i);
    if ip == requests[i].ip {
      FindIs(rest, ip, |rest|);
    } else {
      FindIs(rest, ip, if k > i then k - 1 else k);
    }
  }

  lemma PendingUpdate(requests: seq<Request>, i: nat, r: Request, ip: Ip)
    requires Distinct(requests) && i < |requests| && r.ip == requests[i].ip
    ensures Pending(requests[i := r], ip) == if ip == r.ip then Some(r) else Pending(requests, ip)
  {
    FindIs(requests, r.ip, i);
    FindIs(requests[i := r], ip, Find(requests, ip));
  }

  lemma PendingAppend(requests: seq<Request>, r: Request, ip: Ip)
    requires Find(requests, r.ip) == |requests|
    ensures Pending(requests + [r], ip) == if ip == r.ip then Some(r) else Pending(requests, ip)
  {
    var k := Find(requests, ip);
    FindIs(requests + [r], ip, if k == |requests| && ip != r.ip then k + 1 else k);
  }

  lemma PendingAt(requests: seq<Request>, i: nat)
    requires Distinct(requests) && i < |requests|
    ensures Pending(requests, requests[i].ip) == Some(requests[i])
  {
    FindIs(requests, requests[i].ip, i);
  }

  function At(requests: seq<Request>, id: nat): Option<Request> {
    var i := Place(requests, id);
    if i < |requests| then Some(requests[i]) else None
  }

  ghost predicate Apart(requests: seq<Request>) {
    forall i, j :: 0 <= i < j < |requests| ==> requests[i].id != requests[j].id
  }

  lemma PlaceWithout(requests: seq<Request>, i: nat, id: nat)
    requires Apart(requests) && i < |requests|
    ensures var p, rest := Place(requests, id), Without(requests, i);
            Place(rest, id) == if p == i then |rest| else if p > i then p - 1 else p
  {
    var p, rest := Place(requests, id), Without(requests, i);
    PlaceIs(rest, id, if p == i then |rest| else if p > i then p - 1 else p);
  }

  lemma PlaceUpdate(requests: seq<Request>, i: nat, r: Request, id: nat)
    requires i < |requests| && r.id == requests[i].id
    ensures Place(requests[i := r], id) == Place(requests, id)
  {
    PlaceIs(requests[i := r], id, Place(requests, id));
  }

  lemma PlaceAppend(requests: seq<Request>, r: Request, id: nat)
    requires id != r.id
    ensures var p := Place(requests, id);
            Place(requests + [r], id) == if p == |requests| then p + 1 else p
  {
    var p := Place(requests, id);
    PlaceIs(requests + [r], id, if p == |requests| then p + 1 else p);
  }

  lemma PlaceAt(requests: seq<Request>, i: nat)
    requires Apart(requests) && i < |requests|
    ensures Place(requests, requests[i].id) == i
  {
    PlaceIs(requests, requests[i].id, i);
  }

  // -------------------------------------------------------------------------
  // The books after one happening
  // -------------------------------------------------------------------------

  lemma Snoc(trace: seq<Happening>, h: Happening, ip: Ip)
    ensures Left(trace + [h], ip)
         == Left(trace, ip) + (if (h.Flushed? || h.GaveUp?) && h.ip == ip then Reversed(h.frames) else [])
    ensures Tries(trace + [h], ip)
         == if h.ip != ip then Tries(trace, ip)
            else if h.Asked? then Tries(trace, ip) + 1
            else if h.Flushed? || h.GaveUp? then 0
            else Tries(trace, ip)
    ensures LastAsked(trace + [h], ip) == if h.Asked? && h.ip == ip then h.at else LastAsked(trace, ip)
  {
    assert (trace + [h])[..|trace|] == trace;
  }

  lemma SnocQueued(queued: seq<(Ip, Frame)>, to: Ip, frame: Frame, ip: Ip)
    ensures QueuedFor(queued + [(to, frame)], ip)
         == QueuedFor(queued, ip) + if to == ip then [frame] else []
  {
    assert (queued + [(to, frame)])[..|queued|] == queued;
  }

  lemma PatientSnoc(trace: seq<Happening>, h: Happening)
    ensures Patient(trace + [h]) <==> Patient(trace) && Fits(trace, h)
  {
    hide Fits;
    var longer := trace + [h];
    assert longer[..|trace|] == trace && longer[|trace|] == h;
    forall k | 0 <= k < |trace| ensures longer[..k] == trace[..k] && longer[k] == trace[k] {
    }
    if Patient(longer) {
      forall k | 0 <= k < |trace| ensures Fits(trace[..k], trace[k]) {
        assert Fits(longer[..k], longer[k]);
      }
      assert Fits(longer[..|trace|], longer[|trace|]);
    }
  }

  lemma {:induction false} PatientPrefix(trace: seq<Happening>, more: seq<Happening>)
    requires Patient(trace + more)
    ensures Patient(trace)
    decreases |more|
  {
    hide Patient;
    if more == [] {
      assert trace + more == trace;
    } else {
      var front, last := more[..|more| - 1], more[|more| - 1];
      assert trace + more == trace + front + [last];
      PatientSnoc(trace + front, last);
      PatientPrefix(trace, front);
    }
  }

  lemma {:induction false} PatientTries(trace: seq<Happening>, ip: Ip)
    requires Patient(trace)
    ensures Tries(trace, ip) <= MAX_TRIES
  {
    if trace != [] {
      var front, last := trace[..|trace| - 1], trace[|trace| - 1];
      assert trace == front + [last];
      PatientSnoc(front, last);
      PatientTries(front, ip);
    }
  }

  lemma AddressedSnoc(trace: seq<Happening>, h: Happening)
    requires WellAddressed(trace)
    requires h.Passed? || h.Flushed? ==> Taught(trace, h.ip, h.mac)
    ensures WellAddressed(trace + [h])
  {
    hide Taught;
    forall k | 0 <= k < |trace + [h]|
      ensures (trace + [h])[..k] == if k == |trace| then trace else trace[..k]
    {
    }
  }

  // -------------------------------------------------------------------------
  // Handling a request
  // -------------------------------------------------------------------------

  // The part of the invariant that handling and queueing touch.
  ghost predicate Kept(requests: seq<Request>, nextId: nat, queued: seq<(Ip, Frame)>, trace: seq<Happening>) {
    Sound(requests, nextId) && BooksKept(requests, queued, trace) && WellAddressed(trace)
  }

  // Every address pending after was pending before.
  ghost predicate NoNewcomers(before: seq<Request>, after: seq<Request>) {
    forall ip: Ip :: Pending(after, ip).Some? ==> Pending(before, ip).Some?
  }

  lemma SoundIs(requests: seq<Request>, nextId: nat)
    requires Sound(requests, nextId)
    ensures Distinct(requests) && Apart(requests) && AllCanAsk(requests)
    ensures forall i :: 0 <= i < |requests| ==> CanAsk(requests[i])
  {
  }

  lemma SoundWithout(requests: seq<Request>, nextId: nat, i: nat)
    requires Sound(requests, nextId) && i < |requests|
    ensures Sound(Without(requests, i), nextId) && NoNewcomers(requests, Without(requests, i))
  {
    var rest := Without(requests, i);
    assert forall k :: 0 <= k < |rest| ==> rest[k] == requests[if k < i then k else k + 1];
    forall ip: Ip ensures Pending(rest, ip).Some? ==> Pending(requests, ip).Some? {
      PendingWithout(requests, i, ip);
    }
  }

  lemma SoundUpdate(requests: seq<Request>, nextId: nat, i: nat, r: Request)
    requires Sound(requests, nextId) && i < |requests|
    requires r.ip == requests[i].ip && r.id == requests[i].id && CanAsk(r)
    ensures Sound(requests[i := r], nextId) && NoNewcomers(requests, requests[i := r])
  {
    forall ip: Ip ensures Pending(requests[i := r], ip).Some? ==> Pending(requests, ip).Some? {
      PendingUpdate(requests, i, r, ip);
    }
  }

  lemma GiveUpKeeps(requests: seq<Request>, nextId: nat, i: nat, now: int,
                    queued: seq<(Ip, Frame)>, trace: seq<Happening>)
    requires Kept(requests, nextId, queued, trace) && i < |requests|
    ensures Kept(Without(requests, i), nextId, queued, trace + [GaveUp(requests[i].ip, requests[i].packets, now)])
    ensures NoNewcomers(requests, Without(requests, i))
  {
    hide Sound, WellAddressed, Without, Tries, LastAsked, Left, QueuedFor, Pending;
    var r := requests[i];
    var h := GaveUp(r.ip, r.packets, now);
    SoundIs(requests, nextId);
    SoundWithout(requests, nextId, i);
    PendingAt(requests, i);
    assert Balanced(requests, queued, trace, r.ip);
    AddressedSnoc(trace, h);
    forall ip: Ip ensures Balanced(Without(requests, i), queued, trace + [h], ip) {
      assert Balanced(requests, queued, trace, ip);
      PendingWithout(requests, i, ip);
      Snoc(trace, h, ip);
    }
  }

  lemma AskKeeps(requests: seq<Request>, nextId: nat, i: nat, now: int,
                 queued: seq<(Ip, Frame)>, trace: seq<Happening>)
    requires Kept(requests, nextId, queued, trace) && i < |requests|
    ensures var r := requests[i];
            CanAsk(r)
            && var next := requests[i := r.(sent := now, timesSent := r.timesSent + 1)];
               Kept(next, nextId, queued, trace + [Asked(r.ip, r.packets[0].iface, now)]) && NoNewcomers(requests, next)
  {
    hide Sound, WellAddressed, Tries, LastAsked, Left, QueuedFor, Pending;
    var r := requests[i];
    SoundIs(requests, nextId);
    var r' := r.(sent := now, timesSent := r.timesSent + 1);
    var h := Asked(r.ip, r.packets[0].iface, now);
    SoundUpdate(requests, nextId, i, r');
    PendingAt(requests, i);
    assert Balanced(requests, queued, trace, r.ip);
    AddressedSnoc(trace, h);
    var next, seen := requests[i := r'], trace + [h];
    forall ip: Ip ensures Balanced(next, queued, seen, ip) {
      assert Balanced(requests, queued, trace, ip);
      PendingUpdate(requests, i, r', ip);
      Snoc(trace, h, ip);
    }
  }

  /** Giving up a request, or sending it again, keeps every book, whatever led to it. */
  lemma ActedKeeps(requests: seq<Request>, nextId: nat, i: nat, now: int, giveUp: bool,
                   queued: seq<(Ip, Frame)>, trace: seq<Happening>)
    requires Kept(requests, nextId, queued, trace) && i < |requests|
    ensures CanAsk(requests[i])
    ensures Kept(Acted(requests, i, now, giveUp).0, nextId, queued, trace + Acted(requests, i, now, giveUp).1)
    ensures NoNewcomers(requests, Acted(requests, i, now, giveUp).0)
  {
    hide BooksKept, WellAddressed, Without;
    SoundIs(requests, nextId);
    if giveUp {
      GiveUpKeeps(requests, nextId, i, now, queued, trace);
    } else {
      AskKeeps(requests, nextId, i, now, queued, trace);
    }
  }

  // When acting on the request at index i fits in with what was asked for it before.
  predicate Timely(r: Request, now: int, giveUp: bool) {
    if giveUp then r.timesSent == MAX_TRIES && Due(r, now)
    else r.timesSent < MAX_TRIES && (r.timesSent > 0 ==> Due(r, now))
  }

  lemma ActedPatient(requests: seq<Request>, nextId: nat, i: nat, now: int, giveUp: bool,
                     queued: seq<(Ip, Frame)>, trace: seq<Happening>)
    requires Kept(requests, nextId, queued, trace) && i < |requests| && CanAsk(requests[i])
    ensures Patient(trace + Acted(requests, i, now, giveUp).1) <==> Patient(trace) && Timely(requests[i], now, giveUp)
  {
    hide Sound, WellAddressed, Tries, LastAsked, Left, QueuedFor, Pending, Patient, Without;
    SoundIs(requests, nextId);
    PendingAt(requests, i);
    assert Balanced(requests, queued, trace, requests[i].ip);
    PatientSnoc(trace, Acted(requests, i, now, giveUp).1[0]);
  }

  lemma PatientBounds(requests: seq<Request>, nextId: nat, i: nat, queued: seq<(Ip, Frame)>, trace: seq<Happening>)
    requires Kept(requests, nextId, queued, trace) && i < |requests| && Patient(trace)
    ensures requests[i].timesSent <= MAX_TRIES
  {
    hide Sound, WellAddressed, Tries, LastAsked, Left, QueuedFor, Pending, Patient;
    SoundIs(requests, nextId);
    PendingAt(requests, i);
    assert Balanced(requests, queued, trace, requests[i].ip);
    PatientTries(trace, requests[i].ip);
  }

  // -------------------------------------------------------------------------
  // Which requests survive
  // -------------------------------------------------------------------------

  lemma ApartWithout(requests: seq<Request>, i: nat)
    requires Apart(requests) && i < |requests|
    ensures Apart(Without(requests, i))
  {
    var rest := Without(requests, i);
    assert forall k :: 0 <= k < |rest| ==> rest[k] == requests[if k < i then k else k + 1];
  }

  lemma AtWithout(requests: seq<Request>, i: nat, id: nat)
    requires Apart(requests) && i < |requests|
    ensures At(Without(requests, i), id) == if id == requests[i].id then None else At(requests, id)
  {
    hide Place, Apart;
    PlaceWithout(requests, i, id);
    PlaceAt(requests, i);
  }

  lemma AtUpdate(requests: seq<Request>, i: nat, r: Request, id: nat)
    requires Apart(requests) && i < |requests| && r.id == requests[i].id
    ensures Apart(requests[i := r])
    ensures At(requests[i := r], id) == if id == r.id then Some(r) else At(requests, id)
  {
    PlaceAt(requests, i);
    PlaceUpdate(requests, i, r, id);
  }

  // What acting on a request makes of it.
  function Outcome(r: Request, now: int, giveUp: bool): Option<Request> {
    if giveUp then None else Some(r.(sent := now, timesSent := r.timesSent + 1))
  }

  // Acting on a request leaves all others alone.
  lemma ActedAt(requests: seq<Request>, i: nat, now: int, giveUp: bool, id: nat)
    requires Apart(requests) && i < |requests| && CanAsk(requests[i])
    ensures At(Acted(requests, i, now, giveUp).0, id)
         == if id == requests[i].id then Outcome(requests[i], now, giveUp) else At(requests, id)
  {
    hide Place, Apart;
    var r := requests[i];
    if giveUp {
      AtWithout(requests, i, id);
    } else {
      AtUpdate(requests, i, r.(sent := now, timesSent := r.timesSent + 1), id);
    }
  }

  lemma KeptIs(requests: seq<Request>, nextId: nat, queued: seq<(Ip, Frame)>, trace: seq<Happening>)
    requires Kept(requests, nextId, queued, trace)
    ensures Distinct(requests) && Apart(requests) && AllCanAsk(requests)
    ensures forall i :: 0 <= i < |requests| ==> CanAsk(requests[i])
  {
  }
}
