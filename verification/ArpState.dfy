/** The ARP cache and its queue of pending requests as values: each operation as a function, the
    steps of the router's two threads on them, and what runs are to keep. */
module ArpState {
  import opened Basics

  const CACHE_SIZE: nat := 100
  const CACHE_SECONDS: int := 15
  const MAX_TRIES: nat := 5

  type Ip = nat
  type Mac = seq<byte>

  datatype Frame = Frame(bytes: seq<byte>, iface: string)

  datatype Entry = Entry(valid: bool, ip: Ip, mac: Mac, added: int)

  // id stands for the memory a request lives in: a thread may go on holding it.
  datatype Request = Request(id: nat, ip: Ip, sent: int, timesSent: nat, packets: seq<Frame>)

  datatype Cache = Cache(entries: seq<Entry>, requests: seq<Request>)

  // What the router does that can be seen: a reply arriving, an ARP request broadcast, the frames
  // of a request sent to the address of a reply, the frames of a request given up, and a frame sent
  // at once to a cached address.
  datatype Happening =
    | Learned(ip: Ip, mac: Mac, at: int)
    | Asked(ip: Ip, iface: string, at: int)
    | Flushed(ip: Ip, mac: Mac, frames: seq<Frame>)
    | GaveUp(ip: Ip, frames: seq<Frame>, at: int)
    | Passed(ip: Ip, mac: Mac, frame: Frame)

  // -------------------------------------------------------------------------
  // Operations
  // -------------------------------------------------------------------------

  predicate Live(e: Entry, ip: Ip) { e.valid && e.ip == ip }

  // The last valid entry for the address.
  function Lookup(entries: seq<Entry>, ip: Ip): (r: Option<Entry>)
    ensures r.None? <==> forall i :: 0 <= i < |entries| ==> !Live(entries[i], ip)
    ensures r.Some? ==> r.value in entries && Live(r.value, ip)
  {
    if entries == [] then None
    else if Live(entries[|entries| - 1], ip) then Some(entries[|entries| - 1])
    else Lookup(entries[..|entries| - 1], ip)
  }

  // Index of the first request for the address, or the number of requests.
  function Find(requests: seq<Request>, ip: Ip): (i: nat)
    ensures i <= |requests|
    ensures i < |requests| ==> requests[i].ip == ip
    ensures forall j :: 0 <= j < i ==> requests[j].ip != ip
  {
    FirstIndex(requests, (r: Request) => r.ip == ip)
  }

  // Index of the request living at id, or the number of requests if it has been freed.
  function Place(requests: seq<Request>, id: nat): (i: nat)
    ensures i <= |requests|
    ensures i < |requests| ==> requests[i].id == id
    ensures forall j :: 0 <= j < i ==> requests[j].id != id
  {
    FirstIndex(requests, (r: Request) => r.id == id)
  }

  // id is where a new request would live.
  function Enqueued(requests: seq<Request>, ip: Ip, frame: Frame, id: nat): seq<Request> {
    var i := Find(requests, ip);
    var r := if i < |requests| then requests[i] else Request(id, ip, 0, 0, []);
    var r' := if frame.bytes == [] then r else r.(packets := [frame] + r.packets);
    if i < |requests| then requests[i := r'] else requests + [r']
  }

  function Without(requests: seq<Request>, i: nat): seq<Request>
    requires i < |requests|
  {
    RemoveAt(requests, i)
  }

  predicate Due(r: Request, now: int) { now - r.sent >= 1 }

  // The head of the packet list names the interface to ask on.
  predicate CanAsk(r: Request) { r.packets != [] }

  // Give up the request at index i, or send it again.
  function Acted(requests: seq<Request>, i: nat, now: int, giveUp: bool): (seq<Request>, seq<Happening>)
    requires i < |requests| && CanAsk(requests[i])
  {
    var r := requests[i];
    if giveUp then (Without(requests, i), [GaveUp(r.ip, r.packets, now)])
    else (requests[i := r.(sent := now, timesSent := r.timesSent + 1)], [Asked(r.ip, r.packets[0].iface, now)])
  }

  // Handle the request at index i: nothing until a second has passed, then retry or give up.
  function Handled(requests: seq<Request>, i: nat, now: int): (seq<Request>, seq<Happening>)
    requires i < |requests| && CanAsk(requests[i])
  {
    var r := requests[i];
    if !Due(r, now) then (requests, []) else Acted(requests, i, now, r.timesSent >= MAX_TRIES)
  }

  // Index of the first invalid entry, or the number of entries.
  function FreeEntry(entries: seq<Entry>): (i: nat)
    ensures i <= |entries|
    ensures i < |entries| ==> !entries[i].valid
    ensures forall j :: 0 <= j < i ==> entries[j].valid
  {
    FirstIndex(entries, (e: Entry) => !e.valid)
  }

  function Stored(entries: seq<Entry>, e: Entry): seq<Entry> {
    var i := FreeEntry(entries);
    if i < |entries| then entries[i := e] else entries
  }

  function Answered(c: Cache, ip: Ip, mac: Mac, now: int): (Cache, seq<Happening>) {
    var i := Find(c.requests, ip);
    var entries := Stored(c.entries, Entry(true, ip, mac, now));
    if i < |c.requests| then
      (Cache(entries, Without(c.requests, i)), [Learned(ip, mac, now), Flushed(ip, mac, c.requests[i].packets)])
    else
      (Cache(entries, c.requests), [Learned(ip, mac, now)])
  }

  function Aged(e: Entry, now: int): Entry {
    if e.valid && now - e.added > CACHE_SECONDS then e.(valid := false) else e
  }

  function AgedAll(entries: seq<Entry>, now: int): (r: seq<Entry>)
    ensures |r| == |entries|
    ensures forall i :: 0 <= i < |r| ==> r[i] == Aged(entries[i], now)
  {
    seq(|entries|, i requires 0 <= i < |entries| => Aged(entries[i], now))
  }

  predicate AllCanAsk(requests: seq<Request>) { forall i :: 0 <= i < |requests| ==> CanAsk(requests[i]) }

  // Handle the requests from index i on; one that is given up makes room for its successor.
  function SweptFrom(requests: seq<Request>, i: nat, now: int): (seq<Request>, seq<Happening>)
    requires i <= |requests| && AllCanAsk(requests)
    decreases |requests| - i
  {
    if i == |requests| then (requests, [])
    else
      var (next, seen) := Handled(requests, i, now);
      var (last, rest) := SweptFrom(next, if |next| == |requests| then i + 1 else i, now);
      (last, seen + rest)
  }

  // -------------------------------------------------------------------------
  // Two threads. Looking up, queueing, a reply and freeing a request take the lock, each for itself;
  // the thread that sweeps once a second holds it from the beginning of its walk to the end. Testing
  // a request and sending it again take no lock.
  // -------------------------------------------------------------------------

  datatype Thread = Handler | Sweeper {
    function Other(): Thread { if this == Handler then Sweeper else Handler }
  }

  // What a thread is in the middle of: a frame whose look-up failed, a request to be handled, or one
  // that it has tested and found due. Giving a request up sends messages, which are looked up, queued
  // and handled in turn before the request is freed: calls nest.
  datatype Call =
    | Missed(ip: Ip, frame: Frame)
    | Holding(id: nat)
    | Tested(id: nat, now: int, giveUp: bool)

  // The sweep's walk: none, or the request it goes on with, read before the present one is handled.
  datatype Walk = Off | On(next: Option<nat>)

  // clock is the last reading of the time that a test was made with.
  datatype Router = Router(
    cache: Cache, nextId: nat, handler: seq<Call>, sweeper: seq<Call>, walk: Walk, clock: int,
    queued: seq<(Ip, Frame)>, trace: seq<Happening>)
  {
    function Calls(t: Thread): seq<Call> { if t == Handler then handler else sweeper }

    function WithCalls(t: Thread, calls: seq<Call>): Router {
      if t == Handler then this.(handler := calls) else this.(sweeper := calls)
    }

    // Whether the thread can take the lock.
    predicate Locks(t: Thread) { walk.On? <==> t == Sweeper }

    predicate In(t: Thread) { Calls(t) != [] }

    function Top(t: Thread): Call
      requires In(t)
    {
      Calls(t)[|Calls(t)| - 1]
    }

    function Below(t: Thread): seq<Call>
      requires In(t)
    {
      Calls(t)[..|Calls(t)| - 1]
    }
  }

  datatype Step =
    | Look(t: Thread, ip: Ip, frame: Frame)  // for an arriving frame, or a message about one given up
    | Queue(t: Thread)
    | Test(t: Thread, now: int)
    | Act(t: Thread)
    | Reply(ip: Ip, mac: Mac, now: int)
    | Begin(now: int)
    | Visit
    | Finish
  {
    function Of(): Thread {
      match this
      case Look(t, _, _) => t
      case Queue(t) => t
      case Test(t, _) => t
      case Act(t) => t
      case Reply(_, _, _) => Handler
      case _ => Sweeper
    }
  }

  predicate GivingUp(c: Call) { c.Tested? && c.giveUp }

  predicate Can(s: Router, step: Step) {
    match step
    case Look(t, _, frame) =>
      s.Locks(t) && frame.bytes != [] && (if s.In(t) then GivingUp(s.Top(t)) else t == Handler)
    case Queue(t) => s.Locks(t) && s.In(t) && s.Top(t).Missed?
    case Test(t, _) => s.In(t) && s.Top(t).Holding?
    case Act(t) => s.In(t) && s.Top(t).Tested? && (s.Top(t).giveUp ==> s.Locks(t))
    case Reply(_, _, _) => s.Locks(Handler) && !s.In(Handler)
    case Begin(_) => s.walk.Off?
    case Visit => s.walk.On? && s.walk.next.Some? && !s.In(Sweeper)
    case Finish => s.walk.On? && s.walk.next.None? && !s.In(Sweeper)
  }

  predicate Refers(c: Call, id: nat) { !c.Missed? && c.id == id }

  predicate AnyRefers(calls: seq<Call>, id: nat) { exists i :: 0 <= i < |calls| && Refers(calls[i], id) }

  // Some thread has the request at id in hand, or the walk is to go on with it.
  predicate InUse(s: Router, id: nat) {
    AnyRefers(s.handler, id) || AnyRefers(s.sweeper, id) || s.walk == On(Some(id))
  }

  predicate Present(requests: seq<Request>, id: nat) { Place(requests, id) < |requests| }

  // A request that is in use has been freed.
  ghost predicate Dangling(s: Router) { exists id: nat :: InUse(s, id) && !Present(s.cache.requests, id) }

  // The source's assertion that a request to be sent again holds a frame, and that no thread goes on
  // with a request that has been freed. What a step does is defined only then.
  predicate Defined(s: Router, step: Step)
    requires Can(s, step)
  {
    && AllCanAsk(s.cache.requests)
    && match step
       case Look(t, _, _) => s.In(t) ==> Present(s.cache.requests, s.Top(t).id)
       case Queue(t) => s.Top(t).frame.bytes != []
       case Test(t, _) => Present(s.cache.requests, s.Top(t).id)
       case Act(t) => Present(s.cache.requests, s.Top(t).id)
       case Visit => Present(s.cache.requests, s.walk.next.value)
       case _ => true
  }

  lemma FindIs(requests: seq<Request>, ip: Ip, i: nat)
    requires i <= |requests| && forall j :: 0 <= j < i ==> requests[j].ip != ip
    requires i < |requests| ==> requests[i].ip == ip
    ensures Find(requests, ip) == i
  {
  }

  lemma PlaceIs(requests: seq<Request>, id: nat, i: nat)
    requires i <= |requests| && forall j :: 0 <= j < i ==> requests[j].id != id
    requires i < |requests| ==> requests[i].id == id
    ensures Place(requests, id) == i
  {
  }

  lemma FindEnqueued(requests: seq<Request>, ip: Ip, frame: Frame, id: nat)
    requires AllCanAsk(requests) && frame.bytes != []
    ensures Find(Enqueued(requests, ip, frame, id), ip) == Find(requests, ip) < |Enqueued(requests, ip, frame, id)|
    ensures AllCanAsk(Enqueued(requests, ip, frame, id))
  {
    FindIs(Enqueued(requests, ip, frame, id), ip, Find(requests, ip));
  }

  // Where the request at index i lives, if there is one.
  function IdAt(requests: seq<Request>, i: nat): Option<nat> {
    if i < |requests| then Some(requests[i].id) else None
  }

  function Do(s: Router, step: Step): Router
    requires Can(s, step) && Defined(s, step)
  {
    var requests := s.cache.requests;
    match step
    case Look(t, ip, frame) =>
      var hit := Lookup(s.cache.entries, ip);
      if hit.Some? then s.(trace := s.trace + [Passed(ip, hit.value.mac, frame)])
      else s.WithCalls(t, s.Calls(t) + [Missed(ip, frame)])
    case Queue(t) =>
      var c := s.Top(t);
      FindEnqueued(requests, c.ip, c.frame, s.nextId);
      var next := Enqueued(requests, c.ip, c.frame, s.nextId);
      s.(cache := s.cache.(requests := next), nextId := s.nextId + 1, queued := s.queued + [(c.ip, c.frame)])
      .WithCalls(t, s.Below(t) + [Holding(next[Find(requests, c.ip)].id)])
    case Test(t, now) =>
      var r := requests[Place(requests, s.Top(t).id)];
      s.(clock := now)
      .WithCalls(t, s.Below(t) + if Due(r, now) then [Tested(r.id, now, r.timesSent >= MAX_TRIES)] else [])
    case Act(t) =>
      var c := s.Top(t);
      var (next, seen) := Acted(requests, Place(requests, c.id), c.now, c.giveUp);
      s.(cache := s.cache.(requests := next), trace := s.trace + seen).WithCalls(t, s.Below(t))
    case Reply(ip, mac, now) =>
      var (cache, seen) := Answered(s.cache, ip, mac, now);
      s.(cache := cache, trace := s.trace + seen)
    case Begin(now) =>
      s.(cache := s.cache.(entries := AgedAll(s.cache.entries, now)), walk := On(IdAt(requests, 0)))
    case Visit =>
      var i := Place(requests, s.walk.next.value);
      s.(walk := On(IdAt(requests, i + 1)), sweeper := [Holding(s.walk.next.value)])
    case Finish =>
      s.(walk := Off)
  }

  // -------------------------------------------------------------------------
  // The books of one address
  // -------------------------------------------------------------------------

  function Reversed<T>(s: seq<T>): (r: seq<T>)
    ensures |r| == |s|
    ensures forall i :: 0 <= i < |s| ==> r[i] == s[|s| - 1 - i]
  {
    seq(|s|, i requires 0 <= i < |s| => s[|s| - 1 - i])
  }

  // The frames queued for the address, in order of arrival.
  function QueuedFor(queued: seq<(Ip, Frame)>, ip: Ip): seq<Frame> {
    if queued == [] then []
    else
      var last := queued[|queued| - 1];
      QueuedFor(queued[..|queued| - 1], ip) + if last.0 == ip then [last.1] else []
  }

  // The frames that have left the address's queue, batch after batch, each batch newest first.
  function Left(trace: seq<Happening>, ip: Ip): seq<Frame> {
    if trace == [] then []
    else
      var last := trace[|trace| - 1];
      Left(trace[..|trace| - 1], ip)
      + if (last.Flushed? || last.GaveUp?) && last.ip == ip then Reversed(last.frames) else []
  }

  // How often the address has been asked for since its last batch left.
  function Tries(trace: seq<Happening>, ip: Ip): nat {
    if trace == [] then 0
    else
      var last := trace[|trace| - 1];
      var before := Tries(trace[..|trace| - 1], ip);
      if last.ip != ip then before
      else if last.Asked? then before + 1
      else if last.Flushed? || last.GaveUp? then 0
      else before
  }

  // When the address was last asked for.
  function LastAsked(trace: seq<Happening>, ip: Ip): int {
    if trace == [] then 0
    else
      var last := trace[|trace| - 1];
      if last.Asked? && last.ip == ip then last.at else LastAsked(trace[..|trace| - 1], ip)
  }

  function Pending(requests: seq<Request>, ip: Ip): Option<Request> {
    var i := Find(requests, ip);
    if i < |requests| then Some(requests[i]) else None
  }

  ghost predicate Distinct(requests: seq<Request>) {
    forall i, j :: 0 <= i < j < |requests| ==> requests[i].ip != requests[j].ip
  }

  // One request to an address and to a place in memory, new requests living at fresh places.
  ghost predicate Sound(requests: seq<Request>, nextId: nat) {
    && Distinct(requests) && AllCanAsk(requests)
    && (forall i, j :: 0 <= i < j < |requests| ==> requests[i].id != requests[j].id)
    && (forall i :: 0 <= i < |requests| ==> requests[i].id < nextId)
  }

  // Every frame ever queued for the address either left in a batch or waits in its request, and the
  // request has been asked for as often, and when, as it says.
  ghost predicate Balanced(requests: seq<Request>, queued: seq<(Ip, Frame)>, trace: seq<Happening>, ip: Ip) {
    match Pending(requests, ip)
    case None => QueuedFor(queued, ip) == Left(trace, ip) && Tries(trace, ip) == 0
    case Some(r) =>
      QueuedFor(queued, ip) == Left(trace, ip) + Reversed(r.packets) && Tries(trace, ip) == r.timesSent
      && (r.timesSent > 0 ==> LastAsked(trace, ip) == r.sent)
  }

  ghost predicate BooksKept(requests: seq<Request>, queued: seq<(Ip, Frame)>, trace: seq<Happening>) {
    forall ip: Ip :: Balanced(requests, queued, trace, ip)
  }

  // A batch is given up only after five requests, no request is sent a sixth time, and requests
  // for the same batch, and giving it up, are at least a second apart.
  predicate Fits(before: seq<Happening>, h: Happening) {
    var tries := Tries(before, h.ip);
    match h
    case Asked(_, _, at) => tries < MAX_TRIES && (tries > 0 ==> at - LastAsked(before, h.ip) >= 1)
    case GaveUp(_, _, at) => tries == MAX_TRIES && at - LastAsked(before, h.ip) >= 1
    case _ => true
  }

  ghost predicate Patient(trace: seq<Happening>) { forall k :: 0 <= k < |trace| ==> Fits(trace[..k], trace[k]) }

  ghost predicate Taught(trace: seq<Happening>, ip: Ip, mac: Mac) {
    exists k :: 0 <= k < |trace| && trace[k].Learned? && trace[k].ip == ip && trace[k].mac == mac
  }

  // Whatever is sent goes to an address that a reply gave for it before.
  ghost predicate WellAddressed(trace: seq<Happening>) {
    forall k :: 0 <= k < |trace| && (trace[k].Passed? || trace[k].Flushed?) ==>
      Taught(trace[..k], trace[k].ip, trace[k].mac)
  }

  ghost predicate Unknown(entries: seq<Entry>, ip: Ip) { Lookup(entries, ip).None? }

  // An address with a pending request has no valid entry.
  ghost predicate PendingUnknown(c: Cache) {
    forall ip: Ip :: Pending(c.requests, ip).Some? ==> Unknown(c.entries, ip)
  }

  // The reply an entry was made from.
  function Origin(e: Entry): Happening { Learned(e.ip, e.mac, e.added) }

  ghost predicate EntriesTaught(entries: seq<Entry>, trace: seq<Happening>) {
    forall i :: 0 <= i < |entries| && entries[i].valid ==> Origin(entries[i]) in trace
  }

  // Only the innermost call can be anything but giving up a request.
  ghost predicate CallsOk(calls: seq<Call>, entries: seq<Entry>, nextId: nat) {
    && (forall i :: 0 <= i < |calls| - 1 ==> GivingUp(calls[i]))
    && (forall i :: 0 <= i < |calls| ==>
          match calls[i]
          case Missed(ip, frame) => frame.bytes != [] && Unknown(entries, ip)
          case Holding(id) => id < nextId
          case Tested(id, _, _) => id < nextId)
  }

  // What every run keeps as long as no thread uses freed memory.
  ghost predicate Books(s: Router) {
    && |s.cache.entries| == CACHE_SIZE
    && Sound(s.cache.requests, s.nextId)
    && PendingUnknown(s.cache)
    && (forall t: Thread :: CallsOk(s.Calls(t), s.cache.entries, s.nextId))
    && (s.walk.Off? ==> s.sweeper == [])
    && (s.walk.On? && s.walk.next.Some? ==> s.walk.next.value < s.nextId)
    && BooksKept(s.cache.requests, s.queued, s.trace)
    && WellAddressed(s.trace)
    && EntriesTaught(s.cache.entries, s.trace)
  }
}
