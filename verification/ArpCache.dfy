/** The ARP cache as the router keeps it: an array of entries, and linked lists of pending requests and
    of the frames waiting for them. Every method computes the function of the same purpose on the
    cache's value. */
module ArpCache {
  import opened Basics
  import opened ArpState
  import ArpGuarantees

  // A frame is put before the others when it is queued; the links never change afterwards.
  class FrameNode {
    const frame: Frame
    const next: FrameNode?
    ghost const frames: seq<Frame>  // this one and those behind it

    ghost predicate Valid()
      decreases |frames|
    {
      && frames != [] && frames[0] == frame
      && if next == null then |frames| == 1 else next.frames == frames[1..] && next.Valid()
    }

    constructor (frame: Frame, next: FrameNode?)
      requires next != null ==> next.Valid()
      ensures Valid() && this.frame == frame && this.next == next && frames == [frame] + FramesOf(next)
    {
      this.frame, this.next := frame, next;
      this.frames := [frame] + FramesOf(next);
    }
  }

  ghost function FramesOf(node: FrameNode?): seq<Frame> { if node == null then [] else node.frames }

  class RequestNode {
    const ip: Ip
    ghost const id: nat
    var sent: int
    var timesSent: nat
    var packets: FrameNode?
    var next: RequestNode?

    ghost predicate Valid() reads `packets { packets != null ==> packets.Valid() }

    ghost function Value(): Request reads `sent, `timesSent, `packets {
      Request(id, ip, sent, timesSent, FramesOf(packets))
    }

    constructor (ip: Ip, ghost id: nat)
      ensures Valid() && Value() == Request(id, ip, 0, 0, []) && next == null
    {
      this.ip, this.id := ip, id;
      sent, timesSent, packets, next := 0, 0, null, null;
    }
  }

  class ArpTable {
    const entries: array<Entry>
    var head: RequestNode?
    ghost var nodes: seq<RequestNode>
    ghost var requests: seq<Request>
    ghost var Repr: set<object>

    // head leads through next over exactly the nodes, each once, and they are the requests.
    ghost predicate Valid()
      reads this, Repr
      ensures Valid() ==> this in Repr
    {
      && entries.Length == CACHE_SIZE && this in Repr && entries as object !in Repr
      && |nodes| == |requests|
      && (forall i, j :: 0 <= i < j < |nodes| ==> nodes[i] != nodes[j])
      && head == At(0)
      && (forall i :: 0 <= i < |nodes| ==> nodes[i] in Repr && nodes[i].Valid() && nodes[i].Value() == requests[i])
      && (forall i {:trigger nodes[i].next} :: 0 <= i < |nodes| ==> nodes[i].next == At(i + 1))
    }

    // The i-th node, or null past the end.
    ghost function At(i: nat): RequestNode? reads this { if i < |nodes| then nodes[i] else null }

    ghost function Value(): Cache reads this, entries { Cache(entries[..], requests) }

    constructor ()
      ensures Valid() && fresh(Repr) && fresh(entries) && Value() == ArpGuarantees.Start().cache
    {
      entries := new Entry[CACHE_SIZE](_ => Entry(false, 0, [], 0));
      head := null;
      nodes, requests, Repr := [], [], {this};
    }

    method LookUp(ip: Ip) returns (found: Option<Entry>)
      ensures found == Lookup(entries[..], ip)
    {
      found := None;
      for i := 0 to entries.Length
        invariant found == Lookup(entries[..i], ip)
      {
        assert entries[..i + 1][..i] == entries[..i];
        if entries[i].valid && entries[i].ip == ip {
          found := Some(entries[i]);
        }
      }
      assert entries[..entries.Length] == entries[..];
    }

    // Walk to the request for the address; prev is the node before it.
    method FindRequest(ip: Ip) returns (req: RequestNode?, prev: RequestNode?, ghost i: nat)
      requires Valid()
      ensures i == Find(requests, ip) && req == At(i) && |nodes| == |requests| && (req != null ==> req in Repr)
      ensures prev == if i == 0 then null else nodes[i - 1]
    {
      req, prev, i := head, null, 0;
      while req != null && req.ip != ip
        invariant i <= |nodes| && req == At(i) && prev == if i == 0 then null else nodes[i - 1]
        invariant forall j :: 0 <= j < i ==> requests[j].ip != ip
        decreases |nodes| - i
      {
        req, prev, i := req.next, req, i + 1;
      }
      FindIs(requests, ip, i);
    }

    // Link a new request in at the end of the queue; id is where its memory is.
    method AppendRequest(ip: Ip, ghost id: nat) returns (req: RequestNode)
      requires Valid()
      modifies Repr
      ensures Valid() && fresh(Repr - old(Repr)) && nodes == old(nodes) + [req] && req in Repr
      ensures requests == old(requests) + [Request(id, ip, 0, 0, [])]
    {
      req := new RequestNode(ip, id);
      if head == null {
        head := req;
        nodes, requests, Repr := [req], [req.Value()], Repr + {req};
      } else {
        var tmp := head;
        ghost var i := 0;
        while tmp.next != null
          invariant 0 <= i < |nodes| && tmp == nodes[i]
          decreases |nodes| - i
        {
          tmp := tmp.next;
          i := i + 1;
        }
        LinkTail(tmp, req);
      }
    }

    method LinkTail(tail: RequestNode, req: RequestNode)
      requires Valid() && nodes != [] && tail == nodes[|nodes| - 1]
      requires req !in Repr && req.Valid() && req.next == null
      modifies this, tail`next
      ensures Valid() && Repr == old(Repr) + {req}
      ensures nodes == old(nodes) + [req] && requests == old(requests) + [req.Value()]
    {
      hide RequestNode.Valid, RequestNode.Value;
      tail.next := req;
      nodes, requests, Repr := nodes + [req], requests + [req.Value()], Repr + {req};
    }

    // Put the frame before the others of the i-th request.
    method Prepend(req: RequestNode, frame: Frame, ghost i: nat)
      requires Valid() && i < |nodes| && req == nodes[i]
      modifies this, req`packets
      ensures Valid() && Repr == old(Repr) && nodes == old(nodes) && head == old(head)
      ensures requests == old(requests)[i := old(requests)[i].(packets := [frame] + old(requests)[i].packets)]
    {
      req.packets := new FrameNode(frame, req.packets);
      requests := requests[i := req.Value()];
    }

    /** The frame goes to the head of its request's list; a new request to the end of the queue. */
    method QueueRequest(ip: Ip, frame: Frame, ghost id: nat) returns (req: RequestNode, ghost i: nat)
      requires Valid()
      modifies Repr
      ensures Valid() && fresh(Repr - old(Repr))
      ensures requests == Enqueued(old(requests), ip, frame, id)
      ensures i == Find(old(requests), ip) && i < |nodes| && req == nodes[i]
    {
      hide Valid;
      var found, prev;
      found, prev, i := FindRequest(ip);
      if found == null {
        req := AppendRequest(ip, id);
      } else {
        req := found;
      }
      if frame.bytes != [] {
        Prepend(req, frame, i);
      }
    }

    // Unlink the i-th request; prev is the node before it.
    method Unlink(req: RequestNode, prev: RequestNode?, ghost i: nat)
      requires Valid() && i < |nodes| && req == nodes[i]
      requires prev == if i == 0 then null else nodes[i - 1]
      modifies this, if prev == null then {} else {prev}
      ensures Valid() && Repr == old(Repr)
      ensures nodes == RemoveAt(old(nodes), i) && requests == Without(old(requests), i)
      ensures req.packets == old(req.packets)
    {
      if prev != null {
        LinkPast(prev, req, i);
      } else {
        head := req.next;
        nodes, requests := RemoveAt(nodes, 0), Without(requests, 0);
      }
    }

    method LinkPast(prev: RequestNode, req: RequestNode, ghost i: nat)
      requires Valid() && 0 < i < |nodes| && req == nodes[i] && prev == nodes[i - 1]
      modifies this, prev`next
      ensures Valid() && Repr == old(Repr)
      ensures nodes == RemoveAt(old(nodes), i) && requests == Without(old(requests), i)
    {
      hide RequestNode.Valid, RequestNode.Value, RemoveAt;
      prev.next := req.next;
      nodes, requests := RemoveAt(nodes, i), Without(requests, i);
    }

    // Walk to the node itself and unlink it.
    method DestroyRequest(entry: RequestNode, ghost i: nat)
      requires Valid() && i < |nodes| && entry == nodes[i]
      modifies Repr
      ensures Valid() && Repr == old(Repr)
      ensures nodes == RemoveAt(old(nodes), i) && requests == Without(old(requests), i)
    {
      var req: RequestNode?, prev: RequestNode? := head, null;
      ghost var k := 0;
      while req != null && req != entry
        invariant k <= i && req == nodes[k] && prev == if k == 0 then null else nodes[k - 1]
        decreases i - k
      {
        req, prev, k := req.next, req, k + 1;
      }
      if req != null {
        Unlink(req, prev, k);
      }
    }

    /** Retry or give up the i-th request, once it is due; asked is the interface it was sent on. */
    method HandleRequest(req: RequestNode, now: int, ghost i: nat)
      returns (asked: Option<string>, ghost seen: seq<Happening>)
      requires Valid() && i < |nodes| && req == nodes[i] && CanAsk(requests[i])
      modifies Repr
      ensures Valid() && Repr == old(Repr)
      ensures (requests, seen) == Handled(old(requests), i, now)
      ensures asked == if |seen| == 1 && seen[0].Asked? then Some(seen[0].iface) else None
      ensures nodes == if |requests| == |old(requests)| then old(nodes) else RemoveAt(old(nodes), i)
    {
      asked, seen := None, [];
      ghost var r := requests[i];
      if now - req.sent >= 1 {
        if req.timesSent >= 5 {
          seen := [GaveUp(r.ip, r.packets, now)];
          DestroyRequest(req, i);
        } else {
          assert req.packets != null;
          asked := Some(req.packets.frame.iface);
          seen := [Asked(r.ip, r.packets[0].iface, now)];
          SendAgain(req, now, i);
        }
      }
    }

    method SendAgain(req: RequestNode, now: int, ghost i: nat)
      requires Valid() && i < |nodes| && req == nodes[i]
      modifies this, req`sent, req`timesSent
      ensures Valid() && Repr == old(Repr) && nodes == old(nodes)
      ensures var r := old(requests)[i];
              requests == old(requests)[i := r.(sent := now, timesSent := r.timesSent + 1)]
    {
      hide RequestNode.Valid;
      req.sent := now;
      req.timesSent := req.timesSent + 1;
      requests := requests[i := req.Value()];
    }

    /** The two calls after a failed look-up, nothing coming in between. */
    method QueueAndAsk(ip: Ip, frame: Frame, now: int, ghost id: nat)
      returns (asked: Option<string>, ghost seen: seq<Happening>)
      requires Valid() && AllCanAsk(requests) && frame.bytes != []
      modifies Repr
      ensures Valid() && fresh(Repr - old(Repr))
      ensures var next, i := Enqueued(old(requests), ip, frame, id), Find(old(requests), ip);
              i < |next| && CanAsk(next[i]) && (requests, seen) == Handled(next, i, now)
      ensures asked == if |seen| == 1 && seen[0].Asked? then Some(seen[0].iface) else None
    {
      hide Valid, Handled, Enqueued, Find;
      FindEnqueued(requests, ip, frame, id);
      var req;
      ghost var i;
      req, i := QueueRequest(ip, frame, id);
      asked, seen := HandleRequest(req, now, i);
    }

    /** The request for the address is unlinked, the mapping stored in the first invalid entry. */
    method Insert(ip: Ip, mac: Mac, now: int) returns (taken: RequestNode?)
      requires Valid()
      modifies Repr, entries
      ensures Valid() && Repr == old(Repr)
      ensures entries[..] == Stored(old(entries[..]), Entry(true, ip, mac, now))
      ensures var i := Find(old(requests), ip);
              if i < |old(requests)| then
                taken != null && taken == old(nodes)[i] && taken.packets == old(nodes[i].packets)
                && requests == Without(old(requests), i)
              else taken == null && requests == old(requests)
    {
      hide RequestNode.Valid, RequestNode.Value, RemoveAt, Find, Without, FreeEntry, Stored;
      var req, prev;
      ghost var i;
      req, prev, i := FindRequest(ip);
      taken := req;
      if req != null {
        Unlink(req, prev, i);
      }
      StoreEntry(Entry(true, ip, mac, now));
    }

    method StoreEntry(e: Entry)
      modifies entries
      ensures entries[..] == Stored(old(entries[..]), e)
    {
      var k := 0;
      while k < entries.Length && entries[k].valid
        invariant k <= entries.Length && forall j :: 0 <= j < k ==> entries[..][j].valid
      {
        k := k + 1;
      }
      assert k == FreeEntry(entries[..]);
      if k != entries.Length {
        entries[k] := e;
      }
    }

    /** A reply teaches the address and sends every frame waiting for it, newest first, to the
        reply's hardware address. */
    method HandleReply(ip: Ip, mac: Mac, now: int)
      returns (ghost seen: seq<Happening>, sent: seq<(Mac, Frame)>)
      requires Valid()
      modifies Repr, entries
      ensures Valid() && Repr == old(Repr)
      ensures (Value(), seen) == Answered(old(Value()), ip, mac, now)
      ensures match Pending(old(requests), ip)
              case None => sent == []
              case Some(r) =>
                |sent| == |r.packets| && forall i :: 0 <= i < |sent| ==> sent[i] == (mac, r.packets[i])
    {
      ghost var c, k := Value(), Find(requests, ip);
      assert k < |nodes| ==> nodes[k].Valid() && FramesOf(nodes[k].packets) == requests[k].packets;
      var taken := Insert(ip, mac, now);
      seen, sent := [Learned(ip, mac, now)], [];
      if taken != null {
        sent := SendAll(taken.packets, mac);
        seen := [Learned(ip, mac, now), Flushed(ip, mac, c.requests[k].packets)];
      }
      assert Value() == Answered(c, ip, mac, now).0;
    }

    // Send each frame of a list to the hardware address.
    method SendAll(first: FrameNode?, mac: Mac) returns (sent: seq<(Mac, Frame)>)
      requires first != null ==> first.Valid()
      ensures |sent| == |FramesOf(first)|
      ensures forall i :: 0 <= i < |sent| ==> sent[i] == (mac, FramesOf(first)[i])
    {
      sent := [];
      var cur := first;
      while cur != null
        invariant cur != null ==> cur.Valid()
        invariant |sent| <= |FramesOf(first)| && FramesOf(cur) == FramesOf(first)[|sent|..]
        invariant forall i :: 0 <= i < |sent| ==> sent[i] == (mac, FramesOf(first)[i])
        decreases |FramesOf(cur)|
      {
        sent := sent + [(mac, cur.frame)];
        cur := cur.next;
      }
    }

    method ExpireEntries(now: int)
      modifies entries
      ensures entries[..] == AgedAll(old(entries[..]), now)
    {
      for i := 0 to entries.Length
        invariant forall j :: 0 <= j < i ==> entries[j] == Aged(old(entries[j]), now)
        invariant forall j :: i <= j < entries.Length ==> entries[j] == old(entries[j])
      {
        if entries[i].valid && now - entries[i].added > CACHE_SECONDS {
          entries[i] := entries[i].(valid := false);
        }
      }
    }

    /** Handle every request in turn; the next one is looked up before one may be freed. */
    method SweepRequests(now: int) returns (ghost seen: seq<Happening>)
      requires Valid() && AllCanAsk(requests)
      modifies Repr
      ensures Valid() && Repr == old(Repr)
      ensures (requests, seen) == SweptFrom(old(requests), 0, now)
    {
      hide SweptFrom, Handled, AllCanAsk, RequestNode.Valid, RequestNode.Value;
      seen := [];
      var req := head;
      ghost var i := 0;
      assert [] + SweptFrom(requests, 0, now).1 == SweptFrom(requests, 0, now).1;
      while req != null
        invariant Valid() && Repr == old(Repr)
        invariant i <= |requests| && AllCanAsk(requests) && req == At(i)
        invariant SweptFrom(old(requests), 0, now)
               == (SweptFrom(requests, i, now).0, seen + SweptFrom(requests, i, now).1)
        decreases |requests| - i
      {
        ghost var size := |requests|;
        HandledCanAsk(requests, i, now);
        SweepStep(requests, i, now, seen);
        var next := req.next;
        var asked;
        ghost var more;
        asked, more := HandleRequest(req, now, i);
        seen := seen + more;
        if |requests| == size {
          i := i + 1;
        }
        req := next;
      }
      SweepEnd(requests, now, seen);
    }

    method Sweep(now: int) returns (ghost seen: seq<Happening>)
      requires Valid() && AllCanAsk(requests)
      modifies Repr, entries
      ensures Valid() && entries[..] == AgedAll(old(entries[..]), now)
      ensures (requests, seen) == SweptFrom(old(requests), 0, now)
    {
      ExpireEntries(now);
      seen := SweepRequests(now);
    }
  }

  lemma SweepEnd(requests: seq<Request>, now: int, seen: seq<Happening>)
    requires AllCanAsk(requests)
    ensures (requests, seen)
         == (SweptFrom(requests, |requests|, now).0, seen + SweptFrom(requests, |requests|, now).1)
  {
    assert seen + [] == seen;
  }

  lemma SweepStep(requests: seq<Request>, i: nat, now: int, seen: seq<Happening>)
    requires AllCanAsk(requests) && i < |requests| && AllCanAsk(Handled(requests, i, now).0)
    requires |requests| - 1 <= |Handled(requests, i, now).0| <= |requests|
    ensures var (next, more) := Handled(requests, i, now);
            var k := if |next| == |requests| then i + 1 else i;
            (SweptFrom(requests, i, now).0, seen + SweptFrom(requests, i, now).1)
            == (SweptFrom(next, k, now).0, seen + more + SweptFrom(next, k, now).1)
  {
    var (next, more) := Handled(requests, i, now);
    var rest := SweptFrom(next, if |next| == |requests| then i + 1 else i, now).1;
    assert seen + (more + rest) == seen + more + rest;
  }

  lemma HandledCanAsk(requests: seq<Request>, i: nat, now: int)
    requires AllCanAsk(requests) && i < |requests|
    ensures CanAsk(requests[i]) && AllCanAsk(Handled(requests, i, now).0)
    ensures |requests| - 1 <= |Handled(requests, i, now).0| <= |requests|
  {
    var rest := Without(requests, i);
    assert forall k :: 0 <= k < |rest| ==> rest[k] == requests[if k < i then k else k + 1];
  }
}
