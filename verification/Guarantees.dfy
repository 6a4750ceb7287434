/** What holds in every reachable state, in every run and whatever the network does. */
module Guarantees {
  import opened Basics
  import opened Segments
  import opened Protocol
  import opened Streams
  import opened Receiver
  import opened SendSide
  import opened Connection
  import opened Runs
  import opened Recovery

  // Everything passed to the application: what it has read and what waits in its queue.
  function DeliveredTo(n: Node): seq<byte> { n.read + Flat(n.ep.appOut) }

  /** End-to-end safety: what an end has passed to its application is a prefix of what the
      application at the other end wrote; so is what the application has actually read. */
  lemma PrefixSafety(s: System, x: Side)
    requires Reachable(s)
    ensures DeliveredTo(s.End(x)) <= s.End(x.Peer()).written
    ensures s.End(x).read <= s.End(x.Peer()).written
  {
    InvReachable(s);
    var n, st := s.End(x), StreamOf(s.End(x.Peer()));
    assert Receiving(n.ep, st, n.read);
    assert n.read == DeliveredTo(n)[..|n.read|];
  }

  // An end whose own FIN has been acknowledged knows that its peer has everything.
  lemma FinAckedMeansDelivered(n: Node, peer: Node)
    requires EndOk(n, StreamOf(peer)) && EndOk(peer, StreamOf(n)) && n.ep.FinAcked()
    requires n.ep.sendBase <= peer.ep.recvNext
    ensures peer.ep.finReceived && DeliveredTo(peer) == n.written && n.closed
  {
    assert Flat(n.ep.appIn) == [];
    assert StreamOf(n).bytes == n.written;
  }

  lemma FinReceivedMeansDelivered(n: Node, peer: Node)
    requires EndOk(n, StreamOf(peer)) && EndOk(peer, StreamOf(n)) && n.ep.finReceived
    ensures DeliveredTo(n) == peer.written && peer.closed
  {
    assert Flat(peer.ep.appIn) == [];
    assert StreamOf(peer).bytes == peer.written;
  }

  /** Agreement on an orderly close: an end that is CLOSED other than by the retransmission abort
      has been given everything its peer's application ever wrote, and everything its own
      application wrote has been given to the peer's. Both applications have closed. */
  lemma OrderlyClose(s: System, x: Side)
    requires Reachable(s) && s.End(x).ep.state == Closed && !s.End(x).aborted
    ensures DeliveredTo(s.End(x)) == s.End(x.Peer()).written
    ensures DeliveredTo(s.End(x.Peer())) == s.End(x).written
    ensures s.End(x).closed && s.End(x.Peer()).closed
  {
    InvReachable(s);
    var n, peer := s.End(x), s.End(x.Peer());
    StateMeaning(n);
    FinAckedMeansDelivered(n, peer);
    FinReceivedMeansDelivered(n, peer);
  }

  /** Window order across the network: send_base <= peer's receive_next <= next_seq_num <=
      send_base + 3072, and no acknowledgement anywhere exceeds its sender's receive_next. */
  lemma WindowOrder(s: System, x: Side)
    requires Reachable(s)
    ensures s.End(x).ep.sendBase <= s.End(x.Peer()).ep.recvNext
    ensures s.End(x.Peer()).ep.recvNext <= s.End(x).ep.nextSeq <= s.End(x).ep.sendBase + 3072
    ensures forall q :: q in s.From(x.Peer()) && q.isAck ==> q.ack <= s.End(x.Peer()).ep.recvNext
  {
    InvReachable(s);
    var peer := s.End(x.Peer());
    assert Receiving(peer.ep, StreamOf(s.End(x)), peer.read);
    forall q | q in s.From(x.Peer()) && q.isAck ensures q.ack <= peer.ep.recvNext {
      assert PacketOk(peer, q);
    }
  }

  // The segment's data is what bytes, numbered from base, has at its place.
  ghost predicate Spells(g: Seg, base: nat, bytes: seq<byte>) {
    && base <= g.start && g.start - base + |g.data| <= |bytes|
    && g.data == bytes[g.start - base..g.start - base + |g.data|]
  }

  lemma SpellsMore(g: Seg, base: nat, bytes: seq<byte>, more: seq<byte>)
    requires Spells(g, base, bytes) && bytes <= more
    ensures Spells(g, base, more)
  {
    assert bytes == more[..|bytes|];
  }

  lemma SpellsLess(g: Seg, base: nat, bytes: seq<byte>, less: seq<byte>)
    requires Spells(g, base, bytes) && less <= bytes && g.start + |g.data| <= base + |less|
    ensures Spells(g, base, less)
  {
    assert less == bytes[..|less|];
  }

  // A non-empty segment agreeing with a stream is a slice of it, and a FIN can only be its end.
  lemma AgreesSpells(g: Seg, st: Stream)
    requires Agrees(Items(g), st) && g.Len() > 0
    ensures Spells(g, st.base, st.bytes) && g.End() <= st.Top()
    ensures g.fin ==> st.ended && g.End() == st.Top()
  {
    assert g.start in Items(g) && g.End() - 1 in Items(g);
    forall k | 0 <= k < |g.data|
      ensures g.start + k - st.base < |st.bytes| && g.data[k] == st.bytes[g.start + k - st.base]
    {
      assert g.start + k in Items(g);
      assert ItemAt(g, g.start + k) == Octet(g.data[k]);
    }
    if g.fin { assert ItemAt(g, g.End() - 1) == FinMark; }
  }

  lemma BufferedSpells(n: Node, k: nat)
    requires SendOk(n) && k < |n.ep.sendBuf|
    ensures var b := n.ep.sendBuf[k];
            && Spells(b, n.base, StreamOf(n).bytes) && b.End() <= n.ep.nextSeq && b.Len() > 0
            && (b.fin ==> n.ep.FinIssued() && b.End() == n.ep.nextSeq)
  {
    TiledLen(n.ep.sendBuf, n.ep.sendBase, n.ep.nextSeq, k);
    AgreesSpells(n.ep.sendBuf[k], StreamOf(n));
  }

  lemma ReceivedSpells(n: Node, st: Stream, g: Seg)
    requires Receiving(n.ep, st, n.read) && Spells(g, st.base, st.bytes) && g.End() <= n.ep.recvNext
    requires g.fin ==> st.ended && g.End() == st.Top()
    ensures Spells(g, st.base, DeliveredTo(n))
    ensures g.fin ==> n.ep.finReceived
  {
    SpellsLess(g, st.base, st.bytes, DeliveredTo(n));
  }

  /** Hence dequeueing discards no undelivered byte: every segment that an acknowledgement in
      flight would drop has been delivered at the peer, byte for byte, a FIN included. */
  lemma DequeueIsSafe(s: System, x: Side, q: Packet, k: nat)
    requires Reachable(s) && q in s.From(x.Peer()) && q.isAck
    requires k < |s.End(x).ep.sendBuf| && s.End(x).ep.sendBuf[k].End() <= q.ack
    ensures var b, peer := s.End(x).ep.sendBuf[k], s.End(x.Peer());
            && Spells(b, s.End(x).base, DeliveredTo(peer))
            && (b.fin ==> peer.ep.finReceived)
  {
    InvReachable(s);
    WindowOrder(s, x);
    BufferedSpells(s.End(x), k);
    ReceivedSpells(s.End(x.Peer()), StreamOf(s.End(x)), s.End(x).ep.sendBuf[k]);
  }

  lemma {:induction false} TilesContiguous(buf: seq<Seg>, lo: nat, hi: nat)
    requires Tiles(buf, lo, hi) && buf != []
    ensures lo < hi && buf[|buf| - 1].End() == hi
    ensures forall i :: 0 <= i < |buf| - 1 ==> buf[i].End() == buf[i + 1].start
  {
    if |buf| > 1 {
      TilesContiguous(buf[1..], buf[0].End(), hi);
      forall i | 0 <= i < |buf| - 1 ensures buf[i].End() == buf[i + 1].start {
        if i > 0 { assert buf[i] == buf[1..][i - 1] && buf[i + 1] == buf[1..][i]; }
      }
    }
  }

  lemma TiledSpells(n: Node)
    requires SendOk(n)
    ensures var e := n.ep;
            && (e.sendBuf == [] <==> e.sendBase == e.nextSeq)
            && (e.sendBuf != [] ==> e.sendBuf[0].start <= e.sendBase < e.sendBuf[0].End()
                                    && e.sendBuf[|e.sendBuf| - 1].End() == e.nextSeq)
            && (forall i :: 0 <= i < |e.sendBuf| - 1 ==> e.sendBuf[i].End() == e.sendBuf[i + 1].start)
  {
    if n.ep.sendBuf != [] {
      TilesContiguous(n.ep.sendBuf, n.ep.sendBuf[0].start, n.ep.nextSeq);
      TilesFirst(n.ep.sendBuf, n.ep.sendBuf[0].start, n.ep.nextSeq, |n.ep.sendBuf| - 1);
    }
  }

  /** Send-buffer tiling: the buffered segments are contiguous, spell the matching slice of the
      application's stream, end at next_seq_num, the first contains send_base, and there are none
      exactly when nothing is in flight. */
  lemma SendBufferTiling(s: System, x: Side)
    requires Reachable(s)
    ensures var n, e := s.End(x), s.End(x).ep;
            && (e.sendBuf == [] <==> e.sendBase == e.nextSeq)
            && (e.sendBuf != [] ==> e.sendBuf[0].start <= e.sendBase < e.sendBuf[0].End()
                                    && e.sendBuf[|e.sendBuf| - 1].End() == e.nextSeq)
            && (forall i :: 0 <= i < |e.sendBuf| - 1 ==> e.sendBuf[i].End() == e.sendBuf[i + 1].start)
            && (forall i :: 0 <= i < |e.sendBuf| ==> Spells(e.sendBuf[i], n.base, n.written))
  {
    InvReachable(s);
    TiledSpells(s.End(x));
    AllSpell(s.End(x));
  }

  lemma AllSpell(n: Node)
    requires SendOk(n)
    ensures forall i :: 0 <= i < |n.ep.sendBuf| ==> Spells(n.ep.sendBuf[i], n.base, n.written)
  {
    forall i | 0 <= i < |n.ep.sendBuf| ensures Spells(n.ep.sendBuf[i], n.base, n.written) {
      BufferedSpells(n, i);
      SpellsMore(n.ep.sendBuf[i], n.base, StreamOf(n).bytes, n.written);
    }
  }

  /** FIN placement: every FIN a side ever sends has the same number, one past the last byte its
      application wrote; nothing any of its packets carries lies beyond it or off the stream. */
  lemma FinPlacement(s: System, x: Side, p: Packet)
    requires Reachable(s) && p in s.From(x) && (|p.data| > 0 || p.fin)
    ensures Spells(p.AsSeg(), s.End(x).base, s.End(x).written)
    ensures p.fin ==> s.End(x).closed && p.start + |p.data| == s.End(x).base + |s.End(x).written|
  {
    InvReachable(s);
    var n := s.End(x);
    assert PacketOk(n, p);
    AgreesSpells(p.AsSeg(), StreamOf(n));
    SpellsMore(p.AsSeg(), n.base, StreamOf(n).bytes, n.written);
    if p.fin { assert Flat(n.ep.appIn) == []; }
  }

  lemma SendsQueuedFin(n: Node, ack: nat)
    requires SendOk(n) && n.ep.closeQueued && n.ep.sendBase < ack <= n.ep.nextSeq
    ensures n.ep.InWindow() && ack + WINDOW - n.ep.nextSeq > 0
    ensures HandleAck(n.ep, ack).sent == [Packet(n.ep.nextSeq, n.ep.recvNext, true, [], true)]
    ensures n.ep.nextSeq == n.base + |n.written| && HandleAck(n.ep, ack).events == []
  {
    hide Dequeue, Transition, Tiled;
    RoomForQueuedFin(n.ep, ack);
    AckKeeps(n, ack);
    assert Flat(n.ep.appIn) == [];
  }

  /** A FIN that had to be queued always finds room: the assertion in the acknowledgement handler
      never fails; and it is sent with the first acknowledgement that moves the window. */
  lemma QueuedFinFindsRoom(s: System, x: Side, ack: nat)
    requires Reachable(s) && s.End(x).ep.closeQueued
    requires s.End(x).ep.sendBase < ack <= s.End(x).ep.nextSeq
    ensures ack + WINDOW - s.End(x).ep.nextSeq > 0
    ensures s.End(x).ep.InWindow()
    ensures var e := s.End(x).ep;
            && HandleAck(e, ack).sent == [Packet(e.nextSeq, e.recvNext, true, [], true)]
            && e.nextSeq == s.End(x).base + |s.End(x).written|
            && HandleAck(e, ack).events == []
  {
    hide HandleAck, Endpoint.InWindow;
    InvReachable(s);
    SendsQueuedFin(s.End(x), ack);
  }

  /** The state-machine events of every run: each happens at most once, the own FIN is reported
      acknowledged only after it was sent, and the state is determined by the flags, up to the order
      of the two FINs, unless the connection was aborted. */
  lemma EventsOfEveryRun(s: System, x: Side)
    requires Reachable(s)
    ensures var n := s.End(x);
            && (forall i, j :: 0 <= i < j < |n.events| ==> n.events[i] != n.events[j])
            && (forall i :: 0 <= i < |n.events| && n.events[i] == RecvAck ==> SendFin in n.events[..i])
            && (SendFin in n.events <==> n.ep.finSent)
            && (RecvFin in n.events <==> n.ep.finReceived)
            && (RecvAck in n.events <==> n.ep.finSent && !n.ep.closeQueued && n.ep.sendBase == n.ep.nextSeq)
            && n.ep.state == (if n.aborted then Closed
                              else StateOf(n.ep.finSent, n.ep.FinAcked(), n.ep.finReceived, PeerFirst(n.events)))
  {
    InvReachable(s);
    if !s.End(x).aborted { StateMeaning(s.End(x)); }
  }

  // -------------------------------------------------------------------------
  // 32-bit sequence numbers
  // -------------------------------------------------------------------------

  // The hypothesis under which plain comparison of 32-bit numbers is meant to work.
  ghost predicate FitsIn32(n: Node) { n.base + |n.written| + 1 + WINDOW < TWO32 }

  lemma IssuedBelow(n: Node, g: Seg)
    requires FitsIn32(n) && Agrees(Items(g), StreamOf(n)) && g.Len() > 0
    ensures g.End() < TWO32
  {
    AgreesSpells(g, StreamOf(n));
  }

  lemma PacketBelow(n: Node, p: Packet)
    requires FitsIn32(n) && SendOk(n) && PacketOk(n, p) && n.ep.recvNext < TWO32
    ensures PacketRoom(p)
  {
    if p.AsSeg().Len() > 0 { IssuedBelow(n, p.AsSeg()); }
  }

  lemma SendListBelow(n: Node)
    requires SendOk(n) && FitsIn32(n)
    ensures forall i :: 0 <= i < |n.ep.sendBuf| ==> n.ep.sendBuf[i].End() < TWO32
  {
    forall i | 0 <= i < |n.ep.sendBuf| ensures n.ep.sendBuf[i].End() < TWO32 {
      BufferedSpells(n, i);
    }
  }

  lemma RecvListBelow(e: Endpoint, st: Stream)
    requires Ordered(e.recvBuf) && Agrees(Held(e.recvBuf), st) && st.Top() < TWO32
    ensures forall i :: 0 <= i < |e.recvBuf| ==> e.recvBuf[i].End() < TWO32
  {
    forall i | 0 <= i < |e.recvBuf| ensures e.recvBuf[i].End() < TWO32 {
      assert e.recvBuf[i].Len() > 0;
      HeldIff(e.recvBuf, e.recvBuf[i].End() - 1);
    }
  }

  /** No number a handler computes wraps around, as long as initial number, stream and window
      together stay below 2^32: every reachable state leaves the room that the 32-bit handlers
      require, and so does every packet ever sent. */
  lemma NoWrapAround(s: System, x: Side)
    requires Reachable(s) && FitsIn32(s.a) && FitsIn32(s.b)
    ensures Room(s.End(x).ep)
    ensures forall p :: p in s.From(x) ==> PacketRoom(p)
  {
    InvReachable(s);
    WindowOrder(s, x);
    WindowOrder(s, x.Peer());
    var n, peer := s.End(x), s.End(x.Peer());
    SendListBelow(n);
    RecvListBelow(n.ep, StreamOf(peer));
    forall p | p in s.From(x) ensures PacketRoom(p) {
      PacketBelow(n, p);
    }
  }
}
