/** The send side of one connection end: which part of the application's stream has sequence
    numbers, how the buffered segments tile it, and how every handler keeps this. */
module SendSide {
  import opened Basics
  import opened Segments
  import opened Protocol
  import opened Streams

  // One end of a connection together with its history: the stream its application has written
  // (numbered from base), what the application has read, and the state-machine events so far.
  datatype Node = Node(ep: Endpoint, base: nat, written: seq<byte>, read: seq<byte>,
                       closed: bool, exited: bool, aborted: bool, events: seq<Event>)

  function After(n: Node, r: Effect): Node { n.(ep := r.ep, events := n.events + r.events) }

  // The stream of sequence numbers issued so far.
  function StreamOf(n: Node): Stream {
    Stream(n.base, n.written[..Max(0, |n.written| - |Flat(n.ep.appIn)|)], n.ep.FinIssued())
  }

  // -------------------------------------------------------------------------
  // Tiling
  // -------------------------------------------------------------------------

  ghost predicate Tiles(buf: seq<Seg>, lo: nat, hi: nat) {
    if buf == [] then lo == hi
    else buf[0].start == lo && buf[0].Len() > 0 && Tiles(buf[1..], buf[0].End(), hi)
  }

  // The buffered segments are contiguous and end at hi, the first one contains base,
  // and there are none exactly when base == hi.
  ghost predicate Tiled(buf: seq<Seg>, base: nat, hi: nat) {
    if buf == [] then base == hi
    else buf[0].start <= base < buf[0].End() && Tiles(buf, buf[0].start, hi)
  }

  ghost predicate AllCut(buf: seq<Seg>, st: Stream) {
    forall i :: 0 <= i < |buf| ==> Agrees(Items(buf[i]), st) && |buf[i].data| <= MSS
  }

  lemma {:induction false} TilesSnoc(buf: seq<Seg>, lo: nat, s: Seg)
    requires Tiles(buf, lo, s.start) && s.Len() > 0
    ensures Tiles(buf + [s], lo, s.End())
  {
    if buf == [] {
      assert buf + [s] == [s];
      assert [s][1..] == [];
    } else {
      TilesSnoc(buf[1..], buf[0].End(), s);
      assert (buf + [s])[1..] == buf[1..] + [s];
    }
  }

  lemma {:induction false} TilesBound(buf: seq<Seg>, lo: nat, hi: nat)
    requires Tiles(buf, lo, hi)
    ensures lo <= hi && (buf != [] ==> lo < hi)
  {
    if buf != [] { TilesBound(buf[1..], buf[0].End(), hi); }
  }

  lemma TiledSnoc(buf: seq<Seg>, base: nat, s: Seg)
    requires Tiled(buf, base, s.start) && s.Len() > 0
    ensures Tiled(buf + [s], base, s.End())
  {
    if buf == [] {
      TilesSnoc(buf, s.start, s);
    } else {
      TilesSnoc(buf, buf[0].start, s);
    }
  }

  lemma {:induction false} TilesDequeue(buf: seq<Seg>, lo: nat, hi: nat, ack: nat)
    requires Tiles(buf, lo, hi) && lo <= ack <= hi
    ensures Tiled(Dequeue(buf, ack), ack, hi)
    ensures AtEnd(buf, Dequeue(buf, ack))
  {
    if buf == [] {
    } else if buf[0].End() <= ack {
      TilesDequeue(buf[1..], buf[0].End(), hi, ack);
      var k :| 0 <= k <= |buf[1..]| && Dequeue(buf, ack) == buf[1..][k..];
      assert Dequeue(buf, ack) == buf[k + 1..];
    } else {
      assert buf == buf[0..];
    }
  }

  // rest is a suffix of buf.
  ghost predicate AtEnd(buf: seq<Seg>, rest: seq<Seg>) { exists k :: 0 <= k <= |buf| && rest == buf[k..] }

  /** A cumulative acknowledgement drops whole segments only, and leaves a buffer whose first
      segment contains the new send base. */
  lemma DequeueTiled(buf: seq<Seg>, base: nat, hi: nat, ack: nat, st: Stream)
    requires Tiled(buf, base, hi) && base <= ack <= hi && AllCut(buf, st)
    ensures Tiled(Dequeue(buf, ack), ack, hi) && AllCut(Dequeue(buf, ack), st)
  {
    if buf != [] {
      TilesDequeue(buf, buf[0].start, hi, ack);
      var k :| 0 <= k <= |buf| && Dequeue(buf, ack) == buf[k..];
      forall i | 0 <= i < |buf[k..]| ensures Agrees(Items(buf[k..][i]), st) && |buf[k..][i].data| <= MSS {
        assert buf[k..][i] == buf[k + i];
      }
    }
  }

  lemma AllCutExtends(buf: seq<Seg>, s: Stream, t: Stream)
    requires AllCut(buf, s) && Extends(s, t)
    ensures AllCut(buf, t)
  {
    forall i | 0 <= i < |buf| ensures Agrees(Items(buf[i]), t) && |buf[i].data| <= MSS {
      AgreesExtends(Items(buf[i]), s, t);
    }
  }

  // -------------------------------------------------------------------------
  // Invariants of one end
  // -------------------------------------------------------------------------

  ghost predicate SendOk(n: Node) {
    var e, st := n.ep, StreamOf(n);
    && n.written == st.bytes + Flat(e.appIn)
    && e.nextSeq == st.Top()
    && n.base <= e.sendBase && e.InWindow()
    && Tiled(e.sendBuf, e.sendBase, e.nextSeq)
    && AllCut(e.sendBuf, st)
    && (e.finSent ==> n.closed && e.appIn == [] && !e.closeRequested)
    && (e.closeRequested ==> n.closed)
    && (e.closeQueued ==> e.finSent && e.nextSeq == e.sendBase + WINDOW)
    && e.retrans <= MAX_RETRANSMISSIONS
  }

  // A packet carries a piece of its sender's stream, and acknowledges no more than its sender has received.
  ghost predicate PacketOk(n: Node, p: Packet) {
    && Agrees(Items(p.AsSeg()), StreamOf(n))
    && |p.data| <= MSS && p.start <= n.ep.nextSeq
    && (p.isAck ==> p.ack <= n.ep.recvNext)
  }

  ghost predicate PacketsOk(n: Node, ps: seq<Packet>) { forall p :: p in ps ==> PacketOk(n, p) }

  // Neither the issued stream nor the window ends ever move backwards.
  ghost predicate Grows(n: Node, n': Node) {
    && Extends(StreamOf(n), StreamOf(n'))
    && n.ep.sendBase <= n'.ep.sendBase
    && n.ep.recvNext <= n'.ep.recvNext
    && n.ep.nextSeq <= n'.ep.nextSeq
  }

  // Only fields of the send side, the connection state and the event log differ.
  ghost predicate SameReceiver(e: Endpoint, e': Endpoint) {
    e'.recvNext == e.recvNext && e'.recvBuf == e.recvBuf && e'.appOut == e.appOut
    && e'.finReceived == e.finReceived && e'.eof == e.eof && e'.done == e.done
  }

  lemma PacketOkGrows(n: Node, n': Node, p: Packet)
    requires PacketOk(n, p) && Grows(n, n')
    ensures PacketOk(n', p)
  {
    AgreesExtends(Items(p.AsSeg()), StreamOf(n), StreamOf(n'));
  }

  lemma PacketsOkGrows(n: Node, n': Node, ps: seq<Packet>)
    requires PacketsOk(n, ps) && Grows(n, n')
    ensures PacketsOk(n', ps)
  {
    forall p | p in ps ensures PacketOk(n', p) { PacketOkGrows(n, n', p); }
  }

  // A pure acknowledgement is in order whenever the send side is.
  lemma AckOfOk(n: Node)
    requires SendOk(n)
    ensures PacketOk(n, AckOf(n.ep))
  {
    assert Items(AckOf(n.ep).AsSeg()) == map[];
  }

  // -------------------------------------------------------------------------
  // The handlers
  // -------------------------------------------------------------------------

  lemma TakeChunkFlat(q: seq<seq<byte>>, max: nat)
    requires q != []
    ensures var t := TakeChunk(q, max);
            |t.chunk| <= max && Flat(q) == t.chunk + Flat(t.rest)
  {
    var t := TakeChunk(q, max);
    if |q[0]| > max {
      assert t.rest[1..] == q[1..];
      assert q[0] == q[0][..max] + q[0][max..];
    }
  }

  // The bytes just taken from the application extend the stream.
  lemma StreamTakes(n: Node, e': Endpoint, chunk: seq<byte>)
    requires n.written == StreamOf(n).bytes + Flat(n.ep.appIn) && !n.ep.finSent && !e'.finSent
    requires Flat(n.ep.appIn) == chunk + Flat(e'.appIn)
    ensures StreamOf(n.(ep := e')) == StreamOf(n).(bytes := StreamOf(n).bytes + chunk)
    ensures n.written == StreamOf(n.(ep := e')).bytes + Flat(e'.appIn)
  {
    assert n.written == (StreamOf(n).bytes + chunk) + Flat(e'.appIn);
  }

  lemma ChunkAgrees(st: Stream, chunk: seq<byte>)
    requires !st.ended
    ensures Agrees(Items(Seg(st.Top(), chunk, false)), st.(bytes := st.bytes + chunk))
  {
  }

  lemma FinAgrees(st: Stream)
    requires !st.ended
    ensures Agrees(Items(Seg(st.Top(), [], true)), st.(ended := true))
  {
  }

  lemma AllCutSnoc(buf: seq<Seg>, s: Seg, st: Stream)
    requires AllCut(buf, st) && Agrees(Items(s), st) && |s.data| <= MSS
    ensures AllCut(buf + [s], st)
  {
  }

  // Sending and buffering one more segment at the end of the sequence space.
  lemma SegmentSent(n: Node, e': Endpoint, s: Seg)
    requires SendOk(n) && SameReceiver(n.ep, e')
    requires s.start == n.ep.nextSeq && s.Len() > 0 && |s.data| <= MSS
    requires e'.sendBuf == n.ep.sendBuf + [s] && e'.nextSeq == s.End() && e'.sendBase == n.ep.sendBase
    requires Extends(StreamOf(n), StreamOf(n.(ep := e')))
    requires Agrees(Items(s), StreamOf(n.(ep := e')))
    ensures Tiled(e'.sendBuf, e'.sendBase, e'.nextSeq)
    ensures AllCut(e'.sendBuf, StreamOf(n.(ep := e')))
    ensures Grows(n, n.(ep := e'))
    ensures PacketOk(n.(ep := e'), Packet(s.start, n.ep.recvNext, true, s.data, s.fin))
  {
    var st' := StreamOf(n.(ep := e'));
    TiledSnoc(n.ep.sendBuf, n.ep.sendBase, s);
    AllCutExtends(n.ep.sendBuf, StreamOf(n), st');
    AllCutSnoc(n.ep.sendBuf, s, st');
    assert Packet(s.start, n.ep.recvNext, true, s.data, s.fin).AsSeg() == s;
  }

  // What every send-side handler promises about a node n and its effect r.
  ghost predicate Keeps(n: Node, r: Effect) {
    var n' := n.(ep := r.ep);
    SendOk(n') && Grows(n, n') && PacketsOk(n', r.sent) && SameReceiver(n.ep, r.ep)
  }

  lemma DataSent(n: Node, t: Taken)
    requires SendOk(n) && !n.ep.finSent && t.chunk != [] && |t.chunk| <= MSS && |t.chunk| <= n.ep.WinRemain()
    requires Flat(n.ep.appIn) == t.chunk + Flat(t.rest)
    ensures Keeps(n, Effect(n.ep.(appIn := t.rest,
                                  sendBuf := n.ep.sendBuf + [Seg(n.ep.nextSeq, t.chunk, false)],
                                  nextSeq := n.ep.nextSeq + |t.chunk|),
                            [Packet(n.ep.nextSeq, n.ep.recvNext, true, t.chunk, false)], []))
  {
    var s := Seg(n.ep.nextSeq, t.chunk, false);
    var e' := n.ep.(appIn := t.rest, sendBuf := n.ep.sendBuf + [s], nextSeq := n.ep.nextSeq + |t.chunk|);
    StreamTakes(n, e', t.chunk);
    ChunkAgrees(StreamOf(n), t.chunk);
    SegmentSent(n, e', s);
  }

  lemma NothingDone(n: Node)
    requires SendOk(n)
    ensures Keeps(n, Effect(n.ep, [], []))
  {
  }

  lemma EmptyChunkDropped(n: Node, t: Taken)
    requires SendOk(n) && !n.ep.finSent && t.chunk == []
    requires Flat(n.ep.appIn) == t.chunk + Flat(t.rest)
    ensures Keeps(n, Effect(n.ep.(appIn := t.rest), [], []))
  {
    assert StreamOf(n.(ep := n.ep.(appIn := t.rest))) == StreamOf(n);
  }

  lemma AppDataKeeps(n: Node)
    requires SendOk(n) && n.ep.appIn != []
    ensures Keeps(n, HandleAppData(n.ep))
  {
    var e := n.ep;
    var len := if e.WinRemain() < MSS then e.WinRemain() else MSS;
    if e.finSent || len == 0 {
      NothingDone(n);
    } else {
      var t := TakeChunk(e.appIn, len);
      TakeChunkFlat(e.appIn, len);
      if t.chunk == [] {
        EmptyChunkDropped(n, t);
      } else {
        DataSent(n, t);
      }
    }
  }

  // Issuing the FIN, immediately or after it was queued.
  lemma FinSent(n: Node, e': Endpoint)
    requires SendOk(n) && !n.ep.FinIssued() && n.closed && n.ep.appIn == [] && n.ep.WinRemain() > 0
    requires !n.ep.closeRequested
    requires e' == IssueFin(n.ep).ep.(finSent := true, closeQueued := false, state := e'.state)
    ensures Keeps(n, Effect(e', IssueFin(n.ep).sent, []))
    ensures e'.FinIssued() && !e'.FinAcked()
  {
    FinAgrees(StreamOf(n));
    assert StreamOf(n.(ep := e')) == StreamOf(n).(ended := true);
    SegmentSent(n, e', Seg(n.ep.nextSeq, [], true));
  }

  lemma AppCloseKeeps(n: Node)
    requires SendOk(n) && n.closed && n.ep.appIn == [] && !n.ep.closeRequested
    ensures Keeps(n, HandleAppClose(n.ep))
    ensures var r := HandleAppClose(n.ep);
            if n.ep.finSent then r == Effect(n.ep, [], [])
            else
              r.ep.finSent && !r.ep.FinAcked() && r.events == [SendFin]
              && r.ep.state == Transition(n.ep.state, SendFin)
  {
    var e, r := n.ep, HandleAppClose(n.ep);
    if !e.finSent {
      if e.WinRemain() > 0 {
        FinSent(n, r.ep);
      } else {
        assert StreamOf(n.(ep := r.ep)) == StreamOf(n);
      }
    }
  }

  // The assertion that a queued FIN finds room once an acknowledgement has moved the window.
  lemma RoomForQueuedFin(e: Endpoint, ack: nat)
    requires e.InWindow() && e.sendBase < ack <= e.nextSeq
    ensures ack + WINDOW - e.nextSeq > 0
  {
  }

  lemma Acknowledged(n: Node, ack: nat)
    requires SendOk(n) && n.ep.sendBase < ack <= n.ep.nextSeq && !n.ep.closeQueued
    ensures Keeps(n, Effect(n.ep.(sendBuf := Dequeue(n.ep.sendBuf, ack), sendBase := ack, retrans := 0), [], []))
  {
    var e' := n.ep.(sendBuf := Dequeue(n.ep.sendBuf, ack), sendBase := ack, retrans := 0);
    DequeueTiled(n.ep.sendBuf, n.ep.sendBase, n.ep.nextSeq, ack, StreamOf(n));
    assert StreamOf(n.(ep := e')) == StreamOf(n);
  }

  lemma AcknowledgedThenFin(n: Node, ack: nat)
    requires SendOk(n) && n.ep.sendBase < ack <= n.ep.nextSeq && n.ep.closeQueued
    ensures var e1 := n.ep.(sendBuf := Dequeue(n.ep.sendBuf, ack), sendBase := ack, retrans := 0);
            var i := IssueFin(e1);
            && Keeps(n, Effect(i.ep.(closeQueued := false), i.sent, []))
            && i.ep.(closeQueued := false).FinIssued() && i.ep.sendBase < i.ep.nextSeq
  {
    // Seen from the sequence space, a queued FIN is one not yet requested.
    var n0 := n.(ep := n.ep.(closeQueued := false, finSent := false));
    assert StreamOf(n0) == StreamOf(n);
    assert SendOk(n0);
    Acknowledged(n0, ack);
    var e1 := n.ep.(sendBuf := Dequeue(n.ep.sendBuf, ack), sendBase := ack, retrans := 0);
    var n1 := n0.(ep := n0.ep.(sendBuf := Dequeue(n.ep.sendBuf, ack), sendBase := ack, retrans := 0));
    var e' := IssueFin(e1).ep.(closeQueued := false);
    FinSent(n1, e');
    assert n1.(ep := e') == n.(ep := e');
    ExtendsTransitive(StreamOf(n), StreamOf(n1), StreamOf(n.(ep := e')));
  }

  // What an acknowledgement within the window comes to when no FIN is waiting.
  lemma AckWithoutFin(n: Node, ack: nat)
    requires SendOk(n) && n.ep.sendBase < ack <= n.ep.nextSeq && !n.ep.closeQueued
    ensures Keeps(n, HandleAck(n.ep, ack))
  {
    hide AllCut, Stream.Top, Tiled, Dequeue;
    Acknowledged(n, ack);
    var e := n.ep;
    var r := HandleAck(e, ack);
    var e1 := e.(sendBuf := Dequeue(e.sendBuf, ack), sendBase := ack, retrans := 0);
    assert r.ep == e1.(state := r.ep.state) && r.sent == [];
    assert StreamOf(n.(ep := r.ep)) == StreamOf(n.(ep := e1));
  }

  // The event it raises.
  lemma AckReports(e: Endpoint, ack: nat)
    requires e.InWindow() && (e.closeQueued ==> e.finSent)
    ensures var r := HandleAck(e, ack);
            && r.ep.finSent == e.finSent
            && r.events == (if r.ep.FinAcked() && !e.FinAcked() then [RecvAck] else [])
            && r.ep.state == (if r.events == [] then e.state else Transition(e.state, RecvAck))
            && (r.events != [] ==> e.FinIssued())
            && (e.FinAcked() ==> r.ep.FinAcked())
  {
    hide Dequeue, Transition;
    if e.sendBase < ack <= e.nextSeq && !e.closeQueued {
      assert HandleAck(e, ack).ep.closeQueued == e.closeQueued;
    }
  }

  /** An acknowledgement keeps the invariant; it reports the own FIN as acknowledged at most when
      it makes that true, and never while the FIN is only queued. */
  lemma AckKeeps(n: Node, ack: nat)
    requires SendOk(n)
    ensures Keeps(n, HandleAck(n.ep, ack))
    ensures var r := HandleAck(n.ep, ack);
            && r.ep.finSent == n.ep.finSent
            && r.events == (if r.ep.FinAcked() && !n.ep.FinAcked() then [RecvAck] else [])
            && r.ep.state == (if r.events == [] then n.ep.state else Transition(n.ep.state, RecvAck))
            && (r.events != [] ==> n.ep.FinIssued())
            && (n.ep.FinAcked() ==> r.ep.FinAcked())
  {
    hide AllCut, Stream.Top, Tiled, Dequeue, Transition, Keeps;
    AckReports(n.ep, ack);
    if ack <= n.ep.sendBase || ack > n.ep.nextSeq {
      NothingDone(n);
    } else if n.ep.closeQueued {
      AcknowledgedThenFin(n, ack);
    } else {
      AckWithoutFin(n, ack);
    }
  }

  lemma {:induction false} ResendSends(buf: seq<Seg>, recvNext: nat, p: Packet)
    ensures p in Resend(buf, recvNext) <==>
              exists i :: 0 <= i < |buf| && p == Packet(buf[i].start, recvNext, true, buf[i].data, buf[i].fin)
  {
    if buf != [] {
      ResendSends(buf[1..], recvNext, p);
      if i :| 0 <= i < |buf| && p == Packet(buf[i].start, recvNext, true, buf[i].data, buf[i].fin) {
        assert i == 0 || buf[1..][i - 1] == buf[i];
      }
      if i :| 0 <= i < |buf[1..]| && p == Packet(buf[1..][i].start, recvNext, true, buf[1..][i].data, buf[1..][i].fin) {
        assert buf[i + 1] == buf[1..][i];
      }
    }
  }

  lemma ResendOk(n: Node)
    requires SendOk(n)
    ensures PacketsOk(n, Resend(n.ep.sendBuf, n.ep.recvNext))
  {
    forall p | p in Resend(n.ep.sendBuf, n.ep.recvNext) ensures PacketOk(n, p) {
      ResendSends(n.ep.sendBuf, n.ep.recvNext, p);
      var buf := n.ep.sendBuf;
      var i :| 0 <= i < |buf| && p == Packet(buf[i].start, n.ep.recvNext, true, buf[i].data, buf[i].fin);
      assert p.AsSeg() == n.ep.sendBuf[i];
      assert n.ep.sendBuf[i].Len() > 0 by { TiledLen(n.ep.sendBuf, n.ep.sendBase, n.ep.nextSeq, i); }
      assert p.start in Items(n.ep.sendBuf[i]);
    }
  }

  lemma {:induction false} TilesLen(buf: seq<Seg>, lo: nat, hi: nat, i: nat)
    requires Tiles(buf, lo, hi) && i < |buf|
    ensures buf[i].Len() > 0
  {
    if i > 0 { TilesLen(buf[1..], buf[0].End(), hi, i - 1); }
  }

  lemma TiledLen(buf: seq<Seg>, base: nat, hi: nat, i: nat)
    requires Tiled(buf, base, hi) && i < |buf|
    ensures buf[i].Len() > 0
  {
    TilesLen(buf, buf[0].start, hi, i);
  }

  lemma TimeoutKeeps(n: Node)
    requires SendOk(n)
    ensures Keeps(n, HandleTimeout(n.ep))
    ensures var r := HandleTimeout(n.ep);
            && r.events == []
            && if n.ep.retrans == MAX_RETRANSMISSIONS then r.ep == n.ep.(state := Closed) && r.sent == []
               else r.ep == n.ep.(retrans := n.ep.retrans + 1)
  {
    var r := HandleTimeout(n.ep);
    var n' := n.(ep := r.ep);
    ResendOk(n);
    assert StreamOf(n') == StreamOf(n);
    PacketsOkGrows(n, n', Resend(n.ep.sendBuf, n.ep.recvNext));
  }
}
