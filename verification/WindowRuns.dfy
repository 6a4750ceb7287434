/** Runs that fill the send window: one leaves a FIN waiting, one ends with a read of zero bytes. */
module WindowRuns {
  import opened Basics
  import opened Segments
  import opened Protocol
  import opened SendSide
  import opened Runs
  import opened Recovery
  import opened WholePath
  import opened CloseOrder

  // How far m passes get when nothing is acknowledged.
  function Sent(data: seq<byte>, m: nat): (k: nat)
    ensures k <= |data|
  {
    Min(MSS * m, |data|)
  }

  // The sender has written data and sent the first k bytes of it.
  predicate Sending(n: Node, data: seq<byte>, k: nat) {
    && k <= |data| <= WINDOW
    && n.ep == NewEnd(0, 0).ep.(nextSeq := k, sendBuf := n.ep.sendBuf, appIn := if k < |data| then [data[k..]] else [])
    && n.written == data && !n.closed
  }

  // The receiver has been given the first k bytes of data, in chunks of at least one.
  predicate Taking(n: Node, data: seq<byte>, k: nat) {
    && k <= |data|
    && n.ep == NewEnd(0, 0).ep.(recvNext := k, appOut := n.ep.appOut)
    && Flat(n.ep.appOut) == data[..k] && (forall i :: 0 <= i < |n.ep.appOut| ==> n.ep.appOut[i] != [])
    && !n.closed && n.read == []
  }

  lemma PassSends(n: Node, data: seq<byte>, k: nat)
    requires Sending(n, data, k) && k < |data|
    ensures Can(n, {}, Pass(None))
    ensures var k' := Min(k + MSS, |data|);
            && Sending(Do(n, {}, Pass(None)), data, k')
            && Sends(n, {}, Pass(None)) == [Packet(k, 0, true, data[k..k'], false)]
  {
    var k' := Min(k + MSS, |data|);
    var len := if n.ep.WinRemain() < MSS then n.ep.WinRemain() else MSS;
    var t := TakeChunk([data[k..]], len);
    assert t.chunk == data[k..k'] && t.rest == if k' < |data| then [data[k'..]] else [];
    var r1 := AppDataStage(n.ep);
    assert r1 == HandleAppData(n.ep);
    assert r1.sent + [] + [] == r1.sent;
  }

  lemma SegmentTaken(e: Endpoint, k: nat, chunk: seq<byte>)
    requires e.recvBuf == [] && e.recvNext == k && !e.finReceived && 0 < |chunk| <= MSS
    ensures HandleIncoming(e, Seg(k, chunk, false)).ep == e.(recvNext := k + |chunk|, appOut := e.appOut + [chunk])
    ensures HandleIncoming(e, Seg(k, chunk, false)).sent == [Packet(e.nextSeq, k + |chunk|, true, [], false)]
  {
    var g := Seg(k, chunk, false);
    assert Clamp(g, k) == g;
    assert Piece(g, k, g.End()).data == chunk;
    assert Insert([], g) == [g];
    assert Flush([g], k) == Flushed([], k + |chunk|, [chunk], false);
  }

  lemma PassTakes(n: Node, data: seq<byte>, k: nat, k': nat, arriving: set<Packet>)
    requires Taking(n, data, k) && k < k' <= |data| && k' <= k + MSS
    requires Packet(k, 0, true, data[k..k'], false) in arriving
    ensures var act := Pass(Some(Packet(k, 0, true, data[k..k'], false)));
            && Can(n, arriving, act)
            && Taking(Do(n, arriving, act), data, k')
            && Sends(n, arriving, act) == [Packet(0, k', true, [], false)]
  {
    var p := Packet(k, 0, true, data[k..k'], false);
    SegmentTaken(n.ep, k, data[k..k']);
    FlatSnoc(n.ep.appOut, data[k..k']);
    assert data[..k] + data[k..k'] == data[..k'];
    assert HandleAck(n.ep, 0) == Effect(n.ep, [], []);
    var r := HandleNetwork(n.ep, p);
    assert [] + r.sent + [] == r.sent;
  }

  ghost predicate Exchanged(s: System, data: seq<byte>, k: nat) {
    && Reachable(s) && Sending(s.a, data, k) && Taking(s.b, data, k)
    && (k > 0 ==> Packet(0, k, true, [], false) in s.fromB)
  }

  // One segment goes from A to B and is acknowledged; the acknowledgement stays on its way.
  lemma OneExchange(s: System, data: seq<byte>, k: nat) returns (t: System)
    requires Exchanged(s, data, k) && k < |data|
    ensures Exchanged(t, data, Min(k + MSS, |data|))
  {
    hide Reachable, Sending, Taking, Can, Do, Sends;
    var k' := Min(k + MSS, |data|);
    var p := Packet(k, 0, true, data[k..k'], false);
    PassSends(s.a, data, k);
    PassAnywhere(s.a, s.fromB);
    var out, into := Step(A, Pass(None)), Step(B, Pass(Some(p)));
    var s1 := Next(s, out);
    ReachNext(s, out);
    assert p in s1.fromA;
    PassTakes(s1.b, data, k, k', s1.fromA);
    t := Next(s1, into);
    ReachNext(s1, into);
    assert Packet(0, k', true, [], false) in t.fromB;
  }

  // A pass that serves no packet does not depend on what is on its way.
  lemma PassAnywhere(n: Node, arriving: set<Packet>)
    requires Can(n, {}, Pass(None))
    ensures Can(n, arriving, Pass(None)) && Do(n, arriving, Pass(None)) == Do(n, {}, Pass(None))
    ensures Sends(n, arriving, Pass(None)) == Sends(n, {}, Pass(None))
  {
  }

  lemma Written(data: seq<byte>) returns (s: System)
    requires 0 < |data| <= WINDOW
    ensures Exchanged(s, data, 0)
  {
    hide Reachable;
    NewReachable();
    var st := Step(A, Write(data));
    ReachNext(NewSystem(), st);
    s := Next(NewSystem(), st);
    assert data[0..] == data && [] + [data] == [data] && [] + data == data;
  }

  lemma Exchanges(data: seq<byte>, m: nat) returns (s: System)
    requires 0 < |data| <= WINDOW && (m > 0 ==> MSS * (m - 1) < |data|)
    ensures Exchanged(s, data, Sent(data, m))
  {
    hide Exchanged;
    if m == 0 {
      s := Written(data);
    } else {
      var s0 := Exchanges(data, m - 1);
      s := OneExchange(s0, data, Sent(data, m - 1));
    }
  }

  // -------------------------------------------------------------------------
  // A FIN that has to wait
  // -------------------------------------------------------------------------

  lemma CloseWaits(n: Node, data: seq<byte>)
    requires Sending(n, data, WINDOW) && |data| == WINDOW
    ensures Can(n, {}, Close)
    ensures var n1 := Do(n, {}, Close);
            && Can(n1, {}, Pass(None))
            && var e := Do(n1, {}, Pass(None)).ep;
               e.closeQueued && e.finSent && e.nextSeq == WINDOW && e.sendBase == 0
  {
    var e := n.ep.(closeRequested := true);
    assert AppDataStage(e) == Effect(n.ep, [], []);
    assert CloseStage(n.ep, true) == HandleAppClose(n.ep);
  }

  /** A reachable state with the window full, a FIN waiting, and an acknowledgement of everything in
      flight on its way: serving it does not empty the send buffer, which then holds the FIN. */
  lemma BufferNotEmptied() returns (s: System, q: Packet)
    ensures Reachable(s) && s.a.ep.closeQueued && s.a.ep.InWindow()
    ensures q in s.fromB && q.isAck && q.ack == s.a.ep.nextSeq
    ensures HandleAck(s.a.ep, q.ack).ep.sendBuf == [Seg(q.ack, [], true)]
  {
    hide Reachable, Sending, Taking, Can, Do, Sends, HandleAck;
    var data: seq<byte> := seq(WINDOW, _ => 0);
    var s0 := Exchanges(data, 6);
    CloseWaits(s0.a, data);
    CloseAnywhere(s0.a, s0.fromB);
    var s1 := Next(s0, Step(A, Close));
    ReachNext(s0, Step(A, Close));
    PassAnywhere(s1.a, s1.fromB);
    s := Next(s1, Step(A, Pass(None)));
    ReachNext(s1, Step(A, Pass(None)));
    q := Packet(0, WINDOW, true, [], false);
    assert q in s.fromB;
    AckReleases(s, A, q, WINDOW);
  }

  lemma CloseAnywhere(n: Node, arriving: set<Packet>)
    requires Can(n, {}, Close)
    ensures Can(n, arriving, Close) && Do(n, arriving, Close) == Do(n, {}, Close)
  {
  }

  // -------------------------------------------------------------------------
  // A read of zero bytes
  // -------------------------------------------------------------------------

  /** A reachable state with data waiting in which myread is called for zero bytes: it sets the
      end-of-file flag, and the data is read by no continuation. */
  lemma ZeroReadLosesData(data: seq<byte>) returns (s: System, t: System)
    requires 0 < |data| <= MSS
    ensures Reachable(s) && Enabled(s, Step(B, Read(0))) && t == Next(s, Step(B, Read(0)))
    ensures Flat(s.b.ep.appOut) == data && s.b.read == [] && !s.b.ep.eof
    ensures t.b.ep.eof && forall steps :: Possible(t, steps) ==> ReadOut(t, steps, B) == []
  {
    hide Reachable;
    s := Exchanges(data, 1);
    assert data[..|data|] == data;
    assert s.b.ep.appOut != [];
    t := Next(s, Step(B, Read(0)));
    forall steps | Possible(t, steps) ensures ReadOut(t, steps, B) == [] {
      EofIsFinal(t, steps, B);
    }
  }
}
