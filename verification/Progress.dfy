/** What the control loop does when it can: it sends what the application has written, passes a close
    on, answers segments, takes acknowledgements, and resends until it gives up. */
module Progress {
  import opened Basics
  import opened Segments
  import opened Protocol
  import opened SendSide
  import opened Connection
  import opened Runs
  import opened Recovery

  // -------------------------------------------------------------------------
  // Sending
  // -------------------------------------------------------------------------

  // How much of a chunk one segment takes.
  function SegmentSize(e: Endpoint, chunk: seq<byte>): (k: nat)
    requires e.nextSeq < e.sendBase + 3072
    ensures k <= |chunk|
  {
    Min(536, Min(e.sendBase + 3072 - e.nextSeq, |chunk|))
  }

  /** What is taken from a queue of chunks is as much of the first chunk as asked for; the rest stays. */
  lemma ChunkTaken(q: seq<seq<byte>>, max: nat)
    requires q != []
    ensures var k := Min(max, |q[0]|);
            TakeChunk(q, max) == Taken(q[0][..k], (if k == |q[0]| then [] else [q[0][k..]]) + q[1..])
  {
    assert [] + q[1..] == q[1..] && q[0][..|q[0]|] == q[0];
  }

  lemma DataHandled(e: Endpoint)
    requires e.InWindow() && e.nextSeq < e.sendBase + 3072 && e.appIn != [] && !e.finSent
    ensures var chunk, k, r := e.appIn[0], SegmentSize(e, e.appIn[0]), HandleAppData(e);
            && r.sent == (if k == 0 then [] else [Packet(e.nextSeq, e.recvNext, true, chunk[..k], false)])
            && r.ep == e.(nextSeq := e.nextSeq + k,
                          sendBuf := if k == 0 then e.sendBuf else e.sendBuf + [Seg(e.nextSeq, chunk[..k], false)],
                          appIn := (if k == |chunk| then [] else [chunk[k..]]) + e.appIn[1..])
            && r.events == []
  {
    hide HandleAppData;
    var chunk, k := e.appIn[0], SegmentSize(e, e.appIn[0]);
    var rest := (if k == |chunk| then [] else [chunk[k..]]) + e.appIn[1..];
    ChunkTaken(e.appIn, Min(536, e.sendBase + 3072 - e.nextSeq));
    if k == 0 {
      EmptyHandled(e, rest);
    } else {
      DataSent(e, chunk[..k], rest);
    }
  }

  lemma EmptyHandled(e: Endpoint, rest: seq<seq<byte>>)
    requires e.InWindow() && e.nextSeq < e.sendBase + 3072 && e.appIn != [] && !e.finSent
    requires TakeChunk(e.appIn, Min(536, e.sendBase + 3072 - e.nextSeq)) == Taken([], rest)
    ensures HandleAppData(e) == Effect(e.(appIn := rest), [], [])
  {
    hide TakeChunk;
  }

  lemma DataSent(e: Endpoint, chunk: seq<byte>, rest: seq<seq<byte>>)
    requires e.InWindow() && e.nextSeq < e.sendBase + 3072 && e.appIn != [] && !e.finSent && chunk != []
    requires TakeChunk(e.appIn, Min(536, e.sendBase + 3072 - e.nextSeq)) == Taken(chunk, rest)
    ensures HandleAppData(e)
         == Effect(e.(appIn := rest, sendBuf := e.sendBuf + [Seg(e.nextSeq, chunk, false)],
                      nextSeq := e.nextSeq + |chunk|),
                   [Packet(e.nextSeq, e.recvNext, true, chunk, false)], [])
  {
    hide TakeChunk;
  }

  lemma DataPass(e: Endpoint)
    requires e.InWindow() && e.nextSeq < e.sendBase + 3072 && e.appIn != [] && !e.finSent
    ensures Ready(e, None)
    ensures var chunk, k, r := e.appIn[0], SegmentSize(e, e.appIn[0]), Wake(e, None);
            && r.sent == (if k == 0 then [] else [Packet(e.nextSeq, e.recvNext, true, chunk[..k], false)])
            && r.ep == e.(nextSeq := e.nextSeq + k,
                          sendBuf := if k == 0 then e.sendBuf else e.sendBuf + [Seg(e.nextSeq, chunk[..k], false)],
                          appIn := (if k == |chunk| then [] else [chunk[k..]]) + e.appIn[1..],
                          done := e.state == Closed)
  {
    hide HandleAppData;
    DataHandled(e);
    var r1 := AppDataStage(e);
    assert r1 == HandleAppData(e);
    assert r1.sent + [] + [] == r1.sent;
  }

  // An end whose control loop runs and that has data left has requested no FIN.
  lemma DataLeft(n: Node)
    requires SendOk(n) && n.ep.appIn != []
    ensures !n.ep.finSent && n.ep.InWindow()
  {
  }

  /** Whenever the control loop runs, the window is open and the application has data waiting, a pass
      with nothing from the network is possible. It sends the first chunk, or as much of it as a
      segment and the window hold, in one packet at next_seq_num, and keeps the rest in the queue;
      an empty chunk is dropped. */
  lemma DataIsSent(s: System, x: Side)
    requires Reachable(s) && !s.End(x).ep.done
    requires s.End(x).ep.appIn != [] && s.End(x).ep.nextSeq < s.End(x).ep.sendBase + 3072
    ensures Enabled(s, Step(x, Pass(None)))
    ensures var e, e' := s.End(x).ep, Next(s, Step(x, Pass(None))).End(x).ep;
            var chunk := e.appIn[0];
            var k := Min(536, Min(e.sendBase + 3072 - e.nextSeq, |chunk|));
            && Sends(s.End(x), s.From(x.Peer()), Pass(None))
               == (if k == 0 then [] else [Packet(e.nextSeq, e.recvNext, true, chunk[..k], false)])
            && e'.appIn == (if k == |chunk| then [] else [chunk[k..]]) + e.appIn[1..]
            && e'.nextSeq == e.nextSeq + k
            && e'.sendBuf == if k == 0 then e.sendBuf else e.sendBuf + [Seg(e.nextSeq, chunk[..k], false)]
  {
    hide Wake, Ready;
    InvReachable(s);
    DataLeft(s.End(x));
    DataPass(s.End(x).ep);
    NextEnd(s, Step(x, Pass(None)), x);
  }

  lemma ClosePass(e: Endpoint)
    requires e.InWindow() && e.closeRequested && e.appIn == [] && !e.finSent
    ensures Ready(e, None)
    ensures var r := Wake(e, None);
            && !r.ep.closeRequested && r.ep.finSent && r.events == [SendFin]
            && if e.nextSeq < e.sendBase + 3072 then
                 && r.sent == [Packet(e.nextSeq, e.recvNext, true, [], true)]
                 && r.ep.sendBuf == e.sendBuf + [Seg(e.nextSeq, [], true)] && r.ep.nextSeq == e.nextSeq + 1
               else r.sent == [] && r.ep.closeQueued && r.ep.nextSeq == e.nextSeq
  {
    hide Transition;
    var e0 := e.(closeRequested := false);
    var r3 := HandleAppClose(e0);
    assert AppDataStage(e) == Effect(e0, [], []) && CloseStage(e0, true) == r3;
    assert [] + [] + r3.sent == r3.sent && [] + [] + r3.events == r3.events;
  }

  /** Once all data has been taken, a close is passed on by the next pass, whatever the window: the FIN
      leaves at next_seq_num if the window is open, and waits for it to open otherwise. */
  lemma CloseIsServed(s: System, x: Side)
    requires Reachable(s) && !s.End(x).ep.done && s.End(x).ep.closeRequested && s.End(x).ep.appIn == []
    ensures Enabled(s, Step(x, Pass(None)))
    ensures var e, e' := s.End(x).ep, Next(s, Step(x, Pass(None))).End(x).ep;
            && e'.finSent && !e'.closeRequested
            && if e.nextSeq < e.sendBase + 3072 then
                 && Sends(s.End(x), s.From(x.Peer()), Pass(None)) == [Packet(e.nextSeq, e.recvNext, true, [], true)]
                 && e'.nextSeq == e.nextSeq + 1
               else Sends(s.End(x), s.From(x.Peer()), Pass(None)) == [] && e'.closeQueued
  {
    hide Wake, Ready;
    InvReachable(s);
    NoFinYet(s.End(x));
    ClosePass(s.End(x).ep);
    NextEnd(s, Step(x, Pass(None)), x);
  }

  lemma NoFinYet(n: Node)
    requires SendOk(n) && n.ep.closeRequested
    ensures !n.ep.finSent && n.ep.InWindow()
  {
  }

  // -------------------------------------------------------------------------
  // Acknowledgements taken and given
  // -------------------------------------------------------------------------

  // What an acknowledgement makes of the send base and the count of resends.
  lemma AckCounts(e: Endpoint, ack: nat)
    requires e.InWindow() && ack <= e.nextSeq
    ensures var e' := HandleAck(e, ack).ep;
            && e'.sendBase == Max(e.sendBase, ack)
            && e'.retrans == if ack > e.sendBase then 0 else e.retrans
  {
    hide Transition, Dequeue;
  }

  predicate SameCounts(e: Endpoint, e': Endpoint) {
    e'.sendBase == e.sendBase && e'.retrans == e.retrans && e.nextSeq <= e'.nextSeq
  }

  lemma DataCounts(e: Endpoint)
    requires e.InWindow()
    ensures SameCounts(e, AppDataStage(e).ep)
  {
    hide TakeChunk;
  }

  lemma CloseCounts(e: Endpoint, requested: bool)
    requires e.InWindow()
    ensures SameCounts(e, CloseStage(e, requested).ep)
  {
  }

  lemma NetworkCounts(e: Endpoint, p: Packet)
    requires e.InWindow() && (p.isAck ==> p.ack <= e.nextSeq)
    ensures var e' := HandleNetwork(e, p).ep;
            && e'.sendBase == (if p.isAck then Max(e.sendBase, p.ack) else e.sendBase)
            && e'.retrans == if p.isAck && p.ack > e.sendBase then 0 else e.retrans
  {
    hide HandleAck, HandleIncoming;
    if p.isAck { AckCounts(e, p.ack); }
    var r1 := if p.isAck then HandleAck(e, p.ack) else Effect(e, [], []);
    IncomingSameSender(r1.ep, p.AsSeg());
  }

  lemma PassCounts(e: Endpoint, net: Option<Packet>)
    requires e.InWindow() && (net.Some? && net.value.isAck ==> net.value.ack <= e.nextSeq)
    ensures var e', acks := Wake(e, net).ep, net.Some? && net.value.isAck;
            && e'.sendBase == (if acks then Max(e.sendBase, net.value.ack) else e.sendBase)
            && e'.retrans == if acks && net.value.ack > e.sendBase then 0 else e.retrans
  {
    hide AppDataStage, CloseStage, HandleNetwork;
    DataCounts(e);
    if net.Some? { NetworkCounts(AppDataStage(e).ep, net.value); }
    CloseCounts(NetworkStage(AppDataStage(e).ep, net).ep, CloseReady(e));
  }

  // No packet acknowledges more than was sent.
  lemma AckInReach(s: System, x: Side, p: Packet)
    requires Inv(s) && p in s.From(x.Peer()) && p.isAck
    ensures p.ack <= s.End(x).ep.nextSeq
  {
    InvEnd(s, x.Peer());
    InvEnd(s, x);
    assert PacketOk(s.End(x.Peer()), p);
  }

  /** Serving an acknowledgement moves send_base to the number acknowledged, unless it is there or
      beyond, and only then starts the count of resends afresh. */
  lemma AcknowledgementIsTaken(s: System, x: Side, p: Packet)
    requires Reachable(s) && Enabled(s, Step(x, Pass(Some(p))))
    ensures var e, e' := s.End(x).ep, Next(s, Step(x, Pass(Some(p)))).End(x).ep;
            && e'.sendBase == (if p.isAck then Max(e.sendBase, p.ack) else e.sendBase)
            && e'.retrans == if p.isAck && p.ack > e.sendBase then 0 else e.retrans
  {
    hide Wake, Ready, Inv;
    InvReachable(s);
    if p.isAck { AckInReach(s, x, p); }
    PassCounts(s.End(x).ep, Some(p));
    NextEnd(s, Step(x, Pass(Some(p))), x);
  }

  predicate Carries(p: Packet) { |p.data| > 0 || p.fin }

  // A packet that only acknowledges.
  predicate Pure(q: Packet) { q.data == [] && !q.fin }

  lemma DataNotPure(e: Endpoint)
    requires e.InWindow()
    ensures forall q :: q in AppDataStage(e).sent ==> !Pure(q)
  {
    hide TakeChunk;
  }

  lemma CloseNotPure(e: Endpoint, requested: bool)
    requires e.InWindow()
    ensures forall q :: q in CloseStage(e, requested).sent ==> !Pure(q)
  {
  }

  lemma AckNotPure(e: Endpoint, ack: nat)
    requires e.InWindow()
    ensures forall q :: q in HandleAck(e, ack).sent ==> !Pure(q)
  {
    hide Transition, Dequeue;
  }

  lemma IncomingAnswers(e: Endpoint, g: Seg)
    requires g.Len() > 0
    ensures var r := HandleIncoming(e, g);
            r.sent == if e.finReceived || g.start >= e.recvNext + 3072 then []
                      else [Packet(e.nextSeq, r.ep.recvNext, true, [], false)]
  {
    hide Insert, Flush, Clamp, Transition;
  }

  lemma NetworkAnswers(e: Endpoint, p: Packet)
    requires e.InWindow()
    ensures var r := HandleNetwork(e, p);
            && ((exists q :: q in r.sent && Pure(q)) <==> Carries(p) && !e.finReceived && p.start < e.recvNext + 3072)
            && forall q :: q in r.sent && Pure(q) ==> q.isAck && q.ack == r.ep.recvNext
  {
    hide HandleAck, HandleIncoming;
    var r1 := if p.isAck then HandleAck(e, p.ack) else Effect(e, [], []);
    if p.isAck {
      AckNotPure(e, p.ack);
      AckSameView(e, p.ack);
    }
    if Carries(p) {
      IncomingAnswers(r1.ep, p.AsSeg());
      var r2 := HandleIncoming(r1.ep, p.AsSeg());
      var answer := AckOf(r1.ep).(ack := r2.ep.recvNext);
      if !e.finReceived && p.start < e.recvNext + 3072 {
        assert Pure(answer) && answer in r2.sent;
      }
    }
  }

  lemma PassAnswers(e: Endpoint, p: Packet)
    requires e.InWindow()
    ensures var r := Wake(e, Some(p));
            && ((exists q :: q in r.sent && Pure(q)) <==> Carries(p) && !e.finReceived && p.start < e.recvNext + 3072)
            && forall q :: q in r.sent && Pure(q) ==> q.isAck && q.ack == r.ep.recvNext
  {
    hide AppDataStage, CloseStage, HandleNetwork, Pure;
    var r1 := AppDataStage(e);
    var r2 := NetworkStage(r1.ep, Some(p));
    var r3 := CloseStage(r2.ep, CloseReady(e));
    DataNotPure(e);
    StagesSameView(e, false);
    NetworkAnswers(r1.ep, p);
    CloseNotPure(r2.ep, CloseReady(e));
    StagesSameView(r2.ep, CloseReady(e));
    assert Wake(e, Some(p)).sent == r1.sent + r2.sent + r3.sent;
    if Carries(p) && !e.finReceived && p.start < e.recvNext + 3072 {
      var q :| q in r2.sent && Pure(q);
      assert q in Wake(e, Some(p)).sent;
    }
  }

  /** A segment is answered with an acknowledgement of the place then reached exactly when it is not
      beyond the receive window and no FIN of the peer's had been consumed; nothing else is answered. */
  lemma SegmentsAreAnswered(s: System, x: Side, p: Packet)
    requires Reachable(s) && Enabled(s, Step(x, Pass(Some(p))))
    ensures var e, t := s.End(x).ep, Next(s, Step(x, Pass(Some(p))));
            var sent := Sends(s.End(x), s.From(x.Peer()), Pass(Some(p)));
            && ((exists q :: q in sent && Pure(q)) <==> Carries(p) && !e.finReceived && p.start < e.recvNext + 3072)
            && forall q :: q in sent && Pure(q) ==> q.isAck && q.ack == t.End(x).ep.recvNext
  {
    hide Wake, Ready;
    InvReachable(s);
    PassAnswers(s.End(x).ep, p);
    NextEnd(s, Step(x, Pass(Some(p))), x);
  }

  // -------------------------------------------------------------------------
  // Resending and giving up
  // -------------------------------------------------------------------------

  // A timeout step of x.
  predicate Expires(st: Step, x: Side) { st == Step(x, Expire) }

  // The timeouts of x since its send base last moved, n at the beginning.
  function Timeouts(s: System, steps: seq<Step>, x: Side, n: nat): nat
    requires Possible(s, steps)
    decreases |steps|
  {
    if steps == [] then n
    else
      var t := Next(s, steps[0]);
      Timeouts(t, steps[1..], x,
               if t.End(x).ep.sendBase > s.End(x).ep.sendBase then 0 else if Expires(steps[0], x) then n + 1 else n)
  }

  // The count kept by the source, and whether it has led to giving up, in terms of the timeouts.
  ghost predicate Counts(n: Node, timeouts: nat) {
    && timeouts <= 6 && n.ep.retrans == Min(timeouts, 5)
    && (n.aborted <==> timeouts == 6) && (n.aborted ==> n.ep.done)
  }

  lemma ActCounts(n: Node, arriving: set<Packet>, act: Action, timeouts: nat)
    requires Can(n, arriving, act) && n.ep.InWindow() && Counts(n, timeouts)
    requires forall p :: p in arriving && p.isAck ==> p.ack <= n.ep.nextSeq
    ensures var n' := Do(n, arriving, act);
            && n'.ep.sendBase >= n.ep.sendBase
            && Counts(n', if n'.ep.sendBase > n.ep.sendBase then 0
                          else if act.Expire? then timeouts + 1 else timeouts)
  {
    hide Wake, Resend, TakeChunk;
    if act.Pass? { PassCounts(n.ep, act.net); }
  }

  lemma StepCounts(s: System, st: Step, x: Side, timeouts: nat)
    requires Inv(s) && Enabled(s, st) && Counts(s.End(x), timeouts)
    ensures var t := Next(s, st);
            Counts(t.End(x), if t.End(x).ep.sendBase > s.End(x).ep.sendBase then 0
                             else if Expires(st, x) then timeouts + 1 else timeouts)
  {
    hide Inv, Can, Do, Counts;
    NextEnd(s, st, x);
    InvInWindow(s, x);
    if st.side == x {
      forall p | p in s.From(x.Peer()) && p.isAck ensures p.ack <= s.End(x).ep.nextSeq { AckInReach(s, x, p); }
      ActCounts(s.End(x), s.From(x.Peer()), st.act, timeouts);
    }
  }

  lemma {:induction false} RunCounts(s: System, steps: seq<Step>, x: Side, timeouts: nat)
    requires Inv(s) && Possible(s, steps) && Counts(s.End(x), timeouts)
    ensures Counts(Exec(s, steps).End(x), Timeouts(s, steps, x, timeouts))
    decreases |steps|
  {
    hide Inv, Enabled, Counts, Next;
    if steps != [] {
      var t := Next(s, steps[0]);
      StepCounts(s, steps[0], x, timeouts);
      InvNext(s, steps[0]);
      RunCounts(t, steps[1..], x, if t.End(x).ep.sendBase > s.End(x).ep.sendBase then 0
                                  else if Expires(steps[0], x) then timeouts + 1 else timeouts);
    }
  }

  lemma NoneYet(s0: System, x: Side)
    requires Initial(s0)
    ensures Counts(s0.End(x), 0)
  {
  }

  /** In every run the count of resends is the number of timeouts since send_base last moved, and the
      connection is aborted exactly by the timeout that follows five without a move. */
  lemma AbortsAfterFiveResends(s0: System, steps: seq<Step>, x: Side)
    requires Initial(s0) && Possible(s0, steps)
    ensures var n, timeouts := Exec(s0, steps).End(x), Timeouts(s0, steps, x, 0);
            && timeouts <= 6 && n.ep.retrans == Min(timeouts, 5)
            && (n.aborted <==> timeouts == 6)
  {
    hide Possible, Exec, Inv, Timeouts;
    InvInitial(s0);
    NoneYet(s0, x);
    RunCounts(s0, steps, x, 0);
  }

  lemma {:induction false} ResendInOrder(buf: seq<Seg>, recvNext: nat)
    ensures |Resend(buf, recvNext)| == |buf|
    ensures forall i :: 0 <= i < |buf| ==>
              Resend(buf, recvNext)[i] == Packet(buf[i].start, recvNext, true, buf[i].data, buf[i].fin)
  {
    if buf != [] { ResendInOrder(buf[1..], recvNext); }
  }

  /** While anything is in flight and the loop runs, a timeout is possible. One that gives up sends
      nothing; any other resends every buffered segment, from the first to the last, as it is, with
      the acknowledgement number of the moment. */
  lemma TimeoutResends(s: System, x: Side)
    requires Reachable(s) && !s.End(x).ep.done && s.End(x).ep.sendBase < s.End(x).ep.nextSeq
    ensures Enabled(s, Step(x, Expire))
    ensures var e, sent := s.End(x).ep, Sends(s.End(x), s.From(x.Peer()), Expire);
            && Next(s, Step(x, Expire)).End(x).ep.sendBuf == e.sendBuf != []
            && if e.retrans == 5 then sent == [] && Next(s, Step(x, Expire)).End(x).aborted
               else
                 && |sent| == |e.sendBuf| && !Next(s, Step(x, Expire)).End(x).aborted
                 && forall i :: 0 <= i < |sent| ==>
                      sent[i] == Packet(e.sendBuf[i].start, e.recvNext, true, e.sendBuf[i].data, e.sendBuf[i].fin)
  {
    hide Inv;
    InvReachable(s);
    InFlightTiled(s, x);
    ResendInOrder(s.End(x).ep.sendBuf, s.End(x).ep.recvNext);
    NextEnd(s, Step(x, Expire), x);
    NotYetAborted(s, x);
  }

  lemma NotYetAborted(s: System, x: Side)
    requires Inv(s) && !s.End(x).ep.done
    ensures !s.End(x).aborted
  {
  }
}
