/** Whatever has been lost or delayed, everything written so far can still be delivered: from every
    reachable state in which both control loops run, by passes of the loops alone. */
module Delivery {
  import opened Basics
  import opened Segments
  import opened Protocol
  import opened Streams
  import opened Receiver
  import opened SendSide
  import opened Connection
  import opened Runs
  import opened Recovery
  import opened Guarantees
  import opened CloseOrder
  import opened Progress

  // -------------------------------------------------------------------------
  // Everything buffered has been sent
  // -------------------------------------------------------------------------

  ghost predicate SentAs(g: Seg, ps: set<Packet>) { exists p :: p in ps && p.AsSeg() == g }

  ghost predicate BufferSent(e: Endpoint, ps: set<Packet>) { forall g :: g in e.sendBuf ==> SentAs(g, ps) }

  // A handler buffers nothing that it does not send.
  ghost predicate BuffersSent(e: Endpoint, r: Effect) {
    forall g :: g in r.ep.sendBuf ==> g in e.sendBuf || SentAs(g, set p | p in r.sent)
  }

  lemma DataBuffers(e: Endpoint)
    requires e.InWindow()
    ensures BuffersSent(e, AppDataStage(e))
  {
    hide TakeChunk;
    var r := AppDataStage(e);
    if r.sent != [] {
      assert r.sent[0].AsSeg() == r.ep.sendBuf[|r.ep.sendBuf| - 1];
    }
  }

  lemma FinBuffers(e: Endpoint)
    requires e.InWindow() && e.WinRemain() > 0
    ensures BuffersSent(e, IssueFin(e))
  {
    assert IssueFin(e).sent[0].AsSeg() == Seg(e.nextSeq, [], true);
  }

  lemma {:induction false} Dequeued(buf: seq<Seg>, ack: nat, g: Seg)
    requires g in Dequeue(buf, ack)
    ensures g in buf
  {
    if buf != [] && buf[0].End() <= ack { Dequeued(buf[1..], ack, g); }
  }

  lemma AckBuffers(e: Endpoint, ack: nat)
    requires e.InWindow()
    ensures BuffersSent(e, HandleAck(e, ack))
  {
    hide Transition, Dequeue, IssueFin;
    forall g | g in Dequeue(e.sendBuf, ack) ensures g in e.sendBuf { Dequeued(e.sendBuf, ack, g); }
    if e.sendBase < ack <= e.nextSeq && e.closeQueued {
      FinBuffers(e.(sendBuf := Dequeue(e.sendBuf, ack), sendBase := ack, retrans := 0));
    }
  }

  lemma CloseBuffers(e: Endpoint, requested: bool)
    requires e.InWindow()
    ensures BuffersSent(e, CloseStage(e, requested))
  {
    hide Transition, IssueFin;
    if e.WinRemain() > 0 { FinBuffers(e); }
  }

  lemma BuffersThen(e: Endpoint, r1: Effect, r2: Effect)
    requires BuffersSent(e, r1) && BuffersSent(r1.ep, r2)
    ensures BuffersSent(e, Then(r1, r2))
  {
    forall g | g in r2.ep.sendBuf ensures g in e.sendBuf || SentAs(g, set p | p in r1.sent + r2.sent) {
      if g !in r1.ep.sendBuf {
        var p :| p in r2.sent && p.AsSeg() == g;
        assert p in r1.sent + r2.sent;
      } else if g !in e.sendBuf {
        var p :| p in r1.sent && p.AsSeg() == g;
        assert p in r1.sent + r2.sent;
      }
    }
  }

  lemma NothingBuffers(e: Endpoint)
    ensures BuffersSent(e, Effect(e, [], []))
  {
  }

  lemma IncomingBuffers(e: Endpoint, g: Seg)
    ensures BuffersSent(e, HandleIncoming(e, g))
  {
    IncomingSameSender(e, g);
  }

  lemma NetworkBuffers(e: Endpoint, net: Option<Packet>)
    requires e.InWindow()
    ensures BuffersSent(e, NetworkStage(e, net))
  {
    hide HandleAck, HandleIncoming, BuffersSent;
    NothingBuffers(e);
    if net.Some? {
      var p := net.value;
      var r1 := if p.isAck then HandleAck(e, p.ack) else Effect(e, [], []);
      if p.isAck { AckBuffers(e, p.ack); }
      IncomingBuffers(r1.ep, p.AsSeg());
      BuffersThen(e, r1, HandleIncoming(r1.ep, p.AsSeg()));
    }
  }

  lemma PassBuffers(e: Endpoint, net: Option<Packet>)
    requires e.InWindow()
    ensures BuffersSent(e, Wake(e, net))
  {
    hide AppDataStage, NetworkStage, CloseStage;
    var r1 := AppDataStage(e);
    var r2 := NetworkStage(r1.ep, net);
    var r3 := CloseStage(r2.ep, CloseReady(e));
    DataBuffers(e);
    NetworkBuffers(r1.ep, net);
    BuffersThen(e, r1, r2);
    CloseBuffers(r2.ep, CloseReady(e));
    BuffersThen(e, Then(r1, r2), r3);
  }

  lemma ActBuffers(n: Node, arriving: set<Packet>, act: Action, mine: set<Packet>)
    requires Can(n, arriving, act) && n.ep.InWindow() && BufferSent(n.ep, mine)
    ensures BufferSent(Do(n, arriving, act).ep, mine + set p | p in Sends(n, arriving, act))
  {
    hide Wake, TakeChunk;
    var e', sent := Do(n, arriving, act).ep, Sends(n, arriving, act);
    if act.Pass? { PassBuffers(n.ep, act.net); }
    forall g | g in e'.sendBuf ensures SentAs(g, mine + set p | p in sent) {
      if g in n.ep.sendBuf {
        var p :| p in mine && p.AsSeg() == g;
        assert p in mine + set p | p in sent;
      } else {
        var p :| p in sent && p.AsSeg() == g;
        assert p in mine + set p | p in sent;
      }
    }
  }

  lemma StepBuffers(s: System, st: Step, x: Side)
    requires Inv(s) && Enabled(s, st) && BufferSent(s.End(x).ep, s.From(x))
    ensures BufferSent(Next(s, st).End(x).ep, Next(s, st).From(x))
  {
    hide Inv, Can, Do, Sends;
    InvInWindow(s, x);
    if st.side == x { ActBuffers(s.End(x), s.From(x.Peer()), st.act, s.From(x)); }
  }

  lemma {:induction false} RunBuffers(s: System, steps: seq<Step>, x: Side)
    requires Inv(s) && Possible(s, steps) && BufferSent(s.End(x).ep, s.From(x))
    ensures BufferSent(Exec(s, steps).End(x).ep, Exec(s, steps).From(x))
    decreases |steps|
  {
    hide Inv, Enabled, BufferSent, Next;
    if steps != [] {
      StepBuffers(s, steps[0], x);
      InvNext(s, steps[0]);
      RunBuffers(Next(s, steps[0]), steps[1..], x);
    }
  }

  /** In every reachable state each buffered segment has been sent as it is. */
  lemma BufferedWasSent(s: System, x: Side)
    requires Reachable(s)
    ensures forall g :: g in s.End(x).ep.sendBuf ==> exists p :: p in s.From(x) && p.AsSeg() == g
  {
    hide Inv, Possible, Exec;
    var s0, steps :| Initial(s0) && Possible(s0, steps) && s == Exec(s0, steps);
    InvInitial(s0);
    assert BufferSent(s0.End(x).ep, s0.From(x));
    RunBuffers(s0, steps, x);
    forall g | g in s.End(x).ep.sendBuf ensures exists p :: p in s.From(x) && p.AsSeg() == g {
      assert SentAs(g, s.From(x));
    }
  }

  // -------------------------------------------------------------------------
  // Steps towards delivery
  // -------------------------------------------------------------------------

  // An end that has not consumed all its peer has issued has a running control loop, if it ran before.
  lemma PeerRuns(s: System, x: Side)
    requires Inv(s) && !s.End(x.Peer()).aborted && !s.End(x.Peer()).ep.finReceived
    ensures !s.End(x.Peer()).ep.done
  {
    StateMeaning(s.End(x.Peer()));
  }

  lemma Behind(s: System, x: Side)
    requires Inv(s) && s.End(x.Peer()).ep.recvNext < s.End(x).ep.nextSeq
    ensures !s.End(x.Peer()).ep.finReceived
  {
    if s.End(x.Peer()).ep.finReceived { FinMeansAll(s, x.Peer()); }
  }

  // The peer lacks something that x has issued: a packet that brings it forward is on its way.
  lemma Missing(s: System, x: Side) returns (p: Packet)
    requires Reachable(s) && s.End(x.Peer()).ep.recvNext < s.End(x).ep.nextSeq
    ensures p in s.From(x) && s.End(x.Peer()).ep.recvNext in Items(p.AsSeg())
  {
    hide Inv, Reachable, Items;
    InvReachable(s);
    var e, next := s.End(x).ep, s.End(x.Peer()).ep.recvNext;
    Below(s, x);
    InFlightTiled(s, x);
    var k := TilesCover(e.sendBuf, e.sendBuf[0].start, e.nextSeq, next);
    BufferedWasSent(s, x);
    assert e.sendBuf[k] in e.sendBuf;
    p :| p in s.From(x) && p.AsSeg() == e.sendBuf[k];
  }

  lemma Below(s: System, x: Side)
    requires Inv(s)
    ensures s.End(x).ep.sendBase <= s.End(x.Peer()).ep.recvNext <= s.End(x).ep.nextSeq <= s.End(x).ep.sendBase + WINDOW
  {
    InvEnd(s, x.Peer());
    InvEnd(s, x);
  }

  lemma BringsForward(s: System, x: Side, p: Packet)
    requires Inv(s) && p in s.From(x) && s.End(x.Peer()).ep.recvNext in Items(p.AsSeg())
    requires !s.End(x.Peer()).ep.done
    ensures Enabled(s, Step(x.Peer(), Pass(Some(p))))
    ensures var t := Next(s, Step(x.Peer(), Pass(Some(p))));
            && t.End(x) == s.End(x)
            && t.End(x.Peer()).ep.recvNext > s.End(x.Peer()).ep.recvNext
  {
    hide Wake, EndOk, WireOk;
    var y, st := x.Peer(), Step(x.Peer(), Pass(Some(p)));
    InvInWindow(s, y);
    NextCovers(s, st, y, s.End(y).ep.recvNext);
    GrowsEnd(s, st, y);
    InvEnd(Next(s, st), y);
    NextEnd(s, st, x);
    At(Next(s, st).End(y), StreamOf(Next(s, st).End(x)));
  }

  lemma At(n: Node, st: Stream)
    requires EndOk(n, st)
    ensures !Covered(n.ep, n.ep.recvNext)
  {
    NextNotCovered(n.ep, st, n.read);
  }

  // How much the application's queue holds.
  function Waiting(q: seq<seq<byte>>): nat { |Flat(q)| + |q| }

  lemma TakesSome(chunk: seq<byte>, rest: seq<seq<byte>>, k: nat)
    requires k <= |chunk| && (k == 0 ==> chunk == [])
    ensures Waiting((if k == |chunk| then [] else [chunk[k..]]) + rest) < Waiting([chunk] + rest)
  {
    assert ([chunk] + rest)[1..] == rest;
    if k == |chunk| {
      assert [] + rest == rest;
    } else {
      assert ([chunk[k..]] + rest)[1..] == rest;
    }
  }

  lemma SendsSome(s: System, x: Side)
    requires Reachable(s) && !s.End(x).aborted
    requires s.End(x).ep.appIn != [] && s.End(x).ep.nextSeq < s.End(x).ep.sendBase + WINDOW
    ensures Enabled(s, Step(x, Pass(None)))
    ensures Waiting(Next(s, Step(x, Pass(None))).End(x).ep.appIn) < Waiting(s.End(x).ep.appIn)
  {
    hide Wake, Ready, Reachable, Waiting, Inv;
    var e := s.End(x).ep;
    InvReachable(s);
    StillRuns(s, x);
    DataIsSent(s, x);
    TakesSome(e.appIn[0], e.appIn[1..], Min(536, Min(e.sendBase + 3072 - e.nextSeq, |e.appIn[0]|)));
    assert [e.appIn[0]] + e.appIn[1..] == e.appIn;
  }

  // An end with data left has not closed.
  lemma StillRuns(s: System, x: Side)
    requires Inv(s) && !s.End(x).aborted && s.End(x).ep.appIn != []
    ensures !s.End(x).ep.done && !s.End(x).ep.finSent && !s.End(x).ep.closeQueued
  {
    StateMeaning(s.End(x));
  }

  // Serving an acknowledgement with the window full and data left.
  lemma FullPass(e: Endpoint, q: Packet)
    requires e.nextSeq == e.sendBase + WINDOW && e.appIn != [] && !e.finSent && !e.closeQueued && Pure(q)
    ensures var e' := Wake(e, Some(q)).ep;
            e'.appIn == e.appIn && e'.nextSeq == e.nextSeq
  {
    hide Dequeue, Transition;
  }

  lemma WindowOpens(s: System, x: Side, q: Packet)
    requires Reachable(s) && !s.End(x).aborted && s.End(x).ep.appIn != []
    requires s.End(x).ep.nextSeq == s.End(x).ep.sendBase + WINDOW
    requires q in s.From(x.Peer()) && Pure(q) && q.isAck && q.ack == s.End(x).ep.nextSeq
    ensures Enabled(s, Step(x, Pass(Some(q))))
    ensures var t := Next(s, Step(x, Pass(Some(q))));
            && t.End(x).ep.appIn == s.End(x).ep.appIn && t.End(x).ep.nextSeq == s.End(x).ep.nextSeq
            && t.End(x).ep.sendBase > s.End(x).ep.sendBase && t.End(x.Peer()) == s.End(x.Peer())
  {
    hide Wake, Reachable, Inv;
    InvReachable(s);
    InvInWindow(s, x);
    StillRuns(s, x);
    AcknowledgementIsTaken(s, x, q);
    FullPass(s.End(x).ep, q);
    NextEnd(s, Step(x, Pass(Some(q))), x);
    NextEnd(s, Step(x, Pass(Some(q))), x.Peer());
  }

  // An acknowledgement of everything x has issued is on its way.
  ghost predicate AllAcked(s: System, x: Side) {
    exists q :: q in s.From(x.Peer()) && Pure(q) && q.isAck && q.ack == s.End(x).ep.nextSeq
  }

  // The peer has everything, and an old segment makes it say so.
  lemma SaysSo(s: System, x: Side) returns (st: Step)
    requires Reachable(s) && !s.End(x).aborted && !s.End(x.Peer()).aborted && s.End(x).ep.appIn != []
    requires s.End(x.Peer()).ep.recvNext == s.End(x).ep.nextSeq > s.End(x).ep.sendBase
    ensures st.act.Pass? && Enabled(s, st) && st.side == x.Peer()
    ensures Next(s, st).End(x) == s.End(x) && AllAcked(Next(s, st), x)
  {
    hide Wake, Reachable, Inv, Items, EndOk;
    InvReachable(s);
    var e, y := s.End(x).ep, x.Peer();
    InFlightTiled(s, x);
    BufferedWasSent(s, x);
    assert e.sendBuf[0] in e.sendBuf;
    var p :| p in s.From(x) && p.AsSeg() == e.sendBuf[0];
    TilesEnds(e.sendBuf, e.sendBuf[0].start, e.nextSeq, 0);
    NoFinIssued(s, x);
    PeerRuns(s, x);
    InvInWindow(s, y);
    st := Step(y, Pass(Some(p)));
    Stays(s, x, st);
    SegmentsAreAnswered(s, y, p);
    NextEnd(s, st, x);
    NextEnd(s, st, y);
    var sent := Sends(s.End(y), s.From(x), st.act);
    assert p.start < s.End(y).ep.recvNext + 3072 && Carries(p);
    var q :| q in sent && Pure(q);
    assert q in Next(s, st).From(y);
  }

  lemma NoFinIssued(s: System, x: Side)
    requires Inv(s) && s.End(x).ep.appIn != []
    ensures !s.End(x.Peer()).ep.finReceived
  {
    InvEnd(s, x.Peer());
  }

  // What the peer has received does not go past what x has issued.
  lemma Stays(s: System, x: Side, st: Step)
    requires Inv(s) && Enabled(s, st) && st.side == x.Peer()
    requires s.End(x.Peer()).ep.recvNext == s.End(x).ep.nextSeq
    ensures Next(s, st).End(x.Peer()).ep.recvNext == s.End(x).ep.nextSeq
  {
    hide EndOk, WireOk, Inv;
    GrowsEnd(s, st, x.Peer());
    NextEnd(s, st, x);
    Below(Next(s, st), x);
  }

  lemma AllDelivered(s: System, x: Side)
    requires Inv(s) && s.End(x.Peer()).ep.recvNext == s.End(x).ep.nextSeq && s.End(x).ep.appIn == []
    ensures DeliveredTo(s.End(x.Peer())) == s.End(x).written
  {
    InvEnd(s, x.Peer());
    assert StreamOf(s.End(x)).bytes == s.End(x).written;
  }

  // -------------------------------------------------------------------------
  // Delivery
  // -------------------------------------------------------------------------

  ghost predicate Delivers(s: System, x: Side, steps: seq<Step>) {
    && Possible(s, steps) && (forall i :: 0 <= i < |steps| ==> steps[i].act.Pass?)
    && DeliveredTo(Exec(s, steps).End(x.Peer())) == s.End(x).written
  }

  lemma PassFirst(s: System, x: Side, st: Step, rest: seq<Step>)
    requires Enabled(s, st) && st.act.Pass? && Delivers(Next(s, st), x, rest)
    ensures Delivers(s, x, [st] + rest)
  {
    hide Wake;
    assert ([st] + rest)[1..] == rest;
    NextEnd(s, st, x);
  }

  lemma PassAborts(s: System, x: Side, st: Step)
    requires Enabled(s, st) && st.act.Pass?
    ensures Next(s, st).End(x).aborted == s.End(x).aborted
  {
    hide Wake;
    NextEnd(s, st, x);
  }

  // The next step on the way, unless everything has been delivered.
  lemma OneStep(s: System, x: Side) returns (st: Step)
    requires Reachable(s) && !s.End(x).aborted && !s.End(x.Peer()).aborted
    requires s.End(x.Peer()).ep.recvNext < s.End(x).ep.nextSeq || s.End(x).ep.appIn != []
    ensures st.act.Pass? && Enabled(s, st)
    ensures var t, y := Next(s, st), x.Peer();
            || Waiting(t.End(x).ep.appIn) < Waiting(s.End(x).ep.appIn)
            || (&& t.End(x).ep.appIn == s.End(x).ep.appIn && t.End(x).ep.nextSeq == s.End(x).ep.nextSeq
                && (|| t.End(y).ep.recvNext > s.End(y).ep.recvNext
                    || (&& t.End(y).ep.recvNext == s.End(y).ep.recvNext
                        && (|| t.End(x).ep.sendBase > s.End(x).ep.sendBase
                            || (t.End(x).ep.sendBase == s.End(x).ep.sendBase && !AllAcked(s, x) && AllAcked(t, x))))))
  {
    hide Wake, Reachable, Inv, Waiting, AllAcked, Enabled, Next;
    InvReachable(s);
    Below(s, x);
    var y := x.Peer();
    if s.End(y).ep.recvNext < s.End(x).ep.nextSeq {
      var p := Missing(s, x);
      Behind(s, x);
      PeerRuns(s, x);
      BringsForward(s, x, p);
      st := Step(y, Pass(Some(p)));
    } else if s.End(x).ep.nextSeq < s.End(x).ep.sendBase + WINDOW {
      SendsSome(s, x);
      st := Step(x, Pass(None));
    } else if AllAcked(s, x) {
      var q := Acknowledgement(s, x);
      WindowOpens(s, x, q);
      st := Step(x, Pass(Some(q)));
    } else {
      st := SaysSo(s, x);
      Stays(s, x, st);
    }
  }

  lemma Acknowledgement(s: System, x: Side) returns (q: Packet)
    requires AllAcked(s, x)
    ensures q in s.From(x.Peer()) && Pure(q) && q.isAck && q.ack == s.End(x).ep.nextSeq
  {
    q :| q in s.From(x.Peer()) && Pure(q) && q.isAck && q.ack == s.End(x).ep.nextSeq;
  }

  /** From every reachable state in which neither end has given up, passes of the two control loops alone
      can deliver everything the application has written: whatever was lost, delayed or left waiting. */
  lemma {:induction false} EverythingCanArrive(s: System, x: Side) returns (steps: seq<Step>)
    requires Reachable(s) && !s.End(x).aborted && !s.End(x.Peer()).aborted
    ensures Possible(s, steps) && (forall i :: 0 <= i < |steps| ==> steps[i].act.Pass?)
    ensures DeliveredTo(Exec(s, steps).End(x.Peer())) == s.End(x).written
    decreases Waiting(s.End(x).ep.appIn), s.End(x).ep.nextSeq - s.End(x.Peer()).ep.recvNext,
              s.End(x).ep.nextSeq - s.End(x).ep.sendBase, if AllAcked(s, x) then 0 else 1
  {
    hide Reachable, Inv, Waiting, AllAcked, Enabled, Next;
    InvReachable(s);
    Below(s, x);
    if s.End(x.Peer()).ep.recvNext == s.End(x).ep.nextSeq && s.End(x).ep.appIn == [] {
      steps := [];
      AllDelivered(s, x);
    } else {
      var st := OneStep(s, x);
      var t := Next(s, st);
      PassAborts(s, x, st);
      PassAborts(s, x.Peer(), st);
      ReachNext(s, st);
      InvReachable(t);
      Below(t, x);
      var rest := EverythingCanArrive(t, x);
      PassFirst(s, x, st, rest);
      steps := [st] + rest;
    }
  }
}
