/** Go-Back-N recovery: one timeout resend, each resent segment arriving once, is enough for the
    peer to catch up and for its acknowledgement to release the send buffer. */
module Recovery {
  import opened Basics
  import opened Segments
  import opened Protocol
  import opened Receiver
  import opened SendSide
  import opened Runs

  // -------------------------------------------------------------------------
  // What one pass does to the receive side
  // -------------------------------------------------------------------------

  // e and e' agree on where the receive side is.
  ghost predicate SamePlace(e: Endpoint, e': Endpoint) {
    e'.recvNext == e.recvNext && e'.recvBuf == e.recvBuf && e'.finReceived == e.finReceived
  }

  // They also agree on what the application has been given.
  ghost predicate SameView(e: Endpoint, e': Endpoint) {
    SamePlace(e, e') && e'.appOut == e.appOut && e'.eof == e.eof
  }

  lemma IncomingSameView(e1: Endpoint, e2: Endpoint, s: Seg)
    requires SameView(e1, e2)
    ensures SameView(HandleIncoming(e1, s).ep, HandleIncoming(e2, s).ep)
  {
  }

  lemma AppDataSameView(e: Endpoint)
    requires e.InWindow() && e.appIn != []
    ensures SameView(e, HandleAppData(e).ep)
  {
    hide Endpoint.InWindow;
  }

  lemma AppCloseSameView(e: Endpoint)
    requires e.InWindow()
    ensures SameView(e, HandleAppClose(e).ep)
  {
  }

  lemma StagesSameView(e: Endpoint, requested: bool)
    requires e.InWindow()
    ensures SameView(e, AppDataStage(e).ep) && SameView(e, CloseStage(e, requested).ep)
  {
    if AppDataReady(e) { AppDataSameView(e); }
    AppCloseSameView(e);
  }

  lemma AckSameView(e: Endpoint, ack: nat)
    requires e.InWindow()
    ensures SameView(e, HandleAck(e, ack).ep)
  {
    hide Transition;
  }

  // The place a pass leaves the receive side in is the one the arriving segment leads to.
  lemma PassPlace(e: Endpoint, net: Option<Packet>)
    requires e.InWindow()
    ensures SameView(if net.Some? && net.value.AsSeg().Len() > 0 then HandleIncoming(e, net.value.AsSeg()).ep else e,
                     Wake(e, net).ep)
  {
    var e1 := AppDataStage(e).ep;
    var e2 := NetworkStage(e1, net).ep;
    StagesSameView(e, false);
    StagesSameView(e2, CloseReady(e));
    if net.Some? {
      var p := net.value;
      var ea := if p.isAck then HandleAck(e1, p.ack).ep else e1;
      if p.isAck { AckSameView(e1, p.ack); }
      if p.AsSeg().Len() > 0 {
        IncomingSameView(e, ea, p.AsSeg());
      }
    }
  }

  // A segment that is not beyond the window is acknowledged with the place reached.
  lemma PassAcks(e: Endpoint, p: Packet)
    requires e.InWindow() && !e.finReceived && p.AsSeg().Len() > 0 && p.start < e.recvNext + WINDOW
    ensures exists q :: q in Wake(e, Some(p)).sent && q.isAck && q.ack == Wake(e, Some(p)).ep.recvNext
  {
    var r1 := AppDataStage(e);
    var ra := if p.isAck then HandleAck(r1.ep, p.ack) else Effect(r1.ep, [], []);
    StagesSameView(e, false);
    if p.isAck { AckSameView(r1.ep, p.ack); }
    var ri := HandleIncoming(ra.ep, p.AsSeg());
    var r2 := NetworkStage(r1.ep, Some(p));
    assert r2 == Then(ra, ri);
    var q := AckOf(ri.ep);
    assert ri.sent == [q];
    StagesSameView(r2.ep, CloseReady(e));
    assert q in ra.sent + ri.sent;
    assert q in r1.sent + r2.sent;
    assert q in Wake(e, Some(p)).sent;
  }

  lemma CoveredSamePlace(e: Endpoint, e': Endpoint, i: nat)
    requires SamePlace(e, e')
    ensures Covered(e, i) <==> Covered(e', i)
  {
  }

  lemma OtherActsSamePlace(n: Node, arriving: set<Packet>, act: Action)
    requires Can(n, arriving, act) && n.ep.InWindow() && !(act.Pass? && act.net.Some?)
    ensures SamePlace(n.ep, Do(n, arriving, act).ep)
  {
    hide Wake, Resend, TakeChunk;
    if act.Pass? { PassPlace(n.ep, None); }
  }

  // -------------------------------------------------------------------------
  // Coverage
  // -------------------------------------------------------------------------

  // Nothing received is ever forgotten, and an arriving packet's positions inside the window are received.
  lemma ActCovers(n: Node, peer: Node, arriving: set<Packet>, act: Action, i: nat)
    requires Can(n, arriving, act) && EndOk(n, StreamOf(peer)) && WireOk(peer, arriving)
    ensures Covered(n.ep, i) ==> Covered(Do(n, arriving, act).ep, i)
    ensures act.Pass? && act.net.Some? && i in Items(act.net.value.AsSeg()) && i < n.ep.recvNext + WINDOW
            ==> Covered(Do(n, arriving, act).ep, i)
  {
    if act.Pass? && act.net.Some? {
      var p := act.net.value;
      PassPlace(n.ep, act.net);
      if p.AsSeg().Len() > 0 {
        assert PacketOk(peer, p);
        IncomingCovers(n.ep, p.AsSeg(), StreamOf(peer), n.read);
        CoveredSamePlace(HandleIncoming(n.ep, p.AsSeg()).ep, Wake(n.ep, act.net).ep, i);
      } else {
        CoveredSamePlace(n.ep, Wake(n.ep, act.net).ep, i);
      }
    } else {
      OtherActsSamePlace(n, arriving, act);
      CoveredSamePlace(n.ep, Do(n, arriving, act).ep, i);
    }
  }

  // p reaches side y in one of the steps.
  ghost predicate Delivered(steps: seq<Step>, y: Side, p: Packet) { Step(y, Pass(Some(p))) in steps }

  lemma InvEnd(s: System, y: Side)
    requires Inv(s)
    ensures EndOk(s.End(y), StreamOf(s.End(y.Peer()))) && WireOk(s.End(y.Peer()), s.From(y.Peer()))
    ensures s.End(y).ep.sendBase <= s.End(y.Peer()).ep.recvNext <= s.End(y.Peer().Peer()).ep.nextSeq
  {
  }

  lemma NextEnd(s: System, st: Step, y: Side)
    requires Enabled(s, st)
    ensures Next(s, st).End(y) == if st.side == y then Do(s.End(y), s.From(y.Peer()), st.act) else s.End(y)
    ensures s.From(y) <= Next(s, st).From(y)
    ensures st.side == y ==> forall q :: q in Sends(s.End(y), s.From(y.Peer()), st.act) ==> q in Next(s, st).From(y)
  {
  }

  lemma NextCovers(s: System, st: Step, y: Side, i: nat)
    requires Inv(s) && Enabled(s, st)
    ensures Covered(s.End(y).ep, i) ==> Covered(Next(s, st).End(y).ep, i)
    ensures st.side == y && st.act.Pass? && st.act.net.Some?
            && i in Items(st.act.net.value.AsSeg()) && i < s.End(y).ep.recvNext + WINDOW
            ==> Covered(Next(s, st).End(y).ep, i)
  {
    NextEnd(s, st, y);
    if st.side == y {
      InvEnd(s, y);
      ActCovers(s.End(y), s.End(y.Peer()), s.From(y.Peer()), st.act, i);
    }
  }

  lemma GrowsEnd(s: System, st: Step, y: Side)
    requires Inv(s) && Enabled(s, st)
    ensures Inv(Next(s, st)) && Grows(s.End(y), Next(s, st).End(y))
  {
    InvNext(s, st);
  }

  lemma {:induction false} ExecCovers(s: System, steps: seq<Step>, y: Side, i: nat)
    requires Inv(s) && Possible(s, steps) && Covered(s.End(y).ep, i)
    ensures Covered(Exec(s, steps).End(y).ep, i)
    decreases |steps|
  {
    if steps != [] {
      NextCovers(s, steps[0], y, i);
      InvNext(s, steps[0]);
      ExecCovers(Next(s, steps[0]), steps[1..], y, i);
    }
  }

  lemma {:induction false} DeliveryCovers(s: System, steps: seq<Step>, y: Side, p: Packet, i: nat)
    requires Inv(s) && Possible(s, steps) && Delivered(steps, y, p)
    requires i in Items(p.AsSeg()) && i < s.End(y).ep.recvNext + WINDOW
    ensures Covered(Exec(s, steps).End(y).ep, i)
    decreases |steps|
  {
    var s1 := Next(s, steps[0]);
    GrowsEnd(s, steps[0], y);
    if steps[0] == Step(y, Pass(Some(p))) {
      NextCovers(s, steps[0], y, i);
      ExecCovers(s1, steps[1..], y, i);
    } else {
      DeliveryCovers(s1, steps[1..], y, p, i);
    }
  }

  // -------------------------------------------------------------------------
  // Acknowledgements
  // -------------------------------------------------------------------------

  // Among these packets is an acknowledgement of everything before t.
  ghost predicate HasAck(ps: seq<Packet>, t: nat) { exists q :: q in ps && q.isAck && q.ack >= t }

  // In the step st side y sends one.
  ghost predicate StepAcks(s: System, st: Step, y: Side, t: nat)
    requires Enabled(s, st)
  {
    st.side == y && HasAck(Sends(s.End(y), s.From(y.Peer()), st.act), t)
  }

  // In the run steps from s side y sends one, whatever it sent before.
  ghost predicate AcksDuring(s: System, steps: seq<Step>, y: Side, t: nat)
    requires Possible(s, steps)
    decreases |steps|
  {
    steps != [] && (StepAcks(s, steps[0], y, t) || AcksDuring(Next(s, steps[0]), steps[1..], y, t))
  }

  // Side y has sent one at some time; it may arrive.
  ghost predicate Acked(s: System, y: Side, t: nat) { exists q :: q in s.From(y) && q.isAck && q.ack >= t }

  lemma {:induction false} ExecAcked(s: System, steps: seq<Step>, y: Side, t: nat)
    requires Possible(s, steps) && Acked(s, y, t)
    ensures Acked(Exec(s, steps), y, t)
    decreases |steps|
  {
    if steps != [] {
      NextEnd(s, steps[0], y);
      ExecAcked(Next(s, steps[0]), steps[1..], y, t);
    }
  }

  // What is sent during the run may arrive after it.
  lemma {:induction false} AckArrives(s: System, steps: seq<Step>, y: Side, t: nat)
    requires Possible(s, steps) && AcksDuring(s, steps, y, t)
    ensures Acked(Exec(s, steps), y, t)
    decreases |steps|
  {
    NextEnd(s, steps[0], y);
    if StepAcks(s, steps[0], y, t) {
      var q :| q in Sends(s.End(y), s.From(y.Peer()), steps[0].act) && q.isAck && q.ack >= t;
      assert q in Next(s, steps[0]).From(y);
      ExecAcked(Next(s, steps[0]), steps[1..], y, t);
    } else {
      AckArrives(Next(s, steps[0]), steps[1..], y, t);
    }
  }

  // One pass is due an acknowledgement when the receive side moves on, or a
  // segment arrives that lies before receive_next.
  lemma DueAck(e: Endpoint, p: Packet, t: nat)
    requires e.InWindow() && !e.finReceived
    requires var e' := Wake(e, Some(p)).ep;
             && t <= e'.recvNext
             && (e'.recvNext != e.recvNext || e'.finReceived || (p.AsSeg().Len() > 0 && p.AsSeg().End() <= e.recvNext))
    ensures HasAck(Wake(e, Some(p)).sent, t)
  {
    hide Wake;
    PassPlace(e, Some(p));
    if p.start >= e.recvNext + WINDOW { TooNewIgnored(e, p.AsSeg()); }
    PassAcks(e, p);
  }

  lemma TooNewIgnored(e: Endpoint, s: Seg)
    requires !e.finReceived && e.recvNext + WINDOW <= s.start
    ensures HandleIncoming(e, s).ep == e
  {
  }

  // Whenever the receive side moves on, or a segment lying before t arrives, y acknowledges the place it has reached.
  lemma NextAcks(s: System, st: Step, y: Side, t: nat)
    requires Inv(s) && Enabled(s, st) && !s.End(y).ep.finReceived
    requires var e' := Next(s, st).End(y).ep;
             || e'.recvNext != s.End(y).ep.recvNext || e'.finReceived
             || (st.side == y && st.act.Pass? && st.act.net.Some? && st.act.net.value.AsSeg().Len() > 0
                 && st.act.net.value.AsSeg().End() <= s.End(y).ep.recvNext)
    requires t <= Next(s, st).End(y).ep.recvNext
    ensures StepAcks(s, st, y, t)
  {
    hide EndOk, WireOk, Wake, TimedOut, Inv, HasAck;
    var n, arriving := s.End(y), s.From(y.Peer());
    NextEnd(s, st, y);
    InvInWindow(s, y);
    assert st.side == y;
    if !(st.act.Pass? && st.act.net.Some?) {
      OtherActsSamePlace(n, arriving, st.act);
      assert false;
    } else {
      var p := st.act.net.value;
      DueAck(n.ep, p, t);
    }
  }

  lemma InvInWindow(s: System, y: Side)
    requires Inv(s)
    ensures s.End(y).ep.InWindow()
  {
  }

  // Once the FIN has been consumed, everything the peer has issued has been received.
  lemma FinMeansAll(s: System, y: Side)
    requires Inv(s) && s.End(y).ep.finReceived
    ensures s.End(y).ep.recvNext == s.End(y.Peer()).ep.nextSeq
  {
    InvEnd(s, y);
  }

  /** Serving a segment that ends at or before t makes y send an acknowledgement of t in the course of
      the run, if it has received up to t by its end; a duplicate is acknowledged like a new one. */
  lemma {:induction false} EventuallyAcked(s: System, steps: seq<Step>, y: Side, t: nat, p: Packet)
    requires Inv(s) && Possible(s, steps) && !s.End(y).ep.finReceived
    requires t <= s.End(y.Peer()).ep.nextSeq && t <= Exec(s, steps).End(y).ep.recvNext
    requires p.AsSeg().Len() > 0 && p.AsSeg().End() <= t
    requires s.End(y).ep.recvNext < t || Delivered(steps, y, p)
    ensures AcksDuring(s, steps, y, t)
    decreases |steps|
  {
    var st, s1 := steps[0], Next(s, steps[0]);
    GrowsEnd(s, st, y);
    GrowsEnd(s, st, y.Peer());
    NextEnd(s, st, y);
    if s1.End(y).ep.finReceived { FinMeansAll(s1, y); }
    var moved := s1.End(y).ep.recvNext != s.End(y).ep.recvNext || s1.End(y).ep.finReceived;
    if (moved || st == Step(y, Pass(Some(p)))) && t <= s1.End(y).ep.recvNext && (moved || t <= s.End(y).ep.recvNext) {
      NextAcks(s, st, y, t);
    } else {
      EventuallyAcked(s1, steps[1..], y, t, p);
    }
  }

  // -------------------------------------------------------------------------
  // Recovery
  // -------------------------------------------------------------------------

  lemma {:induction false} TilesCover(buf: seq<Seg>, lo: nat, hi: nat, i: nat) returns (k: nat)
    requires Tiles(buf, lo, hi) && lo <= i < hi
    ensures k < |buf| && i in Items(buf[k])
  {
    if i < buf[0].End() {
      k := 0;
    } else {
      var k' := TilesCover(buf[1..], buf[0].End(), hi, i);
      k := k' + 1;
    }
  }

  lemma {:induction false} TilesEnds(buf: seq<Seg>, lo: nat, hi: nat, k: nat)
    requires Tiles(buf, lo, hi) && k < |buf|
    ensures lo < buf[k].End() <= hi && buf[k].Len() > 0
  {
    TilesBound(buf[1..], buf[0].End(), hi);
    if k > 0 {
      TilesEnds(buf[1..], buf[0].End(), hi, k - 1);
    }
  }

  lemma ResentPacket(buf: seq<Seg>, recvNext: nat, k: nat)
    requires k < |buf|
    ensures var p := Packet(buf[k].start, recvNext, true, buf[k].data, buf[k].fin);
            p in Resend(buf, recvNext) && p.AsSeg() == buf[k]
  {
    ResendSends(buf, recvNext, Packet(buf[k].start, recvNext, true, buf[k].data, buf[k].fin));
  }

  // The send-side facts about an end that has something in flight.
  lemma InFlightTiled(s: System, x: Side)
    requires Inv(s) && s.End(x).ep.InFlight()
    ensures var e := s.End(x).ep;
            && e.sendBuf != [] && e.sendBuf[0].start <= e.sendBase
            && Tiles(e.sendBuf, e.sendBuf[0].start, e.nextSeq)
            && e.nextSeq <= e.sendBase + WINDOW
            && e.sendBase <= s.End(x.Peer()).ep.recvNext
  {
  }

  lemma ExpireSteps(s: System, x: Side)
    requires Inv(s) && Enabled(s, Step(x, Expire)) && s.End(x).ep.retrans < MAX_RETRANSMISSIONS
    ensures var s1, e := Next(s, Step(x, Expire)), s.End(x).ep;
            && Inv(s1) && s1.End(x.Peer()) == s.End(x.Peer())
            && s1.End(x).ep.nextSeq == e.nextSeq && s1.End(x).ep.sendBuf == e.sendBuf
            && forall p :: p in Resend(e.sendBuf, e.recvNext) ==> p in s1.From(x)
  {
    InvNext(s, Step(x, Expire));
    NextEnd(s, Step(x, Expire), x);
    NextEnd(s, Step(x, Expire), x.Peer());
  }

  // Everything in flight at the resend has been received once each resent segment has arrived.
  lemma CaughtUp(s: System, x: Side, steps: seq<Step>, i: nat)
    requires Inv(s) && Enabled(s, Step(x, Expire)) && s.End(x).ep.retrans < MAX_RETRANSMISSIONS
    requires var s1, e := Next(s, Step(x, Expire)), s.End(x).ep;
             Possible(s1, steps) && forall p :: p in Resend(e.sendBuf, e.recvNext) ==> Delivered(steps, x.Peer(), p)
    requires i < s.End(x).ep.nextSeq
    ensures Covered(Exec(Next(s, Step(x, Expire)), steps).End(x.Peer()).ep, i)
  {
    var s1, e, y := Next(s, Step(x, Expire)), s.End(x).ep, x.Peer();
    ExpireSteps(s, x);
    InFlightTiled(s, x);
    if i < e.sendBase {
      ExecCovers(s1, steps, y, i);
    } else {
      var k := TilesCover(e.sendBuf, e.sendBuf[0].start, e.nextSeq, i);
      ResentPacket(e.sendBuf, e.recvNext, k);
      var b := e.sendBuf[k];
      DeliveryCovers(s1, steps, y, Packet(b.start, e.recvNext, true, b.data, b.fin), i);
    }
  }

  lemma RecoveredPlace(s: System, x: Side, steps: seq<Step>)
    requires Inv(s) && Enabled(s, Step(x, Expire)) && s.End(x).ep.retrans < MAX_RETRANSMISSIONS
    requires var s1, e := Next(s, Step(x, Expire)), s.End(x).ep;
             Possible(s1, steps) && forall p :: p in Resend(e.sendBuf, e.recvNext) ==> Delivered(steps, x.Peer(), p)
    ensures var s2 := Exec(Next(s, Step(x, Expire)), steps);
            s.End(x).ep.nextSeq <= s2.End(x.Peer()).ep.recvNext <= s2.End(x).ep.nextSeq
  {
    hide Next, StreamOf;
    var s1, e, y := Next(s, Step(x, Expire)), s.End(x).ep, x.Peer();
    var s2 := Exec(s1, steps);
    ExpireSteps(s, x);
    InvExec(s1, steps);
    InvEnd(s2, y);
    NextNotCovered(s2.End(y).ep, StreamOf(s2.End(x)), s2.End(y).read);
    if s2.End(y).ep.recvNext < e.nextSeq {
      CaughtUp(s, x, steps, s2.End(y).ep.recvNext);
    }
  }

  lemma RecoveredAck(s: System, x: Side, steps: seq<Step>)
    requires Inv(s) && Enabled(s, Step(x, Expire)) && s.End(x).ep.retrans < MAX_RETRANSMISSIONS
    requires var s1, e := Next(s, Step(x, Expire)), s.End(x).ep;
             Possible(s1, steps) && forall p :: p in Resend(e.sendBuf, e.recvNext) ==> Delivered(steps, x.Peer(), p)
    requires !s.End(x.Peer()).ep.finReceived
    ensures AcksDuring(Next(s, Step(x, Expire)), steps, x.Peer(), s.End(x).ep.nextSeq)
  {
    var s1, e := Next(s, Step(x, Expire)), s.End(x).ep;
    ExpireSteps(s, x);
    RecoveredPlace(s, x, steps);
    InFlightTiled(s, x);
    TilesEnds(e.sendBuf, e.sendBuf[0].start, e.nextSeq, 0);
    ResentPacket(e.sendBuf, e.recvNext, 0);
    var p := Packet(e.sendBuf[0].start, e.recvNext, true, e.sendBuf[0].data, e.sendBuf[0].fin);
    EventuallyAcked(s1, steps, x.Peer(), e.nextSeq, p);
  }

  /** Go-Back-N recovery. From any reachable state, let side x time out and resend. In whatever run
      follows, with any other steps and old packets in between, once each resent segment has reached
      the peer's control loop at least once, in any order:
      the peer has received everything that was in flight, and nothing that was not issued; and
      unless it had consumed a FIN before, it sends an acknowledgement of all of it in this run, also
      when it had received and acknowledged everything already. That packet may then arrive. */
  lemma GoBackNRecovery(s: System, x: Side, steps: seq<Step>)
    requires Reachable(s) && Enabled(s, Step(x, Expire)) && s.End(x).ep.retrans < MAX_RETRANSMISSIONS
    requires var s1, e := Next(s, Step(x, Expire)), s.End(x).ep;
             Possible(s1, steps) && forall p :: p in Resend(e.sendBuf, e.recvNext) ==> Delivered(steps, x.Peer(), p)
    ensures var s2, target := Exec(Next(s, Step(x, Expire)), steps), s.End(x).ep.nextSeq;
            && target <= s2.End(x.Peer()).ep.recvNext <= s2.End(x).ep.nextSeq
            && (s2.End(x).ep.nextSeq == target ==> s2.End(x.Peer()).ep.recvNext == target)
            && (!s.End(x.Peer()).ep.finReceived ==>
                  AcksDuring(Next(s, Step(x, Expire)), steps, x.Peer(), target) && Acked(s2, x.Peer(), target))
  {
    InvReachable(s);
    RecoveredPlace(s, x, steps);
    if !s.End(x.Peer()).ep.finReceived {
      RecoveredAck(s, x, steps);
      AckArrives(Next(s, Step(x, Expire)), steps, x.Peer(), s.End(x).ep.nextSeq);
    }
  }

  lemma {:induction false} TilesFirst(buf: seq<Seg>, lo: nat, hi: nat, k: nat)
    requires Tiles(buf, lo, hi) && k < |buf|
    ensures buf[0].End() <= buf[k].End()
  {
    if k > 0 { TilesEnds(buf[1..], buf[0].End(), hi, k - 1); }
  }

  // A send buffer has nothing before its base.
  lemma TiledPast(buf: seq<Seg>, base: nat, hi: nat, k: nat)
    requires Tiled(buf, base, hi) && k < |buf|
    ensures base < buf[k].End() && base < hi
  {
    TilesFirst(buf, buf[0].start, hi, k);
    TilesBound(buf, buf[0].start, hi);
    TilesEnds(buf, buf[0].start, hi, 0);
  }

  lemma AckReleasesEnd(n: Node, ack: nat, target: nat)
    requires SendOk(n) && target <= ack <= n.ep.nextSeq
    ensures var e, e' := n.ep, HandleAck(n.ep, ack).ep;
            && target <= e'.sendBase
            && (forall k :: 0 <= k < |e'.sendBuf| ==> target < e'.sendBuf[k].End())
            && (e.nextSeq == target && !e.closeQueued ==> e'.sendBuf == [] && !e'.InFlight())
            && (e.nextSeq == target && e.closeQueued ==> e'.sendBuf == [Seg(target, [], true)])
  {
    var e, e' := n.ep, HandleAck(n.ep, ack).ep;
    AckKeeps(n, ack);
    forall k | 0 <= k < |e'.sendBuf| ensures target < e'.sendBuf[k].End() {
      TiledPast(e'.sendBuf, e'.sendBase, e'.nextSeq, k);
    }
    if e.nextSeq == target && !e.closeQueued {
      if e'.sendBuf != [] { TiledPast(e'.sendBuf, e'.sendBase, e'.nextSeq, 0); }
    }
    if e.nextSeq == target && e.closeQueued {
      DequeueTiled(e.sendBuf, e.sendBase, e.nextSeq, ack, StreamOf(n));
      var left := Dequeue(e.sendBuf, ack);
      if left != [] { TiledPast(left, ack, e.nextSeq, 0); }
      assert e'.sendBuf == [] + [Seg(target, [], true)];
    }
  }

  /** The acknowledgement found there releases everything that was resent. When nothing has been
      sent since, the send buffer is then empty, or holds just the FIN that was waiting. */
  lemma AckReleases(s: System, x: Side, q: Packet, target: nat)
    requires Reachable(s) && q in s.From(x.Peer()) && q.isAck && target <= q.ack
    ensures s.End(x).ep.InWindow()
    ensures var e, e' := s.End(x).ep, HandleAck(s.End(x).ep, q.ack).ep;
            && target <= e'.sendBase
            && (forall k :: 0 <= k < |e'.sendBuf| ==> target < e'.sendBuf[k].End())
            && (e.nextSeq == target && !e.closeQueued ==> e'.sendBuf == [] && !e'.InFlight())
            && (e.nextSeq == target && e.closeQueued ==> e'.sendBuf == [Seg(target, [], true)])
  {
    InvReachable(s);
    InvEnd(s, x);
    InvEnd(s, x.Peer());
    assert PacketOk(s.End(x.Peer()), q);
    AckReleasesEnd(s.End(x), q.ack, target);
  }
}
