/** Two runs that leave an end with the same three flags in two different states: the order of the
    two FINs cannot be left out when the flags are read as a state. */
module CloseOrder {
  import opened Basics
  import opened Segments
  import opened Protocol
  import opened SendSide
  import opened Runs

  // -------------------------------------------------------------------------
  // Runs step by step
  // -------------------------------------------------------------------------

  lemma {:induction false} OneMore(s: System, steps: seq<Step>, st: Step)
    requires Possible(s, steps) && Enabled(Exec(s, steps), st)
    ensures Possible(s, steps + [st]) && Exec(s, steps + [st]) == Next(Exec(s, steps), st)
    decreases |steps|
  {
    hide Next, Enabled;
    if steps == [] {
      assert [] + [st] == [st] && [st][1..] == [];
    } else {
      assert (steps + [st])[1..] == steps[1..] + [st];
      OneMore(Next(s, steps[0]), steps[1..], st);
    }
  }

  lemma ReachNext(s: System, st: Step)
    requires Reachable(s) && Enabled(s, st)
    ensures Reachable(Next(s, st))
  {
    hide Next, Enabled, Initial;
    var s0, steps :| Initial(s0) && Possible(s0, steps) && s == Exec(s0, steps);
    OneMore(s0, steps, st);
  }

  function NewEnd(base: nat, peerBase: nat): Node {
    Node(Endpoint(false, Established, false, false, false, base, base, [], peerBase, [], 0, [], false, [], false),
         base, [], [], false, false, false, [])
  }

  function NewSystem(): System { System(NewEnd(0, 0), NewEnd(0, 0), {}, {}) }

  lemma NewReachable()
    ensures Reachable(NewSystem())
  {
    assert Possible(NewSystem(), []) && Exec(NewSystem(), []) == NewSystem();
  }

  const FIN: Packet := Packet(0, 0, true, [], true)

  // An application that has written nothing closes, and the control loop passes the close on.
  lemma CloseThenPass(n: Node)
    requires n.ep == NewEnd(0, 0).ep.(state := n.ep.state, recvNext := n.ep.recvNext, appOut := n.ep.appOut,
                                      finReceived := n.ep.finReceived)
    requires n.ep.state != Closed && !n.closed
    ensures var n1 := Do(n, {}, Close);
            && Can(n1, {}, Pass(None))
            && Do(n1, {}, Pass(None)).ep
               == n.ep.(finSent := true, state := Transition(n.ep.state, SendFin), nextSeq := 1,
                        sendBuf := [Seg(0, [], true)],
                        done := Transition(n.ep.state, SendFin) == Closed)
            && Sends(n1, {}, Pass(None)) == [Packet(0, n.ep.recvNext, true, [], true)]
  {
    var e := n.ep.(closeRequested := true);
    var r1 := AppDataStage(e);
    assert r1 == Effect(n.ep, [], []);
    var r2 := NetworkStage(r1.ep, None);
    assert r2 == Effect(n.ep, [], []);
    var r3 := CloseStage(r2.ep, true);
    assert r3.sent == [Packet(0, n.ep.recvNext, true, [], true)];
    assert [] + [] + r3.sent == r3.sent;
  }

  predicate NothingReceived(e: Endpoint) {
    && e.recvBuf == [] && e.recvNext == 0 && !e.finReceived && e.sendBase == 0
    && e.appIn == [] && !e.closeRequested && e.InWindow() && !e.closeQueued && !e.done
  }

  // A lone FIN at position 0, before the segment handler and after it.
  lemma FinIsCut()
    ensures Clamp(FIN.AsSeg(), 0) == FIN.AsSeg() && Insert([], FIN.AsSeg()) == [FIN.AsSeg()]
  {
  }

  lemma FinIsFlushed()
    ensures Flush([FIN.AsSeg()], 0) == Flushed([], 1, [[]], true)
  {
  }

  lemma FinHandled(e: Endpoint)
    requires NothingReceived(e)
    ensures var r := HandleIncoming(e, FIN.AsSeg()).ep;
            r == e.(recvNext := 1, finReceived := true, state := Transition(e.state, RecvFin), appOut := r.appOut)
  {
    hide Transition, Clamp, Insert, Flush;
    FinIsCut();
    FinIsFlushed();
  }

  // The peer's FIN arrives at an end that has received nothing.
  lemma FinArrives(e: Endpoint)
    requires NothingReceived(e)
    ensures Ready(e, Some(FIN))
    ensures var r := Wake(e, Some(FIN)).ep;
            r == e.(recvNext := 1, finReceived := true, state := Transition(e.state, RecvFin),
                    appOut := r.appOut, done := Transition(e.state, RecvFin) == Closed)
  {
    hide HandleIncoming, Transition;
    FinHandled(e);
    assert AppDataStage(e) == Effect(e, [], []);
    assert HandleAck(e, 0) == Effect(e, [], []);
  }

  lemma Sent(s: System, st: Step, p: Packet)
    requires Enabled(s, st) && p in Sends(s.End(st.side), s.From(st.side.Peer()), st.act)
    ensures p in Next(s, st).From(st.side)
  {
  }

  // B closes: its FIN is on its way and A is as before.
  lemma PeerCloses(s: System) returns (t: System)
    requires Reachable(s) && s.b == NewEnd(0, 0)
    ensures Reachable(t) && t.a == s.a && FIN in t.fromB && s.fromB <= t.fromB
  {
    var s1 := Next(s, Step(B, Close));
    ReachNext(s, Step(B, Close));
    CloseThenPass(s.b);
    t := Next(s1, Step(B, Pass(None)));
    ReachNext(s1, Step(B, Pass(None)));
    Sent(s1, Step(B, Pass(None)), FIN);
  }

  lemma OwnCloses(s: System) returns (t: System)
    requires Reachable(s) && s.a.ep.state != Closed && !s.a.closed
    requires s.a.ep == NewEnd(0, 0).ep.(state := s.a.ep.state, recvNext := s.a.ep.recvNext, appOut := s.a.ep.appOut,
                                        finReceived := s.a.ep.finReceived)
    ensures Reachable(t) && t.b == s.b && t.fromB == s.fromB && t.a.closed
    ensures t.a.ep == s.a.ep.(finSent := true, state := Transition(s.a.ep.state, SendFin), nextSeq := 1,
                              sendBuf := [Seg(0, [], true)], done := Transition(s.a.ep.state, SendFin) == Closed)
  {
    var s1 := Next(s, Step(A, Close));
    ReachNext(s, Step(A, Close));
    CloseThenPass(s.a);
    t := Next(s1, Step(A, Pass(None)));
    ReachNext(s1, Step(A, Pass(None)));
  }

  lemma FinIsServed(s: System) returns (t: System)
    requires Reachable(s) && FIN in s.fromB
    requires NothingReceived(s.a.ep)
    ensures Reachable(t) && t.a.closed == s.a.closed
    ensures t.a.ep == s.a.ep.(recvNext := 1, finReceived := true, state := Transition(s.a.ep.state, RecvFin),
                              appOut := t.a.ep.appOut, done := Transition(s.a.ep.state, RecvFin) == Closed)
  {
    FinArrives(s.a.ep);
    t := Next(s, Step(A, Pass(Some(FIN))));
    ReachNext(s, Step(A, Pass(Some(FIN))));
  }

  /** Own FIN issued, not acknowledged, peer's FIN consumed: one run ends in CLOSING, another in
      LAST-ACK, so these flags alone do not determine the state. */
  lemma FlagsLeaveTwoStates() returns (s: System, t: System)
    ensures Reachable(s) && Reachable(t)
    ensures s.a.ep.FinIssued() && !s.a.ep.FinAcked() && s.a.ep.finReceived && !s.a.aborted
    ensures t.a.ep.FinIssued() && !t.a.ep.FinAcked() && t.a.ep.finReceived && !t.a.aborted
    ensures s.a.ep.state == Closing && t.a.ep.state == LastAck
  {
    hide Reachable;
    NewReachable();
    var s1 := OwnCloses(NewSystem());
    var s2 := PeerCloses(s1);
    s := FinIsServed(s2);
    var t1 := PeerCloses(NewSystem());
    var t2 := FinIsServed(t1);
    t := OwnCloses(t2);
    NotAborted(s);
    NotAborted(t);
  }

  lemma NotAborted(s: System)
    requires Reachable(s) && s.a.ep.state != Closed
    ensures !s.a.aborted
  {
    InvReachable(s);
  }
}
