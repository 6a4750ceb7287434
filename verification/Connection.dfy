/** One end of a connection as a whole: every handler, and every pass of the control loop, keeps the
    send side, the receive side and the record of state-machine events in order. */
module Connection {
  import opened Basics
  import opened Segments
  import opened Protocol
  import opened Streams
  import opened Receiver
  import opened SendSide

  // -------------------------------------------------------------------------
  // The close state machine
  // -------------------------------------------------------------------------

  function Replay(log: seq<Event>): State {
    if log == [] then Established else Transition(Replay(log[..|log| - 1]), log[|log| - 1])
  }

  // Each event at most once, and the own FIN acknowledged only after it was sent.
  ghost predicate LegalLog(log: seq<Event>) {
    && (forall i, j :: 0 <= i < j < |log| ==> log[i] != log[j])
    && (forall i :: 0 <= i < |log| && log[i] == RecvAck ==> SendFin in log[..i])
  }

  lemma LogAppend(log: seq<Event>, ev: Event)
    requires LegalLog(log) && ev !in log && (ev == RecvAck ==> SendFin in log)
    ensures LegalLog(log + [ev])
    ensures Replay(log + [ev]) == Transition(Replay(log), ev)
  {
    var l := log + [ev];
    assert l[..|log|] == log;
    forall i | 0 <= i < |l| && l[i] == RecvAck ensures SendFin in l[..i] {
      if i < |log| { assert l[..i] == log[..i]; }
    }
  }

  // The flags say which events have happened, and the state is where they lead.
  ghost predicate FlagsOk(n: Node) {
    && LegalLog(n.events)
    && (n.ep.finSent <==> SendFin in n.events)
    && (n.ep.FinAcked() <==> RecvAck in n.events)
    && (n.ep.finReceived <==> RecvFin in n.events)
  }

  ghost predicate LogOk(n: Node) { FlagsOk(n) && n.ep.state == Replay(n.events) }

  lemma LogSame(n: Node, n': Node)
    requires LogOk(n) && n'.events == n.events && n'.ep.state == n.ep.state
    requires n'.ep.finSent == n.ep.finSent && n'.ep.FinAcked() == n.ep.FinAcked()
    requires n'.ep.finReceived == n.ep.finReceived
    ensures LogOk(n')
  {
  }

  lemma LogStep(n: Node, n': Node, ev: Event)
    requires LogOk(n) && n'.events == n.events + [ev] && n'.ep.state == Transition(n.ep.state, ev)
    requires n'.ep.finSent == (n.ep.finSent || ev == SendFin)
    requires n'.ep.FinAcked() == (n.ep.FinAcked() || ev == RecvAck)
    requires n'.ep.finReceived == (n.ep.finReceived || ev == RecvFin)
    requires match ev case SendFin => !n.ep.finSent case RecvFin => !n.ep.finReceived
                      case RecvAck => n.ep.finSent && !n.ep.FinAcked()
    ensures LogOk(n')
  {
    LogAppend(n.events, ev);
  }

  // The state in terms of the flags: only the order of the two FINs is needed besides.
  function StateOf(finSent: bool, finAcked: bool, finReceived: bool, peerFirst: bool): State {
    match (finSent, finAcked, finReceived)
    case (false, _, false) => Established
    case (false, _, true) => CloseWait
    case (true, false, false) => FinWait1
    case (true, true, false) => FinWait2
    case (true, false, true) => if peerFirst then LastAck else Closing
    case (true, true, true) => Closed
  }

  predicate PeerFirst(log: seq<Event>) { log != [] && log[0] == RecvFin }

  lemma FourEvents(a: Event, b: Event, c: Event, d: Event)
    ensures a == b || a == c || a == d || b == c || b == d || c == d
  {
  }

  lemma LogShort(log: seq<Event>)
    requires LegalLog(log)
    ensures |log| <= 3
  {
    if |log| > 3 {
      FourEvents(log[0], log[1], log[2], log[3]);
      assert false;
    }
  }

  // A legal log written out: where it leads depends only on its members and its first event.
  lemma ReplayLegal(log: seq<Event>)
    requires LegalLog(log)
    ensures Replay(log) == StateOf(SendFin in log, RecvAck in log, RecvFin in log, PeerFirst(log))
  {
    LogShort(log);
    if |log| == 0 {
    } else if |log| == 1 {
      assert log[0] != RecvAck by { assert log[..0] == []; }
      assert Replay(log) == Transition(Replay(log[..0]), log[0]);
    } else if |log| == 2 {
      ReplayLegal2(log);
    } else {
      ReplayLegal3(log);
    }
  }

  lemma ReplayLegal2(log: seq<Event>)
    requires LegalLog(log) && |log| == 2
    ensures Replay(log) == StateOf(SendFin in log, RecvAck in log, RecvFin in log, PeerFirst(log))
  {
    var a, b := log[0], log[1];
    assert log == [a, b] && a != b && log[..1] == [a] && log[..0] == [];
    assert [a][..0] == [];
    assert Replay([a]) == Transition(Established, a);
    assert Replay(log) == Transition(Replay([a]), b);
  }

  lemma ReplayLegal3(log: seq<Event>)
    requires LegalLog(log) && |log| == 3
    ensures Replay(log) == StateOf(SendFin in log, RecvAck in log, RecvFin in log, PeerFirst(log))
  {
    var a, b, c := log[0], log[1], log[2];
    assert log == [a, b, c] && a != b && a != c && b != c;
    assert log[..0] == [] && log[..1] == [a] && log[..2] == [a, b];
    assert [a][..0] == [] && [a, b][..1] == [a];
    assert Replay([a]) == Transition(Established, a);
    assert Replay([a, b]) == Transition(Replay([a]), b);
    assert Replay(log) == Transition(Replay([a, b]), c);
  }

  /** The state is determined by: own FIN issued or queued, own FIN acknowledged, peer's FIN
      consumed; and by which FIN came first in the one case where these leave it open. */
  lemma StateMeaning(n: Node)
    requires LogOk(n)
    ensures n.ep.state == StateOf(n.ep.finSent, n.ep.FinAcked(), n.ep.finReceived, PeerFirst(n.events))
  {
    ReplayLegal(n.events);
  }

  // -------------------------------------------------------------------------
  // Handlers
  // -------------------------------------------------------------------------

  // All that holds of one end, st being its peer's stream.
  ghost predicate Local(n: Node, st: Stream) {
    SendOk(n) && LogOk(n) && Receiving(n.ep, st, n.read)
  }

  // What a handler with effect r does to n: everything above is kept, nothing moves backwards, the
  // packets sent are in order, and the send base stays within what the peer has received (limit).
  ghost predicate Moves(n: Node, r: Effect, st: Stream, limit: nat) {
    && Local(After(n, r), st)
    && Grows(n, After(n, r))
    && PacketsOk(After(n, r), r.sent)
    && (n.ep.sendBase <= limit ==> r.ep.sendBase <= limit)
  }

  lemma GrowsTransitive(n: Node, n1: Node, n2: Node)
    requires Grows(n, n1) && Grows(n1, n2)
    ensures Grows(n, n2)
  {
    ExtendsTransitive(StreamOf(n), StreamOf(n1), StreamOf(n2));
  }

  lemma AfterThen(n: Node, r1: Effect, r2: Effect)
    ensures After(After(n, r1), r2) == After(n, Then(r1, r2))
  {
    assert n.events + (r1.events + r2.events) == n.events + r1.events + r2.events;
  }

  lemma GrowsJoin(n: Node, n1: Node, n2: Node, sent1: seq<Packet>, sent2: seq<Packet>)
    requires Grows(n, n1) && Grows(n1, n2) && PacketsOk(n1, sent1) && PacketsOk(n2, sent2)
    ensures Grows(n, n2) && PacketsOk(n2, sent1 + sent2)
  {
    GrowsTransitive(n, n1, n2);
    PacketsOkGrows(n1, n2, sent1);
  }

  lemma MovesThen(n: Node, r1: Effect, r2: Effect, st: Stream, limit: nat)
    requires Moves(n, r1, st, limit) && Moves(After(n, r1), r2, st, limit)
    ensures Moves(n, Then(r1, r2), st, limit)
  {
    AfterThen(n, r1, r2);
    GrowsJoin(n, After(n, r1), After(n, Then(r1, r2)), r1.sent, r2.sent);
  }

  // The receive side of an endpoint does not depend on the fields the send side changes.
  lemma ReceivingSame(e: Endpoint, e': Endpoint, st: Stream, read: seq<byte>)
    requires Receiving(e, st, read) && SameReceiver(e, e')
    ensures Receiving(e', st, read)
  {
  }

  lemma NothingMoves(n: Node, st: Stream, limit: nat)
    requires Local(n, st)
    ensures Moves(n, Effect(n.ep, [], []), st, limit)
  {
    assert After(n, Effect(n.ep, [], [])) == n;
  }

  lemma AppDataFlags(n: Node)
    requires SendOk(n) && n.ep.appIn != []
    ensures var r := HandleAppData(n.ep);
            && r.ep.finSent == n.ep.finSent && r.ep.closeQueued == n.ep.closeQueued
            && r.ep.sendBase == n.ep.sendBase && r.ep.state == n.ep.state && r.events == []
  {
  }

  // Whether the events are recorded does not matter to the send side.
  lemma EventsElsewhere(n: Node, r: Effect)
    requires Keeps(n, r)
    ensures SendOk(After(n, r)) && Grows(n, After(n, r)) && PacketsOk(After(n, r), r.sent)
  {
    var n', m := n.(ep := r.ep), After(n, r);
    assert StreamOf(m) == StreamOf(n');
    forall p | p in r.sent ensures PacketOk(m, p) {
      assert PacketOk(n', p);
    }
  }

  lemma AppDataMoves(n: Node, st: Stream, limit: nat)
    requires Local(n, st) && n.ep.appIn != []
    ensures Moves(n, HandleAppData(n.ep), st, limit)
  {
    var r := HandleAppData(n.ep);
    AppDataKeeps(n);
    AppDataFlags(n);
    ReceivingSame(n.ep, r.ep, st, n.read);
    LogSame(n, After(n, r));
    assert After(n, r) == n.(ep := r.ep);
  }

  lemma AppCloseMoves(n: Node, st: Stream, limit: nat)
    requires Local(n, st) && n.closed && n.ep.appIn == [] && !n.ep.closeRequested
    ensures Moves(n, HandleAppClose(n.ep), st, limit)
  {
    var r := HandleAppClose(n.ep);
    AppCloseKeeps(n);
    ReceivingSame(n.ep, r.ep, st, n.read);
    if n.ep.finSent {
      NothingMoves(n, st, limit);
    } else {
      LogStep(n, After(n, r), SendFin);
      EventsElsewhere(n, r);
    }
  }

  lemma AckMoves(n: Node, ack: nat, st: Stream, limit: nat)
    requires Local(n, st) && ack <= limit
    ensures Moves(n, HandleAck(n.ep, ack), st, limit)
  {
    hide LogOk, FlagsOk, Receiving, Tiled, Replay, StreamOf;
    var r := HandleAck(n.ep, ack);
    AckKeeps(n, ack);
    ReceivingSame(n.ep, r.ep, st, n.read);
    if r.events == [] {
      LogSame(n, After(n, r));
    } else {
      LogStep(n, After(n, r), RecvAck);
    }
    EventsElsewhere(n, r);
  }

  // Only fields of the receive side, the connection state and the event log differ.
  ghost predicate SameSender(e: Endpoint, e': Endpoint) {
    e' == e.(recvNext := e'.recvNext, recvBuf := e'.recvBuf, appOut := e'.appOut,
             finReceived := e'.finReceived, state := e'.state)
  }

  lemma IncomingSameSender(e: Endpoint, s: Seg)
    ensures var r := HandleIncoming(e, s);
            && SameSender(e, r.ep)
            && (r.sent == [] || r.sent == [AckOf(r.ep)])
            && (r.events == [] ==> r.ep.state == e.state && r.ep.finReceived == e.finReceived)
            && (r.events != [] ==> r.events == [RecvFin] && r.ep.state == Transition(e.state, RecvFin)
                                   && !e.finReceived && r.ep.finReceived)
  {
  }

  lemma SendOkSame(n: Node, n': Node)
    requires SendOk(n) && SameSender(n.ep, n'.ep) && n' == n.(ep := n'.ep, events := n'.events)
    requires n.ep.recvNext <= n'.ep.recvNext
    ensures SendOk(n') && Grows(n, n')
  {
    assert StreamOf(n') == StreamOf(n);
  }

  lemma IncomingLog(n: Node, s: Seg)
    requires SendOk(n) && LogOk(n)
    ensures LogOk(After(n, HandleIncoming(n.ep, s)))
  {
    var r := HandleIncoming(n.ep, s);
    IncomingSameSender(n.ep, s);
    if r.events == [] {
      LogSame(n, After(n, r));
    } else {
      LogStep(n, After(n, r), RecvFin);
    }
  }

  lemma IncomingSends(n: Node, s: Seg)
    requires SendOk(n) && n.ep.recvNext <= HandleIncoming(n.ep, s).ep.recvNext
    ensures var r := HandleIncoming(n.ep, s);
            SendOk(After(n, r)) && Grows(n, After(n, r)) && PacketsOk(After(n, r), r.sent)
  {
    var r := HandleIncoming(n.ep, s);
    IncomingSameSender(n.ep, s);
    SendOkSame(n, After(n, r));
    AckOfOk(After(n, r));
  }

  lemma IncomingMoves(n: Node, s: Seg, st: Stream, limit: nat)
    requires Local(n, st) && Agrees(Items(s), st) && s.Len() > 0
    ensures Moves(n, HandleIncoming(n.ep, s), st, limit)
  {
    IncomingReceives(n.ep, s, st, n.read);
    IncomingLog(n, s);
    IncomingSends(n, s);
    IncomingSameSender(n.ep, s);
  }

  lemma NetworkMoves(n: Node, p: Packet, st: Stream, limit: nat)
    requires Local(n, st) && Agrees(Items(p.AsSeg()), st) && (p.isAck ==> p.ack <= limit)
    ensures Moves(n, HandleNetwork(n.ep, p), st, limit)
  {
    var r1 := if p.isAck then HandleAck(n.ep, p.ack) else Effect(n.ep, [], []);
    if p.isAck {
      AckMoves(n, p.ack, st, limit);
    } else {
      NothingMoves(n, st, limit);
    }
    if |p.data| > 0 || p.fin {
      IncomingMoves(After(n, r1), p.AsSeg(), st, limit);
      MovesThen(n, r1, HandleIncoming(r1.ep, p.AsSeg()), st, limit);
    }
  }

  lemma NetworkKeepsApp(e: Endpoint, p: Packet)
    requires e.InWindow()
    ensures var e' := HandleNetwork(e, p).ep; e'.appIn == e.appIn && e'.closeRequested == e.closeRequested
  {
    hide Dequeue;
    var r1 := if p.isAck then HandleAck(e, p.ack) else Effect(e, [], []);
    assert r1.ep.appIn == e.appIn && r1.ep.closeRequested == e.closeRequested;
    if |p.data| > 0 || p.fin { IncomingSameSender(r1.ep, p.AsSeg()); }
  }

  lemma ClearRequestMoves(n: Node, st: Stream, limit: nat)
    requires Local(n, st)
    ensures Moves(n, Effect(n.ep.(closeRequested := false), [], []), st, limit)
  {
    var e0 := n.ep.(closeRequested := false);
    var n0 := After(n, Effect(e0, [], []));
    assert n0 == n.(ep := e0);
    assert StreamOf(n0) == StreamOf(n);
    LogSame(n, n0);
    ReceivingSame(n.ep, e0, st, n.read);
  }

  lemma EndPassMoves(n: Node, r: Effect, st: Stream, limit: nat)
    requires Moves(n, r, st, limit)
    ensures Moves(n, EndPass(r), st, limit)
  {
    var m, m' := After(n, r), After(n, EndPass(r));
    assert StreamOf(m') == StreamOf(m);
    LogSame(m, m');
    forall p | p in r.sent ensures PacketOk(m', p) { assert PacketOk(m, p); }
  }

  lemma AppDataStageMoves(n: Node, st: Stream, limit: nat)
    requires Local(n, st)
    ensures Moves(n, AppDataStage(n.ep), st, limit)
    ensures var e1 := AppDataStage(n.ep).ep; CloseReady(n.ep) ==> n.closed && e1.appIn == [] && !e1.closeRequested
  {
    if CloseReady(n.ep) {
      ClearRequestMoves(n, st, limit);
    } else if AppDataReady(n.ep) {
      AppDataMoves(n, st, limit);
    } else {
      NothingMoves(n, st, limit);
    }
  }

  lemma NetworkStageMoves(n: Node, net: Option<Packet>, st: Stream, limit: nat)
    requires Local(n, st)
    requires net.Some? ==> Agrees(Items(net.value.AsSeg()), st) && (net.value.isAck ==> net.value.ack <= limit)
    ensures Moves(n, NetworkStage(n.ep, net), st, limit)
    ensures var e' := NetworkStage(n.ep, net).ep;
            e'.appIn == n.ep.appIn && e'.closeRequested == n.ep.closeRequested
  {
    if net.Some? {
      NetworkMoves(n, net.value, st, limit);
      NetworkKeepsApp(n.ep, net.value);
    } else {
      NothingMoves(n, st, limit);
    }
  }

  /** One pass of the control loop, whatever combination of events it serves. */
  lemma WakeMoves(n: Node, net: Option<Packet>, st: Stream, limit: nat)
    requires Local(n, st)
    requires net.Some? ==> Agrees(Items(net.value.AsSeg()), st) && (net.value.isAck ==> net.value.ack <= limit)
    ensures Moves(n, Wake(n.ep, net), st, limit)
  {
    var r1 := AppDataStage(n.ep);
    AppDataStageMoves(n, st, limit);
    var n1 := After(n, r1);
    var r2 := NetworkStage(r1.ep, net);
    NetworkStageMoves(n1, net, st, limit);
    MovesThen(n, r1, r2, st, limit);
    CloseStageMoves(n, Then(r1, r2), CloseReady(n.ep), st, limit);
  }

  lemma CloseStageMoves(n: Node, r: Effect, requested: bool, st: Stream, limit: nat)
    requires Moves(n, r, st, limit)
    requires requested ==> n.closed && r.ep.appIn == [] && !r.ep.closeRequested
    ensures Moves(n, EndPass(Then(r, CloseStage(r.ep, requested))), st, limit)
  {
    if requested {
      AppCloseMoves(After(n, r), st, limit);
    } else {
      NothingMoves(After(n, r), st, limit);
    }
    MovesThen(n, r, CloseStage(r.ep, requested), st, limit);
    EndPassMoves(n, Then(r, CloseStage(r.ep, requested)), st, limit);
  }
}
