/** Two ends of a connection, their applications, and a network that may lose, repeat, delay and
    reorder packets: any packet ever sent may arrive at any time, any number of times, or never. */
module Runs {
  import opened Basics
  import opened Segments
  import opened Protocol
  import opened Streams
  import opened Receiver
  import opened SendSide
  import opened Connection

  // -------------------------------------------------------------------------
  // Steps
  // -------------------------------------------------------------------------

  datatype Action =
    | Write(buf: seq<byte>)           // mywrite
    | Close                           // myclose
    | Read(max: nat)                  // myread
    | Pass(net: Option<Packet>)       // the control loop wakes up and serves what is ready
    | Expire                          // the control loop's wait times out
    | Exit                            // the transport thread ends

  // The application must not write, read or close again after myclose.
  predicate Can(n: Node, arriving: set<Packet>, act: Action) {
    match act
    case Write(_) => !n.closed
    case Close => !n.closed
    case Read(_) => !n.closed && (n.ep.eof || n.ep.appOut != [])
    case Pass(net) => !n.ep.done && n.ep.InWindow() && Ready(n.ep, net) && (net.Some? ==> net.value in arriving)
    case Expire => !n.ep.done && n.ep.InFlight()
    case Exit => n.ep.done && !n.exited
  }

  // What a call of myread(max) returns.
  function ReadResult(e: Endpoint, max: nat): seq<byte>
    requires e.eof || e.appOut != []
  {
    if e.eof then [] else TakeChunk(e.appOut, max).chunk
  }

  function DoRead(n: Node, max: nat): Node
    requires n.ep.eof || n.ep.appOut != []
  {
    if n.ep.eof then n
    else
      var t := TakeChunk(n.ep.appOut, max);
      n.(ep := n.ep.(appOut := t.rest, eof := t.chunk == []), read := n.read + t.chunk)
  }

  function Do(n: Node, arriving: set<Packet>, act: Action): Node
    requires Can(n, arriving, act)
  {
    match act
    case Write(buf) => n.(ep := n.ep.(appIn := n.ep.appIn + [buf]), written := n.written + buf)
    case Close => n.(ep := n.ep.(closeRequested := true), closed := true)
    case Read(max) => DoRead(n, max)
    case Pass(net) => After(n, Wake(n.ep, net))
    case Expire => After(n, TimedOut(n.ep)).(aborted := n.ep.retrans == MAX_RETRANSMISSIONS)
    case Exit => n.(ep := n.ep.(appOut := n.ep.appOut + [[]]), exited := true)
  }

  function Sends(n: Node, arriving: set<Packet>, act: Action): seq<Packet>
    requires Can(n, arriving, act)
  {
    match act
    case Pass(net) => Wake(n.ep, net).sent
    case Expire => TimedOut(n.ep).sent
    case _ => []
  }

  datatype Side = A | B {
    function Peer(): Side { if this == A then B else A }
  }

  datatype Step = Step(side: Side, act: Action)

  // fromA and fromB: every packet either end has ever sent.
  datatype System = System(a: Node, b: Node, fromA: set<Packet>, fromB: set<Packet>) {
    function End(s: Side): Node { if s == A then a else b }

    function From(s: Side): set<Packet> { if s == A then fromA else fromB }

    function Replaced(s: Side, n: Node, ps: seq<Packet>): System {
      var more := set p | p in ps;
      if s == A then System(n, b, fromA + more, fromB) else System(a, n, fromA, fromB + more)
    }
  }

  predicate Enabled(s: System, st: Step) { Can(s.End(st.side), s.From(st.side.Peer()), st.act) }

  function Next(s: System, st: Step): System
    requires Enabled(s, st)
  {
    var n, arriving := s.End(st.side), s.From(st.side.Peer());
    s.Replaced(st.side, Do(n, arriving, st.act), Sends(n, arriving, st.act))
  }

  predicate Possible(s: System, steps: seq<Step>)
    decreases |steps|
  {
    steps == [] || (Enabled(s, steps[0]) && Possible(Next(s, steps[0]), steps[1..]))
  }

  function Exec(s: System, steps: seq<Step>): System
    requires Possible(s, steps)
    decreases |steps|
  {
    if steps == [] then s else Exec(Next(s, steps[0]), steps[1..])
  }

  // -------------------------------------------------------------------------
  // Initial states: both ends have just left the handshake
  // -------------------------------------------------------------------------

  ghost predicate Fresh(n: Node, peerBase: nat) {
    && n.ep == Endpoint(false, Established, false, false, false, n.base, n.base, [],
                        peerBase, [], 0, [], false, [], false)
    && n.written == [] && n.read == [] && !n.closed && !n.exited && !n.aborted && n.events == []
  }

  // Packets of the handshake may still be on their way.
  ghost predicate Handshake(p: Packet, base: nat, peerBase: nat) {
    p.data == [] && !p.fin && p.start <= base && (p.isAck ==> p.ack <= peerBase)
  }

  ghost predicate Initial(s: System) {
    && Fresh(s.a, s.b.base) && Fresh(s.b, s.a.base)
    && (forall p :: p in s.fromA ==> Handshake(p, s.a.base, s.b.base))
    && (forall p :: p in s.fromB ==> Handshake(p, s.b.base, s.a.base))
  }

  ghost predicate Reachable(s: System) {
    exists s0, steps :: Initial(s0) && Possible(s0, steps) && s == Exec(s0, steps)
  }

  // -------------------------------------------------------------------------
  // The invariant
  // -------------------------------------------------------------------------

  // One end, its peer having issued the stream st.
  ghost predicate EndOk(n: Node, st: Stream) {
    && SendOk(n) && FlagsOk(n)
    && Receiving(n.ep, st, n.read)
    && n.ep.state == (if n.aborted then Closed else Replay(n.events))
    && n.ep.done == (n.ep.state == Closed)
    && (n.exited ==> n.ep.done)
  }

  // Every packet ever sent is in order, not only the latest ones.
  ghost predicate WireOk(n: Node, ps: set<Packet>) { forall p :: p in ps ==> PacketOk(n, p) }

  ghost predicate Inv(s: System) {
    && EndOk(s.a, StreamOf(s.b)) && EndOk(s.b, StreamOf(s.a))
    && WireOk(s.a, s.fromA) && WireOk(s.b, s.fromB)
    && s.a.ep.sendBase <= s.b.ep.recvNext
    && s.b.ep.sendBase <= s.a.ep.recvNext
  }

  // What one action of one end guarantees.
  ghost predicate ActsWell(n: Node, n': Node, sent: seq<Packet>, st: Stream, limit: nat) {
    && EndOk(n', st) && Grows(n, n') && PacketsOk(n', sent)
    && (n.ep.sendBase <= limit ==> n'.ep.sendBase <= limit)
  }

  lemma WriteOk(n: Node, buf: seq<byte>, st: Stream, limit: nat)
    requires EndOk(n, st) && !n.closed
    ensures ActsWell(n, Do(n, {}, Write(buf)), [], st, limit)
  {
    var n' := Do(n, {}, Write(buf));
    FlatSnoc(n.ep.appIn, buf);
    assert StreamOf(n') == StreamOf(n);
    assert n'.written == StreamOf(n).bytes + Flat(n'.ep.appIn);
    ReceivingSame(n.ep, n'.ep, st, n.read);
  }

  lemma CloseOk(n: Node, st: Stream, limit: nat)
    requires EndOk(n, st) && !n.closed
    ensures ActsWell(n, Do(n, {}, Close), [], st, limit)
  {
    var n' := Do(n, {}, Close);
    assert StreamOf(n') == StreamOf(n);
    ReceivingSame(n.ep, n'.ep, st, n.read);
  }

  lemma ReceivingRead(e: Endpoint, e': Endpoint, st: Stream, read: seq<byte>, chunk: seq<byte>)
    requires Receiving(e, st, read) && e' == e.(appOut := e'.appOut, eof := e'.eof)
    requires Flat(e.appOut) == chunk + Flat(e'.appOut)
    ensures Receiving(e', st, read + chunk)
  {
    assert read + (chunk + Flat(e'.appOut)) == (read + chunk) + Flat(e'.appOut);
  }

  lemma ReadOk(n: Node, max: nat, st: Stream, limit: nat)
    requires EndOk(n, st) && (n.ep.eof || n.ep.appOut != [])
    ensures ActsWell(n, DoRead(n, max), [], st, limit)
  {
    var n' := DoRead(n, max);
    assert StreamOf(n') == StreamOf(n);
    if !n.ep.eof {
      TakeChunkFlat(n.ep.appOut, max);
      ReceivingRead(n.ep, n'.ep, st, n.read, TakeChunk(n.ep.appOut, max).chunk);
    }
  }

  lemma ExitOk(n: Node, st: Stream, limit: nat)
    requires EndOk(n, st) && n.ep.done
    ensures ActsWell(n, n.(ep := n.ep.(appOut := n.ep.appOut + [[]]), exited := true), [], st, limit)
  {
    hide Tiled, Replay, AllCut, Receiving;
    var n' := n.(ep := n.ep.(appOut := n.ep.appOut + [[]]), exited := true);
    FlatSnoc(n.ep.appOut, []);
    assert StreamOf(n') == StreamOf(n);
    ReceivingRead(n.ep, n'.ep, st, n.read, []);
    assert n.read + [] == n.read;
  }

  lemma ExpireSends(n: Node, done: bool, aborted: bool)
    requires SendOk(n)
    ensures var h := HandleTimeout(n.ep);
            var n' := n.(ep := h.ep.(done := done), aborted := aborted);
            SendOk(n') && Grows(n, n') && PacketsOk(n', h.sent)
  {
    hide Tiled, Agrees;
    var h := HandleTimeout(n.ep);
    var m, n' := n.(ep := h.ep), n.(ep := h.ep.(done := done), aborted := aborted);
    TimeoutKeeps(n);
    assert StreamOf(n') == StreamOf(m);
    forall p | p in h.sent ensures PacketOk(n', p) { assert PacketOk(m, p); }
  }

  lemma ExpireOk(n: Node, st: Stream, limit: nat)
    requires EndOk(n, st) && !n.ep.done
    ensures var r := TimedOut(n.ep);
            ActsWell(n, After(n, r).(aborted := n.ep.retrans == MAX_RETRANSMISSIONS), r.sent, st, limit)
  {
    hide SendOk, PacketsOk, Grows, Replay;
    var r := TimedOut(n.ep);
    var n' := After(n, r).(aborted := n.ep.retrans == MAX_RETRANSMISSIONS);
    ExpireSends(n, r.ep.done, n'.aborted);
    assert n'.events == n.events;
    ReceivingSame(n.ep, n'.ep.(done := n.ep.done), st, n.read);
  }

  lemma PassOk(n: Node, net: Option<Packet>, st: Stream, limit: nat)
    requires EndOk(n, st) && !n.ep.done
    requires net.Some? ==> Agrees(Items(net.value.AsSeg()), st) && (net.value.isAck ==> net.value.ack <= limit)
    ensures ActsWell(n, After(n, Wake(n.ep, net)), Wake(n.ep, net).sent, st, limit)
  {
    WakeMoves(n, net, st, limit);
  }

  lemma DoOk(n: Node, peer: Node, arriving: set<Packet>, act: Action)
    requires Can(n, arriving, act) && EndOk(n, StreamOf(peer)) && WireOk(peer, arriving)
    ensures ActsWell(n, Do(n, arriving, act), Sends(n, arriving, act), StreamOf(peer), peer.ep.recvNext)
  {
    var st, limit := StreamOf(peer), peer.ep.recvNext;
    match act
    case Write(buf) => WriteOk(n, buf, st, limit);
    case Close => CloseOk(n, st, limit);
    case Read(max) => ReadOk(n, max, st, limit);
    case Pass(net) =>
      if net.Some? { assert PacketOk(peer, net.value); }
      PassOk(n, net, st, limit);
    case Expire => ExpireOk(n, st, limit);
    case Exit => ExitOk(n, st, limit);
  }

  // The invariant seen from one end.
  ghost predicate Between(n: Node, peer: Node, wire: set<Packet>, peerWire: set<Packet>) {
    && EndOk(n, StreamOf(peer)) && EndOk(peer, StreamOf(n))
    && WireOk(n, wire) && WireOk(peer, peerWire)
    && n.ep.sendBase <= peer.ep.recvNext
    && peer.ep.sendBase <= n.ep.recvNext
  }

  lemma WireOkGrows(n: Node, n': Node, wire: set<Packet>, sent: seq<Packet>)
    requires WireOk(n, wire) && Grows(n, n') && PacketsOk(n', sent)
    ensures WireOk(n', wire + set p | p in sent)
  {
    forall p | p in wire ensures PacketOk(n', p) { PacketOkGrows(n, n', p); }
  }

  lemma EndOkExtends(n: Node, s: Stream, t: Stream)
    requires EndOk(n, s) && Extends(s, t)
    ensures EndOk(n, t)
  {
    ReceivingExtends(n.ep, s, t, n.read);
  }

  lemma BetweenKept(n: Node, peer: Node, wire: set<Packet>, peerWire: set<Packet>, n': Node, sent: seq<Packet>)
    requires Between(n, peer, wire, peerWire)
    requires ActsWell(n, n', sent, StreamOf(peer), peer.ep.recvNext)
    ensures Between(n', peer, wire + (set p | p in sent), peerWire)
  {
    WireOkGrows(n, n', wire, sent);
    EndOkExtends(peer, StreamOf(n), StreamOf(n'));
  }

  /** Every step of either end, and every behaviour of the network, keeps the invariant. */
  lemma InvNext(s: System, st: Step)
    requires Inv(s) && Enabled(s, st)
    ensures Inv(Next(s, st))
    ensures Grows(s.a, Next(s, st).a) && Grows(s.b, Next(s, st).b)
  {
    hide EndOk, WireOk, ActsWell, Can, Do, Sends, StreamOf;
    var n, peer := s.End(st.side), s.End(st.side.Peer());
    var wire, arriving := s.From(st.side), s.From(st.side.Peer());
    DoOk(n, peer, arriving, st.act);
    BetweenKept(n, peer, wire, arriving, Do(n, arriving, st.act), Sends(n, arriving, st.act));
  }

  lemma FreshOk(n: Node, peer: Node)
    requires Fresh(n, peer.base) && Fresh(peer, n.base)
    ensures EndOk(n, StreamOf(peer))
    ensures forall p :: Handshake(p, n.base, peer.base) ==> PacketOk(n, p)
  {
    forall p | Handshake(p, n.base, peer.base) ensures PacketOk(n, p) {
      assert Items(p.AsSeg()) == map[];
    }
  }

  lemma InvInitial(s: System)
    requires Initial(s)
    ensures Inv(s)
  {
    FreshOk(s.a, s.b);
    FreshOk(s.b, s.a);
  }

  lemma {:induction false} InvExec(s: System, steps: seq<Step>)
    requires Inv(s) && Possible(s, steps)
    ensures Inv(Exec(s, steps))
    ensures Grows(s.a, Exec(s, steps).a) && Grows(s.b, Exec(s, steps).b)
    decreases |steps|
  {
    if steps != [] {
      var s1 := Next(s, steps[0]);
      InvNext(s, steps[0]);
      InvExec(s1, steps[1..]);
      GrowsTransitive(s.a, s1.a, Exec(s, steps).a);
      GrowsTransitive(s.b, s1.b, Exec(s, steps).b);
    }
  }

  /** The invariant holds in every state of every run. */
  lemma InvReachable(s: System)
    requires Reachable(s)
    ensures Inv(s)
  {
    var s0, steps :| Initial(s0) && Possible(s0, steps) && s == Exec(s0, steps);
    InvInitial(s0);
    InvExec(s0, steps);
  }
}
