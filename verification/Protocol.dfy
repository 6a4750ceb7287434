/** The STCP control loop as functions on the value of a connection's state: what each handler
    computes, which packets it sends and which state-machine events it raises. */
module Protocol {
  import opened Basics
  import opened Segments

  const MSS: nat := 536
  const WINDOW: nat := 3072
  const MAX_RETRANSMISSIONS: nat := 5

  datatype Event = SendFin | RecvFin | RecvAck

  datatype State = Established | FinWait1 | FinWait2 | Closing | CloseWait | LastAck | Closed

  function Transition(s: State, ev: Event): State {
    match (s, ev)
    case (Established, SendFin) => FinWait1
    case (Established, RecvFin) => CloseWait
    case (FinWait1, RecvAck) => FinWait2
    case (FinWait1, RecvFin) => Closing
    case (FinWait2, RecvFin) => Closed
    case (Closing, RecvAck) => Closed
    case (CloseWait, SendFin) => LastAck
    case (LastAck, RecvAck) => Closed
    case _ => s
  }

  datatype Packet = Packet(start: nat, ack: nat, isAck: bool, data: seq<byte>, fin: bool) {
    function AsSeg(): Seg { Seg(start, data, fin) }
  }

  // context_t together with the parts of the mysocket context it works on: appIn is the queue
  // filled by mywrite, appOut the queue drained by myread (an empty chunk marks end of file).
  datatype Endpoint = Endpoint(
    done: bool, state: State, closeQueued: bool, finSent: bool, finReceived: bool,
    nextSeq: nat, sendBase: nat, sendBuf: seq<Seg>,
    recvNext: nat, recvBuf: seq<Seg>,
    retrans: nat,
    appIn: seq<seq<byte>>, closeRequested: bool, appOut: seq<seq<byte>>, eof: bool)
  {
    predicate InWindow() { sendBase <= nextSeq <= sendBase + WINDOW }

    function WinRemain(): int { sendBase + WINDOW - nextSeq }

    // A FIN has taken its sequence number, as opposed to waiting for the window to open.
    predicate FinIssued() { finSent && !closeQueued }

    predicate FinAcked() { FinIssued() && sendBase == nextSeq }

    predicate InFlight() { sendBase != nextSeq }
  }

  datatype Effect = Effect(ep: Endpoint, sent: seq<Packet>, events: seq<Event>)

  // -------------------------------------------------------------------------
  // Queues of chunks
  // -------------------------------------------------------------------------

  datatype Taken = Taken(chunk: seq<byte>, rest: seq<seq<byte>>)

  // Remove up to max bytes of the first chunk.
  function TakeChunk(q: seq<seq<byte>>, max: nat): Taken
    requires q != []
  {
    if |q[0]| > max then Taken(q[0][..max], [q[0][max..]] + q[1..]) else Taken(q[0], q[1..])
  }

  // -------------------------------------------------------------------------
  // Send side
  // -------------------------------------------------------------------------

  function AckOf(e: Endpoint): Packet { Packet(e.nextSeq, e.recvNext, true, [], false) }

  function HandleAppData(e: Endpoint): (r: Effect)
    requires e.InWindow() && e.appIn != []
    ensures r.ep.InWindow()
  {
    var len := if e.WinRemain() < MSS then e.WinRemain() else MSS;
    if e.finSent || len == 0 then Effect(e, [], [])
    else
      var t := TakeChunk(e.appIn, len);
      if t.chunk == [] then Effect(e.(appIn := t.rest), [], [])
      else
        Effect(e.(appIn := t.rest,
                  sendBuf := e.sendBuf + [Seg(e.nextSeq, t.chunk, false)],
                  nextSeq := e.nextSeq + |t.chunk|),
               [Packet(e.nextSeq, e.recvNext, true, t.chunk, false)], [])
  }

  // Send and buffer a FIN.
  function IssueFin(e: Endpoint): (r: Effect)
    requires e.InWindow() && e.WinRemain() > 0
    ensures r.ep.InWindow()
  {
    Effect(e.(sendBuf := e.sendBuf + [Seg(e.nextSeq, [], true)], nextSeq := e.nextSeq + 1),
           [Packet(e.nextSeq, e.recvNext, true, [], true)], [])
  }

  function HandleAppClose(e: Endpoint): (r: Effect)
    requires e.InWindow()
    ensures r.ep.InWindow()
  {
    if e.finSent then Effect(e, [], [])
    else
      var i := if e.WinRemain() > 0 then IssueFin(e) else Effect(e.(closeQueued := true), [], []);
      Effect(i.ep.(finSent := true, state := Transition(e.state, SendFin)), i.sent, [SendFin])
  }

  // Drop the buffered segments that an acknowledgement covers completely.
  function Dequeue(buf: seq<Seg>, ack: nat): seq<Seg> {
    if buf != [] && buf[0].End() <= ack then Dequeue(buf[1..], ack) else buf
  }

  function HandleAck(e: Endpoint, ack: nat): (r: Effect)
    requires e.InWindow()
    ensures r.ep.InWindow()
  {
    if ack <= e.sendBase || ack > e.nextSeq then Effect(e, [], [])
    else
      var e1 := e.(sendBuf := Dequeue(e.sendBuf, ack), sendBase := ack, retrans := 0);
      var i := if e.closeQueued then
                 var i := IssueFin(e1);
                 i.(ep := i.ep.(closeQueued := false))
               else Effect(e1, [], []);
      if i.ep.finSent && i.ep.sendBase == i.ep.nextSeq then
        Effect(i.ep.(state := Transition(i.ep.state, RecvAck)), i.sent, [RecvAck])
      else i
  }

  // Go-Back-N: every buffered segment again, with the current acknowledgement number.
  function Resend(buf: seq<Seg>, recvNext: nat): seq<Packet> {
    if buf == [] then []
    else [Packet(buf[0].start, recvNext, true, buf[0].data, buf[0].fin)] + Resend(buf[1..], recvNext)
  }

  function HandleTimeout(e: Endpoint): Effect {
    if e.retrans == MAX_RETRANSMISSIONS then Effect(e.(state := Closed), [], [])
    else Effect(e.(retrans := e.retrans + 1), Resend(e.sendBuf, e.recvNext), [])
  }

  // -------------------------------------------------------------------------
  // Receive side
  // -------------------------------------------------------------------------

  // The two cuts that make a segment fit the receive window starting at winStart.
  function Clamp(s: Seg, winStart: nat): (c: Seg)
    requires winStart < s.End() && s.start < winStart + WINDOW
  {
    var front := winStart - s.start;
    var s1 :=
      if s.start < winStart then
        Seg(winStart, if front < |s.data| then s.data[front..] else [], s.fin)
      else s;
    if s.End() > winStart + WINDOW then
      var cut := s.End() - (winStart + WINDOW);
      Seg(s1.start, s1.data[..|s1.data| - if s.fin then cut - 1 else cut], false)
    else s1
  }

  function HandleIncoming(e: Endpoint, s: Seg): Effect {
    if e.finReceived then Effect(e, [], [])
    else if s.End() <= e.recvNext then Effect(e, [AckOf(e)], [])
    else if s.start >= e.recvNext + WINDOW then Effect(e, [], [])
    else
      var f := Flush(Insert(e.recvBuf, Clamp(s, e.recvNext)), e.recvNext);
      var e1 := e.(recvBuf := f.buf, recvNext := f.next, appOut := e.appOut + f.chunks,
                   finReceived := f.fin,
                   state := if f.fin then Transition(e.state, RecvFin) else e.state);
      Effect(e1, [AckOf(e1)], if f.fin then [RecvFin] else [])
  }

  function HandleNetwork(e: Endpoint, p: Packet): (r: Effect)
    requires e.InWindow()
    ensures r.ep.InWindow()
  {
    var r1 := if p.isAck then HandleAck(e, p.ack) else Effect(e, [], []);
    if |p.data| > 0 || p.fin then
      var r2 := HandleIncoming(r1.ep, p.AsSeg());
      Effect(r2.ep, r1.sent + r2.sent, r1.events + r2.events)
    else r1
  }

  // -------------------------------------------------------------------------
  // One pass of the control loop
  // -------------------------------------------------------------------------

  predicate AppDataReady(e: Endpoint) { e.WinRemain() > 0 && e.appIn != [] }

  // The close request is passed on only once all the application's data has been taken,
  // and whether or not the window has room.
  predicate CloseReady(e: Endpoint) { e.closeRequested && e.appIn == [] }

  predicate Ready(e: Endpoint, net: Option<Packet>) { AppDataReady(e) || CloseReady(e) || net.Some? }

  function EndPass(r: Effect): Effect { r.(ep := r.ep.(done := r.ep.state == Closed)) }

  // The handlers of one pass, in the order the loop tries them; e is the state on which the wait returned.
  function AppDataStage(e: Endpoint): (r: Effect)
    requires e.InWindow()
    ensures r.ep.InWindow()
  {
    var e0 := if CloseReady(e) then e.(closeRequested := false) else e;
    if AppDataReady(e) then HandleAppData(e0) else Effect(e0, [], [])
  }

  function NetworkStage(e: Endpoint, net: Option<Packet>): (r: Effect)
    requires e.InWindow()
    ensures r.ep.InWindow()
  {
    if net.Some? then HandleNetwork(e, net.value) else Effect(e, [], [])
  }

  function CloseStage(e: Endpoint, requested: bool): (r: Effect)
    requires e.InWindow()
    ensures r.ep.InWindow()
  {
    if requested then HandleAppClose(e) else Effect(e, [], [])
  }

  function Then(r1: Effect, r2: Effect): Effect { Effect(r2.ep, r1.sent + r2.sent, r1.events + r2.events) }

  function Wake(e: Endpoint, net: Option<Packet>): (r: Effect)
    requires e.InWindow()
    ensures r.ep.InWindow()
  {
    var r1 := AppDataStage(e);
    var r2 := NetworkStage(r1.ep, net);
    var r3 := CloseStage(r2.ep, CloseReady(e));
    EndPass(Then(Then(r1, r2), r3))
  }

  function TimedOut(e: Endpoint): Effect { EndPass(HandleTimeout(e)) }

  // -------------------------------------------------------------------------
  // Room in 32 bits
  // -------------------------------------------------------------------------

  // No sum the send side forms reaches 2^32: neither now nor while the data already written is sent.
  ghost predicate SendRoom(e: Endpoint) {
    && e.InWindow() && (e.closeQueued ==> e.finSent)
    && e.nextSeq + |Flat(e.appIn)| + (if e.FinIssued() then 0 else 1) + WINDOW < TWO32
    && (forall i :: 0 <= i < |e.sendBuf| ==> e.sendBuf[i].End() < TWO32)
  }

  // No sum the receive side forms reaches 2^32.
  ghost predicate RecvRoom(e: Endpoint) {
    && e.recvNext + WINDOW < TWO32
    && (forall i :: 0 <= i < |e.recvBuf| ==> e.recvBuf[i].End() < TWO32)
  }

  ghost predicate Room(e: Endpoint) { SendRoom(e) && RecvRoom(e) }

  // A packet of the peer's, read from 32-bit header fields and no longer than a segment may be.
  ghost predicate PacketRoom(p: Packet) {
    p.AsSeg().End() < TWO32 && (p.isAck ==> p.ack < TWO32) && |p.data| <= MSS
  }
}
