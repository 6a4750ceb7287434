/** The connection context and its handlers, updating fields, linked buffers and queues in place with
    32-bit arithmetic. Each handler is proved to do what the corresponding function of Protocol says. */
module Transport {
  import opened Basics
  import opened Segments
  import opened Protocol
  import opened SegmentLists
  import opened PacketQueues
  import opened Receiver
  import opened SendSide
  import opened Connection

  // The parts of the mysocket context that the transport layer works with; sent is what has been
  // handed to the network layer.
  class Mysock {
    const appRecvQueue: PacketQueue
    const appSendQueue: PacketQueue
    var closeRequested: bool
    var eof: bool
    var sent: seq<Packet>

    constructor ()
      ensures appRecvQueue.Valid() && appRecvQueue.contents == [] && fresh(appRecvQueue.Repr)
      ensures appSendQueue.Valid() && appSendQueue.contents == [] && fresh(appSendQueue.Repr)
      ensures appRecvQueue.Repr !! appSendQueue.Repr && this !in appRecvQueue.Repr + appSendQueue.Repr
      ensures !closeRequested && !eof && sent == []
    {
      appRecvQueue := new PacketQueue();
      appSendQueue := new PacketQueue();
      closeRequested, eof, sent := false, false, [];
    }

    // ----- the application's end of the two streams -----

    // All bytes are queued, whatever the sender's window.
    method MyWrite(buf: seq<byte>) returns (len: nat)
      requires appRecvQueue.Valid() && !closeRequested
      modifies appRecvQueue.Repr
      ensures appRecvQueue.Valid() && fresh(appRecvQueue.Repr - old(appRecvQueue.Repr))
      ensures appRecvQueue.contents == old(appRecvQueue.contents) + [buf] && len == |buf|
    {
      appRecvQueue.EnqueueBuffer(buf);
      len := |buf|;
    }

    // Blocks while nothing is queued and the end of file has not been seen.
    method MyRead(max: nat) returns (data: seq<byte>, len: nat)
      requires appSendQueue.Valid() && this !in appSendQueue.Repr
      requires !closeRequested && (eof || appSendQueue.contents != [])
      modifies `eof, appSendQueue.Repr
      ensures appSendQueue.Valid() && appSendQueue.Repr == old(appSendQueue.Repr) && len == |data| <= max
      ensures old(eof) ==> data == [] && eof && appSendQueue.contents == old(appSendQueue.contents)
      ensures !old(eof) ==>
                var t := TakeChunk(old(appSendQueue.contents), max);
                data == t.chunk && appSendQueue.contents == t.rest && (eof <==> data == [])
    {
      if eof {
        return [], 0;
      }
      data, len := appSendQueue.DequeueBuffer(max, true);
      if len == 0 {
        eof := true;
      }
    }

    method MyClose()
      requires !closeRequested
      modifies `closeRequested
      ensures closeRequested
    {
      closeRequested := true;
    }

    // The transport thread ends: the last read is to return 0.
    method ForceEndOfFile()
      requires appSendQueue.Valid()
      modifies appSendQueue.Repr
      ensures appSendQueue.Valid() && fresh(appSendQueue.Repr - old(appSendQueue.Repr))
      ensures appSendQueue.contents == old(appSendQueue.contents) + [[]]
    {
      appSendQueue.EnqueueBuffer([]);
    }
  }

  class Context {
    const sock: Mysock
    var done: bool
    var connectionState: State
    var isAppCloseQueued: bool
    var isFinSent: bool
    var isFinReceived: bool
    var nextSeqNum: nat
    var sendBase: nat
    const sendBuffer: SegmentList
    var receiveNext: nat
    const receiveBuffer: SegmentList
    var retransmissionCount: nat
    ghost var events: seq<Event>

    // The two buffers and the two queues are in order and share nothing.
    ghost predicate Valid()
      reads sendBuffer, sendBuffer.Repr, receiveBuffer, receiveBuffer.Repr
      reads sock.appRecvQueue, sock.appRecvQueue.Repr, sock.appSendQueue, sock.appSendQueue.Repr
    {
      && sendBuffer.Valid() && receiveBuffer.Valid() && sock.appRecvQueue.Valid() && sock.appSendQueue.Valid()
      && Apart()
    }

    ghost predicate Apart()
      reads sendBuffer, receiveBuffer, sock.appRecvQueue, sock.appSendQueue
    {
      && sendBuffer.Repr !! receiveBuffer.Repr
      && sendBuffer.Repr !! sock.appRecvQueue.Repr
      && sendBuffer.Repr !! sock.appSendQueue.Repr
      && receiveBuffer.Repr !! sock.appRecvQueue.Repr
      && receiveBuffer.Repr !! sock.appSendQueue.Repr
      && sock.appRecvQueue.Repr !! sock.appSendQueue.Repr
      && this !in sendBuffer.Repr && this !in receiveBuffer.Repr
      && this !in sock.appRecvQueue.Repr && this !in sock.appSendQueue.Repr
      && sock !in sendBuffer.Repr && sock !in receiveBuffer.Repr
      && sock !in sock.appRecvQueue.Repr && sock !in sock.appSendQueue.Repr
    }

    ghost function View(): Endpoint
      reads this, sock, sendBuffer, receiveBuffer, sock.appRecvQueue, sock.appSendQueue
    {
      Endpoint(done, connectionState, isAppCloseQueued, isFinSent, isFinReceived,
               nextSeqNum, sendBase, sendBuffer.contents, receiveNext, receiveBuffer.contents, retransmissionCount,
               sock.appRecvQueue.contents, sock.closeRequested, sock.appSendQueue.contents, sock.eof)
    }

    // A connection that has just left the handshake.
    constructor (sock: Mysock, base: nat, peerBase: nat)
      requires sock.appRecvQueue.Valid() && sock.appSendQueue.Valid()
      requires sock.appRecvQueue.Repr !! sock.appSendQueue.Repr
      requires sock !in sock.appRecvQueue.Repr && sock !in sock.appSendQueue.Repr
      ensures Valid() && this.sock == sock
      ensures fresh(sendBuffer.Repr) && fresh(receiveBuffer.Repr)
      ensures View() == Endpoint(false, Established, false, false, false, base, base, [], peerBase, [], 0,
                                 sock.appRecvQueue.contents, sock.closeRequested, sock.appSendQueue.contents, sock.eof)
      ensures events == []
    {
      hide SegmentList.Valid, PacketQueue.Valid;
      this.sock := sock;
      done, connectionState := false, Established;
      isAppCloseQueued, isFinSent, isFinReceived := false, false, false;
      nextSeqNum, sendBase, receiveNext, retransmissionCount := base, base, peerBase, 0;
      sendBuffer := new SegmentList();
      receiveBuffer := new SegmentList();
      events := [];
    }

    // Build a header with the current acknowledgement number and send the segment.
    method NetworkSend(seqNum: nat, data: seq<byte>, fin: bool)
      modifies sock`sent
      ensures sock.sent == old(sock.sent) + [Packet(seqNum, receiveNext, true, data, fin)]
    {
      sock.sent := sock.sent + [Packet(seqNum, receiveNext, true, data, fin)];
    }

    method Raise(ev: Event)
      modifies `connectionState, `events
      ensures connectionState == Transition(old(connectionState), ev) && events == old(events) + [ev]
    {
      connectionState := Transition(connectionState, ev);
      events := events + [ev];
    }

    // ----- the buffers and queues, one at a time -----

    method BufferSent(seqNum: nat, data: seq<byte>, fin: bool)
      requires Valid() && |data| <= MSS
      modifies sendBuffer.Repr
      ensures Valid() && fresh(sendBuffer.Repr - old(sendBuffer.Repr))
      ensures View() == old(View()).(sendBuf := old(View()).sendBuf + [Seg(seqNum, data, fin)])
    {
      sendBuffer.InsertTail(seqNum, data, fin);
    }

    method ReleaseAcked(ack: nat)
      requires Valid() && forall i :: 0 <= i < |sendBuffer.contents| ==> sendBuffer.contents[i].End() < TWO32
      modifies sendBuffer
      ensures Valid() && sendBuffer.Repr == old(sendBuffer.Repr)
      ensures View() == old(View()).(sendBuf := Dequeue(old(View()).sendBuf, ack))
    {
      sendBuffer.DequeueAcked(ack);
    }

    method BufferReceived(seqNum: nat, data: seq<byte>, fin: bool)
      requires Valid() && (|data| > 0 || fin) && |data| <= MSS && Seg(seqNum, data, fin).End() < TWO32
      requires forall i :: 0 <= i < |receiveBuffer.contents| ==> receiveBuffer.contents[i].End() < TWO32
      modifies receiveBuffer.Repr
      ensures Valid() && fresh(receiveBuffer.Repr - old(receiveBuffer.Repr))
      ensures View() == old(View()).(recvBuf := Insert(old(View()).recvBuf, Seg(seqNum, data, fin)))
    {
      receiveBuffer.InsertSegment(seqNum, data, fin);
    }

    method DropReceived()
      requires Valid() && receiveBuffer.contents != []
      modifies receiveBuffer
      ensures Valid() && receiveBuffer.Repr == old(receiveBuffer.Repr)
      ensures View() == old(View()).(recvBuf := old(View()).recvBuf[1..])
    {
      receiveBuffer.PopHead();
    }

    method TakeAppData(max: nat) returns (chunk: seq<byte>, len: nat)
      requires Valid() && sock.appRecvQueue.contents != []
      modifies sock.appRecvQueue.Repr
      ensures Valid() && sock.appRecvQueue.Repr == old(sock.appRecvQueue.Repr)
      ensures chunk == TakeChunk(old(View()).appIn, max).chunk && len == |chunk|
      ensures View() == old(View()).(appIn := TakeChunk(old(View()).appIn, max).rest)
    {
      chunk, len := sock.appRecvQueue.DequeueBuffer(max, true);
    }

    method AppSend(chunk: seq<byte>)
      requires Valid()
      modifies sock.appSendQueue.Repr
      ensures Valid() && fresh(sock.appSendQueue.Repr - old(sock.appSendQueue.Repr))
      ensures View() == old(View()).(appOut := old(View()).appOut + [chunk])
    {
      sock.appSendQueue.EnqueueBuffer(chunk);
    }

    // ----- the send side -----

    // (send_base + 3072) - next_seq_num, in unsigned 32 bits and stored in an int.
    method WinRemain() returns (w: int)
      requires View().InWindow() && sendBase + WINDOW < TWO32
      ensures w == View().WinRemain()
    {
      w := Int32(U32(sendBase + WINDOW) - nextSeqNum);
    }

    // Send a segment, buffer it for retransmission, and advance the sequence number past it.
    method SendAndBuffer(data: seq<byte>, fin: bool)
      requires Valid() && Seg(nextSeqNum, data, fin).End() < TWO32 && |data| <= MSS
      modifies this, sock`sent, sendBuffer.Repr
      ensures Valid() && fresh(sendBuffer.Repr - old(sendBuffer.Repr))
      ensures var e, s := old(View()), Seg(old(nextSeqNum), data, fin);
              View() == e.(sendBuf := e.sendBuf + [s], nextSeq := s.End())
      ensures sock.sent == old(sock.sent) + [Packet(old(nextSeqNum), old(receiveNext), true, data, fin)]
      ensures events == old(events)
    {
      hide SegmentList.Valid, PacketQueue.Valid;
      NetworkSend(nextSeqNum, data, fin);
      BufferSent(nextSeqNum, data, fin);
      nextSeqNum := U32(nextSeqNum + |data| + if fin then 1 else 0);
    }

    method HandleAppData()
      requires Valid() && SendRoom(View()) && View().appIn != []
      modifies this, sock`sent, sendBuffer.Repr, sock.appRecvQueue.Repr
      ensures Valid() && fresh(sendBuffer.Repr - old(sendBuffer.Repr))
      ensures sock.appRecvQueue.Repr == old(sock.appRecvQueue.Repr)
      ensures var r := Protocol.HandleAppData(old(View()));
              View() == r.ep && sock.sent == old(sock.sent) + r.sent && events == old(events) + r.events
    {
      hide SegmentList.Valid, PacketQueue.Valid, Flat, SendRoom, ChunkSent, Protocol.HandleAppData;
      SendRoomIs(View());
      AppDataIs(View());
      if !isFinSent {
        var winRemain := WinRemain();
        var lenToRead := if winRemain < MSS then winRemain else MSS;
        if lenToRead != 0 {
          SendAppData(lenToRead);
        }
      }
    }

    // Take up to max bytes from the application's queue and send them as one segment.
    method SendAppData(max: nat)
      requires Valid() && View().appIn != [] && nextSeqNum + |Flat(View().appIn)| < TWO32 && max <= MSS
      modifies this, sock`sent, sendBuffer.Repr, sock.appRecvQueue.Repr
      ensures Valid() && fresh(sendBuffer.Repr - old(sendBuffer.Repr))
      ensures sock.appRecvQueue.Repr == old(sock.appRecvQueue.Repr)
      ensures View() == ChunkSent(old(View()), max).ep && events == old(events)
      ensures sock.sent == old(sock.sent) + ChunkSent(old(View()), max).sent
    {
      hide SegmentList.Valid, PacketQueue.Valid, TakeChunk, Flat;
      TakeChunkFits(View().appIn, max);
      var payload, payloadLen := TakeAppData(max);
      if payloadLen == 0 {
        return;
      }
      SendAndBuffer(payload, false);
    }

    method HandleAppClose()
      requires Valid() && SendRoom(View())
      modifies this, sock`sent, sendBuffer.Repr
      ensures Valid() && fresh(sendBuffer.Repr - old(sendBuffer.Repr))
      ensures var r := Protocol.HandleAppClose(old(View()));
              View() == r.ep && sock.sent == old(sock.sent) + r.sent && events == old(events) + r.events
    {
      hide SegmentList.Valid, PacketQueue.Valid, Transition;
      if isFinSent {
        return;
      }
      SendFinOrWait();
      isFinSent := true;
      Raise(SendFin);
    }

    // Send and buffer a FIN, or have it wait for the window to open.
    method SendFinOrWait()
      requires Valid() && SendRoom(View()) && !isFinSent
      modifies this, sock`sent, sendBuffer.Repr
      ensures Valid() && fresh(sendBuffer.Repr - old(sendBuffer.Repr))
      ensures old(View()).InWindow() && events == old(events)
      ensures var e := old(View());
              var i := if e.WinRemain() > 0 then IssueFin(e) else Effect(e.(closeQueued := true), [], []);
              View() == i.ep && sock.sent == old(sock.sent) + i.sent
    {
      hide SegmentList.Valid, PacketQueue.Valid;
      var winRemain := WinRemain();
      if winRemain > 0 {
        SendAndBuffer([], true);
      } else {
        isAppCloseQueued := true;
      }
    }

    method MoveSendBase(ack: nat)
      requires Valid() && forall i :: 0 <= i < |sendBuffer.contents| ==> sendBuffer.contents[i].End() < TWO32
      modifies this, sendBuffer
      ensures Valid() && sendBuffer.Repr == old(sendBuffer.Repr) && events == old(events)
      ensures View() == old(View()).(sendBuf := Dequeue(old(View()).sendBuf, ack), sendBase := ack, retrans := 0)
    {
      hide SegmentList.Valid, PacketQueue.Valid, Dequeue;
      ReleaseAcked(ack);
      sendBase := ack;
      retransmissionCount := 0;
    }

    // Send the FIN that was waiting for room in the window; after an acknowledgement there is room.
    method SendQueuedFin()
      requires Valid() && View().InWindow() && View().WinRemain() > 0 && nextSeqNum + 1 + WINDOW < TWO32
      modifies this, sock`sent, sendBuffer.Repr
      ensures Valid() && fresh(sendBuffer.Repr - old(sendBuffer.Repr))
      ensures var r := IssueFin(old(View()));
              View() == r.ep.(closeQueued := false) && sock.sent == old(sock.sent) + r.sent && events == old(events)
    {
      hide SegmentList.Valid, PacketQueue.Valid;
      var winRemain := WinRemain();
      assert winRemain > 0;
      SendAndBuffer([], true);
      isAppCloseQueued := false;
    }

    method HandleAckFromPeer(ack: nat)
      requires Valid() && SendRoom(View())
      modifies this, sock`sent, sendBuffer.Repr
      ensures Valid() && fresh(sendBuffer.Repr - old(sendBuffer.Repr))
      ensures var r := HandleAck(old(View()), ack);
              View() == r.ep && sock.sent == old(sock.sent) + r.sent && events == old(events) + r.events
    {
      hide SegmentList.Valid, PacketQueue.Valid, Dequeue, Flat;
      if ack <= sendBase || ack > nextSeqNum {
        return;
      }
      MoveSendBase(ack);
      if isAppCloseQueued {
        SendQueuedFin();
      }
      if isFinSent && sendBase == nextSeqNum {
        Raise(RecvAck);
      }
    }

    // Go-Back-N: send every buffered segment again.
    method ResendSendBuffer()
      requires Valid()
      modifies sock`sent
      ensures Valid() && View() == old(View())
      ensures sock.sent == old(sock.sent) + Resend(View().sendBuf, receiveNext)
    {
      hide SegmentList.Valid, PacketQueue.Valid;
      var again := sendBuffer.Packets(receiveNext);
      sock.sent := sock.sent + again;
    }

    method HandleTimeout()
      requires Valid()
      modifies this, sock`sent
      ensures Valid()
      ensures var r := Protocol.HandleTimeout(old(View()));
              View() == r.ep && sock.sent == old(sock.sent) + r.sent && events == old(events) + r.events
    {
      hide SegmentList.Valid, PacketQueue.Valid;
      if retransmissionCount == MAX_RETRANSMISSIONS {
        connectionState := Closed;
        return;
      }
      ResendSendBuffer();
      retransmissionCount := retransmissionCount + 1;
    }

    // ----- the receive side -----

    // Pass the first buffered segment up to the application and remove it.
    method DeliverHead(c: Seg)
      requires Valid() && View().recvBuf != [] && c == View().recvBuf[0]
      requires c.start == receiveNext && c.End() < TWO32
      modifies this, receiveBuffer, sock.appSendQueue.Repr
      ensures Valid() && receiveBuffer.Repr == old(receiveBuffer.Repr)
      ensures fresh(sock.appSendQueue.Repr - old(sock.appSendQueue.Repr))
      ensures var e := old(View());
              View() == e.(recvBuf := e.recvBuf[1..], recvNext := c.End(), appOut := e.appOut + Chunks(c),
                           finReceived := e.finReceived || c.fin,
                           state := if c.fin then Transition(e.state, RecvFin) else e.state)
      ensures events == old(events) + if c.fin then [RecvFin] else []
    {
      hide SegmentList.Valid, PacketQueue.Valid, Transition;
      PassUp(c.data);
      if c.fin {
        FinReceived();
      }
      DropReceived();
    }

    // Pass a segment's data up to the application.
    method PassUp(data: seq<byte>)
      requires Valid() && receiveNext + |data| < TWO32
      modifies `receiveNext, sock.appSendQueue.Repr
      ensures Valid() && fresh(sock.appSendQueue.Repr - old(sock.appSendQueue.Repr))
      ensures var e := old(View());
              View() == e.(recvNext := e.recvNext + |data|, appOut := e.appOut + if |data| > 0 then [data] else [])
    {
      hide SegmentList.Valid, PacketQueue.Valid;
      if |data| > 0 {
        AppSend(data);
        receiveNext := U32(receiveNext + |data|);
      }
    }

    // Pass end of file up and consume the FIN's sequence number.
    method FinReceived()
      requires Valid() && receiveNext + 1 < TWO32
      modifies this, sock.appSendQueue.Repr
      ensures Valid() && fresh(sock.appSendQueue.Repr - old(sock.appSendQueue.Repr))
      ensures var e := old(View());
              View() == e.(recvNext := e.recvNext + 1, appOut := e.appOut + [[]], finReceived := true,
                           state := Transition(e.state, RecvFin))
      ensures events == old(events) + [RecvFin]
    {
      hide SegmentList.Valid, PacketQueue.Valid, Transition;
      AppSend([]);
      receiveNext := U32(receiveNext + 1);
      Raise(RecvFin);
      isFinReceived := true;
    }

    // Hand over buffered segments as long as the first one is the next expected, and stop at a FIN.
    method FlushInOrder()
      requires Valid() && !isFinReceived && Below32(View().recvBuf)
      modifies this, receiveBuffer, sock.appSendQueue.Repr
      ensures Valid() && receiveBuffer.Repr == old(receiveBuffer.Repr)
      ensures fresh(sock.appSendQueue.Repr - old(sock.appSendQueue.Repr))
      ensures View() == FlushedEnd(old(View()))
      ensures events == old(events) + if Flush(old(View()).recvBuf, old(View()).recvNext).fin then [RecvFin] else []
    {
      hide Flushing, Apart;
      hide SegmentList.Valid, PacketQueue.Valid, Transition, Flush, FlushedSoFar, FlushedEnd, Chunks, Below32, Seg.End;
      ghost var e := View();
      ghost var chunks := [];
      FlushBegin(e);
      var front := receiveBuffer.Peek();
      while front.Some? && front.value.start == receiveNext
        invariant Valid() && receiveBuffer.Repr == old(receiveBuffer.Repr)
        invariant fresh(sock.appSendQueue.Repr - old(sock.appSendQueue.Repr))
        invariant front == if View().recvBuf == [] then None else Some(View().recvBuf[0])
        invariant Flushing(e, View(), chunks)
        invariant events == old(events)
        decreases |View().recvBuf|
      {
        FlushTurn(e, View(), chunks);
        DeliverHead(front.value);
        chunks := chunks + Chunks(front.value);
        if front.value.fin {
          return;
        }
        front := receiveBuffer.Peek();
      }
      FlushEnds(e, View(), chunks);
    }

    // Cut a segment to the receive window.
    method CutToWindow(seqNum: nat, data: seq<byte>, fin: bool) returns (start: nat, payload: seq<byte>, isFin: bool)
      requires receiveNext < Seg(seqNum, data, fin).End() < TWO32 && receiveNext + WINDOW < TWO32
      requires seqNum < receiveNext + WINDOW
      ensures Seg(start, payload, isFin) == Clamp(Seg(seqNum, data, fin), receiveNext) && |payload| <= |data|
    {
      start, payload, isFin := seqNum, data, fin;
      var seqEnd := U32(seqNum + |data| + if fin then 1 else 0);
      var winEnd := U32(receiveNext + WINDOW);
      if start < receiveNext {
        var cut := receiveNext - start;
        start := U32(start + cut);
        if cut < |payload| {
          payload := payload[cut..];
        } else {
          payload := [];
        }
      }
      if seqEnd > winEnd {
        var cut := seqEnd - winEnd;
        if isFin {
          isFin := false;
          cut := cut - 1;
        }
        payload := payload[..|payload| - cut];
      }
    }

    method HandleIncomingSegment(seqNum: nat, data: seq<byte>, fin: bool)
      requires Valid() && RecvRoom(View()) && Seg(seqNum, data, fin).End() < TWO32
      requires (|data| > 0 || fin) && |data| <= MSS
      modifies this, sock`sent, receiveBuffer.Repr, sock.appSendQueue.Repr
      ensures Valid() && fresh(receiveBuffer.Repr - old(receiveBuffer.Repr))
      ensures fresh(sock.appSendQueue.Repr - old(sock.appSendQueue.Repr))
      ensures var r := HandleIncoming(old(View()), Seg(seqNum, data, fin));
              View() == r.ep && sock.sent == old(sock.sent) + r.sent && events == old(events) + r.events
    {
      hide SegmentList.Valid, PacketQueue.Valid, HandleIncoming, Transition, Flush, Insert, Clamp;
      IncomingCases(View(), Seg(seqNum, data, fin));
      if isFinReceived {
        return;
      }
      var seqEnd := U32(seqNum + |data| + if fin then 1 else 0);
      var winEnd := U32(receiveNext + WINDOW);
      if seqEnd <= receiveNext {
        NetworkSend(nextSeqNum, [], false);
        return;
      }
      if seqNum >= winEnd {
        return;
      }
      MergeAndFlush(seqNum, data, fin);
      NetworkSend(nextSeqNum, [], false);
    }

    // Cut a segment overlapping the window, merge it into the receive buffer, and flush what is in order.
    method MergeAndFlush(seqNum: nat, data: seq<byte>, fin: bool)
      requires Valid() && RecvRoom(View()) && !isFinReceived && (|data| > 0 || fin) && |data| <= MSS
      requires receiveNext < Seg(seqNum, data, fin).End() < TWO32 && seqNum < receiveNext + WINDOW
      modifies this, receiveBuffer.Repr, sock.appSendQueue.Repr
      ensures Valid() && fresh(receiveBuffer.Repr - old(receiveBuffer.Repr))
      ensures fresh(sock.appSendQueue.Repr - old(sock.appSendQueue.Repr))
      ensures var e := old(View());
              var f := Flush(Insert(e.recvBuf, Clamp(Seg(seqNum, data, fin), e.recvNext)), e.recvNext);
              && View() == e.(recvBuf := f.buf, recvNext := f.next, appOut := e.appOut + f.chunks, finReceived := f.fin,
                              state := if f.fin then Transition(e.state, RecvFin) else e.state)
              && events == old(events) + if f.fin then [RecvFin] else []
    {
      hide SegmentList.Valid, PacketQueue.Valid, Transition, Flush, Insert, Clamp;
      var start, payload, isFin := CutToWindow(seqNum, data, fin);
      ClampIsWindow(Seg(seqNum, data, fin), receiveNext);
      InsertBelow(View().recvBuf, Seg(start, payload, isFin), TWO32);
      BufferReceived(start, payload, isFin);
      FlushInOrder();
    }

    // ----- the control loop -----

    method HandleNetworkData(p: Packet)
      requires Valid() && Room(View()) && PacketRoom(p)
      modifies this, sock`sent, sendBuffer.Repr, receiveBuffer.Repr, sock.appSendQueue.Repr
      ensures Valid()
      ensures fresh(sendBuffer.Repr - old(sendBuffer.Repr)) && fresh(receiveBuffer.Repr - old(receiveBuffer.Repr))
      ensures fresh(sock.appSendQueue.Repr - old(sock.appSendQueue.Repr))
      ensures var r := HandleNetwork(old(View()), p);
              View() == r.ep && sock.sent == old(sock.sent) + r.sent && events == old(events) + r.events
    {
      hide SegmentList.Valid, PacketQueue.Valid, HandleAck, HandleIncoming, SendRoom, RecvRoom, Flat;
      if p.isAck {
        AckRoom(View(), p.ack);
        HandleAckFromPeer(p.ack);
      }
      if |p.data| > 0 || p.fin {
        HandleIncomingSegment(p.start, p.data, p.fin);
      }
    }

    // Which of the awaited events are ready; a close request is reported once, when all data has been taken.
    method ReadyEvents(wantAppData: bool, net: Option<Packet>) returns (appData: bool, network: bool, close: bool)
      requires Valid()
      modifies sock`closeRequested
      ensures Valid() && appData == (wantAppData && old(View()).appIn != []) && network == net.Some?
      ensures close == CloseReady(old(View()))
      ensures View() == if close then old(View()).(closeRequested := false) else old(View())
    {
      hide SegmentList.Valid;
      appData := wantAppData && sock.appRecvQueue.head != null;
      network := net.Some?;
      close := sock.closeRequested && sock.appRecvQueue.head == null;
      if close {
        sock.closeRequested := false;
      }
    }

    // One pass of the control loop. net is the packet at the head of the network queue, if there is
    // one; expired says that the wait ended by timeout. Otherwise the wait blocks until something is ready.
    method ControlPass(net: Option<Packet>, expired: bool)
      requires Valid() && Room(View()) && (net.Some? ==> PacketRoom(net.value))
      requires if expired then View().InFlight() else Ready(View(), net)
      modifies this, sock`sent, sock`closeRequested
      modifies sendBuffer.Repr, receiveBuffer.Repr, sock.appRecvQueue.Repr, sock.appSendQueue.Repr
      ensures Valid()
      ensures fresh(sendBuffer.Repr - old(sendBuffer.Repr)) && fresh(receiveBuffer.Repr - old(receiveBuffer.Repr))
      ensures fresh(sock.appSendQueue.Repr - old(sock.appSendQueue.Repr))
      ensures sock.appRecvQueue.Repr == old(sock.appRecvQueue.Repr)
      ensures var r := if expired then TimedOut(old(View())) else Wake(old(View()), net);
              View() == r.ep && sock.sent == old(sock.sent) + r.sent && events == old(events) + r.events
    {
      hide SegmentList.Valid, PacketQueue.Valid, AppDataStage, NetworkStage, CloseStage;
      hide Protocol.HandleTimeout, SendRoom, RecvRoom;
      if expired {
        HandleTimeout();
      } else {
        ServeEvents(net);
      }
      done := connectionState == Closed;
    }

    // The handlers of one pass, for the events that are ready.
    method ServeEvents(net: Option<Packet>)
      requires Valid() && Room(View()) && (net.Some? ==> PacketRoom(net.value))
      modifies this, sock`sent, sock`closeRequested
      modifies sendBuffer.Repr, receiveBuffer.Repr, sock.appRecvQueue.Repr, sock.appSendQueue.Repr
      ensures Valid()
      ensures fresh(sendBuffer.Repr - old(sendBuffer.Repr)) && fresh(receiveBuffer.Repr - old(receiveBuffer.Repr))
      ensures fresh(sock.appSendQueue.Repr - old(sock.appSendQueue.Repr))
      ensures sock.appRecvQueue.Repr == old(sock.appRecvQueue.Repr)
      ensures old(View()).InWindow()
      ensures var r := Served(old(View()), net);
              View() == r.ep && sock.sent == old(sock.sent) + r.sent && events == old(events) + r.events
    {
      hide Endpoint.InWindow, SegmentList.Valid, PacketQueue.Valid;
      hide Served, AppDataStage, NetworkStage, CloseStage, Protocol.HandleAppData, SendRoom, RecvRoom, Flat;
      PassRoom(View(), net);
      ServedIs(View(), net, sock.sent, events);
      var winRemain := WinRemain();
      var appData, network, close := ReadyEvents(winRemain > 0, net);
      ServeAppData(appData);
      ServeNetwork(net);
      ServeClose(close);
    }

    method ServeAppData(ready: bool)
      requires Valid() && SendRoom(View()) && (ready ==> View().appIn != [])
      modifies this, sock`sent, sendBuffer.Repr, sock.appRecvQueue.Repr
      ensures Valid()
      ensures fresh(sendBuffer.Repr - old(sendBuffer.Repr)) && sock.appRecvQueue.Repr == old(sock.appRecvQueue.Repr)
      ensures View().InWindow()
      ensures var r := if ready then Protocol.HandleAppData(old(View())) else Effect(old(View()), [], []);
              View() == r.ep && sock.sent == old(sock.sent) + r.sent && events == old(events) + r.events
    {
      hide SegmentList.Valid, PacketQueue.Valid, Protocol.HandleAppData, Flat;
      if ready {
        HandleAppData();
      }
    }

    method ServeNetwork(net: Option<Packet>)
      requires Valid() && Room(View()) && (net.Some? ==> PacketRoom(net.value))
      modifies this, sock`sent, sendBuffer.Repr, receiveBuffer.Repr, sock.appSendQueue.Repr
      ensures Valid()
      ensures fresh(sendBuffer.Repr - old(sendBuffer.Repr)) && fresh(receiveBuffer.Repr - old(receiveBuffer.Repr))
      ensures fresh(sock.appSendQueue.Repr - old(sock.appSendQueue.Repr))
      ensures var r := NetworkStage(old(View()), net);
              View() == r.ep && sock.sent == old(sock.sent) + r.sent && events == old(events) + r.events
    {
      hide SegmentList.Valid, PacketQueue.Valid, HandleNetwork, SendRoom, RecvRoom;
      if net.Some? {
        HandleNetworkData(net.value);
      }
    }

    method ServeClose(requested: bool)
      requires Valid() && SendRoom(View())
      modifies this, sock`sent, sendBuffer.Repr
      ensures Valid() && fresh(sendBuffer.Repr - old(sendBuffer.Repr))
      ensures var r := CloseStage(old(View()), requested);
              View() == r.ep && sock.sent == old(sock.sent) + r.sent && events == old(events) + r.events
    {
      hide SegmentList.Valid, PacketQueue.Valid, Protocol.HandleAppClose;
      if requested {
        HandleAppClose();
      }
    }
  }

  // What the three handlers of a pass come to.
  ghost function Served(e: Endpoint, net: Option<Packet>): Effect
    requires e.InWindow()
  {
    var r1 := AppDataStage(e);
    var r2 := NetworkStage(r1.ep, net);
    Then(Then(r1, r2), CloseStage(r2.ep, CloseReady(e)))
  }

  lemma ServedIs(e: Endpoint, net: Option<Packet>, sent: seq<Packet>, events: seq<Event>)
    requires e.InWindow()
    ensures var e0 := if CloseReady(e) then e.(closeRequested := false) else e;
            e0.InWindow() && AppDataStage(e) == if AppDataReady(e) then HandleAppData(e0) else Effect(e0, [], [])
    ensures var r1 := AppDataStage(e);
            var r2 := NetworkStage(r1.ep, net);
            var r3 := CloseStage(r2.ep, CloseReady(e));
            && Served(e, net).ep == r3.ep
            && sent + Served(e, net).sent == sent + r1.sent + r2.sent + r3.sent
            && events + Served(e, net).events == events + r1.events + r2.events + r3.events
  {
    hide AppDataStage, NetworkStage, CloseStage;
    StageIs(e);
  }

  lemma StageIs(e: Endpoint)
    requires e.InWindow()
    ensures var e0 := if CloseReady(e) then e.(closeRequested := false) else e;
            e0.InWindow() && AppDataStage(e) == if AppDataReady(e) then HandleAppData(e0) else Effect(e0, [], [])
  {
  }

  // What sending one chunk of at most max bytes comes to.
  ghost function ChunkSent(e: Endpoint, max: nat): Effect
    requires e.appIn != []
  {
    var t := TakeChunk(e.appIn, max);
    if t.chunk == [] then Effect(e.(appIn := t.rest), [], [])
    else
      Effect(e.(appIn := t.rest, sendBuf := e.sendBuf + [Seg(e.nextSeq, t.chunk, false)],
                nextSeq := e.nextSeq + |t.chunk|),
             [Packet(e.nextSeq, e.recvNext, true, t.chunk, false)], [])
  }

  lemma AppDataIs(e: Endpoint)
    requires e.InWindow() && e.appIn != []
    ensures var len := if e.WinRemain() < MSS then e.WinRemain() else MSS;
            len >= 0
            && Protocol.HandleAppData(e) == if e.finSent || len == 0 then Effect(e, [], []) else ChunkSent(e, len)
    ensures Protocol.HandleAppData(e).events == []
  {
  }

  lemma SendRoomIs(e: Endpoint)
    requires SendRoom(e)
    ensures e.InWindow() && e.sendBase + WINDOW < TWO32 && e.nextSeq + |Flat(e.appIn)| < TWO32
  {
  }

  // The incoming-segment handler, case by case.
  lemma IncomingCases(e: Endpoint, s: Seg)
    ensures var r := HandleIncoming(e, s);
            if e.finReceived then r == Effect(e, [], [])
            else if s.End() <= e.recvNext then r == Effect(e, [AckOf(e)], [])
            else if s.start >= e.recvNext + WINDOW then r == Effect(e, [], [])
            else
              var f := Flush(Insert(e.recvBuf, Clamp(s, e.recvNext)), e.recvNext);
              r.ep == e.(recvBuf := f.buf, recvNext := f.next, appOut := e.appOut + f.chunks, finReceived := f.fin,
                         state := if f.fin then Transition(e.state, RecvFin) else e.state)
              && r.sent == [AckOf(r.ep)] && r.events == if f.fin then [RecvFin] else []
  {
  }

  // ----- room is kept from handler to handler -----

  lemma {:induction false} DequeueBelow(buf: seq<Seg>, ack: nat, limit: nat)
    requires forall i :: 0 <= i < |buf| ==> buf[i].End() < limit
    ensures forall i :: 0 <= i < |Dequeue(buf, ack)| ==> Dequeue(buf, ack)[i].End() < limit
  {
    if buf != [] && buf[0].End() <= ack { DequeueBelow(buf[1..], ack, limit); }
  }

  lemma AckRoom(e: Endpoint, ack: nat)
    requires Room(e)
    ensures Room(HandleAck(e, ack).ep)
  {
    hide Endpoint.InWindow, Dequeue;
    DequeueBelow(e.sendBuf, ack, TWO32);
  }

  lemma AppDataRoom(e: Endpoint)
    requires SendRoom(e) && e.appIn != []
    ensures SendRoom(HandleAppData(e).ep)
    ensures RecvRoom(e) ==> RecvRoom(HandleAppData(e).ep)
  {
    hide Flat;
    var len := if e.WinRemain() < MSS then e.WinRemain() else MSS;
    if !e.finSent && len != 0 {
      TakeChunkFlat(e.appIn, len);
      SnocBelow(e.sendBuf, Seg(e.nextSeq, TakeChunk(e.appIn, len).chunk, false), TWO32);
    }
  }

  lemma SnocBelow(buf: seq<Seg>, s: Seg, limit: nat)
    requires s.End() < limit && forall i :: 0 <= i < |buf| ==> buf[i].End() < limit
    ensures forall i :: 0 <= i < |buf + [s]| ==> (buf + [s])[i].End() < limit
  {
  }

  lemma NetworkRoom(e: Endpoint, p: Packet)
    requires Room(e)
    ensures SendRoom(HandleNetwork(e, p).ep)
  {
    var e1 := if p.isAck then HandleAck(e, p.ack).ep else e;
    if p.isAck { AckRoom(e, p.ack); }
    if |p.data| > 0 || p.fin { IncomingSameSender(e1, p.AsSeg()); }
  }

  lemma StageRoom(e: Endpoint)
    requires Room(e)
    ensures Room(AppDataStage(e).ep)
  {
    if AppDataReady(e) { AppDataRoom(e); }
  }

  // Every handler of a pass finds the room it needs, if the pass starts with it.
  lemma PassRoom(e: Endpoint, net: Option<Packet>)
    requires Room(e)
    ensures e.InWindow() && e.sendBase + WINDOW < TWO32
    ensures CloseReady(e) ==> SendRoom(e.(closeRequested := false))
    ensures SendRoom(e)
    ensures Room(AppDataStage(e).ep)
    ensures SendRoom(NetworkStage(AppDataStage(e).ep, net).ep)
  {
    StageRoom(e);
    if net.Some? { NetworkRoom(AppDataStage(e).ep, net.value); }
  }

  // Merging makes no node end beyond the nodes and the segment it started from.
  lemma InsertBelow(buf: seq<Seg>, seg: Seg, limit: nat)
    requires seg.End() < limit && forall i :: 0 <= i < |buf| ==> buf[i].End() < limit
    ensures forall i :: 0 <= i < |Insert(buf, seg)| ==> Insert(buf, seg)[i].End() < limit
  {
    InsertFromBelow(buf, seg, seg.start, limit);
  }

  lemma {:induction false} InsertFromBelow(buf: seq<Seg>, seg: Seg, pos: nat, limit: nat)
    requires seg.start <= pos <= seg.End() < limit && forall i :: 0 <= i < |buf| ==> buf[i].End() < limit
    ensures forall i :: 0 <= i < |InsertFrom(buf, seg, pos)| ==> InsertFrom(buf, seg, pos)[i].End() < limit
    decreases |buf|, 1
  {
    if pos < seg.End() && buf != [] {
      InsertPastBelow(buf, seg, if pos < buf[0].start then Min(buf[0].start, seg.End()) else pos, limit);
    }
  }

  lemma {:induction false} InsertPastBelow(buf: seq<Seg>, seg: Seg, pos: nat, limit: nat)
    requires buf != [] && seg.start <= pos <= seg.End() < limit && forall i :: 0 <= i < |buf| ==> buf[i].End() < limit
    ensures forall i :: 0 <= i < |InsertPast(buf, seg, pos)| ==> InsertPast(buf, seg, pos)[i].End() < limit
    decreases |buf|, 0
  {
    if pos < seg.End() {
      InsertFromBelow(buf[1..], seg, if pos < buf[0].End() then Min(buf[0].End(), seg.End()) else pos, limit);
    }
  }

  // What flushing e's list gives is chunks followed by what flushing buf at next gives.
  ghost predicate Below32(buf: seq<Seg>) { forall i :: 0 <= i < |buf| ==> buf[i].End() < TWO32 }

  lemma HeadBelow32(buf: seq<Seg>)
    requires Below32(buf) && buf != []
    ensures buf[0].End() < TWO32 && Below32(buf[1..])
  {
  }

  ghost predicate FlushedSoFar(e: Endpoint, buf: seq<Seg>, next: nat, chunks: seq<seq<byte>>) {
    var f := Flush(buf, next);
    Flush(e.recvBuf, e.recvNext) == f.(chunks := chunks + f.chunks)
  }

  // What a flush makes of e.
  ghost function FlushedEnd(e: Endpoint): Endpoint {
    var f := Flush(e.recvBuf, e.recvNext);
    e.(recvBuf := f.buf, recvNext := f.next, appOut := e.appOut + f.chunks, finReceived := f.fin,
       state := if f.fin then Transition(e.state, RecvFin) else e.state)
  }

  // The flush of e has come as far as now, having passed chunks up.
  ghost predicate Flushing(e: Endpoint, now: Endpoint, chunks: seq<seq<byte>>) {
    && now == e.(recvBuf := now.recvBuf, recvNext := now.recvNext, appOut := e.appOut + chunks)
    && !e.finReceived && Below32(now.recvBuf) && FlushedSoFar(e, now.recvBuf, now.recvNext, chunks)
  }

  lemma FlushBegin(e: Endpoint)
    requires Below32(e.recvBuf) && !e.finReceived
    ensures Flushing(e, e, [])
  {
    var f := Flush(e.recvBuf, e.recvNext);
    assert [] + f.chunks == f.chunks;
    assert e.appOut + [] == e.appOut;
  }

  // One turn of the loop: the head is passed up; a FIN ends the flush.
  lemma FlushTurn(e: Endpoint, now: Endpoint, chunks: seq<seq<byte>>)
    requires Flushing(e, now, chunks) && now.recvBuf != [] && now.recvBuf[0].start == now.recvNext
    ensures var c := now.recvBuf[0];
            var after := now.(recvBuf := now.recvBuf[1..], recvNext := c.End(), appOut := now.appOut + Chunks(c));
            && c.End() < TWO32
            && (Flush(e.recvBuf, e.recvNext).fin <== c.fin)
            && (if c.fin then
                  FlushedEnd(e) == after.(finReceived := true, state := Transition(now.state, RecvFin))
                else Flushing(e, after, chunks + Chunks(c)))
  {
    hide Chunks;
    hide Transition, Below32;
    var c, rest := now.recvBuf[0], now.recvBuf[1..];
    HeadBelow32(now.recvBuf);
    assert e.appOut + (chunks + Chunks(c)) == e.appOut + chunks + Chunks(c);
    if !c.fin {
      var f := Flush(rest, c.End());
      assert chunks + (Chunks(c) + f.chunks) == chunks + Chunks(c) + f.chunks;
    }
  }

  lemma FlushEnds(e: Endpoint, now: Endpoint, chunks: seq<seq<byte>>)
    requires Flushing(e, now, chunks) && (now.recvBuf == [] || now.recvBuf[0].start != now.recvNext)
    ensures now == FlushedEnd(e) && !Flush(e.recvBuf, e.recvNext).fin
  {
    assert chunks + [] == chunks;
  }

  lemma TakeChunkFits(q: seq<seq<byte>>, max: nat)
    requires q != []
    ensures |TakeChunk(q, max).chunk| <= max && |TakeChunk(q, max).chunk| <= |Flat(q)|
  {
  }
}
