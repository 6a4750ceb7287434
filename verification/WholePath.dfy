/** From mywrite to myread: what the applications at the two ends see, end-of-file included. */
module WholePath {
  import opened Basics
  import opened Segments
  import opened Protocol
  import opened Streams
  import opened SendSide
  import opened Connection
  import opened Runs
  import opened Recovery
  import opened Guarantees

  // -------------------------------------------------------------------------
  // The two byte streams of a run
  // -------------------------------------------------------------------------

  // All buffers side x passes to mywrite in a run, one after the other.
  function Written(steps: seq<Step>, x: Side): seq<byte> {
    if steps == [] then []
    else (if steps[0].side == x && steps[0].act.Write? then steps[0].act.buf else []) + Written(steps[1..], x)
  }

  // All results side x gets from myread in a run, one after the other.
  function ReadOut(s: System, steps: seq<Step>, x: Side): seq<byte>
    requires Possible(s, steps)
    decreases |steps|
  {
    if steps == [] then []
    else
      (if steps[0].side == x && steps[0].act.Read? then ReadResult(s.End(x).ep, steps[0].act.max) else [])
      + ReadOut(Next(s, steps[0]), steps[1..], x)
  }

  lemma StepHistory(s: System, st: Step, x: Side)
    requires Enabled(s, st)
    ensures var n, n', mine := s.End(x), Next(s, st).End(x), st.side == x;
            && n'.written == n.written + (if mine && st.act.Write? then st.act.buf else [])
            && n'.read == n.read + (if mine && st.act.Read? then ReadResult(n.ep, st.act.max) else [])
  {
    NextEnd(s, st, x);
  }

  lemma JoinHistory(h: seq<byte>, first: seq<byte>, rest: seq<byte>, h1: seq<byte>, h2: seq<byte>)
    requires h1 == h + first && h2 == h1 + rest
    ensures h2 == h + (first + rest)
  {
  }

  lemma {:induction false} WrittenIsTrue(s: System, steps: seq<Step>, x: Side)
    requires Possible(s, steps)
    ensures Exec(s, steps).End(x).written == s.End(x).written + Written(steps, x)
    decreases |steps|
  {
    if steps != [] {
      var s1 := Next(s, steps[0]);
      StepHistory(s, steps[0], x);
      WrittenIsTrue(s1, steps[1..], x);
      JoinHistory(s.End(x).written, if steps[0].side == x && steps[0].act.Write? then steps[0].act.buf else [],
                  Written(steps[1..], x), s1.End(x).written, Exec(s, steps).End(x).written);
    }
  }

  lemma {:induction false} ReadIsTrue(s: System, steps: seq<Step>, x: Side)
    requires Possible(s, steps)
    ensures Exec(s, steps).End(x).read == s.End(x).read + ReadOut(s, steps, x)
    decreases |steps|
  {
    if steps != [] {
      var s1 := Next(s, steps[0]);
      StepHistory(s, steps[0], x);
      ReadIsTrue(s1, steps[1..], x);
      JoinHistory(s.End(x).read,
                  if steps[0].side == x && steps[0].act.Read? then ReadResult(s.End(x).ep, steps[0].act.max) else [],
                  ReadOut(s1, steps[1..], x), s1.End(x).read, Exec(s, steps).End(x).read);
    }
  }

  lemma ExecReachable(s0: System, steps: seq<Step>)
    requires Initial(s0) && Possible(s0, steps)
    ensures Reachable(Exec(s0, steps))
  {
  }

  lemma NothingYet(s0: System, x: Side, bytes: seq<byte>)
    requires Initial(s0)
    ensures s0.End(x).read + bytes == bytes && s0.End(x).written + bytes == bytes
  {
  }

  /** The whole path: in every run, the concatenation of all results of myread at one end is a prefix
      of the concatenation of all buffers given to mywrite at the other. */
  lemma ReadsArePrefixOfWrites(s0: System, steps: seq<Step>, x: Side)
    requires Initial(s0) && Possible(s0, steps)
    ensures ReadOut(s0, steps, x) <= Written(steps, x.Peer())
  {
    ReadIsTrue(s0, steps, x);
    WrittenIsTrue(s0, steps, x.Peer());
    ExecReachable(s0, steps);
    PrefixSafety(Exec(s0, steps), x);
    NothingYet(s0, x, ReadOut(s0, steps, x));
    NothingYet(s0, x.Peer(), Written(steps, x.Peer()));
  }

  // -------------------------------------------------------------------------
  // End of file
  // -------------------------------------------------------------------------

  predicate PositiveReads(steps: seq<Step>) {
    forall i :: 0 <= i < |steps| && steps[i].act.Read? ==> steps[i].act.max > 0
  }

  // Reachable by a run in which no application asks for zero bytes.
  ghost predicate ReachablePositive(s: System) {
    exists s0, steps :: Initial(s0) && Possible(s0, steps) && PositiveReads(steps) && s == Exec(s0, steps)
  }

  // Nothing but end-of-file marks follows an end-of-file mark.
  ghost predicate EofLast(q: seq<seq<byte>>) {
    forall i, j :: 0 <= i < j < |q| && q[i] == [] ==> q[j] == []
  }

  // End of file has been queued, and read, only when no byte can follow, and no byte does.
  ghost predicate EofOk(n: Node) {
    && EofLast(n.ep.appOut)
    && ([] in n.ep.appOut || n.ep.eof ==> n.ep.finReceived || n.exited)
    && (n.ep.eof ==> forall i :: 0 <= i < |n.ep.appOut| ==> n.ep.appOut[i] == [])
  }

  lemma {:induction false} AllEmptyFlat(q: seq<seq<byte>>)
    requires forall i :: 0 <= i < |q| ==> q[i] == []
    ensures Flat(q) == []
  {
    if q != [] { AllEmptyFlat(q[1..]); }
  }

  // A flush hands over no end-of-file mark unless it consumes a FIN, and then only as the last chunk.
  lemma {:induction false} FlushChunks(buf: seq<Seg>, next: nat)
    ensures var f := Flush(buf, next);
            if f.fin then f.chunks != [] && f.chunks[|f.chunks| - 1] == [] && [] !in f.chunks[..|f.chunks| - 1]
            else [] !in f.chunks
  {
    if buf != [] && buf[0].start == next && !buf[0].fin {
      var rest := Flush(buf[1..], buf[0].End());
      FlushChunks(buf[1..], buf[0].End());
      var f := Flush(buf, next);
      assert f.chunks == Chunks(buf[0]) + rest.chunks && [] !in Chunks(buf[0]);
      if f.fin { assert f.chunks[..|f.chunks| - 1] == Chunks(buf[0]) + rest.chunks[..|rest.chunks| - 1]; }
    }
  }

  lemma EofLastAppend(q: seq<seq<byte>>, more: seq<seq<byte>>)
    requires [] !in q && EofLast(more)
    ensures EofLast(q + more)
  {
  }

  lemma IncomingEof(e: Endpoint, s: Seg)
    requires !e.finReceived && [] !in e.appOut && EofLast(e.appOut)
    ensures var e' := HandleIncoming(e, s).ep;
            EofLast(e'.appOut) && ([] in e'.appOut ==> e'.finReceived)
  {
    if !(s.End() <= e.recvNext || s.start >= e.recvNext + WINDOW) {
      var buf := Insert(e.recvBuf, Clamp(s, e.recvNext));
      var f := Flush(buf, e.recvNext);
      FlushChunks(buf, e.recvNext);
      EofLastAppend(e.appOut, f.chunks);
    }
  }

  lemma DoEof(n: Node, st: Stream, arriving: set<Packet>, act: Action)
    requires Can(n, arriving, act) && EndOk(n, st) && EofOk(n) && (act.Read? ==> act.max > 0)
    ensures EofOk(Do(n, arriving, act))
  {
    hide Flat, Endpoint.WinRemain, StreamOf, Wake;
    match act
    case Write(_) =>
    case Close =>
    case Read(max) => ReadEof(n, max);
    case Pass(net) => PassEof(n, net);
    case Expire =>
    case Exit =>
  }

  lemma PassEof(n: Node, net: Option<Packet>)
    requires n.ep.InWindow() && EofOk(n) && !n.exited
    ensures EofOk(After(n, Wake(n.ep, net)))
  {
    PassPlace(n.ep, net);
    if net.Some? && net.value.AsSeg().Len() > 0 {
      if n.ep.finReceived {
        assert HandleIncoming(n.ep, net.value.AsSeg()).ep == n.ep;
      } else {
        IncomingEof(n.ep, net.value.AsSeg());
      }
    }
  }

  lemma ReadEof(n: Node, max: nat)
    requires EofOk(n) && max > 0 && (n.ep.eof || n.ep.appOut != [])
    ensures EofOk(DoRead(n, max))
  {
    if !n.ep.eof {
      var q, t := n.ep.appOut, TakeChunk(n.ep.appOut, max);
      if |q[0]| > max {
        assert t.rest == [q[0][max..]] + q[1..];
      } else {
        assert t.rest == q[1..];
      }
    }
  }

  ghost predicate EofInv(s: System) { EofOk(s.a) && EofOk(s.b) }

  lemma NextEof(s: System, st: Step)
    requires Inv(s) && EofInv(s) && Enabled(s, st) && (st.act.Read? ==> st.act.max > 0)
    ensures EofInv(Next(s, st))
  {
    InvEnd(s, st.side);
    DoEof(s.End(st.side), StreamOf(s.End(st.side.Peer())), s.From(st.side.Peer()), st.act);
  }

  lemma {:induction false} ExecEof(s: System, steps: seq<Step>)
    requires Inv(s) && EofInv(s) && Possible(s, steps) && PositiveReads(steps)
    ensures EofInv(Exec(s, steps))
    decreases |steps|
  {
    if steps != [] {
      InvNext(s, steps[0]);
      NextEof(s, steps[0]);
      ExecEof(Next(s, steps[0]), steps[1..]);
    }
  }

  lemma EofReachable(s: System)
    requires ReachablePositive(s)
    ensures Reachable(s) && EofInv(s)
  {
    hide Inv;
    var s0, steps :| Initial(s0) && Possible(s0, steps) && PositiveReads(steps) && s == Exec(s0, steps);
    InvInitial(s0);
    ExecEof(s0, steps);
  }

  lemma ReadZeroAtEnd(n: Node, max: nat)
    requires EofOk(n) && (n.ep.eof || n.ep.appOut != []) && max > 0
    ensures ReadResult(n.ep, max) == [] <==> n.read == DeliveredTo(n)
    ensures ReadResult(n.ep, max) == [] ==> n.ep.finReceived || n.exited
  {
    if ReadResult(n.ep, max) == [] {
      AllEmptyFlat(n.ep.appOut);
      assert n.read + [] == n.read;
    }
  }

  /** myread returns 0 only after every byte queued before the end-of-file mark has been read; and
      then the application has read everything its peer wrote, unless the connection was aborted.
      Before that, a positive request is answered with at least one byte, so it makes progress. */
  lemma ReadZeroMeansEof(s: System, x: Side, max: nat)
    requires ReachablePositive(s) && Enabled(s, Step(x, Read(max))) && max > 0
    ensures ReadResult(s.End(x).ep, max) == [] <==> (s.End(x).read == DeliveredTo(s.End(x)))
    ensures ReadResult(s.End(x).ep, max) == [] ==>
              s.End(x).aborted || (s.End(x).read == s.End(x.Peer()).written && s.End(x.Peer()).closed)
  {
    hide EndOk;
    EofReachable(s);
    InvReachable(s);
    ReadZeroAtEnd(s.End(x), max);
    if ReadResult(s.End(x).ep, max) == [] && !s.End(x).aborted {
      EndedMeansAll(s, x);
    }
  }

  lemma EndedMeansAll(s: System, x: Side)
    requires Inv(s) && !s.End(x).aborted && (s.End(x).ep.finReceived || s.End(x).exited)
    ensures DeliveredTo(s.End(x)) == s.End(x.Peer()).written && s.End(x.Peer()).closed
  {
    if s.End(x).exited { StateMeaning(s.End(x)); }
    FinReceivedMeansDelivered(s.End(x), s.End(x.Peer()));
  }

  /** Asking for zero bytes is the one exception: while data is waiting, myread returns 0 exactly
      when it was asked for 0, and that call sets the end-of-file flag. */
  lemma ZeroReadIsTakenForEof(s: System, x: Side, max: nat)
    requires ReachablePositive(s) && Enabled(s, Step(x, Read(max))) && Flat(s.End(x).ep.appOut) != []
    ensures ReadResult(s.End(x).ep, max) == [] <==> max == 0
    ensures DoRead(s.End(x), max).ep.eof <==> max == 0
  {
    hide EndOk;
    EofReachable(s);
    var n := s.End(x);
    if n.ep.eof || n.ep.appOut[0] == [] { AllEmptyFlat(n.ep.appOut); }
  }

  lemma EofAct(n: Node, arriving: set<Packet>, act: Action)
    requires Can(n, arriving, act) && n.ep.eof
    ensures Do(n, arriving, act).ep.eof
  {
    if act.Pass? { PassPlace(n.ep, act.net); }
  }

  lemma EofStep(s: System, st: Step, x: Side)
    requires Enabled(s, st) && s.End(x).ep.eof
    ensures Next(s, st).End(x).ep.eof
  {
    NextEnd(s, st, x);
    if st.side == x { EofAct(s.End(x), s.From(x.Peer()), st.act); }
  }

  /** Once the flag is set, whatever still waits or arrives is never read. */
  lemma {:induction false} EofIsFinal(s: System, steps: seq<Step>, x: Side)
    requires Possible(s, steps) && s.End(x).ep.eof
    ensures Exec(s, steps).End(x).ep.eof && ReadOut(s, steps, x) == []
    decreases |steps|
  {
    if steps != [] {
      EofStep(s, steps[0], x);
      EofIsFinal(Next(s, steps[0]), steps[1..], x);
    }
  }

  // -------------------------------------------------------------------------
  // End of file arrives
  // -------------------------------------------------------------------------

  // Once nothing more can come, an end-of-file mark is in the queue or has been read.
  ghost predicate MarkArrived(n: Node) { n.ep.finReceived || n.exited ==> n.ep.eof || [] in n.ep.appOut }

  lemma IncomingMark(e: Endpoint, s: Seg)
    ensures var e' := HandleIncoming(e, s).ep;
            && e.appOut <= e'.appOut && e'.eof == e.eof
            && (e'.finReceived && !e.finReceived ==> [] in e'.appOut)
  {
    if !(e.finReceived || s.End() <= e.recvNext || s.start >= e.recvNext + WINDOW) {
      var buf := Insert(e.recvBuf, Clamp(s, e.recvNext));
      FlushChunks(buf, e.recvNext);
    }
  }

  lemma PassMark(n: Node, net: Option<Packet>)
    requires n.ep.InWindow() && MarkArrived(n)
    ensures MarkArrived(After(n, Wake(n.ep, net)))
  {
    hide Wake, HandleIncoming;
    PassPlace(n.ep, net);
    if net.Some? { IncomingMark(n.ep, net.value.AsSeg()); }
  }

  lemma ReadMark(n: Node, max: nat)
    requires MarkArrived(n) && (n.ep.eof || n.ep.appOut != [])
    ensures MarkArrived(DoRead(n, max))
  {
    if !n.ep.eof && [] in n.ep.appOut {
      var q, t := n.ep.appOut, TakeChunk(n.ep.appOut, max);
      assert q == [q[0]] + q[1..];
      if t.chunk != [] { assert [] in q[1..]; }
    }
  }

  lemma DoMark(n: Node, arriving: set<Packet>, act: Action)
    requires Can(n, arriving, act) && n.ep.InWindow() && MarkArrived(n)
    ensures MarkArrived(Do(n, arriving, act))
  {
    hide Wake, TakeChunk, MarkArrived, DoRead, Resend;
    match act
    case Read(max) => ReadMark(n, max);
    case Pass(net) => PassMark(n, net);
    case _ => OtherMark(n, arriving, act);
  }

  lemma OtherMark(n: Node, arriving: set<Packet>, act: Action)
    requires Can(n, arriving, act) && MarkArrived(n) && !act.Read? && !act.Pass?
    ensures MarkArrived(Do(n, arriving, act))
  {
    hide Resend;
  }

  lemma NextMark(s: System, st: Step, x: Side)
    requires Inv(s) && Enabled(s, st) && MarkArrived(s.End(x))
    ensures MarkArrived(Next(s, st).End(x))
  {
    hide Inv, Can, Do, MarkArrived;
    InvInWindow(s, x);
    NextEnd(s, st, x);
    if st.side == x { DoMark(s.End(x), s.From(x.Peer()), st.act); }
  }

  lemma {:induction false} ExecMark(s: System, steps: seq<Step>, x: Side)
    requires Inv(s) && Possible(s, steps) && MarkArrived(s.End(x))
    ensures MarkArrived(Exec(s, steps).End(x))
    decreases |steps|
  {
    hide Inv, Enabled, MarkArrived, Next;
    if steps != [] {
      NextMark(s, steps[0], x);
      InvNext(s, steps[0]);
      ExecMark(Next(s, steps[0]), steps[1..], x);
    }
  }

  /** Once the peer's FIN has been consumed, or the transport thread has ended, myread does not block
      any more: there is data, an end-of-file mark, or the flag. */
  lemma ReadDoesNotBlock(s: System, x: Side, max: nat)
    requires Reachable(s) && !s.End(x).closed && (s.End(x).ep.finReceived || s.End(x).exited)
    ensures Enabled(s, Step(x, Read(max)))
  {
    hide Inv, Possible, Exec;
    var s0, steps :| Initial(s0) && Possible(s0, steps) && s == Exec(s0, steps);
    InvInitial(s0);
    ExecMark(s0, steps, x);
  }
}
