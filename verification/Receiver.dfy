/** The receive side of a connection: its list handling refines a simple map-based receiver,
    and on segments cut from one stream its outcome does not depend on arrival order. */
module Receiver {
  import opened Basics
  import opened Segments
  import opened Protocol
  import opened Streams

  // -------------------------------------------------------------------------
  // The window cuts
  // -------------------------------------------------------------------------

  // The items of a segment that lie in the receive window starting at next.
  function InWindow(items: map<nat, Item>, next: nat): map<nat, Item> {
    map i | i in items && next <= i < next + WINDOW :: items[i]
  }

  /** Clamping keeps exactly the part of the segment inside the window, and never an empty one:
      the interval merge is always entered with a byte or a FIN. */
  lemma ClampIsWindow(s: Seg, next: nat)
    requires next < s.End() && s.start < next + WINDOW && s.Len() > 0
    ensures var c := Clamp(s, next);
            && c.start == Max(s.start, next)
            && c.End() == Min(s.End(), next + WINDOW)
            && (|c.data| > 0 || c.fin)
            && Items(c) == InWindow(Items(s), next)
  {
    var c := Clamp(s, next);
    assert c.start == Max(s.start, next) && c.End() == Min(s.End(), next + WINDOW);
    forall i | c.start <= i < c.End() ensures ItemAt(c, i) == ItemAt(s, i) {
    }
  }

  // -------------------------------------------------------------------------
  // Refinement of the map-based receiver
  // -------------------------------------------------------------------------

  // The receive list is sorted and disjoint, and lies strictly inside the window.
  ghost predicate RecvOrdered(e: Endpoint) {
    && Ordered(e.recvBuf)
    && (!e.finReceived ==> StartsFrom(e.recvBuf, e.recvNext + 1))
    && (!e.finReceived ==> forall i :: i in Held(e.recvBuf) ==> e.recvNext < i < e.recvNext + WINDOW)
  }

  lemma NothingToFlush(buf: seq<Seg>, next: nat)
    requires StartsFrom(buf, next + 1)
    ensures next !in Held(buf)
    ensures Advance(Held(buf), next) == Progress(Held(buf), next, [], false)
  {
    if next in Held(buf) { HeldBound(buf, next + 1, next); }
  }

  lemma WithoutStep(held: map<nat, Item>, next: nat, hi: nat)
    requires next in held && next < hi
    ensures Without(held - {next}, next + 1, hi) == Without(held, next, hi)
  {
  }

  lemma WithoutFew(held: map<nat, Item>, next: nat)
    ensures Without(held, next, next) == held && Without(held, next, next + 1) == held - {next}
  {
  }

  lemma {:induction false} AdvanceSpan(held: map<nat, Item>, next: nat)
    ensures var r := Advance(held, next);
            && next <= r.next
            && (forall i :: next <= i < r.next ==> i in held)
            && (!r.fin ==> r.next !in held)
            && (r.fin ==> next < r.next && held[r.next - 1] == FinMark)
    decreases |held|
  {
    if next in held {
      assert held.Keys == (held - {next}).Keys + {next};
      if held[next] != FinMark {
        AdvanceSpan(held - {next}, next + 1);
      }
    }
  }

  lemma {:induction false} AdvanceLeaves(held: map<nat, Item>, next: nat)
    ensures Advance(held, next).held == Without(held, next, Advance(held, next).next)
    decreases |held|
  {
    hide Without;
    WithoutFew(held, next);
    if next in held {
      assert held.Keys == (held - {next}).Keys + {next};
      if held[next] != FinMark {
        AdvanceSpan(held - {next}, next + 1);
        AdvanceLeaves(held - {next}, next + 1);
        WithoutStep(held, next, Advance(held - {next}, next + 1).next);
      }
    }
  }

  // Advancing takes exactly the positions up to the first one missing, or past the FIN.
  lemma AdvanceKeys(held: map<nat, Item>, next: nat)
    ensures var r := Advance(held, next);
            && next <= r.next
            && r.held == Without(held, next, r.next)
            && (forall i :: next <= i < r.next ==> i in held)
            && (!r.fin ==> r.next !in held)
            && (r.fin ==> next < r.next && held[r.next - 1] == FinMark)
  {
    hide Without, Advance;
    AdvanceSpan(held, next);
    AdvanceLeaves(held, next);
  }

  // e' is what the map-based receiver makes of e and s: add the part of s inside the window to
  // the positions held, then take positions in order until one is missing or the FIN is taken.
  ghost predicate MapStep(e: Endpoint, s: Seg, e': Endpoint) {
    var r := Advance(InWindow(Items(s), e.recvNext) + Held(e.recvBuf), e.recvNext);
    && RecvOrdered(e')
    && Held(e'.recvBuf) == r.held
    && e'.recvNext == r.next
    && Flat(e'.appOut) == Flat(e.appOut) + r.bytes
    && e'.finReceived == r.fin
  }

  lemma StartsEarlier(buf: seq<Seg>, next: nat)
    requires StartsFrom(buf, next + 1)
    ensures StartsFrom(buf, next)
  {
  }

  lemma OutsideRefinesMap(e: Endpoint, s: Seg)
    requires RecvOrdered(e) && !e.finReceived && (s.End() <= e.recvNext || s.start >= e.recvNext + WINDOW)
    ensures MapStep(e, s, e)
  {
    hide Advance;
    NothingToFlush(e.recvBuf, e.recvNext);
    assert InWindow(Items(s), e.recvNext) + Held(e.recvBuf) == Held(e.recvBuf);
    assert Flat(e.appOut) + [] == Flat(e.appOut);
  }

  // What a flush leaves stays strictly inside the window.
  lemma FlushedInside(buf: seq<Seg>, next: nat)
    requires Ordered(buf) && StartsFrom(buf, next) && forall i :: i in Held(buf) ==> i < next + WINDOW
    ensures var f := Flush(buf, next);
            && next <= f.next && Ordered(f.buf)
            && (!f.fin ==>
                  StartsFrom(f.buf, f.next + 1) && forall i :: i in Held(f.buf) ==> f.next < i < f.next + WINDOW)
  {
    hide Flush, Advance, Held;
    var f := Flush(buf, next);
    FlushIsAdvance(buf, next);
    FlushOrdered(buf, next);
    AdvanceKeys(Held(buf), next);
    if !f.fin {
      forall i | i in Held(f.buf) ensures f.next < i < f.next + WINDOW {
        HeldBound(f.buf, f.next + 1, i);
      }
    }
  }

  /** Clamp, insert and flush on the list refine the map-based receiver. */
  lemma IncomingRefinesMap(e: Endpoint, s: Seg)
    requires RecvOrdered(e) && !e.finReceived && s.Len() > 0
    ensures MapStep(e, s, HandleIncoming(e, s).ep)
  {
    hide Advance, Flush, Insert, Clamp, Held, Range, Ordered, StartsFrom;
    var next := e.recvNext;
    if s.End() <= next || s.start >= next + WINDOW {
      OutsideRefinesMap(e, s);
    } else {
      var c := Clamp(s, next);
      ClampIsWindow(s, next);
      StartsEarlier(e.recvBuf, next);
      InsertMerges(e.recvBuf, c, next);
      var buf := Insert(e.recvBuf, c);
      FlushIsAdvance(buf, next);
      FlushedInside(buf, next);
      FlatConcat(e.appOut, Flush(buf, next).chunks);
    }
  }

  // -------------------------------------------------------------------------
  // Receiving a stream
  // -------------------------------------------------------------------------

  // The position up to which bytes have been delivered.
  function Upto(e: Endpoint): int { e.recvNext - if e.finReceived then 1 else 0 }

  // What the application has read followed by what waits in its queue is a prefix of the stream,
  // and what the endpoint holds beyond is also part of the stream.
  ghost predicate Receiving(e: Endpoint, st: Stream, read: seq<byte>) {
    && RecvOrdered(e)
    && Agrees(Held(e.recvBuf), st)
    && st.base <= Upto(e) <= st.base + |st.bytes|
    && read + Flat(e.appOut) == st.bytes[..Upto(e) - st.base]
    && (e.finReceived ==> st.ended && e.recvNext == st.Top() && Held(e.recvBuf) == map[])
  }

  // A sequence number has been received: delivered or held.
  ghost predicate Covered(e: Endpoint, i: nat) { i < e.recvNext || i in Held(e.recvBuf) }

  lemma ReceivingExtends(e: Endpoint, s: Stream, t: Stream, read: seq<byte>)
    requires Receiving(e, s, read) && Extends(s, t)
    ensures Receiving(e, t, read)
  {
    AgreesExtends(Held(e.recvBuf), s, t);
  }

  lemma UnionAgrees(a: map<nat, Item>, b: map<nat, Item>, st: Stream)
    requires Agrees(a, st) && Agrees(b, st)
    ensures Agrees(a + b, st)
  {
  }

  lemma InWindowAgrees(items: map<nat, Item>, next: nat, st: Stream)
    requires Agrees(items, st)
    ensures Agrees(InWindow(items, next), st)
  {
  }

  // What is left beyond the end of an ended stream is nothing.
  lemma NothingLeft(m: map<nat, Item>, st: Stream, next: nat)
    requires Agrees(m, st) && (forall i :: i in m ==> next <= i)
    ensures Without(m, next, st.Top()) == map[]
  {
  }

  lemma WithoutAgrees(m: map<nat, Item>, lo: nat, hi: nat, st: Stream)
    requires Agrees(m, st)
    ensures Agrees(Without(m, lo, hi), st)
  {
  }

  lemma CoveredByAdvance(e: Endpoint, e': Endpoint, s: Seg, m: map<nat, Item>)
    requires m == InWindow(Items(s), e.recvNext) + Held(e.recvBuf)
    requires e.recvNext <= e'.recvNext && Held(e'.recvBuf) == Without(m, e.recvNext, e'.recvNext)
    requires forall i :: e.recvNext <= i < e'.recvNext ==> i in m
    ensures forall i: nat :: Covered(e', i) <==> Covered(e, i) || (i in Items(s) && i < e.recvNext + WINDOW)
  {
    forall i: nat ensures Covered(e', i) <==> Covered(e, i) || (i in Items(s) && i < e.recvNext + WINDOW) {
      assert i in m <==> (i in Held(e.recvBuf) || (i in Items(s) && e.recvNext <= i < e.recvNext + WINDOW));
      assert i in Held(e'.recvBuf) <==> (i in m && !(e.recvNext <= i < e'.recvNext));
    }
  }

  lemma AdvanceReceives(m: map<nat, Item>, next: nat, st: Stream)
    requires Agrees(m, st) && st.base <= next <= st.base + |st.bytes|
    requires forall i :: i in m ==> next <= i
    ensures var r := Advance(m, next);
            var upto := r.next - if r.fin then 1 else 0;
            && next <= upto <= st.base + |st.bytes|
            && r.bytes == st.bytes[next - st.base..upto - st.base]
            && Agrees(r.held, st)
            && (r.fin ==> st.ended && r.next == st.Top() && r.held == map[])
  {
    AdvanceAgrees(m, next, st);
    AdvanceKeys(m, next);
    WithoutAgrees(m, next, Advance(m, next).next, st);
    NothingLeft(m, st, next);
  }

  lemma JoinPrefix(bytes: seq<byte>, lo: nat, hi: nat, read: seq<byte>, queued: seq<byte>, more: seq<byte>)
    requires lo <= hi <= |bytes| && read + queued == bytes[..lo] && more == bytes[lo..hi]
    ensures read + (queued + more) == bytes[..hi]
  {
    assert read + (queued + more) == (read + queued) + more;
  }

  lemma ReceivingNow(e: Endpoint, e': Endpoint, r: Progress, st: Stream, read: seq<byte>)
    requires Receiving(e, st, read) && !e.finReceived && RecvOrdered(e')
    requires Held(e'.recvBuf) == r.held && e'.recvNext == r.next && e'.finReceived == r.fin
    requires Flat(e'.appOut) == Flat(e.appOut) + r.bytes
    requires e.recvNext <= Upto(e') <= st.base + |st.bytes|
    requires r.bytes == st.bytes[e.recvNext - st.base..Upto(e') - st.base]
    requires Agrees(r.held, st) && (r.fin ==> st.ended && r.next == st.Top() && r.held == map[])
    ensures Receiving(e', st, read)
  {
    JoinPrefix(st.bytes, e.recvNext - st.base, Upto(e') - st.base, read, Flat(e.appOut), r.bytes);
  }

  lemma MergedAgrees(e: Endpoint, s: Seg, st: Stream, read: seq<byte>)
    requires Receiving(e, st, read) && !e.finReceived && Agrees(Items(s), st)
    ensures var m := InWindow(Items(s), e.recvNext) + Held(e.recvBuf);
            Agrees(m, st) && forall i :: i in m ==> e.recvNext <= i
  {
    InWindowAgrees(Items(s), e.recvNext, st);
    UnionAgrees(InWindow(Items(s), e.recvNext), Held(e.recvBuf), st);
  }

  lemma MapStepReceives(e: Endpoint, s: Seg, e': Endpoint, st: Stream, read: seq<byte>)
    requires Receiving(e, st, read) && !e.finReceived && Agrees(Items(s), st) && MapStep(e, s, e')
    ensures Receiving(e', st, read) && e.recvNext <= e'.recvNext
  {
    hide Advance, Held, InWindow, Range, RecvOrdered, Agrees, Flat;
    var m := InWindow(Items(s), e.recvNext) + Held(e.recvBuf);
    MergedAgrees(e, s, st, read);
    AdvanceReceives(m, e.recvNext, st);
    ReceivingNow(e, e', Advance(m, e.recvNext), st, read);
  }

  /** A segment of the stream extends what was delivered to a longer prefix of the stream. */
  lemma IncomingReceives(e: Endpoint, s: Seg, st: Stream, read: seq<byte>)
    requires Receiving(e, st, read) && Agrees(Items(s), st) && s.Len() > 0
    ensures Receiving(HandleIncoming(e, s).ep, st, read)
    ensures e.recvNext <= HandleIncoming(e, s).ep.recvNext
  {
    if !e.finReceived {
      IncomingRefinesMap(e, s);
      MapStepReceives(e, s, HandleIncoming(e, s).ep, st, read);
    }
  }

  /** Afterwards it covers, besides what it covered before, exactly the segment's positions up to
      the end of the window. */
  lemma IncomingCovers(e: Endpoint, s: Seg, st: Stream, read: seq<byte>)
    requires Receiving(e, st, read) && Agrees(Items(s), st) && s.Len() > 0
    ensures forall i: nat :: Covered(HandleIncoming(e, s).ep, i) <==>
              Covered(e, i) || (i in Items(s) && i < e.recvNext + WINDOW)
  {
    if !e.finReceived {
      var m := InWindow(Items(s), e.recvNext) + Held(e.recvBuf);
      IncomingRefinesMap(e, s);
      AdvanceKeys(m, e.recvNext);
      CoveredByAdvance(e, HandleIncoming(e, s).ep, s, m);
    }
  }

  // -------------------------------------------------------------------------
  // Order independence
  // -------------------------------------------------------------------------

  function ReceiveAll(e: Endpoint, segs: seq<Seg>): Endpoint
    decreases |segs|
  {
    if segs == [] then e else ReceiveAll(HandleIncoming(e, segs[0]).ep, segs[1..])
  }

  ghost predicate InSome(segs: seq<Seg>, i: nat) { exists k :: 0 <= k < |segs| && i in Items(segs[k]) }

  ghost predicate CutFrom(segs: seq<Seg>, st: Stream, limit: nat) {
    forall k :: 0 <= k < |segs| ==> segs[k].Len() > 0 && Agrees(Items(segs[k]), st) && segs[k].End() <= limit
  }

  lemma InSomeCons(segs: seq<Seg>, i: nat)
    requires segs != []
    ensures InSome(segs, i) <==> i in Items(segs[0]) || InSome(segs[1..], i)
  {
    if k :| 0 <= k < |segs| && i in Items(segs[k]) {
      if k > 0 { assert i in Items(segs[1..][k - 1]); }
    }
    if k :| 0 <= k < |segs[1..]| && i in Items(segs[1..][k]) {
      assert i in Items(segs[k + 1]);
    }
  }

  lemma {:induction false} ReceiveAllCovers(e: Endpoint, segs: seq<Seg>, st: Stream, read: seq<byte>, limit: nat)
    requires Receiving(e, st, read) && CutFrom(segs, st, limit) && limit <= e.recvNext + WINDOW
    ensures Receiving(ReceiveAll(e, segs), st, read)
    ensures forall i: nat :: Covered(ReceiveAll(e, segs), i) <==> Covered(e, i) || InSome(segs, i)
    decreases |segs|
  {
    if segs != [] {
      var e1 := HandleIncoming(e, segs[0]).ep;
      IncomingReceives(e, segs[0], st, read);
      IncomingCovers(e, segs[0], st, read);
      ReceiveAllCovers(e1, segs[1..], st, read, limit);
      forall i: nat ensures Covered(ReceiveAll(e, segs), i) <==> Covered(e, i) || InSome(segs, i) {
        InSomeCons(segs, i);
        assert i in Items(segs[0]) ==> i < limit;
      }
    }
  }

  // The next expected number is the first one not covered.
  lemma NextNotCovered(e: Endpoint, st: Stream, read: seq<byte>)
    requires Receiving(e, st, read)
    ensures !Covered(e, e.recvNext)
  {
    if !e.finReceived { NothingToFlush(e.recvBuf, e.recvNext); }
  }

  lemma HeldIsCovered(e: Endpoint, st: Stream, read: seq<byte>)
    requires Receiving(e, st, read)
    ensures forall i: nat :: i in Held(e.recvBuf) <==> Covered(e, i) && e.recvNext <= i
  {
  }

  // Two receivers of the same stream that cover the same positions are in the same place.
  lemma CoverageDetermines(e1: Endpoint, e2: Endpoint, st: Stream, read: seq<byte>)
    requires Receiving(e1, st, read) && Receiving(e2, st, read)
    requires forall i: nat :: Covered(e1, i) <==> Covered(e2, i)
    ensures e1.recvNext == e2.recvNext && e1.finReceived == e2.finReceived
    ensures Flat(e1.appOut) == Flat(e2.appOut)
    ensures Held(e1.recvBuf) == Held(e2.recvBuf)
  {
    NextNotCovered(e1, st, read);
    NextNotCovered(e2, st, read);
    assert !Covered(e2, e1.recvNext) && !Covered(e1, e2.recvNext);
    HeldIsCovered(e1, st, read);
    HeldIsCovered(e2, st, read);
    assert Flat(e1.appOut) == (read + Flat(e1.appOut))[|read|..];
    assert Flat(e2.appOut) == (read + Flat(e2.appOut))[|read|..];
    SameHeld(Held(e1.recvBuf), Held(e2.recvBuf), st);
  }

  lemma SameHeld(a: map<nat, Item>, b: map<nat, Item>, st: Stream)
    requires Agrees(a, st) && Agrees(b, st)
    requires forall i: nat :: i in a <==> i in b
    ensures a == b
  {
  }

  lemma SameSegs(segs1: seq<Seg>, segs2: seq<Seg>, i: nat)
    requires forall s :: s in segs1 ==> s in segs2
    ensures InSome(segs1, i) ==> InSome(segs2, i)
  {
    if k :| 0 <= k < |segs1| && i in Items(segs1[k]) {
      assert segs1[k] in segs2;
    }
  }

  /** Order independence: for segments cut from one stream and ending within the window at the
      start, the next expected number, the bytes delivered, the FIN flag and the content held
      afterwards depend only on which segments arrived, not on order or repetition. */
  lemma OrderIndependence(e: Endpoint, segs1: seq<Seg>, segs2: seq<Seg>, st: Stream, read: seq<byte>)
    requires Receiving(e, st, read)
    requires CutFrom(segs1, st, e.recvNext + WINDOW) && CutFrom(segs2, st, e.recvNext + WINDOW)
    requires forall s :: s in segs1 <==> s in segs2
    ensures var e1, e2 := ReceiveAll(e, segs1), ReceiveAll(e, segs2);
            && e1.recvNext == e2.recvNext
            && e1.finReceived == e2.finReceived
            && Flat(e1.appOut) == Flat(e2.appOut)
            && Held(e1.recvBuf) == Held(e2.recvBuf)
  {
    ReceiveAllCovers(e, segs1, st, read, e.recvNext + WINDOW);
    ReceiveAllCovers(e, segs2, st, read, e.recvNext + WINDOW);
    forall i: nat ensures Covered(ReceiveAll(e, segs1), i) <==> Covered(ReceiveAll(e, segs2), i) {
      SameSegs(segs1, segs2, i);
      SameSegs(segs2, segs1, i);
    }
    CoverageDetermines(ReceiveAll(e, segs1), ReceiveAll(e, segs2), st, read);
  }
}
