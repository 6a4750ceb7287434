/** Segments as values, the map from sequence position to content that a list of
    segments holds, and what inserting into and flushing such a list computes. */
module Segments {
  import opened Basics

  datatype Seg = Seg(start: nat, data: seq<byte>, fin: bool) {
    // A FIN occupies one sequence number after the data.
    function Len(): nat { |data| + if fin then 1 else 0 }

    function End(): nat { start + Len() }
  }

  // What one sequence number stands for.
  datatype Item = Octet(b: byte) | FinMark

  function ItemAt(s: Seg, i: nat): Item
    requires s.start <= i < s.End()
  {
    if i - s.start < |s.data| then Octet(s.data[i - s.start]) else FinMark
  }

  // The positions lo..hi of a segment.
  function Range(s: Seg, lo: nat, hi: nat): map<nat, Item>
    requires s.start <= lo && hi <= s.End()
  {
    map i | lo <= i < hi :: ItemAt(s, i)
  }

  function Items(s: Seg): map<nat, Item> { Range(s, s.start, s.End()) }

  function Held(buf: seq<Seg>): map<nat, Item> {
    if buf == [] then map[] else Items(buf[0]) + Held(buf[1..])
  }

  // Sorted, pairwise disjoint, no empty segment.
  ghost predicate Ordered(buf: seq<Seg>) {
    && (forall i :: 0 <= i < |buf| ==> buf[i].Len() > 0)
    && (forall i, j :: 0 <= i < j < |buf| ==> buf[i].End() <= buf[j].start)
  }

  ghost predicate StartsFrom(buf: seq<Seg>, lo: nat) {
    forall i :: 0 <= i < |buf| ==> lo <= buf[i].start
  }

  lemma {:induction false} HeldBound(buf: seq<Seg>, lo: nat, i: nat)
    requires StartsFrom(buf, lo) && i in Held(buf)
    ensures lo <= i
  {
    if i in Held(buf[1..]) {
      HeldBound(buf[1..], lo, i);
    }
  }

  lemma {:induction false} HeldIff(buf: seq<Seg>, i: nat)
    ensures i in Held(buf) <==> exists k :: 0 <= k < |buf| && buf[k].start <= i < buf[k].End()
  {
    if buf != [] {
      HeldIff(buf[1..], i);
      if k :| 0 <= k < |buf| && buf[k].start <= i < buf[k].End() {
        assert k == 0 || buf[1..][k - 1] == buf[k];
      }
      if k :| 0 <= k < |buf[1..]| && buf[1..][k].start <= i < buf[1..][k].End() {
        assert buf[k + 1] == buf[1..][k];
      }
    }
  }

  // -------------------------------------------------------------------------
  // Insertion (interval merge)
  // -------------------------------------------------------------------------

  // The part of seg between two sequence numbers; the FIN travels with the last part only.
  function Piece(seg: Seg, lo: nat, hi: nat): (p: Seg)
    requires seg.start <= lo < hi <= seg.End()
    ensures p.start == lo && p.End() == hi
    ensures Items(p) == Range(seg, lo, hi)
  {
    var finHere := hi == seg.End() && seg.fin;
    Seg(lo, seg.data[lo - seg.start..hi - seg.start - if finHere then 1 else 0], finHere)
  }

  // The walk of the interval merge from the node list buf onwards, with seg.start..pos already dealt with.
  function InsertFrom(buf: seq<Seg>, seg: Seg, pos: nat): seq<Seg>
    requires seg.start <= pos <= seg.End()
    decreases |buf|, 1
  {
    if pos >= seg.End() then buf
    else if buf == [] then [Piece(seg, pos, seg.End())]
    else if pos < buf[0].start then
      var gapEnd := Min(buf[0].start, seg.End());
      [Piece(seg, pos, gapEnd)] + InsertPast(buf, seg, gapEnd)
    else
      InsertPast(buf, seg, pos)
  }

  // Any gap before the first node has been filled; step over that node.
  function InsertPast(buf: seq<Seg>, seg: Seg, pos: nat): seq<Seg>
    requires buf != [] && seg.start <= pos <= seg.End()
    decreases |buf|, 0
  {
    if pos >= seg.End() then buf
    else
      var past := if pos < buf[0].End() then Min(buf[0].End(), seg.End()) else pos;
      [buf[0]] + InsertFrom(buf[1..], seg, past)
  }

  function Insert(buf: seq<Seg>, seg: Seg): seq<Seg> { InsertFrom(buf, seg, seg.start) }

  lemma ConsOrdered(c: Seg, rest: seq<Seg>, lo: nat)
    requires c.Len() > 0 && lo <= c.start && Ordered(rest) && StartsFrom(rest, c.End())
    ensures Ordered([c] + rest) && StartsFrom([c] + rest, lo)
  {
    var all := [c] + rest;
    forall i, j | 0 <= i < j < |all| ensures all[i].End() <= all[j].start {
      assert all[j] == rest[j - 1];
      if i > 0 { assert all[i] == rest[i - 1]; }
    }
  }

  lemma TailOrdered(buf: seq<Seg>)
    requires Ordered(buf) && buf != []
    ensures Ordered(buf[1..]) && StartsFrom(buf[1..], buf[0].End()) && buf[0].Len() > 0
    ensures forall i :: i in Held(buf[1..]) ==> buf[0].End() <= i
    ensures buf == [buf[0]] + buf[1..]
  {
    forall i | i in Held(buf[1..]) ensures buf[0].End() <= i {
      HeldBound(buf[1..], buf[0].End(), i);
    }
  }

  lemma ConsHeld(c: Seg, rest: seq<Seg>)
    ensures Held([c] + rest) == Items(c) + Held(rest)
  {
    assert ([c] + rest)[1..] == rest;
  }

  lemma {:induction false} InsertFromOrdered(buf: seq<Seg>, seg: Seg, pos: nat, lo: nat)
    requires Ordered(buf) && seg.start <= pos <= seg.End()
    requires StartsFrom(buf, lo) && lo <= pos
    ensures Ordered(InsertFrom(buf, seg, pos)) && StartsFrom(InsertFrom(buf, seg, pos), lo)
    decreases |buf|, 1
  {
    if pos < seg.End() && buf != [] {
      if pos < buf[0].start {
        var gapEnd := Min(buf[0].start, seg.End());
        InsertPastOrdered(buf, seg, gapEnd, gapEnd);
        ConsOrdered(Piece(seg, pos, gapEnd), InsertPast(buf, seg, gapEnd), lo);
      } else {
        InsertPastOrdered(buf, seg, pos, lo);
      }
    }
  }

  lemma {:induction false} InsertPastOrdered(buf: seq<Seg>, seg: Seg, pos: nat, lo: nat)
    requires buf != [] && Ordered(buf) && seg.start <= pos <= seg.End()
    requires StartsFrom(buf, lo) && lo <= pos
    requires pos < seg.End() ==> buf[0].start <= pos
    ensures Ordered(InsertPast(buf, seg, pos)) && StartsFrom(InsertPast(buf, seg, pos), lo)
    decreases |buf|, 0
  {
    if pos < seg.End() {
      var c := buf[0];
      var past := if pos < c.End() then Min(c.End(), seg.End()) else pos;
      TailOrdered(buf);
      if past < seg.End() {
        InsertFromOrdered(buf[1..], seg, past, c.End());
      }
      ConsOrdered(c, InsertFrom(buf[1..], seg, past), lo);
    }
  }

  lemma RangeSplit(seg: Seg, lo: nat, mid: nat, hi: nat, held: map<nat, Item>)
    requires seg.start <= lo <= mid <= hi <= seg.End()
    requires forall i :: i in held ==> mid <= i
    ensures Range(seg, lo, mid) + (Range(seg, mid, hi) + held) == Range(seg, lo, hi) + held
  {
  }

  lemma RangePast(c: Seg, seg: Seg, pos: nat)
    requires seg.start <= pos <= seg.End() && c.start <= pos
    ensures var past := if pos < c.End() then Min(c.End(), seg.End()) else pos;
            Range(seg, past, seg.End()) == Range(seg, pos, seg.End()) - Items(c).Keys
  {
  }

  lemma SkipOver(node: map<nat, Item>, more: map<nat, Item>, rest: map<nat, Item>)
    ensures node + ((more - node.Keys) + rest) == more + (node + rest)
  {
  }

  lemma {:induction false} InsertFromHeld(buf: seq<Seg>, seg: Seg, pos: nat)
    requires Ordered(buf) && seg.start <= pos <= seg.End()
    ensures Held(InsertFrom(buf, seg, pos)) == Range(seg, pos, seg.End()) + Held(buf)
    decreases |buf|, 1
  {
    if pos >= seg.End() {
      assert Range(seg, pos, seg.End()) == map[];
    } else if buf == [] {
      ConsHeld(Piece(seg, pos, seg.End()), []);
    } else if pos < buf[0].start {
      var gapEnd := Min(buf[0].start, seg.End());
      InsertPastHeld(buf, seg, gapEnd);
      ConsHeld(Piece(seg, pos, gapEnd), InsertPast(buf, seg, gapEnd));
      forall i | i in Held(buf) ensures gapEnd <= i {
        HeldBound(buf, buf[0].start, i);
      }
      RangeSplit(seg, pos, gapEnd, seg.End(), Held(buf));
    } else {
      InsertPastHeld(buf, seg, pos);
    }
  }

  lemma {:induction false} InsertPastHeld(buf: seq<Seg>, seg: Seg, pos: nat)
    requires buf != [] && Ordered(buf) && seg.start <= pos <= seg.End()
    requires pos < seg.End() ==> buf[0].start <= pos
    ensures Held(InsertPast(buf, seg, pos)) == Range(seg, pos, seg.End()) + Held(buf)
    decreases |buf|, 0
  {
    if pos >= seg.End() {
      assert Range(seg, pos, seg.End()) == map[];
    } else {
      var c, rest := buf[0], buf[1..];
      var past := if pos < c.End() then Min(c.End(), seg.End()) else pos;
      InsertFromHeld(rest, seg, past);
      ConsHeld(c, InsertFrom(rest, seg, past));
      RangePast(c, seg, pos);
      SkipOver(Items(c), Range(seg, pos, seg.End()), Held(rest));
    }
  }

  /** Interval merge: the list stays sorted and disjoint, and afterwards it holds what it held
      before, plus exactly those positions of the new segment that were missing. */
  lemma InsertMerges(buf: seq<Seg>, seg: Seg, lo: nat)
    requires Ordered(buf) && StartsFrom(buf, lo) && lo <= seg.start
    ensures Ordered(Insert(buf, seg)) && StartsFrom(Insert(buf, seg), lo)
    ensures Held(Insert(buf, seg)) == Items(seg) + Held(buf)
  {
    InsertFromOrdered(buf, seg, seg.start, lo);
    InsertFromHeld(buf, seg, seg.start);
  }

  // -------------------------------------------------------------------------
  // Flushing
  // -------------------------------------------------------------------------

  // What a flush leaves behind: the remaining list, the next expected position, the chunks handed
  // to the application (an empty chunk is the end-of-file mark), and whether a FIN was consumed.
  datatype Flushed = Flushed(buf: seq<Seg>, next: nat, chunks: seq<seq<byte>>, fin: bool)

  function Chunks(s: Seg): seq<seq<byte>> {
    (if |s.data| > 0 then [s.data] else []) + if s.fin then [[]] else []
  }

  function Flush(buf: seq<Seg>, next: nat): Flushed {
    if buf == [] || buf[0].start != next then Flushed(buf, next, [], false)
    else if buf[0].fin then Flushed(buf[1..], buf[0].End(), Chunks(buf[0]), true)
    else
      var rest := Flush(buf[1..], buf[0].End());
      rest.(chunks := Chunks(buf[0]) + rest.chunks)
  }

  // The reference receiver: take positions out of a map one at a time until one is missing or a FIN is taken.
  datatype Progress = Progress(held: map<nat, Item>, next: nat, bytes: seq<byte>, fin: bool)

  function Advance(held: map<nat, Item>, next: nat): Progress
    decreases |held|
  {
    if next !in held then Progress(held, next, [], false)
    else
      var rest := held - {next};
      assert held.Keys == rest.Keys + {next};
      match held[next]
      case FinMark => Progress(rest, next + 1, [], true)
      case Octet(b) =>
        var r := Advance(rest, next + 1);
        r.(bytes := [b] + r.bytes)
  }

  function Without(held: map<nat, Item>, lo: nat, hi: nat): map<nat, Item> {
    map i | i in held && !(lo <= i < hi) :: held[i]
  }

  // Taking a run of bytes out of the map.
  lemma {:induction false} AdvanceOver(held: map<nat, Item>, data: seq<byte>, next: nat)
    requires forall i :: next <= i < next + |data| ==> i in held && held[i] == Octet(data[i - next])
    ensures var r := Advance(Without(held, next, next + |data|), next + |data|);
            Advance(held, next) == r.(bytes := data + r.bytes)
  {
    if data == [] {
      assert Without(held, next, next) == held;
    } else {
      var rest := held - {next};
      AdvanceOver(rest, data[1..], next + 1);
      assert Without(rest, next + 1, next + |data|) == Without(held, next, next + |data|);
      var r := Advance(Without(held, next, next + |data|), next + |data|);
      assert [data[0]] + (data[1..] + r.bytes) == data + r.bytes;
    }
  }

  lemma FlatChunks(s: Seg)
    ensures Flat(Chunks(s)) == s.data
  {
    var c := if |s.data| > 0 then [s.data] else [];
    FlatConcat(c, if s.fin then [[]] else []);
    assert Flat(c) == s.data;
  }

  lemma {:induction false} FlushOrdered(buf: seq<Seg>, next: nat)
    requires Ordered(buf) && StartsFrom(buf, next)
    ensures Ordered(Flush(buf, next).buf) && StartsFrom(Flush(buf, next).buf, Flush(buf, next).next)
    ensures !Flush(buf, next).fin ==> StartsFrom(Flush(buf, next).buf, Flush(buf, next).next + 1)
  {
    if buf != [] {
      TailOrdered(buf);
      if buf[0].start == next && !buf[0].fin {
        FlushOrdered(buf[1..], buf[0].End());
      }
    }
  }

  lemma BytesAreHeld(buf: seq<Seg>)
    requires Ordered(buf) && buf != []
    ensures var c := buf[0];
            forall i :: c.start <= i < c.start + |c.data| ==>
              i in Held(buf) && Held(buf)[i] == Octet(c.data[i - c.start])
  {
    TailOrdered(buf);
  }

  lemma NodeWithoutBytes(c: Seg, rest: map<nat, Item>)
    requires forall i :: i in rest ==> c.End() <= i
    ensures var left := Without(Items(c) + rest, c.start, c.start + |c.data|);
            if c.fin then
              var at := c.start + |c.data|;
              at in left && left[at] == FinMark && left - {at} == rest
            else
              left == rest
  {
  }

  // Taking a node's bytes out of the map leaves its FIN, if any, and the other nodes.
  lemma HeldWithoutBytes(buf: seq<Seg>)
    requires Ordered(buf) && buf != []
    ensures var c := buf[0];
            var left := Without(Held(buf), c.start, c.start + |c.data|);
            if c.fin then
              var at := c.start + |c.data|;
              at in left && left[at] == FinMark && left - {at} == Held(buf[1..])
            else
              left == Held(buf[1..])
  {
    hide Without, Range, Held;
    TailOrdered(buf);
    ConsHeld(buf[0], buf[1..]);
    NodeWithoutBytes(buf[0], Held(buf[1..]));
  }

  // Advancing over a segment whose bytes are held, rest being what remains without it.
  lemma AdvanceSeg(c: Seg, held: map<nat, Item>, rest: map<nat, Item>)
    requires forall i :: c.start <= i < c.start + |c.data| ==> i in held && held[i] == Octet(c.data[i - c.start])
    requires var left := Without(held, c.start, c.start + |c.data|);
             if c.fin then
               var at := c.start + |c.data|;
               at in left && left[at] == FinMark && left - {at} == rest
             else left == rest
    ensures Advance(held, c.start) ==
              if c.fin then Progress(rest, c.End(), c.data, true)
              else var r := Advance(rest, c.End()); r.(bytes := c.data + r.bytes)
  {
    AdvanceOver(held, c.data, c.start);
  }

  // Advancing over the first node of a list.
  lemma AdvanceNode(buf: seq<Seg>, held: map<nat, Item>, rest: map<nat, Item>)
    requires Ordered(buf) && buf != [] && held == Held(buf) && rest == Held(buf[1..])
    ensures var c := buf[0];
            Advance(held, c.start) ==
              if c.fin then Progress(rest, c.End(), c.data, true)
              else var r := Advance(rest, c.End()); r.(bytes := c.data + r.bytes)
  {
    hide Held;
    BytesAreHeld(buf);
    HeldWithoutBytes(buf);
    AdvanceSeg(buf[0], held, rest);
  }

  /** Flushing the list is the same as advancing through the map it holds, position by position. */
  lemma {:induction false} FlushIsAdvance(buf: seq<Seg>, next: nat)
    requires Ordered(buf) && StartsFrom(buf, next)
    ensures var f := Flush(buf, next);
            Advance(Held(buf), next) == Progress(Held(f.buf), f.next, Flat(f.chunks), f.fin)
  {
    if buf == [] {
    } else if buf[0].start != next {
      if next in Held(buf) { HeldBound(buf, next + 1, next); }
    } else {
      AdvanceNode(buf, Held(buf), Held(buf[1..]));
      FlatChunks(buf[0]);
      if !buf[0].fin {
        TailOrdered(buf);
        FlushIsAdvance(buf[1..], buf[0].End());
        FlatConcat(Chunks(buf[0]), Flush(buf[1..], buf[0].End()).chunks);
      }
    }
  }
}
