/** The linked lists behind the send and receive buffers, changed in place. */
module SegmentLists {
  import opened Basics
  import opened Segments
  import opened Protocol

  class SegmentNode {
    var start: nat
    var data: seq<byte>
    var fin: bool
    var next: SegmentNode?

    constructor (start: nat, data: seq<byte>, fin: bool, next: SegmentNode?)
      requires |data| <= MSS
      ensures Value() == Seg(start, data, fin) && this.next == next && Fits()
    {
      this.start, this.data, this.fin, this.next := start, data, fin, next;
    }

    function Value(): Seg reads `start, `data, `fin { Seg(start, data, fin) }

    // A node has room for one segment's worth of data.
    predicate Fits() reads `data { |data| <= MSS }

    // The position reached by skipping what this node already holds.
    method SkipFrom(pos: nat, segEnd: nat) returns (past: nat)
      requires Value().End() < TWO32
      ensures past == if pos < Value().End() then Min(Value().End(), segEnd) else pos
    {
      var nodeEnd := U32(start + |data| + if fin then 1 else 0);
      past := pos;
      if pos < nodeEnd {
        past := if nodeEnd < segEnd then nodeEnd else segEnd;
      }
    }
  }

  class SegmentList {
    var head: SegmentNode?
    ghost var nodes: seq<SegmentNode>
    ghost var contents: seq<Seg>
    ghost var Repr: set<object>

    // head leads through next over exactly the nodes, each once, and they hold the contents.
    ghost predicate Valid()
      reads this, Repr
      ensures Valid() ==> this in Repr
    {
      && this in Repr
      && |nodes| == |contents|
      && (forall i, j :: 0 <= i < j < |nodes| ==> nodes[i] != nodes[j])
      && head == At(0)
      && (forall i :: 0 <= i < |nodes| ==> nodes[i] in Repr && nodes[i].Fits() && nodes[i].Value() == contents[i])
      && (forall i {:trigger nodes[i].next} :: 0 <= i < |nodes| ==> nodes[i].next == At(i + 1))
    }

    // The i-th node, or null past the end.
    ghost function At(i: nat): SegmentNode?
      reads this
    {
      if i < |nodes| then nodes[i] else null
    }

    constructor ()
      ensures Valid() && contents == [] && fresh(Repr)
    {
      head := null;
      nodes, contents, Repr := [], [], {this};
    }

    // Insert a new node before target, the k-th node.
    method InsertBeforeNode(target: SegmentNode, start: nat, data: seq<byte>, fin: bool, ghost k: nat)
      requires Valid() && k < |nodes| && nodes[k] == target && |data| <= MSS
      modifies Repr
      ensures Valid() && fresh(Repr - old(Repr))
      ensures contents == InsertAt(old(contents), k, Seg(start, data, fin))
      ensures At(k + 1) == target && target.Value() == old(target.Value()) && target.next == old(target.next)
    {
      var node := new SegmentNode(start, data, fin, target);
      if head == target {
        LinkHead(node);
      } else {
        var prev := Predecessor(target, k);
        if prev != null {
          LinkAfter(prev, node, k);
        }
      }
    }

    // Make node, which already leads to the head, the new head.
    method LinkHead(node: SegmentNode)
      requires Valid() && head != null && node !in Repr && node.next == head && node.Fits()
      modifies this
      ensures Valid() && Repr == old(Repr) + {node}
      ensures nodes == InsertAt(old(nodes), 0, node) && contents == InsertAt(old(contents), 0, node.Value())
    {
      head := node;
      nodes, contents, Repr := InsertAt(nodes, 0, node), InsertAt(contents, 0, node.Value()), Repr + {node};
    }

    // Make prev lead to node, which already leads to where prev led.
    method LinkAfter(prev: SegmentNode, node: SegmentNode, ghost k: nat)
      requires Valid() && 0 < k < |nodes| && prev == nodes[k - 1]
      requires node !in Repr && node.next == nodes[k] && node.Fits()
      modifies this, prev`next
      ensures Valid() && Repr == old(Repr) + {node}
      ensures nodes == InsertAt(old(nodes), k, node) && contents == InsertAt(old(contents), k, node.Value())
    {
      prev.next := node;
      nodes, contents, Repr := InsertAt(nodes, k, node), InsertAt(contents, k, node.Value()), Repr + {node};
    }

    // Walk to the node before target, the k-th node.
    method Predecessor(target: SegmentNode, ghost k: nat) returns (prev: SegmentNode?)
      requires Valid() && k < |nodes| && nodes[k] == target && head != target
      ensures k > 0 && prev == nodes[k - 1]
    {
      prev := head;
      ghost var i := 0;
      while prev != null && prev.next != target
        invariant 0 <= i < k && prev == nodes[i]
        decreases k - i
      {
        prev := prev.next;
        i := i + 1;
      }
    }

    // Append a new node.
    method InsertTail(start: nat, data: seq<byte>, fin: bool)
      requires Valid() && |data| <= MSS
      modifies Repr
      ensures Valid() && fresh(Repr - old(Repr))
      ensures contents == old(contents) + [Seg(start, data, fin)]
    {
      var node := new SegmentNode(start, data, fin, null);
      if head == null {
        head := node;
        nodes, contents, Repr := [node], [node.Value()], Repr + {node};
      } else {
        var cur := head;
        ghost var i := 0;
        while cur.next != null
          invariant 0 <= i < |nodes| && cur == nodes[i]
          decreases |nodes| - i
        {
          cur := cur.next;
          i := i + 1;
        }
        LinkTail(cur, node);
      }
    }

    // Make the last node lead to node.
    method LinkTail(last: SegmentNode, node: SegmentNode)
      requires Valid() && nodes != [] && last == nodes[|nodes| - 1]
      requires node !in Repr && node.next == null && node.Fits()
      modifies this, last`next
      ensures Valid() && Repr == old(Repr) + {node} && contents == old(contents) + [node.Value()]
    {
      hide SegmentNode.Value, SegmentNode.Fits;
      last.next := node;
      nodes, contents, Repr := nodes + [node], contents + [node.Value()], Repr + {node};
    }

    // What the first node holds.
    method Peek() returns (front: Option<Seg>)
      requires Valid()
      ensures front == if contents == [] then None else Some(contents[0])
    {
      front := None;
      if head != null {
        front := Some(head.Value());
      }
    }

    // Remove the first node.
    method PopHead()
      requires Valid() && contents != []
      modifies this
      ensures Valid() && Repr == old(Repr) && contents == old(contents[1..]) && |nodes| == |old(nodes)| - 1
    {
      head := head.next;
      nodes, contents := nodes[1..], contents[1..];
    }

    // Merge a segment into a sorted list: insert the parts of it that no node holds yet.
    method InsertSegment(start: nat, data: seq<byte>, fin: bool)
      requires Valid() && |data| <= MSS
      requires |data| > 0 || fin
      requires Seg(start, data, fin).End() < TWO32
      requires forall i :: 0 <= i < |contents| ==> contents[i].End() < TWO32
      modifies Repr
      ensures Valid() && fresh(Repr - old(Repr))
      ensures contents == Insert(old(contents), Seg(start, data, fin))
    {
      ghost var seg, goal := Seg(start, data, fin), Insert(contents, Seg(start, data, fin));
      ghost var done, rest := [], contents;
      var segEnd := U32(start + |data| + if fin then 1 else 0);
      var pos := start;
      var cur := head;
      MergeBegins(contents, seg);
      while cur != null && pos < segEnd
        invariant Valid() && fresh(Repr - old(Repr)) && contents == done + rest
        invariant pos < segEnd ==> cur == At(|done|)
        invariant pos >= segEnd ==> contents == goal
        invariant Merging(done, rest, seg, pos, goal)
        invariant forall i :: 0 <= i < |rest| ==> rest[i].End() < TWO32
        decreases |rest|
      {
        cur, pos, done, rest := MergeNode(cur, pos, start, data, fin, done, rest, goal);
      }
      if pos < segEnd {
        MergeEnds(done, rest, seg, pos, goal);
        FillTail(pos, start, data, fin);
      }
    }

    // One round of the merge: fill the gap before cur, then skip what cur holds.
    method MergeNode(cur: SegmentNode, pos: nat, start: nat, data: seq<byte>, fin: bool,
                     ghost done: seq<Seg>, ghost rest: seq<Seg>, ghost goal: seq<Seg>)
      returns (next: SegmentNode?, newPos: nat, ghost newDone: seq<Seg>, ghost newRest: seq<Seg>)
      requires Valid() && contents == done + rest && cur == At(|done|) && rest != [] && |data| <= MSS
      requires pos < Seg(start, data, fin).End() < TWO32
      requires Merging(done, rest, Seg(start, data, fin), pos, goal)
      requires forall i :: 0 <= i < |rest| ==> rest[i].End() < TWO32
      modifies Repr
      ensures Valid() && fresh(Repr - old(Repr)) && contents == newDone + newRest
      ensures newPos >= Seg(start, data, fin).End() ==> contents == goal
      ensures newPos < Seg(start, data, fin).End() ==> next == At(|newDone|)
      ensures Merging(newDone, newRest, Seg(start, data, fin), newPos, goal)
      ensures |newRest| < |rest| && forall i :: 0 <= i < |newRest| ==> newRest[i].End() < TWO32
    {
      ghost var seg := Seg(start, data, fin);
      assert cur.Value() == contents[|done|] == rest[0];
      var segEnd := U32(start + |data| + if fin then 1 else 0);
      newPos, newDone := FillGap(cur, pos, start, data, fin, done, rest, goal);
      if newPos >= segEnd {
        next := null;
        newDone, newRest := contents, [];
        MergeDone(contents, seg, newPos, goal);
        return;
      }
      ghost var past, done', rest' := MergePast(newDone, rest, seg, newPos, goal);
      newPos := cur.SkipFrom(newPos, segEnd);
      next := cur.next;
      newDone, newRest := done', rest';
      if newPos >= segEnd { MergeEnds(newDone, newRest, seg, newPos, goal); }
    }

    // Append the part of a segment from pos on.
    method FillTail(pos: nat, start: nat, data: seq<byte>, fin: bool)
      requires Valid() && start <= pos < Seg(start, data, fin).End() < TWO32 && |data| <= MSS
      modifies Repr
      ensures Valid() && fresh(Repr - old(Repr))
      ensures contents == old(contents) + [Piece(Seg(start, data, fin), pos, Seg(start, data, fin).End())]
    {
      var segEnd := U32(start + |data| + if fin then 1 else 0);
      var chunk := U32(segEnd - pos);
      var finHere := fin;
      InsertTail(pos, data[pos - start..pos - start + chunk - if finHere then 1 else 0], finHere);
    }

    // If the segment has a part before cur, from pos on, insert that part before cur.
    method FillGap(cur: SegmentNode, pos: nat, start: nat, data: seq<byte>, fin: bool,
                   ghost done: seq<Seg>, ghost rest: seq<Seg>, ghost goal: seq<Seg>)
      returns (newPos: nat, ghost newDone: seq<Seg>)
      requires Valid() && contents == done + rest && cur == At(|done|)
      requires rest != [] && cur.Value() == rest[0] && |data| <= MSS
      requires pos < Seg(start, data, fin).End() < TWO32
      requires Merging(done, rest, Seg(start, data, fin), pos, goal)
      modifies Repr
      ensures Valid() && fresh(Repr - old(Repr)) && contents == newDone + rest && cur == At(|newDone|)
      ensures cur.Value() == old(cur.Value()) && cur.next == old(cur.next)
      ensures MergingPast(newDone, rest, Seg(start, data, fin), newPos, goal)
      ensures newPos >= Seg(start, data, fin).End() ==> contents == goal
    {
      newPos, newDone := pos, done;
      MergeGap(done, rest, Seg(start, data, fin), pos, goal);
      var segEnd := U32(start + |data| + if fin then 1 else 0);
      var nodeStart := cur.start;
      if pos < nodeStart {
        var insertEnd := if nodeStart < segEnd then nodeStart else segEnd;
        InsertPiece(cur, pos, insertEnd, start, data, fin, done, rest);
        newPos, newDone := insertEnd, done + [Piece(Seg(start, data, fin), pos, insertEnd)];
      }
    }

    // Insert the part pos..insertEnd of a segment before cur.
    method InsertPiece(cur: SegmentNode, pos: nat, insertEnd: nat, start: nat, data: seq<byte>, fin: bool,
                       ghost done: seq<Seg>, ghost rest: seq<Seg>)
      requires Valid() && contents == done + rest && cur == At(|done|) && rest != []
      requires start <= pos < insertEnd <= Seg(start, data, fin).End() < TWO32 && |data| <= MSS
      modifies Repr
      ensures Valid() && fresh(Repr - old(Repr)) && cur == At(|done| + 1)
      ensures cur.Value() == old(cur.Value()) && cur.next == old(cur.next)
      ensures contents == (done + [Piece(Seg(start, data, fin), pos, insertEnd)]) + rest
    {
      hide Valid, Piece, InsertAt;
      var segEnd := U32(start + |data| + if fin then 1 else 0);
      var gap := U32(insertEnd - pos);
      var finHere := insertEnd == segEnd && fin;
      var piece := data[pos - start..pos - start + gap - if finHere then 1 else 0];
      InsertBeforeNode(cur, pos, piece, finHere, |done|);
      PieceIs(Seg(start, data, fin), pos, insertEnd);
      InsertAtJoin(done, rest, Seg(pos, piece, finHere));
    }

    // Drop the segments that an acknowledgement covers completely.
    method DequeueAcked(ack: nat)
      requires Valid()
      requires forall i :: 0 <= i < |contents| ==> contents[i].End() < TWO32
      modifies this
      ensures Valid() && Repr == old(Repr) && contents == Dequeue(old(contents), ack)
    {
      while head != null && U32(head.start + |head.data| + if head.fin then 1 else 0) <= ack
        invariant Valid() && Repr == old(Repr)
        invariant Dequeue(contents, ack) == Dequeue(old(contents), ack)
        invariant forall i :: 0 <= i < |contents| ==> contents[i].End() < TWO32
        decreases |contents|
      {
        assert head.Value() == contents[0];
        PopHead();
      }
      if head != null { assert head.Value() == contents[0]; }
    }

    // Every buffered segment as a packet with the given acknowledgement number, in order.
    method Packets(recvNext: nat) returns (ps: seq<Packet>)
      requires Valid()
      ensures ps == Resend(contents, recvNext)
    {
      ps := [];
      var cur := head;
      ghost var i := 0;
      hide Resend;
      while cur != null
        invariant i <= |contents| && cur == At(i)
        invariant ps + Resend(contents[i..], recvNext) == Resend(contents, recvNext)
        decreases |contents| - i
      {
        assert cur.Value() == contents[i];
        ResendStep(contents, i, recvNext, ps);
        ps := ps + [Packet(cur.start, recvNext, true, cur.data, cur.fin)];
        cur := cur.next;
        i := i + 1;
      }
      ResendEnd(contents, recvNext, ps);
    }
  }

  lemma ResendStep(buf: seq<Seg>, i: nat, recvNext: nat, ps: seq<Packet>)
    requires i < |buf|
    ensures ps + Resend(buf[i..], recvNext)
         == ps + [Packet(buf[i].start, recvNext, true, buf[i].data, buf[i].fin)] + Resend(buf[i + 1..], recvNext)
  {
    assert buf[i..][1..] == buf[i + 1..];
  }

  lemma ResendEnd(buf: seq<Seg>, recvNext: nat, ps: seq<Packet>)
    ensures ps + Resend(buf[|buf|..], recvNext) == ps
  {
  }

  // The merge has produced done and still has to take care of the segment from pos on.
  ghost predicate Merging(done: seq<Seg>, rest: seq<Seg>, seg: Seg, pos: nat, goal: seq<Seg>) {
    seg.start <= pos <= seg.End() && done + InsertFrom(rest, seg, pos) == goal
  }

  // The same, with no gap left before the first node of rest.
  ghost predicate MergingPast(done: seq<Seg>, rest: seq<Seg>, seg: Seg, pos: nat, goal: seq<Seg>) {
    rest != [] && seg.start <= pos <= seg.End() && done + InsertPast(rest, seg, pos) == goal
  }

  lemma PieceIs(seg: Seg, lo: nat, hi: nat)
    requires seg.start <= lo < hi <= seg.End()
    ensures var finHere := hi == seg.End() && seg.fin;
            Piece(seg, lo, hi)
            == Seg(lo, seg.data[lo - seg.start..lo - seg.start + (hi - lo) - if finHere then 1 else 0], finHere)
  {
  }

  lemma MergeBegins(buf: seq<Seg>, seg: Seg)
    ensures Merging([], buf, seg, seg.start, Insert(buf, seg))
  {
  }

  lemma MergeGap(done: seq<Seg>, rest: seq<Seg>, seg: Seg, pos: nat, goal: seq<Seg>)
    requires Merging(done, rest, seg, pos, goal) && rest != [] && pos < seg.End()
    ensures if pos < rest[0].start then
              var gapEnd := Min(rest[0].start, seg.End());
              && MergingPast(done + [Piece(seg, pos, gapEnd)], rest, seg, gapEnd, goal)
              && (gapEnd >= seg.End() ==> (done + [Piece(seg, pos, gapEnd)]) + rest == goal)
            else MergingPast(done, rest, seg, pos, goal)
  {
  }

  lemma MergePast(done: seq<Seg>, rest: seq<Seg>, seg: Seg, pos: nat, goal: seq<Seg>)
    returns (past: nat, done': seq<Seg>, rest': seq<Seg>)
    requires MergingPast(done, rest, seg, pos, goal) && pos < seg.End()
    ensures past == if pos < rest[0].End() then Min(rest[0].End(), seg.End()) else pos
    ensures done' + rest' == done + rest && |done'| == |done| + 1 && |rest'| == |rest| - 1
    ensures forall i :: 0 <= i < |rest'| ==> rest'[i] == rest[i + 1]
    ensures Merging(done', rest', seg, past, goal)
  {
    past := if pos < rest[0].End() then Min(rest[0].End(), seg.End()) else pos;
    done', rest' := done + [rest[0]], rest[1..];
  }

  lemma MergeDone(goal: seq<Seg>, seg: Seg, pos: nat, goal': seq<Seg>)
    requires seg.start <= pos && pos == seg.End() && goal == goal'
    ensures Merging(goal, [], seg, pos, goal')
  {
    assert goal + [] == goal;
  }

  lemma MergeEnds(done: seq<Seg>, rest: seq<Seg>, seg: Seg, pos: nat, goal: seq<Seg>)
    requires Merging(done, rest, seg, pos, goal) && (rest == [] || pos >= seg.End())
    ensures goal == if pos < seg.End() then (done + rest) + [Piece(seg, pos, seg.End())] else done + rest
  {
  }

  lemma InsertAtJoin(done: seq<Seg>, rest: seq<Seg>, x: Seg)
    ensures InsertAt(done + rest, |done|, x) == (done + [x]) + rest
  {
  }
}
