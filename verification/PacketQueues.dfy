/** The queues between application, protocol and network: linked nodes with head and tail,
    the first of which may be shortened in place. */
module PacketQueues {
  import opened Basics
  import opened Protocol

  class QueueNode {
    var data: seq<byte>
    var next: QueueNode?

    constructor (data: seq<byte>)
      ensures this.data == data && next == null
    {
      this.data, next := data, null;
    }
  }

  class PacketQueue {
    var head: QueueNode?
    var tail: QueueNode?
    ghost var nodes: seq<QueueNode>
    ghost var contents: seq<seq<byte>>
    ghost var Repr: set<object>

    ghost predicate Valid()
      reads this, Repr
      ensures Valid() ==> this in Repr
    {
      && this in Repr
      && |nodes| == |contents|
      && (forall i, j :: 0 <= i < j < |nodes| ==> nodes[i] != nodes[j])
      && head == At(0)
      && tail == (if nodes == [] then null else nodes[|nodes| - 1])
      && (forall i :: 0 <= i < |nodes| ==> nodes[i] in Repr && nodes[i].data == contents[i])
      && (forall i {:trigger nodes[i].next} :: 0 <= i < |nodes| ==> nodes[i].next == At(i + 1))
    }

    ghost function At(i: nat): QueueNode?
      reads this
    {
      if i < |nodes| then nodes[i] else null
    }

    constructor ()
      ensures Valid() && contents == [] && fresh(Repr)
    {
      head, tail := null, null;
      nodes, contents, Repr := [], [], {this};
    }

    // Append a copy of packet.
    method EnqueueBuffer(packet: seq<byte>)
      requires Valid()
      modifies Repr
      ensures Valid() && fresh(Repr - old(Repr))
      ensures contents == old(contents) + [packet]
    {
      var node := new QueueNode(packet);
      if head == null {
        head, tail := node, node;
      } else {
        tail.next := node;
        tail := node;
      }
      nodes, contents, Repr := nodes + [node], contents + [packet], Repr + {node};
    }

    // Remove the first packet, or only its front when it does not fit and removePartial is set.
    // The call blocks while the queue is empty. A packet that does not fit and is removed whole is
    // cut to maxLen bytes in dst, yet len is its full length.
    method DequeueBuffer(maxLen: nat, removePartial: bool) returns (dst: seq<byte>, len: nat)
      requires Valid() && contents != []
      modifies Repr
      ensures Valid() && Repr == old(Repr)
      ensures removePartial ==>
                dst == TakeChunk(old(contents), maxLen).chunk
                && contents == TakeChunk(old(contents), maxLen).rest && len == |dst|
      ensures !removePartial ==>
                dst == old(contents)[0][..Min(maxLen, |old(contents)[0]|)]
                && contents == old(contents)[1..] && len == |old(contents)[0]|
    {
      var node := head;
      if |node.data| > maxLen && removePartial {
        dst := node.data[..maxLen];
        node.data := node.data[maxLen..];
        len := maxLen;
        contents := [node.data] + contents[1..];
      } else {
        head := head.next;
        if head == null {
          tail := null;
        }
        dst := node.data[..Min(maxLen, |node.data|)];
        len := |node.data|;
        nodes, contents := nodes[1..], contents[1..];
      }
    }
  }
}
