/** One direction of a connection as a stream: bytes numbered from a base, possibly ended by a FIN. */
module Streams {
  import opened Basics
  import opened Segments

  datatype Stream = Stream(base: nat, bytes: seq<byte>, ended: bool) {
    function Top(): nat { base + |bytes| + if ended then 1 else 0 }

    function At(i: nat): Item
      requires base <= i < Top()
    {
      if i - base < |bytes| then Octet(bytes[i - base]) else FinMark
    }
  }

  // Every item of the map is the stream's item at that position.
  ghost predicate Agrees(m: map<nat, Item>, st: Stream) {
    forall i :: i in m ==> st.base <= i < st.Top() && m[i] == st.At(i)
  }

  // Further bytes, or the FIN, may have been added to a stream; nothing follows a FIN.
  ghost predicate Extends(s: Stream, t: Stream) {
    s.base == t.base && s.bytes <= t.bytes && (s.ended ==> t == s)
  }

  lemma ExtendsTransitive(s: Stream, t: Stream, u: Stream)
    requires Extends(s, t) && Extends(t, u)
    ensures Extends(s, u)
  {
  }

  lemma AgreesExtends(m: map<nat, Item>, s: Stream, t: Stream)
    requires Agrees(m, s) && Extends(s, t)
    ensures Agrees(m, t)
  {
    forall i | i in m ensures t.base <= i < t.Top() && m[i] == t.At(i) {
      if s.ended || i - s.base < |s.bytes| {
        assert m[i] == s.At(i);
      }
    }
  }

  lemma SliceCons(bytes: seq<byte>, lo: nat, hi: nat, tail: seq<byte>)
    requires lo < hi <= |bytes| && tail == bytes[lo + 1..hi]
    ensures [bytes[lo]] + tail == bytes[lo..hi]
  {
  }

  ghost predicate AdvancedTo(r: Progress, next: nat, st: Stream) {
    var upto := r.next - if r.fin then 1 else 0;
    && st.base <= next <= upto <= st.base + |st.bytes|
    && r.bytes == st.bytes[next - st.base..upto - st.base]
    && (r.fin ==> st.ended && r.next == st.Top())
  }

  lemma AdvancedByByte(r: Progress, next: nat, st: Stream)
    requires AdvancedTo(r, next + 1, st) && st.base <= next
    ensures AdvancedTo(r.(bytes := [st.bytes[next - st.base]] + r.bytes), next, st)
  {
    var upto := r.next - if r.fin then 1 else 0;
    SliceCons(st.bytes, next - st.base, upto - st.base, r.bytes);
  }

  lemma AdvancedNowhere(held: map<nat, Item>, next: nat, st: Stream)
    requires st.base <= next <= st.base + |st.bytes|
    ensures AdvancedTo(Progress(held, next, [], false), next, st)
  {
  }

  lemma AdvancedByFin(held: map<nat, Item>, next: nat, st: Stream)
    requires st.base <= next <= st.base + |st.bytes| && st.ended && next + 1 == st.Top()
    ensures AdvancedTo(Progress(held, next + 1, [], true), next, st)
  {
  }

  lemma AgreesRest(held: map<nat, Item>, next: nat, st: Stream)
    requires Agrees(held, st) && next in held && st.base <= next <= st.base + |st.bytes|
    ensures Agrees(held - {next}, st)
    ensures match held[next]
            case FinMark => st.ended && next + 1 == st.Top()
            case Octet(b) => next - st.base < |st.bytes| && b == st.bytes[next - st.base]
  {
    assert held[next] == st.At(next);
  }

  // Advancing through a part of a stream delivers the stream's own bytes, in order, and consumes
  // a FIN only at the stream's end.
  lemma {:induction false} AdvanceAgrees(held: map<nat, Item>, next: nat, st: Stream)
    requires Agrees(held, st) && st.base <= next <= st.base + |st.bytes|
    ensures AdvancedTo(Advance(held, next), next, st)
    decreases |held|
  {
    hide Agrees, AdvancedTo;
    if next !in held {
      AdvancedNowhere(held, next, st);
    } else {
      var rest := held - {next};
      assert held.Keys == rest.Keys + {next};
      AgreesRest(held, next, st);
      if held[next] == FinMark {
        AdvancedByFin(rest, next, st);
      } else {
        AdvanceAgrees(rest, next + 1, st);
        AdvancedByByte(Advance(rest, next + 1), next, st);
      }
    }
  }
}
