/** The unreliable network layer: a packet handed over is dropped, duplicated, held, replaced by the
    one held before, or sent. This is why a run lets any packet ever sent arrive any number of times. */
module Network {
  import opened Basics

  const ROLLS: nat := 32

  // The packet held for later, if any was; holding another replaces it, sending it does not clear it.
  type Held<T> = Option<T>

  // What reaches the wire when the packet is handed over and the dice show roll, and what is held then.
  function Transmit<T>(reliable: bool, held: Held<T>, packet: T, roll: nat): (Held<T>, seq<T>) {
    if reliable then (held, [packet])
    else if roll == 0 then (held, [])
    else if roll == 1 then (held, [packet, packet])
    else if roll == 2 then (Some(packet), [])
    else if roll == 3 then (held, if held.Some? then [held.value] else [packet])
    else (held, [packet])
  }

  datatype Handover<T> = Handover(packet: T, roll: nat)

  // Everything that reaches the wire over a run of handovers.
  function Wire<T>(reliable: bool, held: Held<T>, given: seq<Handover<T>>): seq<T>
    decreases |given|
  {
    if given == [] then []
    else
      var (held', out) := Transmit(reliable, held, given[0].packet, given[0].roll);
      out + Wire(reliable, held', given[1..])
  }

  ghost predicate Given<T>(given: seq<Handover<T>>, p: T) { exists i :: 0 <= i < |given| && given[i].packet == p }

  // Where p reached the wire, it had been handed over by then.
  lemma {:induction false} WireWasGiven<T>(reliable: bool, held: Held<T>, given: seq<Handover<T>>, p: T)
    requires p in Wire(reliable, held, given)
    ensures Given(given, p) || held == Some(p)
    decreases |given|
  {
    if given != [] {
      var (held', out) := Transmit(reliable, held, given[0].packet, given[0].roll);
      if p in out {
        assert p == given[0].packet || held == Some(p);
      } else {
        WireWasGiven(reliable, held', given[1..], p);
        if Given(given[1..], p) {
          var i :| 0 <= i < |given[1..]| && given[1..][i].packet == p;
          assert given[i + 1].packet == p;
        } else {
          assert held' == Some(p);
        }
      }
    }
  }

  lemma {:induction false} WireOfPrefix<T>(reliable: bool, held: Held<T>, given: seq<Handover<T>>, k: nat)
    requires k <= |given|
    ensures Wire(reliable, held, given[..k]) <= Wire(reliable, held, given)
    decreases k
  {
    if k > 0 {
      var (held', out) := Transmit(reliable, held, given[0].packet, given[0].roll);
      WireOfPrefix(reliable, held', given[1..], k - 1);
      assert given[..k][1..] == given[1..][..k - 1];
    }
  }

  /** At any moment of any run, whatever has reached the wire was handed over before: the network
      invents nothing, whatever the dice. */
  lemma NothingInvented<T>(reliable: bool, given: seq<Handover<T>>, k: nat, p: T)
    requires k <= |given| && p in Wire(reliable, None, given[..k])
    ensures Given(given[..k], p) && p in Wire(reliable, None, given)
  {
    WireWasGiven(reliable, None, given[..k], p);
    WireOfPrefix(reliable, None, given, k);
  }

  function Packets<T>(given: seq<Handover<T>>): (r: seq<T>)
    ensures |r| == |given|
  {
    seq(|given|, i requires 0 <= i < |given| => given[i].packet)
  }

  /** A reliable network delivers exactly what it is given, in order; so does an unreliable one as long
      as the dice show none of the four special rolls. */
  lemma {:induction false} Delivers<T>(reliable: bool, held: Held<T>, given: seq<Handover<T>>)
    requires reliable || forall i :: 0 <= i < |given| ==> given[i].roll >= 4
    ensures Wire(reliable, held, given) == Packets(given)
    decreases |given|
  {
    if given == [] {
      assert Packets(given) == [];
    } else {
      Delivers(reliable, held, given[1..]);
      assert Packets(given) == [given[0].packet] + Packets(given[1..]);
    }
  }

  // The packet handed over last of those held, or the one held before.
  function LastHeld<T>(held: Held<T>, given: seq<Handover<T>>): Held<T> {
    if given == [] then held
    else
      var last := given[|given| - 1];
      if last.roll == 2 then Some(last.packet) else LastHeld(held, given[..|given| - 1])
  }

  /** In a run over an unreliable network each packet handed over reaches the wire as it is handed over,
      twice on the roll that duplicates, except on three: when it is dropped, when it is held, and
      when the one held last goes in its place. */
  lemma {:induction false} Contribution<T>(held: Held<T>, before: seq<Handover<T>>, packet: T, roll: nat)
    ensures Wire(false, held, before + [Handover(packet, roll)])
         == Wire(false, held, before)
            + match roll
              case 0 => []
              case 1 => [packet, packet]
              case 2 => []
              case 3 => (match LastHeld(held, before) case Some(p) => [p] case None => [packet])
              case _ => [packet]
    decreases |before|
  {
    var last := Handover(packet, roll);
    if before == [] {
      assert [last][1..] == [] && before + [last] == [last];
    } else {
      var (held', out) := Transmit(false, held, before[0].packet, before[0].roll);
      assert (before + [last])[1..] == before[1..] + [last];
      HeldTail(held, before);
      Contribution(held', before[1..], packet, roll);
    }
  }

  lemma {:induction false} HeldTail<T>(held: Held<T>, given: seq<Handover<T>>)
    requires given != []
    ensures LastHeld(held, given)
         == LastHeld(Transmit(false, held, given[0].packet, given[0].roll).0, given[1..])
    decreases |given|
  {
    if |given| > 1 {
      var front := given[..|given| - 1];
      assert given[1..][..|given| - 2] == front[1..];
      HeldTail(held, front);
    }
  }

  function Replays<T>(n: nat, filler: T): seq<Handover<T>> {
    if n == 0 then [] else [Handover(filler, 3)] + Replays(n - 1, filler)
  }

  function Times<T>(n: nat, p: T): seq<T> { if n == 0 then [] else [p] + Times(n - 1, p) }

  lemma {:induction false} ReplaysHeld<T>(n: nat, p: T, filler: T)
    ensures Wire(false, Some(p), Replays(n, filler)) == Times(n, p)
  {
    if n > 0 {
      var given := Replays(n, filler);
      assert given[0] == Handover(filler, 3) && given[1..] == Replays(n - 1, filler);
      ReplaysHeld(n - 1, p, filler);
      assert Wire(false, Some(p), given) == [p] + Wire(false, Some(p), given[1..]);
    }
  }

  /** A packet handed over once may reach the wire any number of times, in place of later ones. */
  lemma AnyNumberOfTimes<T>(n: nat, p: T, filler: T)
    ensures Wire(false, None, [Handover(p, 2)] + Replays(n, filler)) == Times(n, p)
  {
    ReplaysHeld(n, p, filler);
    assert ([Handover(p, 2)] + Replays(n, filler))[1..] == Replays(n, filler);
  }

  type Bytes = seq<byte>

  // network_context_t: the copy buffer is filled in place.
  class NetworkContext {
    const isReliable: bool
    const copyBuffer: array<byte>
    var copyLen: nat
    var copied: bool

    ghost predicate Valid() reads this { copyLen <= copyBuffer.Length }

    ghost function HeldPacket(): Held<Bytes>
      reads this, copyBuffer
      requires Valid()
    {
      if copied then Some(copyBuffer[..copyLen]) else None
    }

    constructor (reliable: bool, size: nat)
      ensures Valid() && fresh(copyBuffer) && HeldPacket() == None
      ensures isReliable == reliable && copyBuffer.Length == size
    {
      isReliable := reliable;
      copyBuffer := new byte[size](_ => 0);
      copyLen, copied := 0, false;
    }

    method Send(buf: Bytes, random: nat) returns (out: seq<Bytes>)
      requires Valid() && |buf| <= copyBuffer.Length
      modifies `copyLen, `copied, copyBuffer
      ensures Valid() && (HeldPacket(), out) == Transmit(isReliable, old(HeldPacket()), buf, random % ROLLS)
    {
      out := [];
      if !isReliable {
        match random % ROLLS {
          case 0 => return;
          case 1 => out := [buf];
          case 2 =>
            forall i | 0 <= i < |buf| {
              copyBuffer[i] := buf[i];
            }
            copyLen, copied := |buf|, true;
            assert copyBuffer[..copyLen] == buf && HeldPacket() == Some(buf);
            return;
          case 3 =>
            if copied {
              out := [copyBuffer[..copyLen]];
            } else {
              out := [buf];
            }
            return;
          case _ =>
        }
      }
      out := out + [buf];
      assert out == if !isReliable && random % ROLLS == 1 then [buf, buf] else [buf];
    }
  }
}
