/** Whatever the network layer delivers of what an end hands over is something the runs let arrive. */
module NetworkRuns {
  import opened Protocol
  import opened Basics
  import opened Runs
  import opened Network

  // What an end hands to the network over a run, in order.
  function SentIn(s: System, steps: seq<Step>, y: Side): seq<Packet>
    requires Possible(s, steps)
    decreases |steps|
  {
    if steps == [] then []
    else
      var st := steps[0];
      (if st.side == y then Sends(s.End(y), s.From(y.Peer()), st.act) else [])
      + SentIn(Next(s, st), steps[1..], y)
  }

  lemma {:induction false} FromIsSent(s: System, steps: seq<Step>, y: Side)
    requires Possible(s, steps)
    ensures Exec(s, steps).From(y) == s.From(y) + set p | p in SentIn(s, steps, y)
    decreases |steps|
  {
    hide Sends, Do, Can;
    if steps != [] {
      FromIsSent(Next(s, steps[0]), steps[1..], y);
    }
  }

  // The packets of sent, handed over one by one.
  ghost predicate Hands(given: seq<Handover<Packet>>, sent: seq<Packet>) {
    |given| == |sent| && forall i :: 0 <= i < |given| ==> given[i].packet == sent[i]
  }

  lemma Windows(s: System)
    requires Inv(s)
    ensures s.a.ep.InWindow() && s.b.ep.InWindow()
  {
  }

  /** A packet of one end that the network layer lets through in a run, dropping, repeating, holding
      and replacing as the dice fall, is one that the peer's next pass of the control loop may be
      given, as long as that loop runs. */
  lemma DeliveredMayArrive(s0: System, steps: seq<Step>, y: Side, reliable: bool, held: Held<Packet>,
                           given: seq<Handover<Packet>>, p: Packet)
    requires Initial(s0) && Possible(s0, steps) && (held.Some? ==> held.value in s0.From(y))
    requires Hands(given, SentIn(s0, steps, y)) && p in Wire(reliable, held, given)
    ensures var s := Exec(s0, steps);
            && p in s.From(y)
            && (Enabled(s, Step(y.Peer(), Pass(Some(p)))) <==> !s.End(y.Peer()).ep.done)
  {
    hide Possible, Exec, Wire, SentIn, Initial;
    assert Reachable(Exec(s0, steps));
    InvReachable(Exec(s0, steps));
    Windows(Exec(s0, steps));
    FromIsSent(s0, steps, y);
    WireWasGiven(reliable, held, given, p);
    assert y.Peer().Peer() == y;
  }
}
