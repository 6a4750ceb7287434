/** Longest-prefix matching over the routing table. An address or a mask is its 32 bits in host byte
    order, the most significant first. */
module Routing {
  import opened Basics

  const BITS: nat := 32

  type Address = b: seq<bool> | |b| == BITS witness seq(BITS, _ => false)

  datatype Route = Route(dest: Address, mask: Address, iface: string)

  // -------------------------------------------------------------------------
  // Words as bits
  // -------------------------------------------------------------------------

  function And(a: seq<bool>, b: seq<bool>): seq<bool>
    requires |a| == |b|
  {
    seq(|a|, i requires 0 <= i < |a| => a[i] && b[i])
  }

  function Power(n: nat): nat { if n == 0 then 1 else 2 * Power(n - 1) }

  // The unsigned number the bits stand for.
  function Number(b: seq<bool>): (r: nat)
    ensures r < Power(|b|)
  {
    if b == [] then 0 else (if b[0] then Power(|b| - 1) else 0) + Number(b[1..])
  }

  // Ones followed by zeros.
  ghost predicate Contiguous(m: seq<bool>) { forall i, j :: 0 <= i < j < |m| && m[j] ==> m[i] }

  function PrefixLength(m: seq<bool>): (r: nat)
    ensures r <= |m|
  {
    if m == [] || !m[0] then 0 else 1 + PrefixLength(m[1..])
  }

  lemma {:induction false} ContiguousBits(m: seq<bool>)
    requires Contiguous(m)
    ensures forall i :: 0 <= i < |m| ==> (m[i] <==> i < PrefixLength(m))
  {
    if m != [] && m[0] {
      ContiguousBits(m[1..]);
      assert forall i :: 1 <= i < |m| ==> m[i] == m[1..][i - 1];
    }
  }

  lemma {:induction false} NoOnes(m: seq<bool>)
    ensures Number(m) == 0 <==> forall i :: 0 <= i < |m| ==> !m[i]
  {
    if m != [] {
      NoOnes(m[1..]);
      assert forall i :: 1 <= i < |m| ==> m[i] == m[1..][i - 1];
    }
  }

  /** For contiguous masks numeric order is prefix-length order. */
  lemma {:induction false} MaskOrder(m1: seq<bool>, m2: seq<bool>)
    requires Contiguous(m1) && Contiguous(m2) && |m1| == |m2|
    ensures Number(m1) > Number(m2) <==> PrefixLength(m1) > PrefixLength(m2)
  {
    if m1 != [] {
      if m1[0] && m2[0] {
        MaskOrder(m1[1..], m2[1..]);
      } else {
        NoOnes(if m1[0] then m2 else m1);
      }
    }
  }

  lemma ZeroMask(m: seq<bool>)
    requires Contiguous(m)
    ensures Number(m) == 0 <==> PrefixLength(m) == 0
  {
    NoOnes(m);
    ContiguousBits(m);
  }

  // -------------------------------------------------------------------------
  // The lookup
  // -------------------------------------------------------------------------

  predicate Matches(r: Route, ip: Address) { And(ip, r.mask) == And(r.dest, r.mask) }

  // The address begins with the route's prefix.
  predicate HasPrefix(r: Route, ip: Address)
  {
    var n := PrefixLength(r.mask);
    ip[..n] == r.dest[..n]
  }

  /** Matching under a contiguous mask is agreeing on the first bits, as many as the mask has. */
  lemma MatchIsPrefix(r: Route, ip: Address)
    requires Contiguous(r.mask)
    ensures Matches(r, ip) <==> HasPrefix(r, ip)
  {
    var n := PrefixLength(r.mask);
    ContiguousBits(r.mask);
    if Matches(r, ip) {
      forall i | 0 <= i < n ensures ip[i] == r.dest[i] {
        assert And(ip, r.mask)[i] == And(r.dest, r.mask)[i];
      }
    }
    if HasPrefix(r, ip) {
      assert forall i :: 0 <= i < n ==> ip[..n][i] == r.dest[..n][i];
    }
  }

  ghost predicate ContiguousTable(table: seq<Route>) { forall i :: 0 <= i < |table| ==> Contiguous(table[i].mask) }

  // Route i matches and no matching route has a longer prefix; of equally long ones it comes first.
  ghost predicate Longest(table: seq<Route>, ip: Address, i: nat) {
    && i < |table| && HasPrefix(table[i], ip)
    && (forall j :: 0 <= j < |table| && HasPrefix(table[j], ip) ==>
          PrefixLength(table[j].mask) <= PrefixLength(table[i].mask)
          && (j < i ==> PrefixLength(table[j].mask) < PrefixLength(table[i].mask)))
  }

  // What the scan keeps: the first of the matching routes with the numerically largest mask above zero.
  ghost predicate BestOf(table: seq<Route>, ip: Address, n: nat, best: Option<nat>) {
    && n <= |table|
    && match best
       case None => forall j :: 0 <= j < n && Matches(table[j], ip) ==> Number(table[j].mask) == 0
       case Some(i) =>
         && i < n && Matches(table[i], ip) && Number(table[i].mask) != 0
         && (forall j :: 0 <= j < n && Matches(table[j], ip) ==> Number(table[j].mask) <= Number(table[i].mask))
         && (forall j :: 0 <= j < i && Matches(table[j], ip) ==> Number(table[j].mask) < Number(table[i].mask))
  }

  method FindLongestPrefixMatch(table: seq<Route>, ip: Address) returns (best: Option<nat>)
    ensures BestOf(table, ip, |table|, best)
  {
    hide Matches, Number;
    best := None;
    var bestMask := 0;
    var i := 0;
    while i < |table|
      invariant 0 <= i <= |table| && BestOf(table, ip, i, best)
      invariant bestMask == if best == None then 0 else Number(table[best.value].mask)
    {
      var mask := Number(table[i].mask);
      if Matches(table[i], ip) && mask > bestMask {
        best := Some(i);
        bestMask := mask;
      }
      i := i + 1;
    }
  }

  /** For a table of contiguous masks the lookup finds a route exactly when one with a non-zero mask
      matches, and then it is the earliest of those with the longest matching prefix. */
  lemma FindsLongestPrefix(table: seq<Route>, ip: Address, best: Option<nat>)
    requires ContiguousTable(table) && BestOf(table, ip, |table|, best)
    ensures best.Some? <==>
            exists j :: 0 <= j < |table| && HasPrefix(table[j], ip) && PrefixLength(table[j].mask) != 0
    ensures best.Some? ==> Longest(table, ip, best.value) && PrefixLength(table[best.value].mask) != 0
  {
    hide Contiguous, PrefixLength, Number, HasPrefix, Matches;
    forall j | 0 <= j < |table|
      ensures Matches(table[j], ip) <==> HasPrefix(table[j], ip)
      ensures Number(table[j].mask) == 0 <==> PrefixLength(table[j].mask) == 0
    {
      MatchIsPrefix(table[j], ip);
      ZeroMask(table[j].mask);
    }
    if best.Some? {
      var i := best.value;
      forall j | 0 <= j < |table| && HasPrefix(table[j], ip)
        ensures PrefixLength(table[j].mask) <= PrefixLength(table[i].mask)
                && (j < i ==> PrefixLength(table[j].mask) < PrefixLength(table[i].mask))
      {
        MaskOrder(table[i].mask, table[j].mask);
        MaskOrder(table[j].mask, table[i].mask);
      }
    }
  }

  /** A default route, whose mask is zero, is never found: the lookup returns the longest match, as
      section 5.2.4.3 of RFC 1812 asks, if and only if that match is not a default route. */
  lemma DefaultRouteIsIgnored(table: seq<Route>, ip: Address, best: Option<nat>, i: nat)
    requires ContiguousTable(table) && BestOf(table, ip, |table|, best) && Longest(table, ip, i)
    ensures best == Some(i) <==> PrefixLength(table[i].mask) != 0
    ensures PrefixLength(table[i].mask) == 0 ==> best == None
  {
    hide Contiguous, PrefixLength, HasPrefix, BestOf;
    FindsLongestPrefix(table, ip, best);
    if best.Some? {
      assert PrefixLength(table[i].mask) == PrefixLength(table[best.value].mask);
    }
  }

  function Zeros(): Address { seq(BITS, _ => false) }

  /** With a default route as the only one, it is the longest match for any address, and the lookup
      finds nothing. */
  lemma OnlyDefaultRoute(ip: Address, iface: string, best: Option<nat>)
    requires BestOf([Route(Zeros(), Zeros(), iface)], ip, 1, best)
    ensures ContiguousTable([Route(Zeros(), Zeros(), iface)]) && Longest([Route(Zeros(), Zeros(), iface)], ip, 0)
    ensures best == None
  {
    hide BestOf;
    var table := [Route(Zeros(), Zeros(), iface)];
    assert PrefixLength(table[0].mask) == 0;
    DefaultRouteIsIgnored(table, ip, best, 0);
  }
}
