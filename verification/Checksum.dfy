/** The Internet checksum (RFC 1071) and its two implementations: one sums big-endian words and folds
    in a loop, the other sums words in the host's own order and folds in two fixed steps. */
module Checksum {
  import opened Basics

  const ONES: nat := 0xFFFF

  // -------------------------------------------------------------------------
  // One's complement sums
  // -------------------------------------------------------------------------

  // Two octets as a 16-bit number, in network order or as a little-endian host reads them.
  function Word16(b0: byte, b1: byte, little: bool): nat {
    if little then b0 as nat + 0x100 * b1 as nat else 0x100 * b0 as nat + b1 as nat
  }

  // The two octets a host stores for a 16-bit number.
  function Stored(v: nat, little: bool): seq<byte>
    requires v <= ONES
  {
    if little then [(v % 0x100) as byte, (v / 0x100) as byte] else [(v / 0x100) as byte, (v % 0x100) as byte]
  }

  // The sum of all 16-bit words, an odd octet at the end being padded with a zero octet.
  function Sum(data: seq<byte>, little: bool): nat {
    if data == [] then 0
    else if |data| == 1 then Word16(data[0], 0, little)
    else Word16(data[0], data[1], little) + Sum(data[2..], little)
  }

  // End-around carry until 16 bits are left.
  function Fold(x: nat): (r: nat)
    ensures r <= ONES
  {
    if x <= ONES then x else Fold(x / 0x1_0000 + x % 0x1_0000)
  }

  // The same number in closed form: the residue modulo 65535, with 65535 standing for 0 unless x is 0.
  function OnesResidue(x: nat): (r: nat)
    ensures r <= ONES
  {
    if x == 0 then 0 else (x - 1) % ONES + 1
  }

  /** Folding computes the one's complement residue: it keeps the value modulo 65535, and gives 0 only for 0. */
  lemma {:induction false} FoldIsResidue(x: nat)
    ensures Fold(x) == OnesResidue(x)
    ensures Fold(x) % ONES == x % ONES && (Fold(x) == 0 <==> x == 0)
  {
    if x > ONES {
      var y := x / 0x1_0000 + x % 0x1_0000;
      FoldIsResidue(y);
      assert x == y + (x / 0x1_0000) * ONES;
      SameResidue(y, x / 0x1_0000);
    }
  }

  lemma SameResidue(y: nat, k: nat)
    requires y > 0
    ensures (y + k * ONES) % ONES == y % ONES
    ensures OnesResidue(y + k * ONES) == OnesResidue(y)
  {
    ModAdd(y, k);
    ModAdd(y - 1, k);
    assert y + k * ONES - 1 == (y - 1) + k * ONES;
  }

  lemma {:induction false} ModAdd(a: nat, k: nat)
    ensures (a + k * ONES) % ONES == a % ONES
  {
    if k > 0 {
      ModAdd(a, k - 1);
      assert a + k * ONES == (a + (k - 1) * ONES) + ONES;
    }
  }

  // A number of 16 bits with the residue of x, and 0 only if x is, is what x folds to.
  lemma FoldUnique(v: nat, x: nat)
    requires v <= ONES && v % ONES == x % ONES && (v == 0 <==> x == 0)
    ensures v == Fold(x)
  {
    FoldIsResidue(x);
  }

  /** The two fixed steps of folding are full folding for every sum of 31 bits. */
  lemma TwoStepsFold(x: nat)
    requires x < 0x8000_0000
    ensures var once := x / 0x1_0000 + x % 0x1_0000;
            (once + once / 0x1_0000) % 0x1_0000 == Fold(x)
  {
    var once := x / 0x1_0000 + x % 0x1_0000;
    assert once <= 0x1_7FFE;
    assert Fold(x) == Fold(once);
    if once > ONES {
      assert once / 0x1_0000 == 1 && once % 0x1_0000 == once - 0x1_0000;
      assert Fold(once) == Fold(1 + (once - 0x1_0000));
    }
  }

  // -------------------------------------------------------------------------
  // Byte order
  // -------------------------------------------------------------------------

  function Swap(v: nat): (r: nat)
    requires v <= ONES
    ensures r <= ONES
  {
    0x100 * (v % 0x100) + v / 0x100
  }

  // The sum of the first octets of all words.
  function FirstOctets(data: seq<byte>): nat {
    if data == [] then 0
    else if |data| == 1 then data[0] as nat
    else data[0] as nat + FirstOctets(data[2..])
  }

  lemma {:induction false} OrdersRelated(data: seq<byte>)
    ensures 0x100 * Sum(data, false) == Sum(data, true) + ONES * FirstOctets(data)
    ensures Sum(data, false) == 0 <==> Sum(data, true) == 0
  {
    if |data| > 1 { OrdersRelated(data[2..]); }
  }

  /** Summing in the host's own order gives the octet-swapped big-endian sum, so that the
      complement, stored in the host's own order, is the same two octets on every host. */
  lemma ByteOrderIndependence(data: seq<byte>)
    ensures Fold(Sum(data, true)) == Swap(Fold(Sum(data, false)))
    ensures Stored(ONES - Fold(Sum(data, true)), true) == Stored(ONES - Fold(Sum(data, false)), false)
  {
    var be, le := Sum(data, false), Sum(data, true);
    OrdersRelated(data);
    FoldIsResidue(be);
    SwapScales(Fold(be));
    ModScale(Fold(be), be);
    ModAdd(le, FirstOctets(data));
    FoldUnique(Swap(Fold(be)), le);
    SwapStored(Fold(be));
  }

  lemma SwapScales(f: nat)
    requires f <= ONES
    ensures Swap(f) % ONES == (0x100 * f) % ONES && (Swap(f) == 0 <==> f == 0)
  {
    assert 0x100 * f == Swap(f) + (f / 0x100) * ONES;
    ModAdd(Swap(f), f / 0x100);
  }

  lemma SwapStored(f: nat)
    requires f <= ONES
    ensures Stored(ONES - Swap(f), true) == Stored(ONES - f, false)
  {
    assert ONES - Swap(f) == 0x100 * (0xFF - f % 0x100) + (0xFF - f / 0x100);
    assert ONES - f == 0x100 * (0xFF - f / 0x100) + (0xFF - f % 0x100);
  }

  lemma ModScale(a: nat, b: nat)
    requires a % ONES == b % ONES
    ensures (0x100 * a) % ONES == (0x100 * b) % ONES
  {
    var r := a % ONES;
    ModAdd(0x100 * r, 0x100 * (a / ONES));
    ModAdd(0x100 * r, 0x100 * (b / ONES));
    assert 0x100 * a == 0x100 * r + 0x100 * (a / ONES) * ONES;
    assert 0x100 * b == 0x100 * r + 0x100 * (b / ONES) * ONES;
  }

  // -------------------------------------------------------------------------
  // What the sum is
  // -------------------------------------------------------------------------

  function Weight(i: nat, little: bool): nat { if (i % 2 == 0) == little then 1 else 0x100 }

  /** Every octet counts for its own place: 256 times at the even offsets, once at the odd ones, the
      other way round on a little-endian host. With ZeroSum this says what the sum of any data is. */
  lemma {:induction false} OctetCounts(data: seq<byte>, i: nat, b: byte, little: bool)
    requires i < |data|
    ensures Sum(data[i := b], little) + Weight(i, little) * (data[i] as nat)
         == Sum(data, little) + Weight(i, little) * (b as nat)
  {
    if i >= 2 {
      OctetCounts(data[2..], i - 2, b, little);
      assert data[i := b][2..] == data[2..][i - 2 := b];
    } else {
      FirstWord(data, i, b, little);
    }
  }

  lemma FirstWord(data: seq<byte>, i: nat, b: byte, little: bool)
    requires i < |data| && i < 2
    ensures Sum(data[i := b], little) + Weight(i, little) * (data[i] as nat)
         == Sum(data, little) + Weight(i, little) * (b as nat)
  {
    if |data| > 1 { assert data[i := b][2..] == data[2..]; }
  }

  lemma {:induction false} ZeroSum(data: seq<byte>, little: bool)
    requires forall i :: 0 <= i < |data| ==> data[i] == 0
    ensures Sum(data, little) == 0
  {
    if |data| > 1 { ZeroSum(data[2..], little); }
  }

  /** An odd octet at the end counts as if a zero octet followed it. */
  lemma {:induction false} OddIsPadded(data: seq<byte>, little: bool)
    requires |data| % 2 == 1
    ensures Sum(data, little) == Sum(data + [0], little)
  {
    if |data| == 1 {
      assert (data + [0])[2..] == [];
    } else {
      OddIsPadded(data[2..], little);
      assert (data + [0])[2..] == data[2..] + [0];
    }
  }

  // -------------------------------------------------------------------------
  // Checksum fields
  // -------------------------------------------------------------------------

  function WithField(data: seq<byte>, at: nat, v: nat): seq<byte>
    requires at + 2 <= |data| && v <= ONES
  {
    data[at := (v / 0x100) as byte][at + 1 := (v % 0x100) as byte]
  }

  lemma {:induction false} FieldAdds(data: seq<byte>, at: nat, v: nat)
    requires at + 2 <= |data| && at % 2 == 0 && v <= ONES
    ensures Sum(WithField(data, at, v), false) == Sum(WithField(data, at, 0), false) + v
  {
    if at == 0 {
      assert WithField(data, at, v)[2..] == data[2..] && WithField(data, at, 0)[2..] == data[2..];
    } else {
      FieldAdds(data[2..], at - 2, v);
      assert WithField(data, at, v)[2..] == WithField(data[2..], at - 2, v);
      assert WithField(data, at, 0)[2..] == WithField(data[2..], at - 2, 0);
    }
  }

  // The checksum RFC 1071 asks for, and the router's, which never stores zero.
  function Complement(data: seq<byte>): (c: nat)
    ensures c <= ONES
  {
    ONES - Fold(Sum(data, false))
  }

  function NonZero(c: nat): nat { if c == 0 then ONES else c }

  const EXAMPLE: seq<byte> := [0x00, 0x01, 0xF2, 0x03, 0xF4, 0xF5, 0xF6, 0xF7]

  /** The example of section 3 of RFC 1071: the sum folds to 0xddf2, and 0x220d is stored. */
  lemma Rfc1071Example()
    ensures Sum(EXAMPLE, false) == 0x2DDF0 && Fold(Sum(EXAMPLE, false)) == 0xDDF2
    ensures Stored(Complement(EXAMPLE), false) == [0x22, 0x0D]
  {
    var last, third: seq<byte> := [0xF6, 0xF7], [0xF4, 0xF5, 0xF6, 0xF7];
    assert EXAMPLE[2..][2..] == third && third[2..] == last && last[2..] == [];
    assert Sum(last, false) == 0xF6F7;
    assert Sum(third, false) == 0xF4F5 + 0xF6F7;
  }

  /** Stored in a zeroed field at an even offset, the checksum makes the one's complement sum of the
      whole 0xffff; the substitution of 0xffff for 0 does not change that. */
  lemma StoredSumsToOnes(data: seq<byte>, at: nat)
    requires at + 2 <= |data| && at % 2 == 0
    ensures var zeroed := WithField(data, at, 0);
            && Fold(Sum(WithField(data, at, NonZero(Complement(zeroed))), false)) == ONES
            && (Sum(zeroed, false) > 0 ==> Fold(Sum(WithField(data, at, Complement(zeroed)), false)) == ONES)
  {
    var zeroed := WithField(data, at, 0);
    var s := Sum(zeroed, false);
    SumsToOnes(s, NonZero(Complement(zeroed)));
    FieldAdds(data, at, NonZero(Complement(zeroed)));
    SumsToOnes(s, Complement(zeroed));
    FieldAdds(data, at, Complement(zeroed));
  }

  // Which 16-bit values complete a sum to 0xffff: the complement, and with it the other zero.
  lemma SumsToOnes(s: nat, c: nat)
    requires c <= ONES
    ensures Fold(s + c) == ONES <==>
              && s + c > 0
              && (c == ONES - Fold(s) || (c == ONES && Fold(s) == ONES) || (c == 0 && s > 0 && Fold(s) == ONES))
  {
    hide Fold;
    FoldIsResidue(s);
    FoldIsResidue(s + c);
    ResidueSum(s, c);
    ZeroResidue(Fold(s) + c);
  }

  lemma ZeroResidue(n: nat)
    requires n <= 2 * ONES
    ensures n % ONES == 0 <==> n == 0 || n == ONES || n == 2 * ONES
  {
  }

  lemma ResidueSum(s: nat, c: nat)
    ensures (s + c) % ONES == (Fold(s) + c) % ONES
  {
    FoldIsResidue(s);
    ModAdd(s % ONES + c, s / ONES);
    ModAdd(Fold(s) % ONES + c, Fold(s) / ONES);
    assert s + c == s % ONES + c + (s / ONES) * ONES;
  }

  /** The router accepts a header by zeroing the field and recomputing the checksum. For a header that
      is not all zeros this accepts exactly the fields that RFC 1071 calls correct, except a field of
      zero, which stands for the other zero and is refused. */
  lemma RecomputeAcceptsUnlessZero(data: seq<byte>, at: nat, field: nat)
    requires at + 2 <= |data| && at % 2 == 0 && field <= ONES
    requires Sum(WithField(data, at, 0), false) > 0
    ensures field == NonZero(Complement(WithField(data, at, 0))) <==>
              Fold(Sum(WithField(data, at, field), false)) == ONES && field != 0
  {
    FieldAdds(data, at, field);
    SumsToOnes(Sum(WithField(data, at, 0), false), field);
    FoldIsResidue(Sum(WithField(data, at, 0), false));
  }

  // An IPv4 header of 20 octets without options, its checksum at offset 10.
  const HEADER_SUM_AT: nat := 10
  const CORRECT_HEADER: seq<byte> :=
    [0x45, 0, 0, 0x54, 0, 0, 0, 0, 64, 1, 0, 0, 10, 0, 1, 1, 10, 0, 0x65, 0xA9]

  lemma SumOfTwo(b0: byte, b1: byte, rest: seq<byte>)
    ensures Sum([b0, b1] + rest, false) == Word16(b0, b1, false) + Sum(rest, false)
  {
    assert ([b0, b1] + rest)[2..] == rest;
  }

  lemma CorrectHeaderSum()
    ensures Sum(CORRECT_HEADER, false) == ONES
  {
    var rest10: seq<byte> := [];
    SumOfTwo(0x65, 0xA9, rest10);
    var rest9 := [0x65, 0xA9] + rest10;
    SumOfTwo(10, 0, rest9);
    var rest8 := [10, 0] + rest9;
    SumOfTwo(1, 1, rest8);
    var rest7 := [1, 1] + rest8;
    SumOfTwo(10, 0, rest7);
    var rest6 := [10, 0] + rest7;
    SumOfTwo(0, 0, rest6);
    var rest5 := [0, 0] + rest6;
    SumOfTwo(64, 1, rest5);
    var rest4 := [64, 1] + rest5;
    SumOfTwo(0, 0, rest4);
    var rest3 := [0, 0] + rest4;
    SumOfTwo(0, 0, rest3);
    var rest2 := [0, 0] + rest3;
    SumOfTwo(0, 0x54, rest2);
    var rest1 := [0, 0x54] + rest2;
    SumOfTwo(0x45, 0, rest1);
    assert CORRECT_HEADER == [0x45, 0] + rest1;
  }

  /** A header of version 4 and 20 octets, of the form the router checks, whose field of zero is correct
      and which is refused: its words sum to 0xffff, and the recomputed number is 0xffff. */
  lemma ZeroFieldRefused()
    ensures var h, at := CORRECT_HEADER, HEADER_SUM_AT;
            && |h| == 20 && h[0] == 0x45 && WithField(h, at, 0) == h
            && Fold(Sum(h, false)) == ONES
            && 0 != NonZero(Complement(WithField(h, at, 0)))
  {
    hide Sum, WithField;
    CorrectHeaderSum();
    ZeroFieldStays();
  }

  lemma ZeroFieldStays()
    ensures WithField(CORRECT_HEADER, HEADER_SUM_AT, 0) == CORRECT_HEADER
  {
  }

  // -------------------------------------------------------------------------
  // The implementations
  // -------------------------------------------------------------------------

  // Network byte order of a 16-bit number on the host.
  function Htons(v: nat, little: bool): (r: nat)
    requires v <= ONES
    ensures r <= ONES && Stored(r, little) == Stored(v, false)
  {
    if little then Swap(v) else v
  }

  /** cksum: the returned number, stored by the host, is the non-zero checksum in network order.
      The sum is kept in 32 bits, so this is RFC 1071's checksum when the words add up to less than 2^32. */
  method Cksum(data: seq<byte>, little: bool) returns (result: nat)
    ensures 0 < result <= ONES
    ensures Stored(result, little) == Stored(NonZero(ONES - Fold(Sum(data, false) % TWO32)), false)
    ensures Sum(data, false) < TWO32 ==> Stored(result, little) == Stored(NonZero(Complement(data)), false)
    ensures Sum(data, false) < TWO32 && |data| % 2 == 1 ==>
              Stored(result, little) == Stored(NonZero(Complement(data + [0])), false)
  {
    hide Sum, Stored, Fold, Swap;
    var sum := SumWords(data);
    sum := FoldLoop(sum);
    var inverted := (TWO32 - 1 - sum) % 0x1_0000;
    assert inverted == ONES - sum;
    sum := Htons(inverted, little);
    result := if sum != 0 then sum else ONES;
    HtonsZero(inverted, little);
    if |data| % 2 == 1 { OddIsPadded(data, false); }
  }

  // The first loop of cksum: big-endian words, in 32 bits.
  method SumWords(data: seq<byte>) returns (sum: nat)
    ensures sum == Sum(data, false) % TWO32
  {
    sum := 0;
    var i := 0;
    while |data| - i >= 2
      invariant 0 <= i <= |data| && 0 <= sum < TWO32
      invariant (sum + Sum(data[i..], false)) % TWO32 == Sum(data, false) % TWO32
    {
      assert data[i..][2..] == data[i + 2..];
      var w := 0x100 * data[i] as nat + data[i + 1] as nat;
      WrapAdds(sum, w, Sum(data[i + 2..], false));
      sum := U32(sum + w);
      i := i + 2;
    }
    if |data| - i > 0 {
      var w := 0x100 * data[i] as nat;
      WrapAdds(sum, w, 0);
      sum := U32(sum + w);
    }
  }

  // The second loop of cksum.
  method FoldLoop(start: nat) returns (sum: nat)
    ensures sum == Fold(start)
  {
    sum := start;
    while sum > ONES
      invariant Fold(sum) == Fold(start)
      decreases sum
    {
      sum := sum / 0x1_0000 + sum % 0x1_0000;
    }
  }

  lemma HtonsZero(v: nat, little: bool)
    requires v <= ONES
    ensures Htons(v, little) == 0 <==> v == 0
    ensures Stored(ONES, little) == Stored(ONES, false)
  {
  }

  lemma WrapAdds(sum: nat, w: nat, rest: nat)
    ensures (U32(sum + w) + rest) % TWO32 == (sum + (w + rest)) % TWO32
  {
    var q := (sum + w) / TWO32;
    assert sum + (w + rest) == U32(sum + w) + rest + q * TWO32;
    WrapMultiple(U32(sum + w) + rest, q);
  }

  lemma {:induction false} WrapMultiple(a: nat, k: nat)
    ensures (a + k * TWO32) % TWO32 == a % TWO32
  {
    if k > 0 {
      WrapMultiple(a, k - 1);
      assert a + k * TWO32 == (a + (k - 1) * TWO32) + TWO32;
    }
  }

  const TCP: byte := 6
  const SUM_AT: nat := 16  // offset of th_sum in the TCP header
  const HEADER: nat := 20

  // The 96-bit pseudo header, as it lies in memory.
  function PseudoHeader(src: seq<byte>, dst: seq<byte>, len: nat): seq<byte>
    requires |src| == 4 && |dst| == 4
  {
    src + dst + [0, TCP] + Stored(len % 0x1_0000, false)
  }

  lemma PseudoLength(src: seq<byte>, dst: seq<byte>, len: nat)
    requires |src| == 4 && |dst| == 4
    ensures |PseudoHeader(src, dst, len)| == 12
  {
  }

  lemma EmptySum(data: seq<byte>, little: bool)
    ensures Sum(data[|data|..], little) == 0
  {
  }

  // What is summed: the pseudo header and the packet with a zero checksum field.
  function Covered(src: seq<byte>, dst: seq<byte>, packet: seq<byte>): seq<byte>
    requires |src| == 4 && |dst| == 4 && |packet| >= HEADER
  {
    PseudoHeader(src, dst, |packet|) + WithField(packet, SUM_AT, 0)
  }

  lemma {:induction false} SumBound(data: seq<byte>, little: bool)
    ensures Sum(data, little) <= ((|data| + 1) / 2) * ONES
  {
    if |data| > 1 { SumBound(data[2..], little); }
  }

  lemma {:induction false} SumSplit(a: seq<byte>, b: seq<byte>, little: bool)
    requires |a| % 2 == 0
    ensures Sum(a + b, little) == Sum(a, little) + Sum(b, little)
  {
    if a == [] {
      assert a + b == b;
    } else {
      assert (a + b)[2..] == a[2..] + b;
      SumSplit(a[2..], b, little);
    }
  }

  lemma SumStep(data: seq<byte>, k: nat, little: bool)
    requires 2 * k + 2 <= |data|
    ensures Sum(data[2 * k..], little)
         == Word16(data[2 * k], data[2 * k + 1], little) + Sum(data[2 * (k + 1)..], little)
  {
    assert data[2 * k..][2..] == data[2 * (k + 1)..];
  }

  // Add the words of data, in the host's order, leaving out the one at skip.
  method AddWords(start: nat, data: seq<byte>, skip: nat, little: bool) returns (sum: nat)
    requires skip % 2 == 0 && skip + 2 <= |data|
    ensures sum == start + Sum(WithField(data, skip, 0), little)
  {
    ghost var zeroed := WithField(data, skip, 0);
    sum := start;
    var k := 0;
    while k < |data| / 2
      invariant 0 <= k <= |data| / 2
      invariant sum + Sum(zeroed[2 * k..], little) == start + Sum(zeroed, little)
    {
      assert zeroed[2 * k..][2..] == zeroed[2 * (k + 1)..];
      if k != skip / 2 {
        sum := sum + Word16(data[2 * k], data[2 * k + 1], little);
      }
      k := k + 1;
    }
    if |data| % 2 == 1 {
      sum := sum + Word16(data[|data| - 1], 0, little);
    }
  }

  /** _mysock_tcp_checksum: the returned number, stored by the host, is RFC 1071's checksum of the
      pseudo header and the packet in network order, whatever the host's byte order and whatever
      the checksum field held, as long as the sum fits the signed 32-bit accumulator. */
  method TcpChecksum(src: seq<byte>, dst: seq<byte>, packet: seq<byte>, little: bool) returns (result: nat)
    requires |src| == 4 && |dst| == 4 && |packet| >= HEADER
    requires Sum(Covered(src, dst, packet), little) < 0x8000_0000
    ensures result <= ONES
    ensures Stored(result, little) == Stored(Complement(Covered(src, dst, packet)), false)
    ensures |packet| % 2 == 1 ==>
              Stored(result, little) == Stored(Complement(Covered(src, dst, packet) + [0]), false)
  {
    hide Sum, Stored, Fold, Swap, Word16, PseudoHeader, WithField;
    var pseudo := PseudoHeader(src, dst, |packet|);
    PseudoLength(src, dst, |packet|);
    assert Sum(pseudo[12..], little) == 0 by { EmptySum(pseudo, little); }
    var sum, k := 0, 0;
    assert pseudo[0..] == pseudo;
    while k < 6
      invariant 0 <= k <= 6
      invariant sum + Sum(pseudo[2 * k..], little) == Sum(pseudo, little)
    {
      SumStep(pseudo, k, little);
      sum := sum + Word16(pseudo[2 * k], pseudo[2 * k + 1], little);
      k := k + 1;
    }
    sum := AddWords(sum, packet, SUM_AT, little);
    SumSplit(pseudo, WithField(packet, SUM_AT, 0), little);
    TwoStepsFold(sum);
    sum := sum / 0x1_0000 + sum % 0x1_0000;
    sum := sum + sum / 0x1_0000;
    result := ONES - sum % 0x1_0000;
    ByteOrderIndependence(Covered(src, dst, packet));
    if |packet| % 2 == 1 { OddPacket(src, dst, packet); }
  }

  lemma OddPacket(src: seq<byte>, dst: seq<byte>, packet: seq<byte>)
    requires |src| == 4 && |dst| == 4 && |packet| >= HEADER && |packet| % 2 == 1
    ensures Complement(Covered(src, dst, packet) + [0]) == Complement(Covered(src, dst, packet))
  {
    hide Sum, Fold;
    PseudoLength(src, dst, |packet|);
    OddIsPadded(Covered(src, dst, packet), false);
  }

  lemma PseudoSum(src: seq<byte>, dst: seq<byte>, len: nat)
    requires |src| == 4 && |dst| == 4
    ensures Sum(PseudoHeader(src, dst, len), false) == Sum(src, false) + Sum(dst, false) + 6 + len % 0x1_0000
  {
    hide Sum;
    var l := len % 0x1_0000;
    SumSplit(src + dst + [0, TCP], Stored(l, false), false);
    SumSplit(src + dst, [0, TCP], false);
    SumSplit(src, dst, false);
    OneWord(0, TCP);
    OneWord((l / 0x100) as byte, (l % 0x100) as byte);
  }

  /** What the checksum of a packet covers: both addresses, the protocol 6, the length of header and
      data, and all of the packet but the field at offset 16. */
  lemma TcpSum(src: seq<byte>, dst: seq<byte>, packet: seq<byte>)
    requires |src| == 4 && |dst| == 4 && |packet| >= HEADER
    ensures Sum(Covered(src, dst, packet), false)
         == Sum(src, false) + Sum(dst, false) + 6 + |packet| % 0x1_0000
            + Sum(packet, false) - (0x100 * packet[16] as nat + packet[17] as nat)
  {
    hide Sum, WithField, PseudoHeader;
    var field := 0x100 * packet[16] as nat + packet[17] as nat;
    PseudoLength(src, dst, |packet|);
    PseudoSum(src, dst, |packet|);
    SumSplit(PseudoHeader(src, dst, |packet|), WithField(packet, SUM_AT, 0), false);
    FieldAdds(packet, SUM_AT, field);
    FieldStays(packet, SUM_AT);
  }

  lemma FieldStays(packet: seq<byte>, at: nat)
    requires at + 2 <= |packet|
    ensures var v := 0x100 * packet[at] as nat + packet[at + 1] as nat;
            v <= ONES && WithField(packet, at, v) == packet
  {
  }

  lemma OneWord(b0: byte, b1: byte)
    ensures Sum([b0, b1], false) == 0x100 * b0 as nat + b1 as nat
  {
    assert [b0, b1][2..] == [];
  }

  /** Every packet of at most 1500 octets, the most an IP packet carries here, is short enough for that. */
  lemma PacketsFit(src: seq<byte>, dst: seq<byte>, packet: seq<byte>, little: bool)
    requires |src| == 4 && |dst| == 4 && HEADER <= |packet| <= 1500
    ensures Sum(Covered(src, dst, packet), little) < 0x8000_0000
  {
    SumBound(Covered(src, dst, packet), little);
  }

  /** Setting the checksum on one host and verifying on another succeeds, whatever their byte orders. */
  lemma SetThenVerify(src: seq<byte>, dst: seq<byte>, packet: seq<byte>)
    requires |src| == 4 && |dst| == 4 && |packet| >= HEADER
    ensures var sent := WithField(packet, SUM_AT, Complement(Covered(src, dst, packet)));
            && Complement(Covered(src, dst, sent)) == Complement(Covered(src, dst, packet))
            && Fold(Sum(PseudoHeader(src, dst, |sent|) + sent, false)) == ONES
  {
    var c := Complement(Covered(src, dst, packet));
    var sent := WithField(packet, SUM_AT, c);
    assert WithField(sent, SUM_AT, 0) == WithField(packet, SUM_AT, 0);
    var pseudo := PseudoHeader(src, dst, |packet|);
    var all := pseudo + packet;
    assert WithField(all, 12 + SUM_AT, 0) == Covered(src, dst, packet);
    assert WithField(all, 12 + SUM_AT, c) == pseudo + sent;
    PseudoNotZero(src, dst, packet);
    StoredSumsToOnes(all, 12 + SUM_AT);
  }

  lemma PseudoNotZero(src: seq<byte>, dst: seq<byte>, packet: seq<byte>)
    requires |src| == 4 && |dst| == 4 && |packet| >= HEADER
    ensures Sum(Covered(src, dst, packet), false) > 0
  {
    var all := Covered(src, dst, packet);
    assert all == all[..8] + all[8..];
    SumSplit(all[..8], all[8..], false);
    assert all[8..][1] == TCP;
  }
}
