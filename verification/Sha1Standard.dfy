/** SHA-1 as FIPS 180-4 defines it. */
module Sha1Standard {
  // Sections 2.2.2 and 3.2: words of 32 bits.
  type Word = bv32
  type Octet = bv8

  function Rotl1(x: Word): Word { (x << 1) | (x >> 31) }
  function Rotl5(x: Word): Word { (x << 5) | (x >> 27) }
  function Rotl30(x: Word): Word { (x << 30) | (x >> 2) }

  // Section 4.1.1: the logical functions.
  function Ch(x: Word, y: Word, z: Word): Word { (x & y) ^ (!x & z) }
  function Parity(x: Word, y: Word, z: Word): Word { x ^ y ^ z }
  function Maj(x: Word, y: Word, z: Word): Word { (x & y) ^ (x & z) ^ (y & z) }

  function F(t: nat, x: Word, y: Word, z: Word): Word {
    if t < 20 then Ch(x, y, z)
    else if t < 40 then Parity(x, y, z)
    else if t < 60 then Maj(x, y, z)
    else Parity(x, y, z)
  }

  // Section 4.2.1: the constants.
  function K(t: nat): Word {
    if t < 20 then 0x5A827999 else if t < 40 then 0x6ED9EBA1 else if t < 60 then 0x8F1BBCDC else 0xCA62C1D6
  }

  datatype Hash = Hash(a: Word, b: Word, c: Word, d: Word, e: Word)

  // Section 5.3.1: the initial hash value.
  const INITIAL: Hash := Hash(0x67452301, 0xEFCDAB89, 0x98BADCFE, 0x10325476, 0xC3D2E1F0)

  const BLOCK: nat := 64

  // Four octets as a word, most significant first.
  function WordOf(b0: Octet, b1: Octet, b2: Octet, b3: Octet): Word {
    ((b0 as Word) << 24) | ((b1 as Word) << 16) | ((b2 as Word) << 8) | (b3 as Word)
  }

  // Section 6.1.2, step 1: the message schedule.
  function Schedule(block: seq<Octet>, t: nat): Word
    requires |block| == BLOCK && t < 80
  {
    if t < 16 then WordOf(block[4 * t], block[4 * t + 1], block[4 * t + 2], block[4 * t + 3])
    else Rotl1(Schedule(block, t - 3) ^ Schedule(block, t - 8) ^ Schedule(block, t - 14) ^ Schedule(block, t - 16))
  }

  function Sum5(x: Word, f: Word, e: Word, k: Word, w: Word): Word { x + f + e + k + w }

  // Step 3: one round.
  function Round(t: nat, h: Hash, w: Word): Hash {
    Hash(Sum5(Rotl5(h.a), F(t, h.b, h.c, h.d), h.e, K(t), w), h.a, Rotl30(h.b), h.c, h.d)
  }

  // The working variables after the first t rounds.
  function Rounds(block: seq<Octet>, h: Hash, t: nat): Hash
    requires |block| == BLOCK && t <= 80
  {
    if t == 0 then h else Round(t - 1, Rounds(block, h, t - 1), Schedule(block, t - 1))
  }

  function Plus(x: Word, y: Word): Word { x + y }

  function Add(h: Hash, r: Hash): Hash {
    Hash(Plus(h.a, r.a), Plus(h.b, r.b), Plus(h.c, r.c), Plus(h.d, r.d), Plus(h.e, r.e))
  }

  // Step 4: the next intermediate hash value.
  function Compress(h: Hash, block: seq<Octet>): Hash
    requires |block| == BLOCK
  {
    Add(h, Rounds(block, h, 80))
  }

  // Section 6.1.2: all blocks in turn.
  function Process(h: Hash, data: seq<Octet>): Hash
    requires |data| % BLOCK == 0
    decreases |data|
  {
    if data == [] then h else Process(Compress(h, data[..BLOCK]), data[BLOCK..])
  }

  function Zeros(n: nat): seq<Octet> { seq(n, _ => 0) }

  function OctetOf(x: nat): Octet { (x % 0x100) as Octet }

  // The message length in bits as 64 bits, most significant first.
  function LengthField(bits: nat): seq<Octet> {
    [OctetOf(bits / 0x100_0000_0000_0000), OctetOf(bits / 0x1_0000_0000_0000),
     OctetOf(bits / 0x100_0000_0000), OctetOf(bits / 0x1_0000_0000),
     OctetOf(bits / 0x100_0000), OctetOf(bits / 0x1_0000), OctetOf(bits / 0x100), OctetOf(bits)]
  }

  // Section 5.1.1: the number of zero octets is the smallest that makes the whole a multiple of 64
  // (in bits: l + 1 + k = 448 modulo 512, seven of the k zero bits following the one bit).
  function ZeroCount(len: nat): nat { (55 - len) % BLOCK }

  lemma ZeroCountIsLeast(len: nat, k: nat)
    ensures (len + 1 + ZeroCount(len) + 8) % BLOCK == 0
    ensures (len + 1 + k + 8) % BLOCK == 0 ==> ZeroCount(len) <= k
  {
  }

  function Pad(m: seq<Octet>): (p: seq<Octet>)
    ensures |p| % BLOCK == 0
  {
    ZeroCountIsLeast(|m|, 0);
    m + [0x80] + Zeros(ZeroCount(|m|)) + LengthField(8 * |m|)
  }

  function Sha1(m: seq<Octet>): Hash { Process(INITIAL, Pad(m)) }

  lemma {:induction false} ProcessAppend(h: Hash, data: seq<Octet>, more: seq<Octet>)
    requires |data| % BLOCK == 0 && |more| % BLOCK == 0
    ensures (|data| + |more|) % BLOCK == 0
    ensures Process(h, data + more) == Process(Process(h, data), more)
    decreases |data|
  {
    if data == [] {
      assert data + more == more;
    } else {
      assert (data + more)[..BLOCK] == data[..BLOCK];
      assert (data + more)[BLOCK..] == data[BLOCK..] + more;
      ProcessAppend(Compress(h, data[..BLOCK]), data[BLOCK..], more);
    }
  }

  lemma ProcessBlock(h: Hash, data: seq<Octet>, block: seq<Octet>)
    requires |data| % BLOCK == 0 && |block| == BLOCK
    ensures (|data| + BLOCK) % BLOCK == 0
    ensures Process(h, data + block) == Compress(Process(h, data), block)
  {
    ProcessAppend(h, data, block);
    assert block[..BLOCK] == block && block[BLOCK..] == [];
  }
}
