/** The streaming SHA-1 context: octets are collected into a block that is processed in place when full. */
module Sha1Streaming {
  import opened Sha1Standard

  const WORD32: nat := 0x1_0000_0000
  const MAX_OCTETS: nat := 0x2000_0000_0000_0000  // 2^64 bits

  class SHA1Context {
    const digest: array<Word>
    var lengthLow: nat
    var lengthHigh: nat
    const block: array<Octet>
    var index: nat
    var computed: bool
    var corrupted: bool
    ghost var message: seq<Octet>  // everything taken in so far

    ghost function Digest(): Hash
      requires digest.Length == 5
      reads digest
    {
      Hash(digest[0], digest[1], digest[2], digest[3], digest[4])
    }

    ghost predicate Shape()
      reads this
    {
      digest.Length == 5 && block.Length == BLOCK && digest as object != block as object && index < BLOCK
    }

    // Until the digest is computed: the processed blocks are in the digest, the rest of the message
    // is in the block, and the two length words count its bits. Afterwards the digest is SHA-1's.
    ghost predicate Valid()
      reads this, digest, block
    {
      && Shape()
      && (!corrupted && computed ==> |message| < MAX_OCTETS && Digest() == Sha1(message))
      && (!corrupted && !computed ==>
            && index <= |message| && (|message| - index) % BLOCK == 0
            && Digest() == Process(INITIAL, message[..|message| - index])
            && block[..index] == message[|message| - index..]
            && lengthLow < WORD32 && lengthHigh < WORD32
            && lengthHigh * WORD32 + lengthLow == 8 * |message|)
    }

    constructor ()
      ensures Shape() && fresh(digest) && fresh(block)
    {
      digest := new Word[5];
      block := new Octet[BLOCK];
      index := 0;
      lengthLow, lengthHigh, computed, corrupted := 0, 0, false, false;
    }

    method Reset()
      requires digest.Length == 5 && block.Length == BLOCK && digest as object != block as object
      modifies this, digest
      ensures Valid() && message == [] && !computed && !corrupted
    {
      lengthLow, lengthHigh, index := 0, 0, 0;
      digest[0], digest[1], digest[2] := 0x67452301, 0xEFCDAB89, 0x98BADCFE;
      digest[3], digest[4] := 0x10325476, 0xC3D2E1F0;
      computed, corrupted := false, false;
      message := [];
    }

    // The words of the message schedule.
    method ExpandBlock() returns (w: array<Word>)
      requires block.Length == BLOCK
      ensures fresh(w) && w.Length == 80
      ensures forall i :: 0 <= i < 80 ==> w[i] == Schedule(block[..], i)
    {
      hide Schedule, WordOf, ShiftCircular1, Rotl1;
      ghost var b := block[..];
      w := new Word[80];
      var t := 0;
      while t < 16
        invariant 0 <= t <= 16 && block[..] == b
        invariant forall i :: 0 <= i < t ==> w[i] == Schedule(b, i)
      {
        ScheduleFirst(b, t);
        w[t] := Assemble(block[t * 4], block[t * 4 + 1], block[t * 4 + 2], block[t * 4 + 3]);
        t := t + 1;
      }
      while t < 80
        invariant 16 <= t <= 80 && block[..] == b
        invariant forall i :: 0 <= i < t ==> w[i] == Schedule(b, i)
      {
        ScheduleNext(b, t, w[t - 3], w[t - 8], w[t - 14], w[t - 16]);
        w[t] := ShiftCircular1(w[t - 3] ^ w[t - 8] ^ w[t - 14] ^ w[t - 16]);
        t := t + 1;
      }
    }

    // Process the full block into the digest.
    method ProcessMessageBlock()
      requires digest.Length == 5 && block.Length == BLOCK && digest as object != block as object
      modifies `index, digest
      ensures index == 0 && Digest() == Compress(old(Digest()), old(block[..]))
      ensures block[..] == old(block[..])
    {
      hide Schedule, Rounds, Round, Added, Add, Plus;
      ghost var b, h := block[..], Digest();
      var w := ExpandBlock();
      var s := RunRounds(w, digest[0], digest[1], digest[2], digest[3], digest[4], b);
      AddIsMasked(h, s);
      digest[0] := Added(digest[0], s.a);
      digest[1] := Added(digest[1], s.b);
      digest[2] := Added(digest[2], s.c);
      digest[3] := Added(digest[3], s.d);
      digest[4] := Added(digest[4], s.e);
      index := 0;
    }

    // Take in one octet.
    method TakeOctet(b: Octet)
      requires Valid() && !computed && !corrupted
      modifies this, digest, block
      ensures Valid() && !computed
      ensures corrupted <==> |old(message)| + 1 >= MAX_OCTETS
      ensures message == old(message) + [b]
    {
      hide Process, Sha1, Compress;
      ghost var done, tail := message[..|message| - index], message[|message| - index..];
      block[index] := b;
      index := index + 1;
      CountOctet();
      message := message + [b];
      TailGrows(old(message), done, tail, b);
      assert block[..index] == tail + [b];
      if index == BLOCK {
        assert block[..] == tail + [b];
        ProcessBlock(INITIAL, done, tail + [b]);
        ProcessMessageBlock();
        assert message[..|message|] == done + (tail + [b]);
      } else {
        assert message[..|message| - index] == done && message[|message| - index..] == tail + [b];
      }
    }

    // Add eight bits to the 64-bit length kept in two 32-bit words.
    method CountOctet()
      requires lengthLow < WORD32 && lengthHigh < WORD32 && !corrupted
      requires exists n: nat :: lengthHigh * WORD32 + lengthLow == 8 * n
      modifies `lengthLow, `lengthHigh, `corrupted
      ensures lengthLow < WORD32 && lengthHigh < WORD32
      ensures corrupted <==> old(lengthHigh * WORD32 + lengthLow) + 8 >= 8 * MAX_OCTETS
      ensures !corrupted ==> lengthHigh * WORD32 + lengthLow == old(lengthHigh * WORD32 + lengthLow) + 8
    {
      lengthLow := (lengthLow + 8) % WORD32;
      if lengthLow == 0 {
        lengthHigh := (lengthHigh + 1) % WORD32;
        if lengthHigh == 0 {
          corrupted := true;
        }
      }
    }

    // Take in the next portion of the message.
    method Input(data: seq<Octet>)
      requires Valid() && |data| < WORD32
      modifies this, digest, block
      ensures Valid()
      ensures computed == old(computed)
      ensures data == [] ==> message == old(message) && corrupted == old(corrupted)
      ensures data != [] ==>
                if old(computed) || old(corrupted) then corrupted
                else (corrupted <==> |old(message)| + |data| >= MAX_OCTETS)
                     && (!corrupted ==> message == old(message) + data)
    {
      if |data| == 0 {
        return;
      }
      if computed || corrupted {
        corrupted := true;
        return;
      }
      var i := 0;
      while i < |data| && !corrupted
        invariant Valid() && !computed && 0 <= i <= |data|
        invariant message == old(message) + data[..i]
        invariant corrupted <==> i > 0 && |message| >= MAX_OCTETS
      {
        assert data[..i + 1] == data[..i] + [data[i]];
        TakeOctet(data[i]);
        i := i + 1;
      }
      assert data[..|data|] == data;
    }

    // Write zero octets up to a position of the block.
    method FillZeros(upTo: nat)
      requires block.Length == BLOCK && index <= upTo <= BLOCK
      modifies `index, block
      ensures index == upTo
      ensures block[..upTo] == old(block[..index]) + Zeros(upTo - old(index))
    {
      ghost var from := index;
      while index < upTo
        invariant from <= index <= upTo
        invariant block[..index] == old(block[..index]) + Zeros(index - from)
      {
        block[index] := 0;
        index := index + 1;
      }
    }

    // Store the message length, in bits, as the last eight octets of the block.
    method StoreLength(ghost bits: nat)
      requires block.Length == BLOCK
      requires lengthLow < WORD32 && lengthHigh < WORD32 && lengthHigh * WORD32 + lengthLow == bits
      modifies block
      ensures block[..] == old(block[..56]) + LengthField(bits)
    {
      hide OctetOf, LengthField;
      LengthInTwoWords(lengthHigh, lengthLow);
      block[56] := OctetOf(lengthHigh / 0x100_0000);
      block[57] := OctetOf(lengthHigh / 0x1_0000);
      block[58] := OctetOf(lengthHigh / 0x100);
      block[59] := OctetOf(lengthHigh);
      block[60] := OctetOf(lengthLow / 0x100_0000);
      block[61] := OctetOf(lengthLow / 0x1_0000);
      block[62] := OctetOf(lengthLow / 0x100);
      block[63] := OctetOf(lengthLow);
      assert block[56..] == LengthField(bits);
      assert block[..56] == old(block[..56]);
      assert block[..] == block[..56] + block[56..];
    }

    // Fill the block up after the message's end, and process it.
    method PadToBlock(ghost done: seq<Octet>, ghost tail: seq<Octet>) returns (ghost padded: seq<Octet>)
      requires Shape() && block[..index] == tail && |done| % BLOCK == 0 && Digest() == Process(INITIAL, done)
      modifies `index, digest, block
      ensures index == 0 && |tail| < BLOCK && padded == done + (tail + [0x80] + Zeros(63 - |tail|))
      ensures |padded| % BLOCK == 0 && Digest() == Process(INITIAL, padded)
    {
      hide Process, Compress, Zeros;
      block[index] := 0x80;
      index := index + 1;
      assert block[..index] == tail + [0x80];
      FillZeros(64);
      assert block[..] == block[..64];
      ProcessBlock(INITIAL, done, block[..]);
      padded := done + block[..];
      ProcessMessageBlock();
    }

    // Put the length behind the padding, and process the block.
    method FinishBlock(ghost first: seq<Octet>, ghost bits: nat)
      requires digest.Length == 5 && block.Length == BLOCK && digest as object != block as object
      requires lengthLow < WORD32 && lengthHigh < WORD32 && lengthHigh * WORD32 + lengthLow == bits
      requires |first| % BLOCK == 0 && Digest() == Process(INITIAL, first)
      modifies `index, digest, block
      ensures index == 0 && (|first| + BLOCK) % BLOCK == 0
      ensures |first + (old(block[..56]) + LengthField(bits))| % BLOCK == 0
      ensures Digest() == Process(INITIAL, first + (old(block[..56]) + LengthField(bits)))
    {
      hide Process, Compress, LengthField;
      StoreLength(bits);
      ProcessBlock(INITIAL, first, block[..]);
      ProcessMessageBlock();
    }

    // Pad the message and process what that completes: one block, or two when the length no longer fits.
    method PadMessage()
      requires Valid() && !computed && !corrupted
      modifies this, digest, block
      ensures Shape() && Digest() == Sha1(message)
      ensures message == old(message) && computed == old(computed) && corrupted == old(corrupted)
    {
      hide Process, Sha1;
      ghost var done, tail := message[..|message| - index], message[|message| - index..];
      assert message == done + tail;
      PadAfter(done, tail);
    }

    // The same for the processed blocks and the octets still in the block.
    method PadAfter(ghost done: seq<Octet>, ghost tail: seq<Octet>)
      requires Shape() && block[..index] == tail && |done| % BLOCK == 0 && Digest() == Process(INITIAL, done)
      requires lengthLow < WORD32 && lengthHigh < WORD32
      requires lengthHigh * WORD32 + lengthLow == 8 * |done + tail|
      modifies `index, digest, block
      ensures Shape() && Digest() == Sha1(done + tail)
    {
      hide Process, Compress, LengthField, OctetOf, Zeros, Pad, ZeroCount;
      ghost var message, first := done + tail, done;
      if index > 55 {
        PadLong(message, done, tail);
        first := PadToBlock(done, tail);
        FillZeros(56);
        assert block[..56] == Zeros(56);
      } else {
        PadShort(message, done, tail);
        block[index] := 0x80;
        index := index + 1;
        assert block[..index] == tail + [0x80];
        FillZeros(56);
      }
      assert Pad(message) == first + (block[..56] + LengthField(8 * |message|));
      FinishBlock(first, 8 * |message|);
    }

    // Make the digest available; fails once the context is corrupted.
    method Result() returns (ok: bool)
      requires Valid()
      modifies this, digest, block
      ensures Valid() && ok == !corrupted && corrupted == old(corrupted) && message == old(message)
      ensures ok ==> computed && Digest() == Sha1(message)
    {
      if corrupted {
        return false;
      }
      if !computed {
        MessageFits();
        PadMessage();
        computed := true;
      }
      return true;
    }

    lemma MessageFits()
      requires Valid() && !computed && !corrupted
      ensures |message| < MAX_OCTETS
    {
    }
  }

  /** Streaming is correct: however a message is split into portions, resetting, taking the portions
      in one after the other and asking for the result gives the standard's digest of the whole;
      it fails exactly when the message has 2^64 bits or more. */
  method DigestOfPortions(portions: seq<seq<Octet>>) returns (ok: bool, h: Hash)
    requires forall i :: 0 <= i < |portions| ==> |portions[i]| < WORD32
    ensures ok <==> |Joined(portions)| < MAX_OCTETS
    ensures ok ==> h == Sha1(Joined(portions))
  {
    hide Sha1, Process;
    var context := new SHA1Context();
    context.Reset();
    var i := 0;
    JoinedPrefix(portions, 0);
    while i < |portions|
      invariant 0 <= i <= |portions| && context.Valid()
      invariant fresh(context) && fresh(context.digest) && fresh(context.block)
      invariant !context.computed && (context.corrupted <==> |Joined(portions[..i])| >= MAX_OCTETS)
      invariant !context.corrupted ==> context.message == Joined(portions[..i])
    {
      JoinedPrefix(portions, i);
      context.Input(portions[i]);
      i := i + 1;
    }
    assert portions[..i] == portions;
    ok := context.Result();
    h := Hash(context.digest[0], context.digest[1], context.digest[2], context.digest[3], context.digest[4]);
  }

  function Joined(portions: seq<seq<Octet>>): seq<Octet> {
    if portions == [] then [] else Joined(portions[..|portions| - 1]) + portions[|portions| - 1]
  }

  lemma JoinedPrefix(portions: seq<seq<Octet>>, i: nat)
    requires i <= |portions|
    ensures portions[..0] == []
    ensures i < |portions| ==> Joined(portions[..i + 1]) == Joined(portions[..i]) + portions[i]
  {
    if i < |portions| {
      assert portions[..i + 1][..i] == portions[..i];
    }
  }

  lemma LengthInTwoWords(high: nat, low: nat)
    requires high < WORD32 && low < WORD32
    ensures LengthField(high * WORD32 + low) ==
              [OctetOf(high / 0x100_0000), OctetOf(high / 0x1_0000), OctetOf(high / 0x100), OctetOf(high),
               OctetOf(low / 0x100_0000), OctetOf(low / 0x1_0000), OctetOf(low / 0x100), OctetOf(low)]
  {
    hide OctetOf;
    HighOctets(high, low);
    LowOctets(high, low);
    OctetOfSum(high, low / 0x100_0000);
    OctetOfSum(high * 0x100, low / 0x1_0000);
    OctetOfSum(high * 0x1_0000, low / 0x100);
    OctetOfSum(high * 0x100_0000, low);
  }

  lemma HighOctets(high: nat, low: nat)
    requires high < WORD32 && low < WORD32
    ensures var bits := high * WORD32 + low;
            && bits / 0x100_0000_0000_0000 == high / 0x100_0000
            && bits / 0x1_0000_0000_0000 == high / 0x1_0000
            && bits / 0x100_0000_0000 == high / 0x100
            && bits / 0x1_0000_0000 == high
  {
  }

  lemma LowOctets(high: nat, low: nat)
    requires high < WORD32 && low < WORD32
    ensures var bits := high * WORD32 + low;
            && bits / 0x100_0000 == high * 0x100 + low / 0x100_0000
            && bits / 0x1_0000 == high * 0x100 * 0x100 + low / 0x1_0000
            && bits / 0x100 == high * 0x1_0000 * 0x100 + low / 0x100
            && bits == high * 0x100_0000 * 0x100 + low
  {
  }

  lemma OctetOfSum(a: nat, b: nat)
    ensures OctetOf(a * 0x100 + b) == OctetOf(b)
  {
    assert (a * 0x100 + b) % 0x100 == b % 0x100;
  }

  // Padding that fits into the block the tail is in.
  lemma PadShort(m: seq<Octet>, done: seq<Octet>, tail: seq<Octet>)
    requires m == done + tail && |done| % BLOCK == 0 && |tail| <= 55
    ensures Pad(m) == done + (((tail + [0x80]) + Zeros(55 - |tail|)) + LengthField(8 * |m|))
  {
    hide LengthField;
    assert ZeroCount(|m|) == 55 - |tail|;
  }

  // Padding that needs another block.
  lemma PadLong(m: seq<Octet>, done: seq<Octet>, tail: seq<Octet>)
    requires m == done + tail && |done| % BLOCK == 0 && 56 <= |tail| < BLOCK
    ensures Pad(m) == (done + ((tail + [0x80]) + Zeros(63 - |tail|))) + (Zeros(56) + LengthField(8 * |m|))
  {
    hide LengthField;
    assert ZeroCount(|m|) == 119 - |tail|;
    assert Zeros(119 - |tail|) == Zeros(63 - |tail|) + Zeros(56);
  }

  lemma TailGrows(message: seq<Octet>, done: seq<Octet>, tail: seq<Octet>, b: Octet)
    requires message == done + tail
    ensures message + [b] == done + (tail + [b])
  {
  }

  // The 80 rounds, twenty to a loop.
  method RunRounds(w: array<Word>, h0: Word, h1: Word, h2: Word, h3: Word, h4: Word, ghost bl: seq<Octet>)
    returns (s: Hash)
    requires w.Length == 80 && |bl| == BLOCK
    requires forall i :: 0 <= i < 80 ==> w[i] == Schedule(bl, i)
    ensures s == Rounds(bl, Hash(h0, h1, h2, h3, h4), 80)
  {
    hide *;
    ghost var h := Hash(h0, h1, h2, h3, h4);
    var a, b, c, d, e := h0, h1, h2, h3, h4;
    var t := 0;
    NoRounds(bl, h);
    while t < 20
      invariant 0 <= t <= 20 && Hash(a, b, c, d, e) == Rounds(bl, h, t)
    {
      ChRound(bl, h, t, Hash(a, b, c, d, e), w[t]);
      var temp := Temp(ShiftCircular5(a), Choose(b, c, d), e, w[t], 0x5A827999);
      e := d;
      d := c;
      c := ShiftCircular30(b);
      b := a;
      a := temp;
      t := t + 1;
    }
    while t < 40
      invariant 20 <= t <= 40 && Hash(a, b, c, d, e) == Rounds(bl, h, t)
    {
      ParityRound(bl, h, t, Hash(a, b, c, d, e), w[t]);
      var temp := Temp(ShiftCircular5(a), Parity(b, c, d), e, w[t], 0x6ED9EBA1);
      e := d;
      d := c;
      c := ShiftCircular30(b);
      b := a;
      a := temp;
      t := t + 1;
    }
    while t < 60
      invariant 40 <= t <= 60 && Hash(a, b, c, d, e) == Rounds(bl, h, t)
    {
      MajRound(bl, h, t, Hash(a, b, c, d, e), w[t]);
      var temp := Temp(ShiftCircular5(a), Majority(b, c, d), e, w[t], 0x8F1BBCDC);
      e := d;
      d := c;
      c := ShiftCircular30(b);
      b := a;
      a := temp;
      t := t + 1;
    }
    while t < 80
      invariant 60 <= t <= 80 && Hash(a, b, c, d, e) == Rounds(bl, h, t)
    {
      ParityRound(bl, h, t, Hash(a, b, c, d, e), w[t]);
      var temp := Temp(ShiftCircular5(a), Parity(b, c, d), e, w[t], 0xCA62C1D6);
      e := d;
      d := c;
      c := ShiftCircular30(b);
      b := a;
      a := temp;
      t := t + 1;
    }
    s := Hash(a, b, c, d, e);
  }

  lemma NoRounds(bl: seq<Octet>, h: Hash)
    requires |bl| == BLOCK
    ensures Rounds(bl, h, 0) == h
  {
  }

  function Choose(x: Word, y: Word, z: Word): Word { (x & y) | ((!x) & z) }

  function Majority(x: Word, y: Word, z: Word): Word { (x & y) | (x & z) | (y & z) }

  // The implementation's functions are the standard's, written with "or" for "exclusive or".
  lemma ChoiceBits(x: Word, y: Word, z: Word)
    ensures (x & y) | ((!x) & z) == (x & y) ^ (!x & z)
  {
  }

  lemma MajorityBits(x: Word, y: Word, z: Word)
    ensures (x & y) | (x & z) | (y & z) == (x & y) ^ (x & z) ^ (y & z)
  {
  }

  lemma ChAsOr(x: Word, y: Word, z: Word)
    ensures Choose(x, y, z) == Ch(x, y, z)
  {
    ChoiceBits(x, y, z);
  }

  lemma MajAsOr(x: Word, y: Word, z: Word)
    ensures Majority(x, y, z) == Maj(x, y, z)
  {
    MajorityBits(x, y, z);
  }

  function Added(x: Word, y: Word): Word { (x + y) & 0xFFFFFFFF }

  lemma AddedIsPlus(x: Word, y: Word)
    ensures Added(x, y) == Plus(x, y)
  {
  }

  lemma AddIsMasked(h: Hash, r: Hash)
    ensures Add(h, r) == Hash(Added(h.a, r.a), Added(h.b, r.b), Added(h.c, r.c), Added(h.d, r.d), Added(h.e, r.e))
  {
    hide Added, Plus;
    AddedIsPlus(h.a, r.a);
    AddedIsPlus(h.b, r.b);
    AddedIsPlus(h.c, r.c);
    AddedIsPlus(h.d, r.d);
    AddedIsPlus(h.e, r.e);
  }

  // The five-term sum of a round as the implementation writes it.
  function Temp(x: Word, f: Word, e: Word, w: Word, k: Word): Word { (x + f + e + w + k) & 0xFFFFFFFF }

  lemma TempIsSum(x: Word, f: Word, e: Word, w: Word, k: Word)
    ensures Temp(x, f, e, w, k) == Sum5(x, f, e, k, w)
  {
  }

  // Round t taken the implementation's way from the variables after t rounds, f being its logical function.
  lemma RoundTaken(bl: seq<Octet>, h: Hash, t: nat, s: Hash, w: Word, f: Word)
    requires |bl| == BLOCK && t < 80 && s == Rounds(bl, h, t) && w == Schedule(bl, t) && f == F(t, s.b, s.c, s.d)
    ensures Rounds(bl, h, t + 1) ==
              Hash(Temp(ShiftCircular5(s.a), f, s.e, w, K(t)), s.a, ShiftCircular30(s.b), s.c, s.d)
  {
    hide F, Rotl5, Rotl30, ShiftCircular5, ShiftCircular30, K, Schedule, Sum5, Temp;
    TempIsSum(ShiftCircular5(s.a), f, s.e, w, K(t));
  }

  lemma ChIsF(t: nat, x: Word, y: Word, z: Word)
    requires t < 20
    ensures F(t, x, y, z) == Choose(x, y, z) && K(t) == 0x5A827999
  {
    ChAsOr(x, y, z);
  }

  lemma ParityIsF(t: nat, x: Word, y: Word, z: Word)
    requires 20 <= t < 40 || 60 <= t < 80
    ensures F(t, x, y, z) == Parity(x, y, z) && K(t) == if t < 40 then 0x6ED9EBA1 else 0xCA62C1D6
  {
  }

  lemma MajIsF(t: nat, x: Word, y: Word, z: Word)
    requires 40 <= t < 60
    ensures F(t, x, y, z) == Majority(x, y, z) && K(t) == 0x8F1BBCDC
  {
    MajAsOr(x, y, z);
  }

  lemma ChRound(bl: seq<Octet>, h: Hash, t: nat, s: Hash, w: Word)
    requires |bl| == BLOCK && t < 20 && s == Rounds(bl, h, t) && w == Schedule(bl, t)
    ensures Rounds(bl, h, t + 1) ==
              Hash(Temp(ShiftCircular5(s.a), Choose(s.b, s.c, s.d), s.e, w, 0x5A827999),
                   s.a, ShiftCircular30(s.b), s.c, s.d)
  {
    hide Rounds, F, K, Schedule, ShiftCircular5, ShiftCircular30, Temp;
    ChIsF(t, s.b, s.c, s.d);
    RoundTaken(bl, h, t, s, w, Choose(s.b, s.c, s.d));
  }

  lemma ParityRound(bl: seq<Octet>, h: Hash, t: nat, s: Hash, w: Word)
    requires |bl| == BLOCK && (20 <= t < 40 || 60 <= t < 80) && s == Rounds(bl, h, t) && w == Schedule(bl, t)
    ensures Rounds(bl, h, t + 1) ==
              Hash(Temp(ShiftCircular5(s.a), Parity(s.b, s.c, s.d), s.e, w, if t < 40 then 0x6ED9EBA1 else 0xCA62C1D6),
                   s.a, ShiftCircular30(s.b), s.c, s.d)
  {
    hide Rounds, F, K, Schedule, ShiftCircular5, ShiftCircular30, Temp;
    ParityIsF(t, s.b, s.c, s.d);
    RoundTaken(bl, h, t, s, w, Parity(s.b, s.c, s.d));
  }

  lemma MajRound(bl: seq<Octet>, h: Hash, t: nat, s: Hash, w: Word)
    requires |bl| == BLOCK && 40 <= t < 60 && s == Rounds(bl, h, t) && w == Schedule(bl, t)
    ensures Rounds(bl, h, t + 1) ==
              Hash(Temp(ShiftCircular5(s.a), Majority(s.b, s.c, s.d), s.e, w, 0x8F1BBCDC),
                   s.a, ShiftCircular30(s.b), s.c, s.d)
  {
    hide Rounds, F, K, Schedule, ShiftCircular5, ShiftCircular30, Temp;
    MajIsF(t, s.b, s.c, s.d);
    RoundTaken(bl, h, t, s, w, Majority(s.b, s.c, s.d));
  }

  lemma ScheduleFirst(b: seq<Octet>, t: nat)
    requires |b| == BLOCK && t < 16
    ensures Schedule(b, t) == WordOf(b[4 * t], b[4 * t + 1], b[4 * t + 2], b[4 * t + 3])
  {
  }

  lemma ScheduleNext(b: seq<Octet>, t: nat, w3: Word, w8: Word, w14: Word, w16: Word)
    requires |b| == BLOCK && 16 <= t < 80
    requires w3 == Schedule(b, t - 3) && w8 == Schedule(b, t - 8)
    requires w14 == Schedule(b, t - 14) && w16 == Schedule(b, t - 16)
    ensures Schedule(b, t) == Rotl1(w3 ^ w8 ^ w14 ^ w16)
  {
    hide Rotl1;
  }

  // A word put together one octet at a time.
  method Assemble(b0: Octet, b1: Octet, b2: Octet, b3: Octet) returns (w: Word)
    ensures w == WordOf(b0, b1, b2, b3)
  {
    w := (b0 as Word) << 24;
    w := w | ((b1 as Word) << 16);
    w := w | ((b2 as Word) << 8);
    w := w | (b3 as Word);
  }

  function ShiftCircular1(w: Word): (r: Word)
    ensures r == Rotl1(w)
  {
    ((w << 1) & 0xFFFFFFFF) | (w >> 31)
  }

  function ShiftCircular5(w: Word): (r: Word)
    ensures r == Rotl5(w)
  {
    ((w << 5) & 0xFFFFFFFF) | (w >> 27)
  }

  function ShiftCircular30(w: Word): (r: Word)
    ensures r == Rotl30(w)
  {
    ((w << 30) & 0xFFFFFFFF) | (w >> 2)
  }
}
