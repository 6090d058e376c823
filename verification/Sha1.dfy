/** Crow's streaming SHA-1, against sections 4.1.1, 5.1.1, 5.3.1 and 6.1 of FIPS 180-4. */
module Sha1 {
  type Bytes = seq<bv8>

  /** The five words of a hash value, or the five working variables. */
  datatype Words = Words(a: bv32, b: bv32, c: bv32, d: bv32, e: bv32)

  const INITIAL := Words(0x67452301, 0xEFCDAB89, 0x98BADCFE, 0x10325476, 0xC3D2E1F0)

  // ---------------------------------------------------------------- the standard

  /** The circular left shift by one, five or thirty bits. */
  function Rotl(x: bv32, n: bv6): bv32
    requires 0 < n < 32
  {
    (x << n) | (x >> (32 - n))
  }

  /** Addition modulo 2^32. */
  function Plus(x: bv32, y: bv32): bv32 { x + y }

  function Xor4(x: bv32, y: bv32, z: bv32, u: bv32): bv32 { x ^ y ^ z ^ u }

  function Ch(x: bv32, y: bv32, z: bv32): bv32 { (x & y) ^ (!x & z) }

  function Parity(x: bv32, y: bv32, z: bv32): bv32 { x ^ y ^ z }

  function Maj(x: bv32, y: bv32, z: bv32): bv32 { (x & y) ^ (x & z) ^ (y & z) }

  function Mix(t: nat, x: bv32, y: bv32, z: bv32): bv32 {
    if t < 20 then Ch(x, y, z) else if 40 <= t < 60 then Maj(x, y, z) else Parity(x, y, z)
  }

  function Constant(t: nat): bv32 {
    if t < 20 then 0x5A827999 else if t < 40 then 0x6ED9EBA1 else if t < 60 then 0x8F1BBCDC else 0xCA62C1D6
  }

  /** Four bytes as a word, most significant first. */
  function Word(b0: bv8, b1: bv8, b2: bv8, b3: bv8): bv32 {
    (b0 as bv32 << 24) | (b1 as bv32 << 16) | (b2 as bv32 << 8) | b3 as bv32
  }

  /** Word `t` of the message schedule of a block. */
  function Schedule(block: Bytes, t: nat): bv32
    requires |block| == 64
  {
    if t < 16 then Word(block[4 * t], block[4 * t + 1], block[4 * t + 2], block[4 * t + 3])
    else Rotl(Xor4(Schedule(block, t - 3), Schedule(block, t - 8), Schedule(block, t - 14), Schedule(block, t - 16)), 1)
  }

  function Round(s: Words, t: nat, w: bv32): Words {
    Words(Plus(Plus(Plus(Plus(Rotl(s.a, 5), Mix(t, s.b, s.c, s.d)), s.e), Constant(t)), w),
          s.a, Rotl(s.b, 30), s.c, s.d)
  }

  /** The working variables after the first `t` rounds. */
  function Rounds(h: Words, block: Bytes, t: nat): Words
    requires |block| == 64
  {
    if t == 0 then h else Round(Rounds(h, block, t - 1), t - 1, Schedule(block, t - 1))
  }

  function Sum(x: Words, y: Words): Words {
    Words(Plus(x.a, y.a), Plus(x.b, y.b), Plus(x.c, y.c), Plus(x.d, y.d), Plus(x.e, y.e))
  }

  function Compress(h: Words, block: Bytes): Words
    requires |block| == 64
  {
    Sum(h, Rounds(h, block, 80))
  }

  /** The hash value after the first `n` blocks of `m`. */
  function Absorb(m: Bytes, n: nat): Words
    requires 64 * n <= |m|
  {
    if n == 0 then INITIAL else Compress(Absorb(m, n - 1), m[64 * (n - 1)..64 * n])
  }

  function Octet(n: nat): bv8 { (n % 256) as bv8 }

  /** The `k` low bytes of `n`, most significant first. */
  function BigEndian(n: nat, k: nat): (b: Bytes)
    ensures |b| == k
  {
    if k == 0 then [] else BigEndian(n / 256, k - 1) + [Octet(n)]
  }

  function Zeros(k: nat): (b: Bytes)
    ensures |b| == k
  {
    seq(k, _ => 0 as bv8)
  }

  /** How many zero bytes follow the 0x80 byte: the fewest that leave eight bytes in the last block. */
  function Gap(n: nat): nat { if n % 64 < 56 then 55 - n % 64 else 119 - n % 64 }

  /** The padded message: a one bit, the zeros, and the length in bits as a 64-bit number. */
  function Pad(m: Bytes): Bytes { m + [0x80] + Zeros(Gap(|m|)) + BigEndian(8 * |m|, 8) }

  lemma {:induction false} PadFillsBlocks(m: Bytes)
    ensures |Pad(m)| % 64 == 0 && |m| + 9 <= |Pad(m)| < |m| + 73
  {
    hide BigEndian, Zeros;
    assert |Pad(m)| == |m| + 9 + Gap(|m|);
  }

  /** The SHA-1 of a message. */
  function Hash(m: Bytes): Words {
    PadFillsBlocks(m);
    Absorb(Pad(m), |Pad(m)| / 64)
  }

  // ---------------------------------------------------------------- the streaming object

  /** What `getDigest` appends: four zero bytes and only the low 32 bits of the bit count. */
  function Trailer(n: nat): Bytes { [0x80] + Zeros(Gap(n)) + Zeros(4) + BigEndian(8 * n, 4) }

  /** A `size_t` holds 64 bits. */
  function SizeT(n: nat): nat { n % 0x1_0000_0000_0000_0000 }

  lemma {:induction false} CountWraps(n: nat)
    ensures SizeT(SizeT(n) + 1) == SizeT(n + 1)
  {
  }

  class Sha {
    var digest: array<bv32>
    var block: array<bv8>
    var blockByteIndex: nat
    var byteCount: nat
    /** Every byte processed so far. */
    ghost var fed: Bytes

    ghost predicate Valid()
      reads this, digest, block
    {
      && digest.Length == 5 && block.Length == 64
      && blockByteIndex == |fed| % 64
      && byteCount == SizeT(|fed|)
      && Value() == Absorb(fed, |fed| / 64)
      && forall k :: 0 <= k < blockByteIndex ==> block[k] == fed[|fed| - blockByteIndex + k]
    }

    function Value(): Words
      requires digest.Length == 5
      reads this, digest
    {
      Words(digest[0], digest[1], digest[2], digest[3], digest[4])
    }

    constructor ()
      ensures Valid() && fed == [] && fresh(digest) && fresh(block)
    {
      digest := new bv32[5][0x67452301, 0xEFCDAB89, 0x98BADCFE, 0x10325476, 0xC3D2E1F0];
      block := new bv8[64](_ => 0);
      blockByteIndex, byteCount, fed := 0, 0, [];
    }

    /** The message schedule of the block. */
    method Expand() returns (w: array<bv32>)
      requires block.Length == 64
      ensures fresh(w) && w.Length == 80
      ensures forall t :: 0 <= t < 80 ==> w[t] == Schedule(block[..], t)
    {
      hide Rotl, LeftRotate, Word, Xor4;
      ghost var message := block[..];
      w := new bv32[80];
      for t := 0 to 16
        invariant block[..] == message
        invariant forall k :: 0 <= k < t ==> w[k] == Schedule(message, k)
      {
        w[t] := WordAt(4 * t);
      }
      for t := 16 to 80
        invariant block[..] == message
        invariant forall k :: 0 <= k < t ==> w[k] == Schedule(message, k)
      {
        var x := Xor4(w[t - 3], w[t - 8], w[t - 14], w[t - 16]);
        RotationsAgree(x);
        w[t] := LeftRotate(x, 1);
      }
    }

    /** Four bytes of the block, shifted into place one after the other. */
    method WordAt(i: nat) returns (w: bv32)
      requires block.Length == 64 && i + 3 < 64
      ensures w == Word(block[i], block[i + 1], block[i + 2], block[i + 3])
    {
      w := block[i] as bv32 << 24;
      w := w | (block[i + 1] as bv32 << 16);
      w := w | (block[i + 2] as bv32 << 8);
      w := w | block[i + 3] as bv32;
    }

    /** Mixes the full block into the digest. */
    method ProcessBlock()
      requires digest.Length == 5 && block.Length == 64
      modifies digest
      ensures Value() == Compress(old(Value()), block[..])
    {
      hide Schedule, Mix, Rotl, LeftRotate, Constant, Plus;
      var w := Expand();
      ghost var message := block[..];
      var a, b, c, d, e := digest[0], digest[1], digest[2], digest[3], digest[4];
      for i := 0 to 80
        invariant forall t :: 0 <= t < 80 ==> w[t] == Schedule(message, t)
        invariant block[..] == message && Value() == old(Value())
        invariant Words(a, b, c, d, e) == Rounds(old(Value()), message, i)
      {
        var f, k := Select(i, b, c, d);
        RotationsAgree(a);
        RotationsAgree(b);
        var temp := Plus(Plus(Plus(Plus(LeftRotate(a, 5), f), e), k), w[i]);
        e := d;
        d := c;
        c := LeftRotate(b, 30);
        b := a;
        a := temp;
      }
      digest[0] := Plus(digest[0], a);
      digest[1] := Plus(digest[1], b);
      digest[2] := Plus(digest[2], c);
      digest[3] := Plus(digest[3], d);
      digest[4] := Plus(digest[4], e);
    }

    method ProcessByte(octet: bv8)
      requires Valid()
      modifies this, digest, block
      ensures Valid() && fed == old(fed) + [octet] && digest == old(digest) && block == old(block)
    {
      hide Compress, Absorb, SizeT;
      ghost var m := fed;
      AbsorbNext(m, octet);
      OneMore(|m|);
      block[blockByteIndex] := octet;
      blockByteIndex := blockByteIndex + 1;
      byteCount := SizeT(byteCount + 1);
      CountWraps(|m|);
      fed := fed + [octet];
      if blockByteIndex == 64 {
        blockByteIndex := 0;
        assert block[..] == m[|m| - 63..] + [octet];
        ProcessBlock();
      }
    }

    method ProcessBytes(data: Bytes)
      requires Valid()
      modifies this, digest, block
      ensures Valid() && fed == old(fed) + data && digest == old(digest) && block == old(block)
    {
      for i := 0 to |data|
        invariant Valid() && fed == old(fed) + data[..i] && digest == old(digest) && block == old(block)
      {
        ProcessByte(data[i]);
      }
    }

    /** Zero bytes until the block holds `index` bytes. */
    method ZeroUntil(index: nat)
      requires Valid() && (index == 0 || blockByteIndex <= index < 64)
      modifies this, digest, block
      ensures Valid() && digest == old(digest) && block == old(block) && blockByteIndex == index
      ensures fed == old(fed) + Zeros(ZerosUntil(|old(fed)|, index))
    {
      ghost var n: nat := 0;
      assert old(fed) + Zeros(0) == old(fed);
      while blockByteIndex != index
        invariant Valid() && digest == old(digest) && block == old(block)
        invariant n <= ZerosUntil(|old(fed)|, index) && fed == old(fed) + Zeros(n)
        decreases 64 - n
      {
        hide Absorb, ZerosUntil;
        ProcessByte(0);
        OneMoreZero(old(fed), n);
        CountZeros(|old(fed)|, n, index);
        n := n + 1;
      }
      CountZeros(|old(fed)|, n, index);
    }

    /** The two branches that bring the block to 56 bytes. */
    method FillBlock()
      requires Valid()
      modifies this, digest, block
      ensures Valid() && digest == old(digest) && block == old(block) && blockByteIndex == 56
      ensures fed == old(fed) + Zeros(ZerosUntil(|old(fed)|, 56))
    {
      hide Absorb, Zeros;
      if blockByteIndex > 56 {
        ZeroUntil(0);
        ghost var n := ZerosUntil(|old(fed)|, 0);
        ZeroUntil(56);
        TwoFills(old(fed), n, 56);
      } else {
        ZeroUntil(56);
      }
    }

    /** The last eight bytes of the last block. */
    method PutLength(bitCount: nat)
      requires Valid()
      modifies this, digest, block
      ensures Valid() && digest == old(digest) && block == old(block)
      ensures fed == old(fed) + (Zeros(4) + BigEndian(bitCount, 4))
    {
      ghost var before := fed;
      ProcessFour(0, 0, 0, 0);
      ProcessFour(Octet(bitCount / 0x100_0000), Octet(bitCount / 0x1_0000), Octet(bitCount / 0x100), Octet(bitCount));
      hide *;
      FourOctets(bitCount);
      FourZeros();
      assert before + Zeros(4) + BigEndian(bitCount, 4) == before + (Zeros(4) + BigEndian(bitCount, 4));
    }

    method ProcessFour(b0: bv8, b1: bv8, b2: bv8, b3: bv8)
      requires Valid()
      modifies this, digest, block
      ensures Valid() && digest == old(digest) && block == old(block)
      ensures fed == old(fed) + [b0, b1, b2, b3]
    {
      hide Absorb, Valid;
      ProcessByte(b0);
      ProcessByte(b1);
      ProcessByte(b2);
      ProcessByte(b3);
    }

    method GetDigest() returns (d: Words)
      requires Valid()
      modifies this, digest, block
      ensures Valid() && fed == old(fed) + Trailer(|old(fed)|)
      ensures |fed| % 64 == 0 && d == Absorb(fed, |fed| / 64)
      ensures |old(fed)| < 0x2000_0000 ==> d == Hash(old(fed))
    {
      hide Absorb;
      ghost var m := fed;
      var bitCount := SizeT(byteCount * 8);
      ProcessByte(0x80);
      FillBlock();
      PutLength(bitCount);
      LowBits(|m|);
      TrailerParts(m);
      if |m| < 0x2000_0000 {
        TrailerIsPadding(m);
      }
      d := Value();
    }
  }

  /** How many zero bytes bring `n` bytes to `index` more than whole blocks. */
  function ZerosUntil(n: nat, index: nat): nat
    requires index < 64
  {
    (64 + index - n % 64) % 64
  }

  lemma {:induction false} CountZeros(start: nat, n: nat, index: nat)
    requires index < 64 && n <= ZerosUntil(start, index)
    ensures (start + n) % 64 == index <==> n == ZerosUntil(start, index)
    ensures ZerosUntil(start, index) < 64
  {
  }

  lemma {:induction false} OneMoreZero(m: Bytes, n: nat)
    ensures m + Zeros(n) + [0] == m + Zeros(n + 1)
  {
  }

  lemma {:induction false} TwoFills(m: Bytes, n: nat, k: nat)
    ensures m + Zeros(n) + Zeros(k) == m + Zeros(n + k)
  {
  }

  lemma {:induction false} FourOctets(n: nat)
    ensures BigEndian(n, 4) == [Octet(n / 0x100_0000), Octet(n / 0x1_0000), Octet(n / 0x100), Octet(n)]
  {
    assert BigEndian(n / 0x100_0000 / 256, 0) == [];
    assert BigEndian(n / 0x100_0000, 1) == [Octet(n / 0x100_0000)];
    assert n / 0x1_0000 / 256 == n / 0x100_0000 && n / 0x100 / 256 == n / 0x1_0000;
    assert BigEndian(n / 0x1_0000, 2) == [Octet(n / 0x100_0000), Octet(n / 0x1_0000)];
    assert BigEndian(n / 0x100, 3) == [Octet(n / 0x100_0000), Octet(n / 0x1_0000), Octet(n / 0x100)];
  }

  /** The low 32 bits of the count do not depend on the wrap-around of either 64-bit variable. */
  lemma {:induction false} LowBits(n: nat)
    ensures BigEndian(SizeT(SizeT(n) * 8), 4) == BigEndian(8 * n, 4)
  {
    var wide := 0x1_0000_0000_0000_0000;
    var r := n % wide * 8 % wide;
    var q := 8 * (n / wide) + n % wide * 8 / wide;
    assert 8 * n == q * wide + r;
    FourOctets(r);
    FourOctets(8 * n);
    SameOctets(q, r);
  }

  lemma {:induction false} SameOctets(q: nat, r: nat)
    ensures var n := q * 0x1_0000_0000_0000_0000 + r;
            Octet(n) == Octet(r) && Octet(n / 0x100) == Octet(r / 0x100) &&
            Octet(n / 0x1_0000) == Octet(r / 0x1_0000) && Octet(n / 0x100_0000) == Octet(r / 0x100_0000)
  {
    hide Octet;
    DropHigh(q * 0x100_0000_0000_0000, r);
    DropHigh(q * 0x1_0000_0000_0000, r / 0x100);
    DropHigh(q * 0x100_0000_0000, r / 0x100 / 0x100);
    DropHigh(q * 0x1_0000_0000, r / 0x100 / 0x100 / 0x100);
  }

  lemma {:induction false} DropHigh(a: nat, r: nat)
    ensures Octet(256 * a + r) == Octet(r) && (256 * a + r) / 256 == a + r / 256
  {
    assert (256 * a + r) % 256 == r % 256;
  }

  lemma {:induction false} Regroup(a: Bytes, b: Bytes, c: Bytes, d: Bytes, e: Bytes)
    ensures a + b + c + (d + e) == a + (b + c + d + e)
  {
  }

  lemma {:induction false} TrailerParts(m: Bytes)
    ensures m + [0x80] + Zeros(ZerosUntil(|m| + 1, 56)) + (Zeros(4) + BigEndian(8 * |m|, 4)) == m + Trailer(|m|)
    ensures |m + Trailer(|m|)| % 64 == 0
  {
    hide BigEndian, Zeros;
    assert Gap(|m|) == ZerosUntil(|m| + 1, 56);
    Regroup(m, [0x80], Zeros(Gap(|m|)), Zeros(4), BigEndian(8 * |m|, 4));
  }

  /** What `getDigest` appends is the standard's padding exactly for messages below 2^29 bytes. */
  lemma {:induction false} TrailerIsPadding(m: Bytes)
    requires |m| < 0x2000_0000_0000_0000
    ensures m + Trailer(|m|) == Pad(m) <==> |m| < 0x2000_0000
  {
    hide BigEndian, Zeros, Gap;
    var n := 8 * |m|;
    var (high, low) := (BigEndian(n / 0x1_0000_0000, 4), BigEndian(n, 4));
    HighOctets(n);
    Regroup(m, [0x80], Zeros(Gap(|m|)), Zeros(4), low);
    SameFrontAndBack(m + [0x80] + Zeros(Gap(|m|)), Zeros(4), high, low);
  }

  lemma {:induction false} SameFrontAndBack(a: Bytes, b: Bytes, c: Bytes, d: Bytes)
    requires |b| == |c|
    ensures a + (b + d) == a + (c + d) <==> b == c
  {
    var (x, y) := (a + (b + d), a + (c + d));
    assert x[|a|..|a| + |b|] == b && y[|a|..|a| + |c|] == c;
  }

  lemma {:induction false} HighOctets(n: nat)
    requires n < 0x1_0000_0000_0000_0000
    ensures BigEndian(n, 8) == BigEndian(n / 0x1_0000_0000, 4) + BigEndian(n, 4)
    ensures Zeros(4) == BigEndian(n / 0x1_0000_0000, 4) <==> n < 0x1_0000_0000
  {
    hide BigEndian, Zeros, Octet;
    var h := n / 0x1_0000_0000;
    SplitOctets(n, 4, 4);
    ShiftFour(n);
    FourOctets(h);
    ZeroOctet(h / 0x100_0000);
    ZeroOctet(h / 0x1_0000);
    ZeroOctet(h / 0x100);
    ZeroOctet(h);
    FourZeros();
    assert h % 256 == 0 && h / 0x100 % 256 == 0 && h / 0x1_0000 % 256 == 0 && h / 0x100_0000 % 256 == 0 <==> h == 0;
  }

  lemma {:induction false} FourZeros()
    ensures Zeros(4) == [0, 0, 0, 0]
  {
  }

  lemma {:induction false} ZeroByte(h: nat)
    requires h < 256
    ensures h as bv8 == 0 <==> h == 0
  {
  }

  lemma {:induction false} ZeroOctet(n: nat)
    ensures Octet(n) == 0 <==> n % 256 == 0
  {
    ZeroByte(n % 256);
  }

  /** `n` without its `j` low bytes. */
  function Shift(n: nat, j: nat): nat { if j == 0 then n else Shift(n / 256, j - 1) }

  lemma {:induction false} ShiftFour(n: nat)
    ensures Shift(n, 4) == n / 0x1_0000_0000
  {
    assert Shift(n, 4) == Shift(n / 256, 3) == Shift(n / 256 / 256, 2) == Shift(n / 256 / 256 / 256, 1);
  }

  lemma {:induction false} SplitOctets(n: nat, k: nat, j: nat)
    ensures BigEndian(n, k + j) == BigEndian(Shift(n, j), k) + BigEndian(n, j)
    decreases j
  {
    hide Octet;
    if j == 0 {
      assert BigEndian(n, k) + [] == BigEndian(n, k);
    } else {
      SplitOctets(n / 256, k, j - 1);
    }
  }

  /** The rotation as the code writes it. */
  function LeftRotate(value: bv32, count: bv6): bv32
    requires 0 < count < 32
  {
    (value << count) ^ (value >> (32 - count))
  }

  lemma {:induction false} RotationsAgree(x: bv32)
    ensures LeftRotate(x, 1) == Rotl(x, 1) && LeftRotate(x, 5) == Rotl(x, 5) && LeftRotate(x, 30) == Rotl(x, 30)
  {
  }

  lemma {:induction false} ChoiceAgrees(x: bv32, y: bv32, z: bv32)
    ensures (x & y) | (!x & z) == Ch(x, y, z)
  {
  }

  lemma {:induction false} MajorityAgrees(x: bv32, y: bv32, z: bv32)
    ensures (x & y) | (x & z) | (y & z) == Maj(x, y, z)
  {
  }

  lemma {:induction false} ParityAgrees(x: bv32, y: bv32, z: bv32)
    ensures x ^ y ^ z == Parity(x, y, z)
  {
  }

  /** The two variables that the round loop picks by the round number. */
  method Select(i: nat, b: bv32, c: bv32, d: bv32) returns (f: bv32, k: bv32)
    requires i < 80
    ensures f == Mix(i, b, c, d) && k == Constant(i)
  {
    hide Ch, Maj, Parity;
    ParityAgrees(b, c, d);
    if i < 20 {
      ChoiceAgrees(b, c, d);
      f := (b & c) | (!b & d);
      k := 0x5A827999;
    } else if i < 40 {
      f := b ^ c ^ d;
      k := 0x6ED9EBA1;
    } else if i < 60 {
      MajorityAgrees(b, c, d);
      f := (b & c) | (b & d) | (c & d);
      k := 0x8F1BBCDC;
    } else {
      f := b ^ c ^ d;
      k := 0xCA62C1D6;
    }
  }

  lemma {:induction false} AbsorbPrefix(m: Bytes, more: Bytes, n: nat)
    requires 64 * n <= |m|
    ensures Absorb(m + more, n) == Absorb(m, n)
  {
    hide Compress;
    if n > 0 {
      AbsorbPrefix(m, more, n - 1);
      assert (m + more)[64 * (n - 1)..64 * n] == m[64 * (n - 1)..64 * n];
    }
  }

  lemma {:induction false} OneMore(n: nat)
    ensures if n % 64 == 63 then (n + 1) % 64 == 0 && (n + 1) / 64 == n / 64 + 1 && 64 * (n / 64) + 63 == n
            else (n + 1) % 64 == n % 64 + 1 && (n + 1) / 64 == n / 64
  {
  }

  /** One more byte either joins the incomplete block or completes it. */
  lemma {:induction false} AbsorbNext(m: Bytes, b: bv8)
    ensures Absorb(m + [b], (|m| + 1) / 64) ==
            if |m| % 64 == 63 then Compress(Absorb(m, |m| / 64), m[|m| - 63..] + [b]) else Absorb(m, |m| / 64)
  {
    hide Compress;
    AbsorbPrefix(m, [b], |m| / 64);
    OneMore(|m|);
    if |m| % 64 == 63 {
      var n := |m| / 64 + 1;
      assert (m + [b])[64 * (n - 1)..64 * n] == m[|m| - 63..] + [b];
    }
  }

  /** The first `n` pieces, one after the other. */
  function Joined(pieces: seq<Bytes>, n: nat): Bytes
    requires n <= |pieces|
  {
    if n == 0 then [] else Joined(pieces, n - 1) + pieces[n - 1]
  }

  /** However a message is cut into calls, one digest at the end is the SHA-1 of the whole message. */
  method DigestOfPieces(pieces: seq<Bytes>) returns (d: Words)
    ensures var m := Joined(pieces, |pieces|); |m| < 0x2000_0000 ==> d == Hash(m)
  {
    hide Hash;
    var sha := new Sha();
    for i := 0 to |pieces|
      invariant sha.Valid() && sha.fed == Joined(pieces, i) && fresh(sha) && fresh(sha.digest) && fresh(sha.block)
    {
      sha.ProcessBytes(pieces[i]);
    }
    d := sha.GetDigest();
  }

  /** The four bytes of a word, as `getDigestBytes` writes them. */
  function WordBytes(x: bv32): Bytes {
    [((x >> 24) & 0xFF) as bv8, ((x >> 16) & 0xFF) as bv8, ((x >> 8) & 0xFF) as bv8, (x & 0xFF) as bv8]
  }

  lemma {:induction false} WordOfWordBytes(x: bv32)
    ensures var b := WordBytes(x); Word(b[0], b[1], b[2], b[3]) == x
  {
    assert (((x >> 24) & 0xFF) << 24) | (((x >> 16) & 0xFF) << 16) | (((x >> 8) & 0xFF) << 8) | (x & 0xFF) == x;
  }

  // ---------------------------------------------------------------- where the constants come from

  /** The round constants are the whole parts of 2^30 times the square roots of 2, 3, 5 and 10. */
  lemma {:induction false} RoundConstants(t: nat)
    requires t < 80
    ensures var n := if t < 20 then 2 else if t < 40 then 3 else if t < 60 then 5 else 10;
            var k := Constant(t) as int;
            k * k <= n * 0x1000_0000_0000_0000 < (k + 1) * (k + 1)
  {
  }

  /** Digits that count up, then down, then both ways. */
  function PatternByte(k: bv8): bv8 {
    if k < 8 then ((2 * k) << 4) | (2 * k + 1)
    else if k < 16 then ((31 - 2 * k) << 4) | (30 - 2 * k)
    else ((31 - k) << 4) | (k - 16)
  }

  /** Four bytes of the pattern as a word, least significant first. */
  function PatternWord(k: bv8): bv32 {
    Word(PatternByte(k + 3), PatternByte(k + 2), PatternByte(k + 1), PatternByte(k))
  }

  /** The initial hash value is the pattern 01 23 45 67 89 AB CD EF, FE DC BA 98 76 54 32 10, F0 E1 D2 C3. */
  lemma {:induction false} InitialPattern()
    ensures INITIAL == Words(PatternWord(0), PatternWord(4), PatternWord(8), PatternWord(12), PatternWord(16))
  {
  }
}
