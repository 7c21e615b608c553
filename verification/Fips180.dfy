/** SHA-256 as FIPS 180-4 defines it, over messages of whole bytes. */
module Fips180 {
  import opened Decimals

  type Byte = bv8
  /** A 32-bit word as a number; `Bits` and `Value` pass to and from its bit vector. */
  type Word = w: nat | w < 0x1_0000_0000
  type Bytes = seq<Byte>

  const BLOCK := 64

  function Bits(x: Word): bv32 { x as bv32 }

  function Value(b: bv32): Word { b as nat }

  /** Addition modulo 2^32. */
  function Plus(x: Word, y: Word): Word { (x + y) % 0x1_0000_0000 }

  // ----- Section 4.1.2: functions

  function Ch(x: Word, y: Word, z: Word): Word { Value((Bits(x) & Bits(y)) ^ (!Bits(x) & Bits(z))) }

  function Maj(x: Word, y: Word, z: Word): Word { Value((Bits(x) & Bits(y)) ^ (Bits(x) & Bits(z)) ^ (Bits(y) & Bits(z))) }

  function BigSigma0(x: Word): Word { Value(Bits(x).RotateRight(2) ^ Bits(x).RotateRight(13) ^ Bits(x).RotateRight(22)) }

  function BigSigma1(x: Word): Word { Value(Bits(x).RotateRight(6) ^ Bits(x).RotateRight(11) ^ Bits(x).RotateRight(25)) }

  function SmallSigma0(x: Word): Word { Value(Bits(x).RotateRight(7) ^ Bits(x).RotateRight(18) ^ (Bits(x) >> 3)) }

  function SmallSigma1(x: Word): Word { Value(Bits(x).RotateRight(17) ^ Bits(x).RotateRight(19) ^ (Bits(x) >> 10)) }

  // ----- Section 4.2.2: constants

  function Constants(): (k: seq<Word>)
    ensures |k| == 64
  {
    Constants0() + Constants16() + Constants32() + Constants48()
  }

  function Constants0(): (k: seq<Word>)
    ensures |k| == 16
  {
    [0x428a2f98, 0x71374491, 0xb5c0fbcf, 0xe9b5dba5, 0x3956c25b, 0x59f111f1, 0x923f82a4, 0xab1c5ed5,
     0xd807aa98, 0x12835b01, 0x243185be, 0x550c7dc3, 0x72be5d74, 0x80deb1fe, 0x9bdc06a7, 0xc19bf174]
  }

  function Constants16(): (k: seq<Word>)
    ensures |k| == 16
  {
    [0xe49b69c1, 0xefbe4786, 0x0fc19dc6, 0x240ca1cc, 0x2de92c6f, 0x4a7484aa, 0x5cb0a9dc, 0x76f988da,
     0x983e5152, 0xa831c66d, 0xb00327c8, 0xbf597fc7, 0xc6e00bf3, 0xd5a79147, 0x06ca6351, 0x14292967]
  }

  function Constants32(): (k: seq<Word>)
    ensures |k| == 16
  {
    [0x27b70a85, 0x2e1b2138, 0x4d2c6dfc, 0x53380d13, 0x650a7354, 0x766a0abb, 0x81c2c92e, 0x92722c85,
     0xa2bfe8a1, 0xa81a664b, 0xc24b8b70, 0xc76c51a3, 0xd192e819, 0xd6990624, 0xf40e3585, 0x106aa070]
  }

  function Constants48(): (k: seq<Word>)
    ensures |k| == 16
  {
    [0x19a4c116, 0x1e376c08, 0x2748774c, 0x34b0bcb5, 0x391c0cb3, 0x4ed8aa4a, 0x5b9cca4f, 0x682e6ff3,
     0x748f82ee, 0x78a5636f, 0x84c87814, 0x8cc70208, 0x90befffa, 0xa4506ceb, 0xbef9a3f7, 0xc67178f2]
  }

  // ----- Section 5.3.3: initial hash value

  function Initial(): (h: seq<Word>)
    ensures |h| == 8
  {
    [0x6a09e667, 0xbb67ae85, 0x3c6ef372, 0xa54ff53a, 0x510e527f, 0x9b05688c, 0x1f83d9ab, 0x5be0cd19]
  }

  // ----- Section 5.1.1: padding

  /** A message, the marker byte and `k` zero bytes leave exactly the length's room in a block. */
  predicate LeavesRoom(length: nat, k: nat) {
    (length + 1 + k) % BLOCK == 56
  }

  /** The smallest such number of zero bytes. */
  function ZeroCount(length: nat): (k: nat)
    ensures LeavesRoom(length, k)
    ensures forall j: nat :: LeavesRoom(length, j) ==> k <= j
  {
    (55 - length) % BLOCK
  }

  function Zeros(n: nat): (z: Bytes)
    ensures |z| == n && forall i :: 0 <= i < n ==> z[i] == 0
  {
    seq(n, _ => 0)
  }

  /** The `count`-byte big-endian representation of `n`. */
  function BigEndian(n: nat, count: nat): (b: Bytes)
    ensures |b| == count
  {
    if count == 0 then [] else BigEndian(n / 256, count - 1) + [(n % 256) as bv8]
  }

  lemma PaddedLength(length: nat)
    ensures (length + 1 + ZeroCount(length) + 8) % BLOCK == 0
  {
    assert LeavesRoom(length, ZeroCount(length));
  }

  function Pad(message: Bytes): (padded: Bytes)
    ensures |padded| % BLOCK == 0
  {
    PaddedLength(|message|);
    message + [0x80] + Zeros(ZeroCount(|message|)) + BigEndian(8 * |message|, 8)
  }

  // ----- Section 6.2.2: hash computation

  function WordAt(b: Bytes, t: nat): Word
    requires 4 * t + 4 <= |b|
  {
    Value((b[4 * t] as bv32 << 24) | (b[4 * t + 1] as bv32 << 16) | (b[4 * t + 2] as bv32 << 8) | (b[4 * t + 3] as bv32))
  }

  /** The message schedule. */
  function W(block: Bytes, t: nat): Word
    requires |block| == BLOCK
  {
    if t < 16 then WordAt(block, t)
    else Plus(Plus(Plus(SmallSigma1(W(block, t - 2)), W(block, t - 7)), SmallSigma0(W(block, t - 15))), W(block, t - 16))
  }

  datatype Variables = Variables(a: Word, b: Word, c: Word, d: Word, e: Word, f: Word, g: Word, h: Word)

  function Round(v: Variables, k: Word, w: Word): Variables {
    var t1 := Plus(Plus(Plus(Plus(v.h, BigSigma1(v.e)), Ch(v.e, v.f, v.g)), k), w);
    var t2 := Plus(BigSigma0(v.a), Maj(v.a, v.b, v.c));
    Variables(Plus(t1, t2), v.a, v.b, v.c, Plus(v.d, t1), v.e, v.f, v.g)
  }

  function FromHash(h: seq<Word>): Variables
    requires |h| == 8
  {
    Variables(h[0], h[1], h[2], h[3], h[4], h[5], h[6], h[7])
  }

  function Rounds(h: seq<Word>, block: Bytes, n: nat): Variables
    requires |h| == 8 && |block| == BLOCK && n <= 64
  {
    if n == 0 then FromHash(h) else Round(Rounds(h, block, n - 1), Constants()[n - 1], W(block, n - 1))
  }

  function Compress(h: seq<Word>, block: Bytes): (h': seq<Word>)
    requires |h| == 8 && |block| == BLOCK
    ensures |h'| == 8
  {
    var v := Rounds(h, block, 64);
    [Plus(v.a, h[0]), Plus(v.b, h[1]), Plus(v.c, h[2]), Plus(v.d, h[3]),
     Plus(v.e, h[4]), Plus(v.f, h[5]), Plus(v.g, h[6]), Plus(v.h, h[7])]
  }

  /** The hash value after all blocks of a message of whole blocks. */
  function HashBlocks(blocks: Bytes): (h: seq<Word>)
    requires |blocks| % BLOCK == 0
    ensures |h| == 8
  {
    if blocks == [] then Initial()
    else Compress(HashBlocks(blocks[..|blocks| - BLOCK]), blocks[|blocks| - BLOCK..])
  }

  function LowByte(x: bv32, shift: nat): Byte
    requires shift < 32
  {
    ((x >> shift) & 0xff) as Byte
  }

  function ByteAt(w: Word, j: nat): Byte
    requires j < 4
  {
    LowByte(Bits(w), 24 - 8 * j)
  }

  function WordsToBytes(h: seq<Word>): (b: Bytes)
    ensures |b| == 4 * |h|
  {
    seq(4 * |h|, n requires 0 <= n < 4 * |h| => ByteAt(h[n / 4], n % 4))
  }

  function Sha256(message: Bytes): (digest: Bytes)
    ensures |digest| == 32
  {
    WordsToBytes(HashBlocks(Pad(message)))
  }

  // ----- Hexadecimal text

  function HexPair(b: Byte): (text: string)
    ensures |text| == 2
  {
    [HexDigit((b >> 4) as nat), HexDigit((b & 15) as nat)]
  }

  function Hex(b: Bytes): (text: string)
    ensures |text| == 2 * |b|
  {
    if b == [] then "" else Hex(b[..|b| - 1]) + HexPair(b[|b| - 1])
  }

  // ----- Facts the streaming hashers use

  lemma AppendBlock(blocks: Bytes, block: Bytes)
    requires |blocks| % BLOCK == 0 && |block| == BLOCK
    ensures HashBlocks(blocks + block) == Compress(HashBlocks(blocks), block)
  {
    var all := blocks + block;
    assert all[..|all| - BLOCK] == blocks && all[|all| - BLOCK..] == block;
  }

  /** Where the tail leaves room for the length, one more block ends the message. */
  lemma PadShortTail(whole: Bytes, tail: Bytes)
    requires |whole| % BLOCK == 0 && |tail| < 56
    ensures Pad(whole + tail) == whole + (tail + [0x80] + Zeros(55 - |tail|) + BigEndian(8 * |whole + tail|, 8))
  {
    hide BigEndian, Zeros;
    var n := |whole + tail|;
    TailLength(whole, tail);
    assert ZeroCount(n) == 55 - |tail|;
    Regroup(whole, tail, [0x80], Zeros(55 - |tail|), BigEndian(8 * n, 8));
  }

  lemma TailLength(whole: Bytes, tail: Bytes)
    requires |whole| % BLOCK == 0 && |tail| < BLOCK
    ensures ZeroCount(|whole + tail|) == if |tail| < 56 then 55 - |tail| else 119 - |tail|
  {
  }

  lemma Regroup(a: Bytes, b: Bytes, c: Bytes, d: Bytes, e: Bytes)
    ensures a + b + c + d + e == a + (b + c + d + e)
  {
    assert a + b + c + d + e == (a + b + c) + (d + e);
    assert a + (b + c + d + e) == (a + b + c) + (d + e);
  }

  /** Otherwise the padding takes two blocks. */
  lemma PadLongTail(whole: Bytes, tail: Bytes)
    requires |whole| % BLOCK == 0 && 56 <= |tail| < BLOCK
    ensures Pad(whole + tail) ==
      whole + (tail + [0x80] + Zeros(63 - |tail|)) + (Zeros(56) + BigEndian(8 * |whole + tail|, 8))
  {
    hide BigEndian;
    var n := |whole + tail|;
    TailLength(whole, tail);
    assert Zeros(119 - |tail|) == Zeros(63 - |tail|) + Zeros(56);
    assert whole + tail + [0x80] + (Zeros(63 - |tail|) + Zeros(56)) + BigEndian(8 * n, 8) ==
      whole + (tail + [0x80] + Zeros(63 - |tail|)) + (Zeros(56) + BigEndian(8 * n, 8));
  }

  /** `n >> (8 * i)` on an unsigned integer. */
  function Shifted(n: nat, i: nat): nat {
    if i == 0 then n else Shifted(n, i - 1) / 256
  }

  lemma {:induction false} ShiftedTail(n: nat, i: nat)
    requires i > 0
    ensures Shifted(n, i) == Shifted(n / 256, i - 1)
  {
    if i > 1 {
      ShiftedTail(n, i - 1);
    }
  }

  lemma {:induction false} BigEndianByte(n: nat, count: nat, i: nat)
    requires i < count
    ensures BigEndian(n, count)[count - 1 - i] == (Shifted(n, i) % 256) as bv8
  {
    if i > 0 {
      BigEndianByte(n / 256, count - 1, i - 1);
      ShiftedTail(n, i);
    }
  }
}
