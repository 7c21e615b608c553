/** What the functions and constants of FIPS 180-4 are, bit by bit and number by number, apart from
    the expressions that compute them. */
module Fips180Laws {
  import opened Fips180

  // ----- Words, bits and bytes

  /** A mask of a single bit. */
  predicate OneHot(m: bv32) { m != 0 && m & (m - 1) == 0 }

  predicate Set(b: bv32, m: bv32) { b & m != 0 }

  /** The bit of a word under a mask. */
  predicate Bit(x: Word, m: bv32) { Set(Bits(x), m) }

  lemma NibbleBack(n: nat)
    requires n < 16
    ensures (n as bv8) as nat == n && (n as bv8) < 16
  {
  }

  lemma Nibbles(high: bv8, low: bv8)
    requires high < 16 && low < 16
    ensures ((high << 4) | low) as nat == 16 * (high as nat) + low as nat
  {
  }

  lemma SameByte(b: bv8, n: nat)
    requires b as nat == n
    ensures n as bv8 == b
  {
  }

  /** A number below 256 is the value of its byte. */
  lemma ByteBack(n: nat)
    requires n < 256
    ensures (n as bv8) as nat == n
  {
    var high, low := (n / 16) as bv8, (n % 16) as bv8;
    NibbleBack(n / 16);
    NibbleBack(n % 16);
    Nibbles(high, low);
    SameByte((high << 4) | low, n);
  }

  /** The word at a place is the big-endian number of its four bytes. */
  lemma WordIsNumber(b: Bytes, t: nat)
    requires 4 * t + 4 <= |b|
    ensures WordAt(b, t) ==
      b[4 * t] as nat * 0x100_0000 + b[4 * t + 1] as nat * 0x1_0000 + b[4 * t + 2] as nat * 0x100 + b[4 * t + 3] as nat
  {
    Glued(b[4 * t], b[4 * t + 1], b[4 * t + 2], b[4 * t + 3]);
  }

  lemma Glued(b0: Byte, b1: Byte, b2: Byte, b3: Byte)
    ensures Value((b0 as bv32 << 24) | (b1 as bv32 << 16) | (b2 as bv32 << 8) | (b3 as bv32)) ==
      b0 as nat * 0x100_0000 + b1 as nat * 0x1_0000 + b2 as nat * 0x100 + b3 as nat
  {
  }

  lemma BitsBack(b: bv32)
    ensures Bits(Value(b)) == b
  {
  }

  /** A word is the value of its bits. */
  lemma ValueBack(w: Word)
    ensures Value(Bits(w)) == w
  {
    hide Value, Bits;
    var b0, b1, b2, b3 := (w / 0x100_0000) as bv8, (w / 0x1_0000 % 256) as bv8, (w / 0x100 % 256) as bv8, (w % 256) as bv8;
    ByteBack(w / 0x100_0000);
    ByteBack(w / 0x1_0000 % 256);
    ByteBack(w / 0x100 % 256);
    ByteBack(w % 256);
    Digits(w);
    Glued(b0, b1, b2, b3);
    BitsBack((b0 as bv32 << 24) | (b1 as bv32 << 16) | (b2 as bv32 << 8) | (b3 as bv32));
  }

  lemma Digits(w: Word)
    ensures w == w / 0x100_0000 * 0x100_0000 + w / 0x1_0000 % 256 * 0x1_0000 + w / 0x100 % 256 * 0x100 + w % 256
  {
    assert w / 0x1_0000 == w / 0x100 / 0x100;
    assert w / 0x100_0000 == w / 0x1_0000 / 0x100;
  }

  lemma Highest(x: bv32)
    ensures LowByte(x, 24) as bv32 == x >> 24
  {
  }

  lemma Higher(x: bv32)
    ensures LowByte(x, 16) as bv32 == (x >> 16) & 0xff
  {
  }

  lemma Lower(x: bv32)
    ensures LowByte(x, 8) as bv32 == (x >> 8) & 0xff
  {
  }

  lemma Lowest(x: bv32)
    ensures LowByte(x, 0) as bv32 == x & 0xff
  {
  }

  lemma Reglued(x: bv32)
    ensures ((x >> 24) << 24) | (((x >> 16) & 0xff) << 16) | (((x >> 8) & 0xff) << 8) | (x & 0xff) == x
  {
  }

  /** Words written as bytes are read back. */
  lemma WordsBack(h: seq<Word>, t: nat)
    requires t < |h|
    ensures WordAt(WordsToBytes(h), t) == h[t]
  {
    hide Value, Bits, LowByte;
    var x := Bits(h[t]);
    Highest(x);
    Higher(x);
    Lower(x);
    Lowest(x);
    Reglued(x);
    ValueBack(h[t]);
  }

  // ----- Section 4.1.2: functions, bit by bit

  lemma Chosen(x: bv32, y: bv32, z: bv32, m: bv32)
    requires OneHot(m)
    ensures Set((x & y) ^ (!x & z), m) <==> if Set(x, m) then Set(y, m) else Set(z, m)
  {
  }

  lemma ChBits(x: Word, y: Word, z: Word)
    ensures Bits(Ch(x, y, z)) == (Bits(x) & Bits(y)) ^ (!Bits(x) & Bits(z))
  {
    hide Bits, Value;
    BitsBack((Bits(x) & Bits(y)) ^ (!Bits(x) & Bits(z)));
  }

  /** `Ch` takes each bit from its second word where the first word has a one, and else from the third. */
  lemma ChBit(x: Word, y: Word, z: Word, m: bv32)
    requires OneHot(m)
    ensures Bit(Ch(x, y, z), m) <==> if Bit(x, m) then Bit(y, m) else Bit(z, m)
  {
    hide Bits, Value, OneHot, Set, Ch;
    ChBits(x, y, z);
    Chosen(Bits(x), Bits(y), Bits(z), m);
  }

  lemma Voted(x: bv32, y: bv32, z: bv32, m: bv32)
    requires OneHot(m)
    ensures Set((x & y) ^ (x & z) ^ (y & z), m) <==>
      (Set(x, m) && Set(y, m)) || (Set(x, m) && Set(z, m)) || (Set(y, m) && Set(z, m))
  {
  }

  lemma MajBits(x: Word, y: Word, z: Word)
    ensures Bits(Maj(x, y, z)) == (Bits(x) & Bits(y)) ^ (Bits(x) & Bits(z)) ^ (Bits(y) & Bits(z))
  {
    hide Bits, Value;
    BitsBack((Bits(x) & Bits(y)) ^ (Bits(x) & Bits(z)) ^ (Bits(y) & Bits(z)));
  }

  /** `Maj` has a one where at least two of its words have one. */
  lemma MajBit(x: Word, y: Word, z: Word, m: bv32)
    requires OneHot(m)
    ensures Bit(Maj(x, y, z), m) <==> (Bit(x, m) && Bit(y, m)) || (Bit(x, m) && Bit(z, m)) || (Bit(y, m) && Bit(z, m))
  {
    hide Bits, Value, OneHot, Set, Maj;
    MajBits(x, y, z);
    Voted(Bits(x), Bits(y), Bits(z), m);
  }

  function Xor(a: bv32, b: bv32, c: bv32): bv32 { a ^ b ^ c }

  lemma OddBits(a: bv32, b: bv32, c: bv32, m: bv32)
    requires OneHot(m)
    ensures Set(a ^ b ^ c, m) <==> (Set(a, m) != Set(b, m)) != Set(c, m)
  {
  }

  /** An exclusive or of three has a one where an odd number of them have. */
  lemma Odd(a: bv32, b: bv32, c: bv32, m: bv32)
    requires OneHot(m)
    ensures Set(Xor(a, b, c), m) <==> (Set(a, m) != Set(b, m)) != Set(c, m)
  {
    hide Set, OneHot;
    OddBits(a, b, c, m);
  }

  lemma Turn2(x: bv32, m: bv32)
    ensures Set(x.RotateRight(2), m) <==> Set(x, m.RotateLeft(2))
  {
  }

  lemma Turn13(x: bv32, m: bv32)
    ensures Set(x.RotateRight(13), m) <==> Set(x, m.RotateLeft(13))
  {
  }

  lemma Turn22(x: bv32, m: bv32)
    ensures Set(x.RotateRight(22), m) <==> Set(x, m.RotateLeft(22))
  {
  }

  lemma Turn6(x: bv32, m: bv32)
    ensures Set(x.RotateRight(6), m) <==> Set(x, m.RotateLeft(6))
  {
  }

  lemma Turn11(x: bv32, m: bv32)
    ensures Set(x.RotateRight(11), m) <==> Set(x, m.RotateLeft(11))
  {
  }

  lemma Turn25(x: bv32, m: bv32)
    ensures Set(x.RotateRight(25), m) <==> Set(x, m.RotateLeft(25))
  {
  }

  lemma Turn7(x: bv32, m: bv32)
    ensures Set(x.RotateRight(7), m) <==> Set(x, m.RotateLeft(7))
  {
  }

  lemma Turn18(x: bv32, m: bv32)
    ensures Set(x.RotateRight(18), m) <==> Set(x, m.RotateLeft(18))
  {
  }

  lemma Turn17(x: bv32, m: bv32)
    ensures Set(x.RotateRight(17), m) <==> Set(x, m.RotateLeft(17))
  {
  }

  lemma Turn19(x: bv32, m: bv32)
    ensures Set(x.RotateRight(19), m) <==> Set(x, m.RotateLeft(19))
  {
  }

  lemma Shift3(x: bv32, m: bv32)
    ensures Set(x >> 3, m) <==> Set(x, m << 3)
  {
  }

  lemma Shift10(x: bv32, m: bv32)
    ensures Set(x >> 10, m) <==> Set(x, m << 10)
  {
  }

  lemma BigSigma0Bits(x: Word)
    ensures Bits(BigSigma0(x)) == Xor(Bits(x).RotateRight(2), Bits(x).RotateRight(13), Bits(x).RotateRight(22))
  {
    hide Bits, Value;
    BitsBack(Bits(x).RotateRight(2) ^ Bits(x).RotateRight(13) ^ Bits(x).RotateRight(22));
  }

  lemma BigSigma0Turns(x: bv32, m: bv32)
    requires OneHot(m)
    ensures Set(Xor(x.RotateRight(2), x.RotateRight(13), x.RotateRight(22)), m) <==>
      (Set(x, m.RotateLeft(2)) != Set(x, m.RotateLeft(13))) != Set(x, m.RotateLeft(22))
  {
    hide Set, OneHot, Xor;
    Turn2(x, m);
    Turn13(x, m);
    Turn22(x, m);
    Odd(x.RotateRight(2), x.RotateRight(13), x.RotateRight(22), m);
  }

  /** Exclusive or of the bits 2, 13 and 22 places up, around the word. */
  lemma BigSigma0Bit(x: Word, m: bv32)
    requires OneHot(m)
    ensures Bit(BigSigma0(x), m) <==> (Bit(x, m.RotateLeft(2)) != Bit(x, m.RotateLeft(13))) != Bit(x, m.RotateLeft(22))
  {
    hide Bits, Value, OneHot, Set, Xor, BigSigma0;
    BigSigma0Bits(x);
    BigSigma0Turns(Bits(x), m);
  }

  lemma BigSigma1Bits(x: Word)
    ensures Bits(BigSigma1(x)) == Xor(Bits(x).RotateRight(6), Bits(x).RotateRight(11), Bits(x).RotateRight(25))
  {
    hide Bits, Value;
    BitsBack(Bits(x).RotateRight(6) ^ Bits(x).RotateRight(11) ^ Bits(x).RotateRight(25));
  }

  lemma BigSigma1Turns(x: bv32, m: bv32)
    requires OneHot(m)
    ensures Set(Xor(x.RotateRight(6), x.RotateRight(11), x.RotateRight(25)), m) <==>
      (Set(x, m.RotateLeft(6)) != Set(x, m.RotateLeft(11))) != Set(x, m.RotateLeft(25))
  {
    hide Set, OneHot, Xor;
    Turn6(x, m);
    Turn11(x, m);
    Turn25(x, m);
    Odd(x.RotateRight(6), x.RotateRight(11), x.RotateRight(25), m);
  }

  /** Of the bits 6, 11 and 25 places up. */
  lemma BigSigma1Bit(x: Word, m: bv32)
    requires OneHot(m)
    ensures Bit(BigSigma1(x), m) <==> (Bit(x, m.RotateLeft(6)) != Bit(x, m.RotateLeft(11))) != Bit(x, m.RotateLeft(25))
  {
    hide Bits, Value, OneHot, Set, Xor, BigSigma1;
    BigSigma1Bits(x);
    BigSigma1Turns(Bits(x), m);
  }

  lemma SmallSigma0Bits(x: Word)
    ensures Bits(SmallSigma0(x)) == Xor(Bits(x).RotateRight(7), Bits(x).RotateRight(18), (Bits(x) >> 3))
  {
    hide Bits, Value;
    BitsBack(Bits(x).RotateRight(7) ^ Bits(x).RotateRight(18) ^ (Bits(x) >> 3));
  }

  lemma SmallSigma0Turns(x: bv32, m: bv32)
    requires OneHot(m)
    ensures Set(Xor(x.RotateRight(7), x.RotateRight(18), (x >> 3)), m) <==>
      (Set(x, m.RotateLeft(7)) != Set(x, m.RotateLeft(18))) != Set(x, m << 3)
  {
    hide Set, OneHot, Xor;
    Turn7(x, m);
    Turn18(x, m);
    Shift3(x, m);
    Odd(x.RotateRight(7), x.RotateRight(18), (x >> 3), m);
  }

  /** Of the bits 7 and 18 places up around the word, and 3 places up within it. */
  lemma SmallSigma0Bit(x: Word, m: bv32)
    requires OneHot(m)
    ensures Bit(SmallSigma0(x), m) <==> (Bit(x, m.RotateLeft(7)) != Bit(x, m.RotateLeft(18))) != Bit(x, m << 3)
  {
    hide Bits, Value, OneHot, Set, Xor, SmallSigma0;
    SmallSigma0Bits(x);
    SmallSigma0Turns(Bits(x), m);
  }

  lemma SmallSigma1Bits(x: Word)
    ensures Bits(SmallSigma1(x)) == Xor(Bits(x).RotateRight(17), Bits(x).RotateRight(19), (Bits(x) >> 10))
  {
    hide Bits, Value;
    BitsBack(Bits(x).RotateRight(17) ^ Bits(x).RotateRight(19) ^ (Bits(x) >> 10));
  }

  lemma SmallSigma1Turns(x: bv32, m: bv32)
    requires OneHot(m)
    ensures Set(Xor(x.RotateRight(17), x.RotateRight(19), (x >> 10)), m) <==>
      (Set(x, m.RotateLeft(17)) != Set(x, m.RotateLeft(19))) != Set(x, m << 10)
  {
    hide Set, OneHot, Xor;
    Turn17(x, m);
    Turn19(x, m);
    Shift10(x, m);
    Odd(x.RotateRight(17), x.RotateRight(19), (x >> 10), m);
  }

  /** Of the bits 17 and 19 places up around the word, and 10 places up within it. */
  lemma SmallSigma1Bit(x: Word, m: bv32)
    requires OneHot(m)
    ensures Bit(SmallSigma1(x), m) <==> (Bit(x, m.RotateLeft(17)) != Bit(x, m.RotateLeft(19))) != Bit(x, m << 10)
  {
    hide Bits, Value, OneHot, Set, Xor, SmallSigma1;
    SmallSigma1Bits(x);
    SmallSigma1Turns(Bits(x), m);
  }

  /** The mask of bit `i`, turned by `n` places, is the mask of bit `i + n` modulo 32; shifted, it
      vanishes beyond bit 31. */
  lemma MaskTurns(i: bv32, m: bv32)
    requires i < 32 && m == 1 << i
    ensures OneHot(m)
    ensures m.RotateLeft(2) == 1 << ((i + 2) & 31) && m.RotateLeft(13) == 1 << ((i + 13) & 31)
    ensures m.RotateLeft(22) == 1 << ((i + 22) & 31) && m.RotateLeft(6) == 1 << ((i + 6) & 31)
    ensures m.RotateLeft(11) == 1 << ((i + 11) & 31) && m.RotateLeft(25) == 1 << ((i + 25) & 31)
    ensures m.RotateLeft(7) == 1 << ((i + 7) & 31) && m.RotateLeft(18) == 1 << ((i + 18) & 31)
    ensures m.RotateLeft(17) == 1 << ((i + 17) & 31) && m.RotateLeft(19) == 1 << ((i + 19) & 31)
    ensures m << 3 == if i < 29 then 1 << (i + 3) else 0
    ensures m << 10 == if i < 22 then 1 << (i + 10) else 0
  {
  }

  // ----- Sums modulo 2^32

  lemma Folded(x: nat, y: nat)
    ensures (x % 0x1_0000_0000 + y) % 0x1_0000_0000 == (x + y) % 0x1_0000_0000
  {
  }

  lemma FiveSum(a: Word, b: Word, c: Word, d: Word, e: Word)
    ensures Plus(Plus(Plus(Plus(a, b), c), d), e) == (a + b + c + d + e) % 0x1_0000_0000
  {
    Folded(a + b, c);
    Folded(a + b + c, d);
    Folded(a + b + c + d, e);
  }

  lemma FourSum(a: Word, b: Word, c: Word, d: Word)
    ensures Plus(Plus(Plus(a, b), c), d) == (a + b + c + d) % 0x1_0000_0000
  {
    Folded(a + b, c);
    Folded(a + b + c, d);
  }

  lemma SumOfSums(x: nat, y: nat)
    ensures Plus(x % 0x1_0000_0000, y % 0x1_0000_0000) == (x + y) % 0x1_0000_0000
  {
    Folded(x, y % 0x1_0000_0000);
    Folded(y, x);
  }

  /** Section 6.2.2, step 3: one round on unbounded sums. */
  lemma RoundIs(v: Variables, k: Word, w: Word)
    ensures var r, t1, t2 := Round(v, k, w), v.h + BigSigma1(v.e) + Ch(v.e, v.f, v.g) + k + w, BigSigma0(v.a) + Maj(v.a, v.b, v.c);
      && r.a == (t1 + t2) % 0x1_0000_0000 && r.b == v.a && r.c == v.b && r.d == v.c
      && r.e == (v.d + t1) % 0x1_0000_0000 && r.f == v.e && r.g == v.f && r.h == v.g
  {
    hide BigSigma0, BigSigma1, Ch, Maj, Plus;
    var t1: nat := v.h + BigSigma1(v.e) + Ch(v.e, v.f, v.g) + k + w;
    var t2: nat := BigSigma0(v.a) + Maj(v.a, v.b, v.c);
    FiveSum(v.h, BigSigma1(v.e), Ch(v.e, v.f, v.g), k, w);
    PlusIs(BigSigma0(v.a), Maj(v.a, v.b, v.c));
    SumOfSums(t1, t2);
    SumOfSums(v.d, t1);
    assert v.d % 0x1_0000_0000 == v.d;
  }

  lemma PlusIs(x: Word, y: Word)
    ensures Plus(x, y) == (x + y) % 0x1_0000_0000
  {
  }

  /** Step 1: the schedule on unbounded sums. */
  lemma ScheduleIs(block: Bytes, t: nat)
    requires |block| == BLOCK
    ensures W(block, t) ==
      if t < 16 then WordAt(block, t)
      else (SmallSigma1(W(block, t - 2)) + W(block, t - 7) + SmallSigma0(W(block, t - 15)) + W(block, t - 16)) % 0x1_0000_0000
  {
    hide SmallSigma0, SmallSigma1, WordAt, Plus;
    if t >= 16 {
      FourSum(SmallSigma1(W(block, t - 2)), W(block, t - 7), SmallSigma0(W(block, t - 15)), W(block, t - 16));
    }
  }

  // ----- Padding and the digest's text

  /** The number that bytes denote, most significant first. */
  function NumberOf(b: Bytes): nat {
    if b == [] then 0 else 256 * NumberOf(b[..|b| - 1]) + b[|b| - 1] as nat
  }

  function Pow256(k: nat): nat { if k == 0 then 1 else 256 * Pow256(k - 1) }

  lemma {:induction false} BigEndianBack(n: nat, count: nat)
    requires n < Pow256(count)
    ensures NumberOf(BigEndian(n, count)) == n
  {
    if count > 0 {
      Carries(n, Pow256(count - 1));
      BigEndianBack(n / 256, count - 1);
      ByteBack(n % 256);
      Snoc(BigEndian(n / 256, count - 1), (n % 256) as bv8);
    }
  }

  lemma Carries(n: nat, p: nat)
    requires n < 256 * p
    ensures n / 256 < p && n == 256 * (n / 256) + n % 256
  {
  }

  lemma Snoc(b: Bytes, last: Byte)
    ensures NumberOf(b + [last]) == 256 * NumberOf(b) + last as nat
  {
    assert (b + [last])[..|b + [last]| - 1] == b;
  }

  /** Section 5.1.1: the message, a one bit, zeros, and the message's length in bits in the last 64
      bits of the first block that has room for it. */
  lemma PaddedIs(message: Bytes)
    requires 8 * |message| < 0x1_0000_0000_0000_0000
    ensures var p, n := Pad(message), |message|;
      && |p| % 64 == 0 && n + 9 <= |p| < n + 9 + 64
      && p[..n] == message && p[n] == 0x80 && (forall i :: n < i < |p| - 8 ==> p[i] == 0)
      && NumberOf(p[|p| - 8..]) == 8 * n
  {
    hide BigEndian, NumberOf;
    assert Pow256(8) == 0x1_0000_0000_0000_0000;
    var n := |message|;
    var zeros, length := Zeros(ZeroCount(n)), BigEndian(8 * n, 8);
    BigEndianBack(8 * n, 8);
    var p := message + [0x80] + zeros + length;
    assert p[|p| - 8..] == length;
  }

  lemma NibblesOf(b: Byte)
    ensures (b >> 4) as nat == b as nat / 16 && (b & 15) as nat == b as nat % 16
  {
    Nibbles(b >> 4, b & 15);
    assert ((b >> 4) << 4) | (b & 15) == b;
  }

  lemma PairIs(b: Byte)
    ensures HexPair(b) == ["0123456789abcdef"[b as nat / 16], "0123456789abcdef"[b as nat % 16]]
  {
    NibblesOf(b);
  }

  /** The text gives each byte's high and low digit in turn. */
  lemma {:induction false} HexIs(b: Bytes, i: nat)
    requires i < |b|
    ensures Hex(b)[2 * i..2 * i + 2] == ["0123456789abcdef"[b[i] as nat / 16], "0123456789abcdef"[b[i] as nat % 16]]
  {
    hide HexPair;
    var front, last := b[..|b| - 1], b[|b| - 1];
    assert Hex(b) == Hex(front) + HexPair(last);
    if i < |front| {
      HexIs(front, i);
      assert Hex(b)[2 * i..2 * i + 2] == Hex(front)[2 * i..2 * i + 2];
    } else {
      PairIs(last);
    }
  }

  // ----- Section 4.2.2: constants

  predicate Prime(n: nat) {
    n >= 2 && forall d :: 2 <= d < n ==> n % d != 0
  }

  function Primes0(): (p: seq<nat>)
    ensures |p| == 16
  {
    [2, 3, 5, 7, 11, 13, 17, 19, 23, 29, 31, 37, 41, 43, 47, 53]
  }

  function Primes16(): (p: seq<nat>)
    ensures |p| == 16
  {
    [59, 61, 67, 71, 73, 79, 83, 89, 97, 101, 103, 107, 109, 113, 127, 131]
  }

  function Primes32(): (p: seq<nat>)
    ensures |p| == 16
  {
    [137, 139, 149, 151, 157, 163, 167, 173, 179, 181, 191, 193, 197, 199, 211, 223]
  }

  function Primes48(): (p: seq<nat>)
    ensures |p| == 16
  {
    [227, 229, 233, 239, 241, 251, 257, 263, 269, 271, 277, 281, 283, 293, 307, 311]
  }

  function Primes(): (p: seq<nat>)
    ensures |p| == 64
  {
    Primes0() + Primes16() + Primes32() + Primes48()
  }

  predicate SmallFactor(n: nat) {
    n % 2 == 0 || n % 3 == 0 || n % 5 == 0 || n % 7 == 0 || n % 11 == 0 || n % 13 == 0 || n % 17 == 0
  }

  lemma FactorOfFactor(n: nat, p: nat, d: nat, e: nat)
    requires p > 0 && d % p == 0 && n == d * e
    ensures n % p == 0
  {
    var k := d / p;
    assert n == p * (k * e);
    Cancels(p, k * e);
  }

  lemma NoMultiple(p: nat, k: int)
    requires 0 <= p * k < p
    ensures k == 0
  {
  }

  lemma Cancels(p: nat, m: nat)
    requires p > 0
    ensures (p * m) % p == 0
  {
    var q := (p * m) / p;
    assert p * (m - q) == (p * m) % p;
    NoMultiple(p, m - q);
  }

  /** A number below 361 that has a divisor has one of the first seven primes as a divisor. */
  lemma DivisorShows(n: nat, d: nat)
    requires 2 <= d < n < 361 && n % d == 0
    ensures SmallFactor(n)
  {
    var e := n / d;
    assert n == d * e;
    if d < 19 {
      SmallDivisor(n, d, e);
    } else {
      Cofactor(n, d, e);
      SmallDivisor(n, e, d);
    }
  }

  lemma Cofactor(n: nat, d: nat, e: nat)
    requires 19 <= d < n < 361 && n == d * e
    ensures 2 <= e < 19
  {
    if e >= 19 {
      Product(d, e);
      assert false;
    }
  }

  lemma Product(d: nat, e: nat)
    requires d >= 19 && e >= 19
    ensures d * e >= 361
  {
  }

  lemma SmallDivisor(n: nat, d: nat, e: nat)
    requires 2 <= d < 19 && n == d * e
    ensures SmallFactor(n)
  {
    var p := if d % 2 == 0 then 2 else if d % 3 == 0 then 3 else if d % 5 == 0 then 5 else if d % 7 == 0 then 7
      else if d % 11 == 0 then 11 else if d % 13 == 0 then 13 else 17;
    FactorOfFactor(n, p, d, e);
  }

  lemma Primes0Checked()
    ensures !SmallFactor(19) && !SmallFactor(23) && !SmallFactor(29) && !SmallFactor(31) && !SmallFactor(37)
    ensures !SmallFactor(41) && !SmallFactor(43) && !SmallFactor(47) && !SmallFactor(53)
  {
  }

  lemma Primes0Plain(n: nat)
    requires n in Primes0() && n > 17
    ensures !SmallFactor(n) && n < 361
  {
    hide SmallFactor;
    Primes0Checked();
  }

  lemma Primes16Checked()
    ensures !SmallFactor(59) && !SmallFactor(61) && !SmallFactor(67) && !SmallFactor(71) && !SmallFactor(73)
    ensures !SmallFactor(79) && !SmallFactor(83) && !SmallFactor(89) && !SmallFactor(97) && !SmallFactor(101)
    ensures !SmallFactor(103) && !SmallFactor(107) && !SmallFactor(109) && !SmallFactor(113) && !SmallFactor(127)
    ensures !SmallFactor(131)
  {
  }

  lemma Primes16Plain(n: nat)
    requires n in Primes16() && n > 17
    ensures !SmallFactor(n) && n < 361
  {
    hide SmallFactor;
    Primes16Checked();
  }

  lemma Primes32Checked()
    ensures !SmallFactor(137) && !SmallFactor(139) && !SmallFactor(149) && !SmallFactor(151) && !SmallFactor(157)
    ensures !SmallFactor(163) && !SmallFactor(167) && !SmallFactor(173) && !SmallFactor(179) && !SmallFactor(181)
    ensures !SmallFactor(191) && !SmallFactor(193) && !SmallFactor(197) && !SmallFactor(199) && !SmallFactor(211)
    ensures !SmallFactor(223)
  {
  }

  lemma Primes32Plain(n: nat)
    requires n in Primes32() && n > 17
    ensures !SmallFactor(n) && n < 361
  {
    hide SmallFactor;
    Primes32Checked();
  }

  lemma Primes48Checked()
    ensures !SmallFactor(227) && !SmallFactor(229) && !SmallFactor(233) && !SmallFactor(239) && !SmallFactor(241)
    ensures !SmallFactor(251) && !SmallFactor(257) && !SmallFactor(263) && !SmallFactor(269) && !SmallFactor(271)
    ensures !SmallFactor(277) && !SmallFactor(281) && !SmallFactor(283) && !SmallFactor(293) && !SmallFactor(307)
    ensures !SmallFactor(311)
  {
  }

  lemma Primes48Plain(n: nat)
    requires n in Primes48() && n > 17
    ensures !SmallFactor(n) && n < 361
  {
    hide SmallFactor;
    Primes48Checked();
  }

  /** What remains after striking out the multiples of 2, 3 and 5. */
  lemma Wheel(n: nat)
    requires n % 2 != 0 && n % 3 != 0 && n % 5 != 0
    ensures n % 30 in [1, 7, 11, 13, 17, 19, 23, 29]
  {
    var q, r := n / 30, n % 30;
    SameRemainder(2, 15 * q, r);
    SameRemainder(3, 10 * q, r);
    SameRemainder(5, 6 * q, r);
    Spoke(r);
  }

  lemma SameRemainder(p: nat, k: nat, r: nat)
    requires p in [2, 3, 5]
    ensures (p * k + r) % p == r % p
  {
    if p == 2 {
      assert (2 * k + r) % 2 == r % 2;
    } else if p == 3 {
      assert (3 * k + r) % 3 == r % 3;
    } else {
      assert (5 * k + r) % 5 == r % 5;
    }
  }

  lemma Spoke(r: nat)
    requires r < 30 && r % 2 != 0 && r % 3 != 0 && r % 5 != 0
    ensures r in [1, 7, 11, 13, 17, 19, 23, 29]
  {
  }

  lemma Spoke0(n: nat, r: nat)
    requires n == r && r in [1, 7, 11, 13, 17, 19, 23, 29] && 17 < n <= 311
    ensures SmallFactor(n) || n in [19, 23, 29]
  {
  }

  lemma Spoke1(n: nat, r: nat)
    requires n == 30 + r && r in [1, 7, 11, 13, 17, 19, 23, 29] && 17 < n <= 311
    ensures SmallFactor(n) || n in [31, 37, 41, 43, 47, 53, 59]
  {
    hide SmallFactor;
    assert SmallFactor(49) by { Struck1(); }
  }

  lemma Struck1()
    ensures SmallFactor(49)
  {
  }

  lemma Spoke2(n: nat, r: nat)
    requires n == 60 + r && r in [1, 7, 11, 13, 17, 19, 23, 29] && 17 < n <= 311
    ensures SmallFactor(n) || n in [61, 67, 71, 73, 79, 83, 89]
  {
    hide SmallFactor;
    assert SmallFactor(77) by { Struck2(); }
  }

  lemma Struck2()
    ensures SmallFactor(77)
  {
  }

  lemma Spoke3(n: nat, r: nat)
    requires n == 90 + r && r in [1, 7, 11, 13, 17, 19, 23, 29] && 17 < n <= 311
    ensures SmallFactor(n) || n in [97, 101, 103, 107, 109, 113]
  {
    hide SmallFactor;
    assert SmallFactor(91) && SmallFactor(119) by { Struck3(); }
  }

  lemma Struck3()
    ensures SmallFactor(91) && SmallFactor(119)
  {
  }

  lemma Spoke4(n: nat, r: nat)
    requires n == 120 + r && r in [1, 7, 11, 13, 17, 19, 23, 29] && 17 < n <= 311
    ensures SmallFactor(n) || n in [127, 131, 137, 139, 149]
  {
    hide SmallFactor;
    assert SmallFactor(121) && SmallFactor(133) && SmallFactor(143) by { Struck4(); }
  }

  lemma Struck4()
    ensures SmallFactor(121) && SmallFactor(133) && SmallFactor(143)
  {
  }

  lemma Spoke5(n: nat, r: nat)
    requires n == 150 + r && r in [1, 7, 11, 13, 17, 19, 23, 29] && 17 < n <= 311
    ensures SmallFactor(n) || n in [151, 157, 163, 167, 173, 179]
  {
    hide SmallFactor;
    assert SmallFactor(161) && SmallFactor(169) by { Struck5(); }
  }

  lemma Struck5()
    ensures SmallFactor(161) && SmallFactor(169)
  {
  }

  lemma Spoke6(n: nat, r: nat)
    requires n == 180 + r && r in [1, 7, 11, 13, 17, 19, 23, 29] && 17 < n <= 311
    ensures SmallFactor(n) || n in [181, 191, 193, 197, 199]
  {
    hide SmallFactor;
    assert SmallFactor(187) && SmallFactor(203) && SmallFactor(209) by { Struck6(); }
  }

  lemma Struck6()
    ensures SmallFactor(187) && SmallFactor(203) && SmallFactor(209)
  {
  }

  lemma Spoke7(n: nat, r: nat)
    requires n == 210 + r && r in [1, 7, 11, 13, 17, 19, 23, 29] && 17 < n <= 311
    ensures SmallFactor(n) || n in [211, 223, 227, 229, 233, 239]
  {
    hide SmallFactor;
    assert SmallFactor(217) && SmallFactor(221) by { Struck7(); }
  }

  lemma Struck7()
    ensures SmallFactor(217) && SmallFactor(221)
  {
  }

  lemma Spoke8(n: nat, r: nat)
    requires n == 240 + r && r in [1, 7, 11, 13, 17, 19, 23, 29] && 17 < n <= 311
    ensures SmallFactor(n) || n in [241, 251, 257, 263, 269]
  {
    hide SmallFactor;
    assert SmallFactor(247) && SmallFactor(253) && SmallFactor(259) by { Struck8(); }
  }

  lemma Struck8()
    ensures SmallFactor(247) && SmallFactor(253) && SmallFactor(259)
  {
  }

  lemma Spoke9(n: nat, r: nat)
    requires n == 270 + r && r in [1, 7, 11, 13, 17, 19, 23, 29] && 17 < n <= 311
    ensures SmallFactor(n) || n in [271, 277, 281, 283, 293]
  {
    hide SmallFactor;
    assert SmallFactor(287) && SmallFactor(289) && SmallFactor(299) by { Struck9(); }
  }

  lemma Struck9()
    ensures SmallFactor(287) && SmallFactor(289) && SmallFactor(299)
  {
  }

  lemma Spoke10(n: nat, r: nat)
    requires n == 300 + r && r in [1, 7, 11, 13, 17, 19, 23, 29] && 17 < n <= 311
    ensures SmallFactor(n) || n in [307, 311]
  {
    hide SmallFactor;
    assert SmallFactor(301) by { Struck10(); }
  }

  lemma Struck10()
    ensures SmallFactor(301)
  {
  }

  lemma FirstSeven(n: nat)
    requires 2 <= n <= 17
    ensures Prime(n) <==> n in Primes0()
  {
    if n in Primes0() {
      forall d | 2 <= d < n
        ensures n % d != 0
      {
        SmallRemainder(n, d);
      }
    } else {
      assert n % (if n % 2 == 0 then 2 else 3) == 0;
    }
  }

  lemma SmallRemainder(n: nat, d: nat)
    requires n in [3, 5, 7, 11, 13, 17] && 2 <= d < n
    ensures n % d != 0
  {
    assert d in [2, 3, 4, 5, 6, 7, 8] || d in [9, 10, 11, 12, 13, 14, 15, 16];
  }

  /** The table holds exactly the primes up to 311. */
  lemma PrimesAreTheFirst(n: nat)
    requires n <= 311
    ensures Prime(n) <==> n in Primes()
  {
    hide Prime, SmallFactor;
    if n <= 17 {
      FirstPrimes(n);
    } else if n in Primes() {
      PrimesPlain(n);
      Undivided(n);
    } else {
      PrimesGaps(n);
      Divided(n);
    }
  }

  lemma FirstPrimes(n: nat)
    requires n <= 17
    ensures Prime(n) <==> n in Primes()
  {
    RowsApart(n);
    if n >= 2 {
      FirstSeven(n);
    }
  }

  lemma RowsApart(n: nat)
    ensures n in Primes() <==> n in Primes0() || n in Primes16() || n in Primes32() || n in Primes48()
  {
    hide Primes0, Primes16, Primes32, Primes48;
  }

  lemma PrimesPlain(n: nat)
    requires n in Primes() && n > 17
    ensures !SmallFactor(n) && n < 361
  {
    hide SmallFactor, Primes, Primes0, Primes16, Primes32, Primes48;
    RowsApart(n);
    if n in Primes0() {
      Primes0Plain(n);
    } else if n in Primes16() {
      Primes16Plain(n);
    } else if n in Primes32() {
      Primes32Plain(n);
    } else {
      Primes48Plain(n);
    }
  }

  lemma PrimesGaps(n: nat)
    requires n !in Primes() && 17 < n <= 311
    ensures SmallFactor(n)
  {
    hide Primes;
    RowsApart(n);
    if !SmallFactor(n) {
      Wheel(n);
      hide SmallFactor;
      match n / 30
      case 0 => Spoke0(n, n % 30);
      case 1 => Spoke1(n, n % 30);
      case 2 => Spoke2(n, n % 30);
      case 3 => Spoke3(n, n % 30);
      case 4 => Spoke4(n, n % 30);
      case 5 => Spoke5(n, n % 30);
      case 6 => Spoke6(n, n % 30);
      case 7 => Spoke7(n, n % 30);
      case 8 => Spoke8(n, n % 30);
      case 9 => Spoke9(n, n % 30);
      case 10 => Spoke10(n, n % 30);
    }
  }

  lemma Undivided(n: nat)
    requires 17 < n < 361 && !SmallFactor(n)
    ensures Prime(n)
  {
    hide SmallFactor;
    forall d | 2 <= d < n
      ensures n % d != 0
    {
      if n % d == 0 {
        DivisorShows(n, d);
      }
    }
  }

  lemma Divided(n: nat)
    requires n > 17 && SmallFactor(n)
    ensures !Prime(n)
  {
    var p := if n % 2 == 0 then 2 else if n % 3 == 0 then 3 else if n % 5 == 0 then 5 else if n % 7 == 0 then 7
      else if n % 11 == 0 then 11 else if n % 13 == 0 then 13 else 17;
    assert n % p == 0;
  }

  /** `c` is 2^32 times the cube root of `p`, rounded down, and `k` its last 32 bits. */
  predicate CubeRootAt(k: nat, p: nat, c: nat) {
    k == c % 0x1_0000_0000 && c * c * c <= p * 0x1_0000_0000_0000_0000_0000_0000 < (c + 1) * (c + 1) * (c + 1)
  }

  /** The first 32 bits of the fractional part of the cube root. */
  ghost predicate CubeRoot(k: nat, p: nat) {
    exists c: nat :: CubeRootAt(k, p, c)
  }

  lemma Cubes0()
    ensures CubeRootAt(0x428a2f98, 2, 0x1_428a2f98)
    ensures CubeRootAt(0x71374491, 3, 0x1_71374491)
    ensures CubeRootAt(0xb5c0fbcf, 5, 0x1_b5c0fbcf)
    ensures CubeRootAt(0xe9b5dba5, 7, 0x1_e9b5dba5)
    ensures CubeRootAt(0x3956c25b, 11, 0x2_3956c25b)
    ensures CubeRootAt(0x59f111f1, 13, 0x2_59f111f1)
    ensures CubeRootAt(0x923f82a4, 17, 0x2_923f82a4)
    ensures CubeRootAt(0xab1c5ed5, 19, 0x2_ab1c5ed5)
    ensures CubeRootAt(0xd807aa98, 23, 0x2_d807aa98)
    ensures CubeRootAt(0x12835b01, 29, 0x3_12835b01)
    ensures CubeRootAt(0x243185be, 31, 0x3_243185be)
    ensures CubeRootAt(0x550c7dc3, 37, 0x3_550c7dc3)
    ensures CubeRootAt(0x72be5d74, 41, 0x3_72be5d74)
    ensures CubeRootAt(0x80deb1fe, 43, 0x3_80deb1fe)
    ensures CubeRootAt(0x9bdc06a7, 47, 0x3_9bdc06a7)
    ensures CubeRootAt(0xc19bf174, 53, 0x3_c19bf174)
  {
  }

  lemma Roots0(j: nat)
    requires j < 16
    ensures CubeRoot(Constants0()[j], Primes0()[j])
  {
    hide CubeRootAt;
    Cubes0();
  }

  lemma Cubes16()
    ensures CubeRootAt(0xe49b69c1, 59, 0x3_e49b69c1)
    ensures CubeRootAt(0xefbe4786, 61, 0x3_efbe4786)
    ensures CubeRootAt(0x0fc19dc6, 67, 0x4_0fc19dc6)
    ensures CubeRootAt(0x240ca1cc, 71, 0x4_240ca1cc)
    ensures CubeRootAt(0x2de92c6f, 73, 0x4_2de92c6f)
    ensures CubeRootAt(0x4a7484aa, 79, 0x4_4a7484aa)
    ensures CubeRootAt(0x5cb0a9dc, 83, 0x4_5cb0a9dc)
    ensures CubeRootAt(0x76f988da, 89, 0x4_76f988da)
    ensures CubeRootAt(0x983e5152, 97, 0x4_983e5152)
    ensures CubeRootAt(0xa831c66d, 101, 0x4_a831c66d)
    ensures CubeRootAt(0xb00327c8, 103, 0x4_b00327c8)
    ensures CubeRootAt(0xbf597fc7, 107, 0x4_bf597fc7)
    ensures CubeRootAt(0xc6e00bf3, 109, 0x4_c6e00bf3)
    ensures CubeRootAt(0xd5a79147, 113, 0x4_d5a79147)
    ensures CubeRootAt(0x06ca6351, 127, 0x5_06ca6351)
    ensures CubeRootAt(0x14292967, 131, 0x5_14292967)
  {
  }

  lemma Roots16(j: nat)
    requires j < 16
    ensures CubeRoot(Constants16()[j], Primes16()[j])
  {
    hide CubeRootAt;
    Cubes16();
  }

  lemma Cubes32()
    ensures CubeRootAt(0x27b70a85, 137, 0x5_27b70a85)
    ensures CubeRootAt(0x2e1b2138, 139, 0x5_2e1b2138)
    ensures CubeRootAt(0x4d2c6dfc, 149, 0x5_4d2c6dfc)
    ensures CubeRootAt(0x53380d13, 151, 0x5_53380d13)
    ensures CubeRootAt(0x650a7354, 157, 0x5_650a7354)
    ensures CubeRootAt(0x766a0abb, 163, 0x5_766a0abb)
    ensures CubeRootAt(0x81c2c92e, 167, 0x5_81c2c92e)
    ensures CubeRootAt(0x92722c85, 173, 0x5_92722c85)
    ensures CubeRootAt(0xa2bfe8a1, 179, 0x5_a2bfe8a1)
    ensures CubeRootAt(0xa81a664b, 181, 0x5_a81a664b)
    ensures CubeRootAt(0xc24b8b70, 191, 0x5_c24b8b70)
    ensures CubeRootAt(0xc76c51a3, 193, 0x5_c76c51a3)
    ensures CubeRootAt(0xd192e819, 197, 0x5_d192e819)
    ensures CubeRootAt(0xd6990624, 199, 0x5_d6990624)
    ensures CubeRootAt(0xf40e3585, 211, 0x5_f40e3585)
    ensures CubeRootAt(0x106aa070, 223, 0x6_106aa070)
  {
  }

  lemma Roots32(j: nat)
    requires j < 16
    ensures CubeRoot(Constants32()[j], Primes32()[j])
  {
    hide CubeRootAt;
    Cubes32();
  }

  lemma Cubes48()
    ensures CubeRootAt(0x19a4c116, 227, 0x6_19a4c116)
    ensures CubeRootAt(0x1e376c08, 229, 0x6_1e376c08)
    ensures CubeRootAt(0x2748774c, 233, 0x6_2748774c)
    ensures CubeRootAt(0x34b0bcb5, 239, 0x6_34b0bcb5)
    ensures CubeRootAt(0x391c0cb3, 241, 0x6_391c0cb3)
    ensures CubeRootAt(0x4ed8aa4a, 251, 0x6_4ed8aa4a)
    ensures CubeRootAt(0x5b9cca4f, 257, 0x6_5b9cca4f)
    ensures CubeRootAt(0x682e6ff3, 263, 0x6_682e6ff3)
    ensures CubeRootAt(0x748f82ee, 269, 0x6_748f82ee)
    ensures CubeRootAt(0x78a5636f, 271, 0x6_78a5636f)
    ensures CubeRootAt(0x84c87814, 277, 0x6_84c87814)
    ensures CubeRootAt(0x8cc70208, 281, 0x6_8cc70208)
    ensures CubeRootAt(0x90befffa, 283, 0x6_90befffa)
    ensures CubeRootAt(0xa4506ceb, 293, 0x6_a4506ceb)
    ensures CubeRootAt(0xbef9a3f7, 307, 0x6_bef9a3f7)
    ensures CubeRootAt(0xc67178f2, 311, 0x6_c67178f2)
  {
  }

  lemma Roots48(j: nat)
    requires j < 16
    ensures CubeRoot(Constants48()[j], Primes48()[j])
  {
    hide CubeRootAt;
    Cubes48();
  }

  /** The constants are the fractional parts of the cube roots of the first sixty-four primes. */
  lemma ConstantsAreCubeRoots(j: nat)
    requires j < 64
    ensures CubeRoot(Constants()[j], Primes()[j])
  {
    hide CubeRoot, Constants0, Constants16, Constants32, Constants48, Primes0, Primes16, Primes32, Primes48;
    if j < 16 {
      Roots0(j);
    } else if j < 32 {
      Roots16(j - 16);
    } else if j < 48 {
      Roots32(j - 32);
    } else {
      Roots48(j - 48);
    }
  }

  // ----- Section 5.3.3: initial hash value

  predicate SquareRootAt(k: nat, p: nat, c: nat) {
    k == c % 0x1_0000_0000 && c * c <= p * 0x1_0000_0000_0000_0000 < (c + 1) * (c + 1)
  }

  /** The first 32 bits of the fractional part of the square root. */
  ghost predicate SquareRoot(k: nat, p: nat) {
    exists c: nat :: SquareRootAt(k, p, c)
  }

  lemma Squares()
    ensures SquareRootAt(0x6a09e667, 2, 0x1_6a09e667)
    ensures SquareRootAt(0xbb67ae85, 3, 0x1_bb67ae85)
    ensures SquareRootAt(0x3c6ef372, 5, 0x2_3c6ef372)
    ensures SquareRootAt(0xa54ff53a, 7, 0x2_a54ff53a)
    ensures SquareRootAt(0x510e527f, 11, 0x3_510e527f)
    ensures SquareRootAt(0x9b05688c, 13, 0x3_9b05688c)
    ensures SquareRootAt(0x1f83d9ab, 17, 0x4_1f83d9ab)
    ensures SquareRootAt(0x5be0cd19, 19, 0x4_5be0cd19)
  {
  }

  /** The initial hash value holds those of the first eight primes. */
  lemma InitialAreSquareRoots(j: nat)
    requires j < 8
    ensures SquareRoot(Initial()[j], Primes()[j])
  {
    hide SquareRootAt, Primes16, Primes32, Primes48;
    Squares();
  }
}
