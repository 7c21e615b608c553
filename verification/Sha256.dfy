/** The two streaming hashers: the native one, which compresses whole input blocks in
    place and digests a copy, and the object store's, which passes every byte through its
    buffer and finishes destructively. Both equal SHA-256 of the concatenated input. */
module Sha256 {
  import opened Decimals
  import opened Fips180
  import opened Wrappers

  const MAXIMUM_BYTES: nat := 0xffff_ffff_ffff_ffff / 8

  // ----- The compression function, shared by both

  /** `transform` and `block`: schedule, 64 rounds, and addition to the state, in place. */
  method Transform(state: array<Word>, block: Bytes)
    requires state.Length == 8 && |block| == BLOCK
    modifies state
    ensures state[..] == Compress(old(state[..]), block)
  {
    hide Constants, W, Round, Rounds, Plus, BigSigma0, BigSigma1, Ch, Maj;
    ghost var h0 := state[..];
    var words := Schedule(block);
    var v := FromHash(state[..]);
    RoundsStart(h0, block);
    var a, b, c, d, e, f, g, h := v.a, v.b, v.c, v.d, v.e, v.f, v.g, v.h;
    var k := Constants();
    var i := 0;
    while i < 64
      invariant 0 <= i <= 64
      invariant Variables(a, b, c, d, e, f, g, h) == Rounds(h0, block, i)
      invariant state[..] == h0 && forall t :: 0 <= t < 64 ==> words[t] == W(block, t)
    {
      var first := Plus(Plus(Plus(Plus(h, BigSigma1(e)), Ch(e, f, g)), k[i]), words[i]);
      RoundStep(h0, block, i, Variables(a, b, c, d, e, f, g, h), first);
      h := g;
      g := f;
      f := e;
      e := Plus(d, first);
      d := c;
      var big0, majority := BigSigma0(a), Maj(a, b, c);
      c := b;
      b := a;
      a := Plus(Plus(first, big0), majority);
      i := i + 1;
    }
    state[0] := Plus(state[0], a);
    state[1] := Plus(state[1], b);
    state[2] := Plus(state[2], c);
    state[3] := Plus(state[3], d);
    state[4] := Plus(state[4], e);
    state[5] := Plus(state[5], f);
    state[6] := Plus(state[6], g);
    state[7] := Plus(state[7], h);
    StateSum(h0, block, state[..]);
  }

  lemma RoundsStart(h: seq<Word>, block: Bytes)
    requires |h| == 8 && |block| == BLOCK
    ensures Rounds(h, block, 0) == FromHash(h)
  {
  }

  /** One round in the order the code adds its terms. */
  lemma RoundStep(h0: seq<Word>, block: Bytes, i: nat, v: Variables, first: Word)
    requires |h0| == 8 && |block| == BLOCK && i < 64 && v == Rounds(h0, block, i)
    requires first == Plus(Plus(Plus(Plus(v.h, BigSigma1(v.e)), Ch(v.e, v.f, v.g)), Constants()[i]), W(block, i))
    ensures Rounds(h0, block, i + 1) ==
      Variables(Plus(Plus(first, BigSigma0(v.a)), Maj(v.a, v.b, v.c)), v.a, v.b, v.c, Plus(v.d, first), v.e, v.f, v.g)
  {
    hide Constants, W, Plus, BigSigma0, BigSigma1, Ch, Maj;
    PlusAssociative(first, BigSigma0(v.a), Maj(v.a, v.b, v.c));
    assert Rounds(h0, block, i + 1) == Round(v, Constants()[i], W(block, i));
  }

  lemma PlusAssociative(a: Word, b: Word, c: Word)
    ensures Plus(Plus(a, b), c) == Plus(a, Plus(b, c))
  {
    SumModulo(a + b, c);
    SumModulo(b + c, a);
  }

  lemma SumModulo(x: nat, y: nat)
    ensures (x % 0x1_0000_0000 + y) % 0x1_0000_0000 == (x + y) % 0x1_0000_0000
  {
  }

  lemma PlusCommutes(a: Word, b: Word)
    ensures Plus(a, b) == Plus(b, a)
  {
  }

  lemma StateSum(h: seq<Word>, block: Bytes, sum: seq<Word>)
    requires |h| == 8 && |sum| == 8 && |block| == BLOCK
    requires var v := Rounds(h, block, 64);
      && sum[0] == Plus(h[0], v.a) && sum[1] == Plus(h[1], v.b) && sum[2] == Plus(h[2], v.c) && sum[3] == Plus(h[3], v.d)
      && sum[4] == Plus(h[4], v.e) && sum[5] == Plus(h[5], v.f) && sum[6] == Plus(h[6], v.g) && sum[7] == Plus(h[7], v.h)
    ensures sum == Compress(h, block)
  {
    hide Plus, Rounds;
    var v := Rounds(h, block, 64);
    PlusCommutes(h[0], v.a);
    PlusCommutes(h[1], v.b);
    PlusCommutes(h[2], v.c);
    PlusCommutes(h[3], v.d);
    PlusCommutes(h[4], v.e);
    PlusCommutes(h[5], v.f);
    PlusCommutes(h[6], v.g);
    PlusCommutes(h[7], v.h);
  }

  /** The message schedule, filled in order. */
  method Schedule(block: Bytes) returns (words: array<Word>)
    requires |block| == BLOCK
    ensures fresh(words) && words.Length == 64
    ensures forall t :: 0 <= t < 64 ==> words[t] == W(block, t)
  {
    hide W, SmallSigma0, SmallSigma1, WordAt, Plus;
    words := new Word[64];
    var i := 0;
    while i < 16
      invariant 0 <= i <= 16
      invariant forall t :: 0 <= t < i ==> words[t] == W(block, t)
    {
      ScheduleWord(block, i);
      words[i] := WordAt(block, i);
      i := i + 1;
    }
    while i < 64
      invariant 16 <= i <= 64
      invariant forall t :: 0 <= t < i ==> words[t] == W(block, t)
    {
      ScheduleStep(block, i);
      var small0, small1 := SmallSigma0(words[i - 15]), SmallSigma1(words[i - 2]);
      words[i] := Plus(Plus(Plus(words[i - 16], small0), words[i - 7]), small1);
      i := i + 1;
    }
  }

  lemma ScheduleWord(block: Bytes, t: nat)
    requires |block| == BLOCK && t < 16
    ensures W(block, t) == WordAt(block, t)
  {
  }

  /** The schedule in the order the code adds its terms. */
  lemma ScheduleStep(block: Bytes, t: nat)
    requires |block| == BLOCK && t >= 16
    ensures W(block, t) == Plus(Plus(Plus(W(block, t - 16), SmallSigma0(W(block, t - 15))), W(block, t - 7)), SmallSigma1(W(block, t - 2)))
  {
    hide SmallSigma0, SmallSigma1, WordAt, Plus;
    PlusReversed(W(block, t - 16), SmallSigma0(W(block, t - 15)), W(block, t - 7), SmallSigma1(W(block, t - 2)));
  }

  lemma PlusReversed(a: Word, b: Word, c: Word, d: Word)
    ensures Plus(Plus(Plus(a, b), c), d) == Plus(Plus(Plus(d, c), b), a)
  {
    hide Plus;
    PlusCommutes(Plus(Plus(a, b), c), d);
    PlusCommutes(Plus(a, b), c);
    PlusCommutes(a, b);
    PlusAssociative(d, c, Plus(b, a));
    PlusAssociative(Plus(d, c), b, a);
  }

  // ----- The streaming state both hashers keep

  /** The state holds the whole blocks of the message so far, and the buffer its tail. */
  ghost predicate Absorbed(message: Bytes, state: seq<Word>, pending: Bytes, used: nat) {
    && |state| == 8 && |pending| == BLOCK
    && used == |message| % BLOCK
    && state == HashBlocks(message[..|message| - used])
    && pending[..used] == message[|message| - used..]
  }

  lemma AbsorbedStart(pending: Bytes)
    requires |pending| == BLOCK
    ensures Absorbed([], Initial(), pending, 0)
  {
    var whole: Bytes := [];
    assert HashBlocks(whole) == Initial();
    assert whole[..0] == whole;
  }

  lemma TailGrows(length: nat, more: nat)
    requires length % BLOCK + more < BLOCK
    ensures (length + more) % BLOCK == length % BLOCK + more
  {
  }

  lemma TailWraps(length: nat, more: nat)
    requires length % BLOCK + more == BLOCK
    ensures (length + more) % BLOCK == 0
  {
  }

  /** Filling part of the buffer. */
  lemma AbsorbPart(message: Bytes, state: seq<Word>, pending: Bytes, used: nat, part: Bytes, pending': Bytes)
    requires Absorbed(message, state, pending, used) && used + |part| < BLOCK
    requires |pending'| == BLOCK && pending'[..used + |part|] == pending[..used] + part
    ensures Absorbed(message + part, state, pending', used + |part|)
  {
    hide HashBlocks;
    TailGrows(|message|, |part|);
    var longer := message + part;
    assert longer[..|longer| - (used + |part|)] == message[..|message| - used];
    assert longer[|longer| - (used + |part|)..] == message[|message| - used..] + part;
  }

  /** Filling the buffer and compressing it. */
  lemma AbsorbBlock(message: Bytes, state: seq<Word>, pending: Bytes, used: nat, part: Bytes, block: Bytes, pending': Bytes)
    requires Absorbed(message, state, pending, used) && used + |part| == BLOCK
    requires block == pending[..used] + part && |pending'| == BLOCK
    ensures Absorbed(message + part, Compress(state, block), pending', 0)
  {
    hide HashBlocks, Compress;
    TailWraps(|message|, |part|);
    var longer := message + part;
    var whole := message[..|message| - used];
    assert longer == whole + block;
    AppendBlock(whole, block);
    assert longer[..|longer|] == longer;
  }

  /** The final state: the padded message's last one or two blocks. */
  function Finished(message: Bytes, state: seq<Word>): seq<Word>
    requires |state| == 8
  {
    var tail := message[|message| - |message| % BLOCK..];
    var length := BigEndian(8 * |message|, 8);
    if |tail| < 56 then Compress(state, tail + [0x80] + Zeros(55 - |tail|) + length)
    else Compress(Compress(state, tail + [0x80] + Zeros(63 - |tail|)), Zeros(56) + length)
  }

  lemma FinishedIsHash(message: Bytes, state: seq<Word>, pending: Bytes, used: nat)
    requires Absorbed(message, state, pending, used)
    ensures Finished(message, state) == HashBlocks(Pad(message))
  {
    hide Compress, BigEndian;
    var whole, tail := message[..|message| - used], message[|message| - used..];
    var length := BigEndian(8 * |message|, 8);
    assert message == whole + tail;
    if |tail| < 56 {
      PadShortTail(whole, tail);
      AppendBlock(whole, tail + [0x80] + Zeros(55 - |tail|) + length);
    } else {
      PadLongTail(whole, tail);
      AppendBlock(whole, tail + [0x80] + Zeros(63 - |tail|));
      AppendBlock(whole + (tail + [0x80] + Zeros(63 - |tail|)), Zeros(56) + length);
    }
  }

  // ----- Finishing, shared by `digest` on its copy and `finish` on the object

  /** Mark, pad and compress: `pending` and `state` are the buffers to finish in place. */
  method Finalize(state: array<Word>, pending: array<Byte>, used: nat, bytes: nat, ghost message: Bytes)
    requires state.Length == 8 && pending.Length == BLOCK
    requires |message| == bytes && Absorbed(message, state[..], pending[..], used)
    modifies state, pending
    ensures state[..] == HashBlocks(Pad(message))
  {
    hide Compress, BigEndian, HashBlocks, Pad;
    ghost var h0 := state[..];
    ghost var tail := message[|message| - used..];
    assert pending[..used] == tail;
    FinishedIsHash(message, h0, pending[..], used);
    var bits := bytes * 8;
    pending[used] := 0x80;
    var n := used + 1;
    assert pending[..n] == tail + [0x80];
    if n > 56 {
      Fill(pending, n, BLOCK);
      assert pending[..] == tail + [0x80] + Zeros(63 - |tail|);
      Transform(state, pending[..]);
      n := 0;
    }
    ghost var head := pending[..n];
    Fill(pending, n, 56);
    assert pending[..56] == head + Zeros(56 - n);
    WriteLength(pending, bits);
    assert pending[..] == pending[..56] + pending[56..];
    assert Zeros(0) == [];
    Transform(state, pending[..]);
  }

  /** `std::fill` with zero bytes. */
  method Fill(pending: array<Byte>, from: nat, to: nat)
    requires from <= to <= pending.Length
    modifies pending
    ensures pending[..from] == old(pending[..from]) && pending[to..] == old(pending[to..])
    ensures pending[from..to] == Zeros(to - from)
    ensures pending[..to] == old(pending[..from]) + Zeros(to - from)
  {
    var i := from;
    while i < to
      invariant from <= i <= to
      invariant pending[..from] == old(pending[..from]) && pending[to..] == old(pending[to..])
      invariant forall j :: from <= j < i ==> pending[j] == 0
    {
      pending[i] := 0;
      i := i + 1;
    }
    assert pending[from..to] == Zeros(to - from);
    assert pending[..to] == pending[..from] + pending[from..to];
  }

  /** The bit length, least significant byte last. */
  method WriteLength(pending: array<Byte>, bits: nat)
    requires pending.Length == BLOCK
    modifies pending
    ensures pending[..56] == old(pending[..56])
    ensures pending[56..] == BigEndian(bits, 8)
  {
    hide BigEndian;
    var i := 0;
    while i < 8
      invariant 0 <= i <= 8
      invariant pending[..56] == old(pending[..56])
      invariant forall k :: 64 - i <= k < 64 ==> pending[k] == BigEndian(bits, 8)[k - 56]
    {
      BigEndianByte(bits, 8, i);
      pending[63 - i] := (Shifted(bits, i) % 256) as bv8;
      i := i + 1;
    }
  }

  /** The words' bytes, most significant first. */
  method Serialize(h: seq<Word>) returns (b: Bytes)
    ensures b == WordsToBytes(h)
  {
    hide WordsToBytes, ByteAt;
    b := [];
    WordsStart();
    var i := 0;
    while i < |h|
      invariant 0 <= i <= |h|
      invariant b == WordsToBytes(h[..i])
    {
      b := b + [ByteAt(h[i], 0)] + [ByteAt(h[i], 1)] + [ByteAt(h[i], 2)] + [ByteAt(h[i], 3)];
      WordsSnoc(h[..i], h[i]);
      assert h[..i + 1] == h[..i] + [h[i]];
      i := i + 1;
    }
    assert h[..i] == h;
  }

  lemma WordsStart()
    ensures WordsToBytes([]) == []
  {
  }

  lemma WordsSnoc(h: seq<Word>, w: Word)
    ensures WordsToBytes(h + [w]) == WordsToBytes(h) + [ByteAt(w, 0)] + [ByteAt(w, 1)] + [ByteAt(w, 2)] + [ByteAt(w, 3)]
  {
    hide ByteAt;
  }

  // ----- The native hasher

  /** `message` is everything absorbed so far; `Valid` ties the buffers to it. */
  class NativeHash {
    const state: array<Word>
    const pending: array<Byte>
    var bytes: nat
    var pendingSize: nat
    ghost var message: Bytes

    ghost predicate Valid()
      reads this, state, pending
    {
      && state.Length == 8 && pending.Length == BLOCK
      && bytes == |message| <= MAXIMUM_BYTES
      && Absorbed(message, state[..], pending[..], pendingSize)
    }

    constructor ()
      ensures Valid() && message == [] && fresh(state) && fresh(pending)
    {
      state, pending := new Word[8](i requires 0 <= i < 8 => Initial()[i]), new Byte[BLOCK](_ => 0);
      bytes, pendingSize, message := 0, 0, [];
      new;
      assert state[..] == Initial();
      AbsorbedStart(pending[..]);
    }

    /** Appends the input, or refuses it untouched when the bit length would leave 64 bits. */
    method Update(input: Bytes) returns (ok: bool)
      requires Valid()
      modifies this, state, pending
      ensures Valid()
      ensures ok <==> |old(message)| + |input| <= MAXIMUM_BYTES
      ensures message == if ok then old(message) + input else old(message)
      ensures !ok ==> state[..] == old(state[..]) && pending[..] == old(pending[..])
    {
      hide Absorbed, HashBlocks, Compress;
      if |input| > MAXIMUM_BYTES - bytes {
        return false;
      }
      bytes := bytes + |input|;
      var rest := input;
      PendingBound(message, state[..], pending[..], pendingSize);
      if pendingSize != 0 {
        var take := if |rest| < BLOCK - pendingSize then |rest| else BLOCK - pendingSize;
        TakeIn(rest[..take]);
        rest := rest[take..];
      }
      ghost var before := message;
      assert before + rest == old(message) + input;
      while |rest| >= BLOCK
        invariant state.Length == 8 && pending.Length == BLOCK && bytes == |old(message)| + |input|
        invariant message + rest == old(message) + input
        invariant Absorbed(message, state[..], pending[..], pendingSize)
        invariant pendingSize == 0 || rest == []
      {
        AbsorbBlock(message, state[..], pending[..], 0, rest[..BLOCK], rest[..BLOCK], pending[..]);
        Transform(state, rest[..BLOCK]);
        assert rest == rest[..BLOCK] + rest[BLOCK..];
        message, rest := message + rest[..BLOCK], rest[BLOCK..];
      }
      if rest != [] {
        CopyIn(pending, 0, rest);
        AbsorbTail(message, state[..], rest, pending[..]);
        pendingSize, message := |rest|, message + rest;
      }
      assert message == old(message) + input;
      return true;
    }

    /** Tops up the buffer, compressing it once it is full. */
    method TakeIn(part: Bytes)
      requires state.Length == 8 && pending.Length == BLOCK
      requires Absorbed(message, state[..], pending[..], pendingSize) && pendingSize + |part| <= BLOCK
      modifies this`pendingSize, this`message, state, pending
      ensures message == old(message) + part
      ensures Absorbed(message, state[..], pending[..], pendingSize)
      ensures old(pendingSize) + |part| == BLOCK ==> pendingSize == 0
    {
      hide Absorbed, HashBlocks, Compress;
      ghost var h0, p0, used0 := state[..], pending[..], pendingSize;
      CopyIn(pending, pendingSize, part);
      pendingSize := pendingSize + |part|;
      if pendingSize == BLOCK {
        AbsorbBlock(message, h0, p0, used0, part, pending[..], pending[..]);
        Transform(state, pending[..]);
        pendingSize := 0;
      } else {
        AbsorbPart(message, h0, p0, used0, part, pending[..]);
      }
      message := message + part;
    }

    /** The digest of the message so far. Nothing the object holds changes. */
    method Digest() returns (digest: Bytes)
      requires Valid()
      ensures digest == Fips180.Sha256(message)
    {
      hide Absorbed, HashBlocks, Compress, Pad;
      PendingBound(message, state[..], pending[..], pendingSize);
      var copy, block := new Word[8](i requires 0 <= i < 8 reads state => state[i]),
        new Byte[BLOCK](i requires 0 <= i < BLOCK reads pending => pending[i]);
      assert copy[..] == state[..] && block[..] == pending[..];
      Finalize(copy, block, pendingSize, bytes, message);
      digest := Serialize(copy[..]);
    }

    method HexDigest() returns (text: string)
      requires Valid()
      ensures text == Hex(Fips180.Sha256(message))
    {
      hide Fips180.Sha256, Valid;
      var digest := Digest();
      text := "";
      var i := 0;
      while i < |digest|
        invariant 0 <= i <= |digest|
        invariant text == Hex(digest[..i])
      {
        HexSnoc(digest[..i], digest[i]);
        assert digest[..i + 1] == digest[..i] + [digest[i]];
        text := text + [HexDigit((digest[i] >> 4) as nat)] + [HexDigit((digest[i] & 15) as nat)];
        i := i + 1;
      }
      assert digest[..i] == digest;
    }
  }

  lemma PendingBound(message: Bytes, state: seq<Word>, pending: Bytes, used: nat)
    requires Absorbed(message, state, pending, used)
    ensures used < BLOCK
  {
  }

  lemma HexSnoc(b: Bytes, last: Byte)
    ensures Hex(b + [last]) == Hex(b) + HexPair(last)
  {
    assert (b + [last])[..|b|] == b;
  }

  /** A tail shorter than a block, copied to the start of an empty buffer. */
  lemma AbsorbTail(message: Bytes, state: seq<Word>, tail: Bytes, pending: Bytes)
    requires |pending| == BLOCK && |tail| < BLOCK && pending[..|tail|] == tail
    requires exists earlier :: Absorbed(message, state, earlier, 0)
    ensures Absorbed(message + tail, state, pending, |tail|)
  {
    hide Absorbed;
    var earlier :| Absorbed(message, state, earlier, 0);
    assert earlier[..0] + tail == tail;
    AbsorbPart(message, state, earlier, 0, tail, pending);
  }

  /** `std::copy_n` into the buffer. */
  method CopyIn(pending: array<Byte>, at: nat, part: Bytes)
    requires at + |part| <= pending.Length
    modifies pending
    ensures pending[..at + |part|] == old(pending[..at]) + part
    ensures pending[at + |part|..] == old(pending[at + |part|..])
  {
    var i := 0;
    while i < |part|
      invariant 0 <= i <= |part|
      invariant pending[..at + i] == old(pending[..at]) + part[..i]
      invariant pending[at + |part|..] == old(pending[at + |part|..])
    {
      pending[at + i] := part[i];
      i := i + 1;
    }
    assert part[..i] == part;
  }

  /** `sha256`: the one-shot form. */
  method OneShot(input: Bytes) returns (text: Option<string>)
    ensures text == if |input| <= MAXIMUM_BYTES then Some(Hex(Fips180.Sha256(input))) else None
  {
    hide Fips180.Sha256, Absorbed, Hex;
    var hash := new NativeHash();
    var ok := hash.Update(input);
    if !ok {
      return None;
    }
    assert [] + input == input;
    var hex := hash.HexDigest();
    return Some(hex);
  }

  const READ_SIZE: nat := 32768

  /** `blob_sha256` once the BLOB is open: bounded, read piecewise, with reads that may fail. */
  method HashBlob(blob: Bytes, maximumBytes: nat) returns (digest: Option<Bytes>)
    requires |blob| <= MAXIMUM_BYTES
    ensures digest.Some? ==> |blob| <= maximumBytes && digest.value == Fips180.Sha256(blob)
    ensures |blob| > maximumBytes ==> digest == None
  {
    hide Fips180.Sha256, Absorbed;
    if |blob| > maximumBytes {
      return None;
    }
    var hash := new NativeHash();
    var offset := 0;
    while offset < |blob|
      invariant 0 <= offset <= |blob| && hash.Valid() && hash.message == blob[..offset]
      invariant fresh(hash) && fresh(hash.state) && fresh(hash.pending)
    {
      if * {
        return None; // the read failed
      }
      var count := if READ_SIZE < |blob| - offset then READ_SIZE else |blob| - offset;
      assert blob[..offset + count] == blob[..offset] + blob[offset..offset + count];
      var ok := hash.Update(blob[offset..offset + count]);
      offset := offset + count;
    }
    assert blob[..offset] == blob;
    var value := hash.Digest();
    return Some(value);
  }

  // ----- The object store's hasher

  /** Every byte passes through the buffer, and `Finish` ends the object's life. */
  class StoreHash {
    const state: array<Word>
    const pending: array<Byte>
    var length: nat
    var used: nat
    ghost var message: Bytes

    ghost predicate Valid()
      reads this, state, pending
    {
      && state.Length == 8 && pending.Length == BLOCK
      && length == |message| <= MAXIMUM_BYTES
      && Absorbed(message, state[..], pending[..], used)
    }

    constructor ()
      ensures Valid() && message == [] && fresh(state) && fresh(pending)
    {
      state, pending := new Word[8](i requires 0 <= i < 8 => Initial()[i]), new Byte[BLOCK](_ => 0);
      length, used, message := 0, 0, [];
      new;
      assert state[..] == Initial();
      AbsorbedStart(pending[..]);
    }

    method Update(input: Bytes) returns (ok: bool)
      requires Valid()
      modifies this, state, pending
      ensures Valid()
      ensures ok <==> |old(message)| + |input| <= MAXIMUM_BYTES
      ensures message == if ok then old(message) + input else old(message)
      ensures !ok ==> state[..] == old(state[..]) && pending[..] == old(pending[..])
    {
      hide Absorbed, HashBlocks, Compress;
      if |input| > MAXIMUM_BYTES - length {
        return false;
      }
      length := length + |input|;
      var rest := input;
      while rest != []
        invariant state.Length == 8 && pending.Length == BLOCK && length == |old(message)| + |input|
        invariant message + rest == old(message) + input
        invariant Absorbed(message, state[..], pending[..], used)
        decreases |rest|
      {
        PendingBound(message, state[..], pending[..], used);
        ghost var h0, p0, used0 := state[..], pending[..], used;
        var n := if |rest| < BLOCK - used then |rest| else BLOCK - used;
        CopyIn(pending, used, rest[..n]);
        used := used + n;
        if used == BLOCK {
          AbsorbBlock(message, h0, p0, used0, rest[..n], pending[..], pending[..]);
          Transform(state, pending[..]);
          used := 0;
        } else {
          AbsorbPart(message, h0, p0, used0, rest[..n], pending[..]);
        }
        assert rest == rest[..n] + rest[n..];
        message, rest := message + rest[..n], rest[n..];
      }
      assert message == old(message) + input;
      return true;
    }

    /** The hexadecimal digest, written nibble by nibble from the words. */
    method Finish() returns (text: string)
      requires Valid()
      modifies this, state, pending
      ensures text == Hex(Fips180.Sha256(old(message)))
    {
      hide Absorbed, HashBlocks, Compress, Pad, Hex, WordsToBytes, Nibbles, HexDigit, Bits;
      PendingBound(message, state[..], pending[..], used);
      Finalize(state, pending, used, length, message);
      text := HexWords(state[..]);
    }
  }

  function Nibble(x: bv32, shift: nat): Byte
    requires shift < 32
  {
    ((x >> shift) & 15) as Byte
  }

  /** Nibble `n` of a word, most significant first, as a digit. */
  function NibbleDigit(w: Word, n: nat): char
    requires n < 8
  {
    HexDigit(Nibble(Bits(w), 28 - 4 * n) as nat)
  }

  /** The first `n` hexadecimal digits of a word. */
  function Nibbles(w: Word, n: nat): (text: string)
    requires n <= 8
    ensures |text| == n
  {
    if n == 0 then "" else Nibbles(w, n - 1) + [NibbleDigit(w, n - 1)]
  }

  lemma NibblesStart(w: Word)
    ensures Nibbles(w, 0) == ""
  {
  }

  lemma NibblesStep(w: Word, n: nat)
    requires n < 8
    ensures Nibbles(w, n + 1) == Nibbles(w, n) + [NibbleDigit(w, n)]
  {
  }

  /** The loop of `finish` that writes each word's eight digits. */
  method HexWords(h: seq<Word>) returns (text: string)
    ensures text == Hex(WordsToBytes(h))
  {
    hide WordsToBytes, Nibbles, HexDigit, Bits;
    text := "";
    WordsStart();
    var i := 0;
    while i < |h|
      invariant 0 <= i <= |h|
      invariant text == Hex(WordsToBytes(h[..i]))
    {
      var start := text;
      var shift := 28;
      ghost var n := 0;
      NibblesStart(h[i]);
      while shift >= 0
        invariant n <= 8 && shift == 28 - 4 * n
        invariant text == start + Nibbles(h[i], n)
      {
        NibblesStep(h[i], n);
        text := text + [HexDigit(Nibble(Bits(h[i]), shift) as nat)];
        shift, n := shift - 4, n + 1;
      }
      HexWord(h[..i], h[i]);
      assert h[..i + 1] == h[..i] + [h[i]];
      i := i + 1;
    }
    assert h[..i] == h;
  }

  lemma HexWord(h: seq<Word>, w: Word)
    ensures Hex(WordsToBytes(h + [w])) == Hex(WordsToBytes(h)) + Nibbles(w, 8)
  {
    hide Hex, WordsToBytes, ByteAt, HexPair, NibbleDigit, Nibbles;
    WordsSnoc(h, w);
    HexFour(WordsToBytes(h), ByteAt(w, 0), ByteAt(w, 1), ByteAt(w, 2), ByteAt(w, 3));
    NibblesStart(w);
    NibblesOfByte(w, 0);
    NibblesOfByte(w, 1);
    NibblesOfByte(w, 2);
    NibblesOfByte(w, 3);
    assert Nibbles(w, 8) == HexPair(ByteAt(w, 0)) + HexPair(ByteAt(w, 1)) + HexPair(ByteAt(w, 2)) + HexPair(ByteAt(w, 3));
  }

  lemma HexFour(b: Bytes, b0: Byte, b1: Byte, b2: Byte, b3: Byte)
    ensures Hex(b + [b0] + [b1] + [b2] + [b3]) == Hex(b) + (HexPair(b0) + HexPair(b1) + HexPair(b2) + HexPair(b3))
  {
    hide Hex, HexPair;
    HexTwo(b, b0, b1);
    HexTwo(b + [b0] + [b1], b2, b3);
    Regrouped(Hex(b), HexPair(b0), HexPair(b1), HexPair(b2), HexPair(b3));
  }

  lemma HexTwo(b: Bytes, b0: Byte, b1: Byte)
    ensures Hex(b + [b0] + [b1]) == Hex(b) + HexPair(b0) + HexPair(b1)
  {
    hide Hex, HexPair;
    HexSnoc(b, b0);
    HexSnoc(b + [b0], b1);
  }

  lemma Regrouped(s: string, p: string, q: string, r: string, t: string)
    ensures s + p + q + r + t == s + (p + q + r + t)
  {
    assert s + p + q + r + t == (s + p + q) + (r + t);
    assert s + (p + q + r + t) == (s + p + q) + (r + t);
  }

  lemma NibblesOfByte(w: Word, j: nat)
    requires j < 4
    ensures Nibbles(w, 2 * j + 2) == Nibbles(w, 2 * j) + HexPair(ByteAt(w, j))
  {
    hide ByteAt, HexDigit, NibbleDigit, Nibbles;
    NibbleDigits(w, j);
    NibblesStep(w, 2 * j);
    NibblesStep(w, 2 * j + 1);
  }

  lemma NibbleDigits(w: Word, j: nat)
    requires j < 4
    ensures NibbleDigit(w, 2 * j) == HexDigit((ByteAt(w, j) >> 4) as nat)
    ensures NibbleDigit(w, 2 * j + 1) == HexDigit((ByteAt(w, j) & 15) as nat)
  {
    hide HexDigit, Bits, LowByte, Nibble;
    if j == 0 {
      NibbleBits24(Bits(w));
    } else if j == 1 {
      NibbleBits16(Bits(w));
    } else if j == 2 {
      NibbleBits8(Bits(w));
    } else {
      NibbleBits0(Bits(w));
    }
  }

  lemma NibbleBits24(x: bv32)
    ensures LowByte(x, 24) >> 4 == Nibble(x, 28) && LowByte(x, 24) & 15 == Nibble(x, 24)
  {
  }

  lemma NibbleBits16(x: bv32)
    ensures LowByte(x, 16) >> 4 == Nibble(x, 20) && LowByte(x, 16) & 15 == Nibble(x, 16)
  {
  }

  lemma NibbleBits8(x: bv32)
    ensures LowByte(x, 8) >> 4 == Nibble(x, 12) && LowByte(x, 8) & 15 == Nibble(x, 8)
  {
  }

  lemma NibbleBits0(x: bv32)
    ensures LowByte(x, 0) >> 4 == Nibble(x, 4) && LowByte(x, 0) & 15 == Nibble(x, 0)
  {
  }
}
