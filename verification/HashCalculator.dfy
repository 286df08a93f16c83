/**
 The streaming SHA-256 of utils/src/hash_calculator.cpp: one context per thread, filled by updates
 of any size and closed by padding whatever is still buffered.

 The context is compared with a sponge that takes one byte at a time, and the sponge with the
 standard's Sha256.
 */
module HashCalculator {
  import opened Sequences
  import opened Sha256Properties
  import opened Sha256Spec
  import opened Sponges

  const BLOCK_SIZE: nat := 64
  const PAD_LENGTH: nat := 56
  const SHA256_DIGEST_LENGTH: nat := 32

  // ---------- The 64-bit sums ----------

  function Widen(x: Word): bv64 { x as bv64 }

  /** One 32-bit term added to a 64-bit sum. */
  function Plus(sum: bv64, term: Word): bv64 { sum + term as bv64 }

  /** The cast of a 64-bit sum to 32 bits. */
  function Truncated(sum: bv64): Word { (sum & 0xFFFF_FFFF) as Word }

  /** Truncating commutes with adding one more term ... */
  lemma TruncationCommutes(sum: bv64, term: Word)
    ensures Truncated(Plus(sum, term)) == Add(Truncated(sum), term)
    ensures Truncated(Widen(term)) == term
  {
  }

  /** ... and no term overflows while the sum has at most five. */
  lemma PlusFits(sum: bv64, term: Word, bound: bv64)
    requires sum <= bound <= 0x3_FFFF_FFFC
    ensures sum <= Plus(sum, term) <= bound + 0xFFFF_FFFF
  {
  }

  lemma FiveTermsFit(a: Word, b: Word, c: Word, d: Word, e: Word)
    ensures Plus(Plus(Plus(Plus(Widen(a), b), c), d), e) <= 0x4_FFFF_FFFB
  {
    var s2 := Plus(Widen(a), b);
    var s3 := Plus(s2, c);
    PlusFits(Widen(a), b, 0xFFFF_FFFF);
    hide Plus;
    PlusFits(s2, c, 0x1_FFFF_FFFE);
    PlusFits(s3, d, 0x2_FFFF_FFFD);
    PlusFits(Plus(s3, d), e, 0x3_FFFF_FFFC);
  }

  /** The cast sum of two terms. */
  method AddTwo(a: Word, b: Word) returns (sum: Word)
    ensures sum == Add(a, b)
  {
    hide Add, Truncated, Plus, Widen;
    TruncationCommutes(Widen(a), b);
    TruncationCommutes(0, a);
    sum := Truncated(Plus(Widen(a), b));
  }

  method AddFour(a: Word, b: Word, c: Word, d: Word) returns (sum: Word)
    ensures sum == Add(Add(Add(a, b), c), d)
  {
    hide Add, Truncated, Plus, Widen;
    var s2 := Plus(Widen(a), b);
    var s3 := Plus(s2, c);
    TruncationCommutes(0, a);
    TruncationCommutes(Widen(a), b);
    TruncationCommutes(s2, c);
    TruncationCommutes(s3, d);
    sum := Truncated(Plus(s3, d));
  }

  method AddFive(a: Word, b: Word, c: Word, d: Word, e: Word) returns (sum: Word)
    ensures sum == Add(Add(Add(Add(a, b), c), d), e)
  {
    hide Add, Truncated, Plus, Widen;
    var s2 := Plus(Widen(a), b);
    var s3 := Plus(s2, c);
    var s4 := Plus(s3, d);
    TruncationCommutes(0, a);
    TruncationCommutes(Widen(a), b);
    TruncationCommutes(s2, c);
    TruncationCommutes(s3, d);
    TruncationCommutes(s4, e);
    sum := Truncated(Plus(s4, e));
  }

  /** The body of the round loop: k is K256[t] and w is w[t]. */
  method OneRound(s: State, k: Word, w: Word) returns (r: State)
    ensures r == Round(s, k, w)
  {
    hide Add, BigSigma0, BigSigma1, Ch, Maj;
    var a, b, c, d := s.a, s.b, s.c, s.d;
    var e, f, g, h := s.e, s.f, s.g, s.h;
    var t1 := AddFive(h, BigSigma1(e), Ch(e, f, g), k, w);
    var t2 := AddTwo(BigSigma0(a), Maj(a, b, c));
    h := g;
    g := f;
    f := e;
    e := AddTwo(d, t1);
    d := c;
    c := b;
    b := a;
    a := AddTwo(t1, t2);
    r := State(a, b, c, d, e, f, g, h);
  }

  /** The eight sums that close a block. */
  method AddBack(s: State, t: State) returns (r: State)
    ensures r == AddStates(s, t)
  {
    hide Add;
    var a := AddTwo(s.a, t.a);
    var b := AddTwo(s.b, t.b);
    var c := AddTwo(s.c, t.c);
    var d := AddTwo(s.d, t.d);
    var e := AddTwo(s.e, t.e);
    var f := AddTwo(s.f, t.f);
    var g := AddTwo(s.g, t.g);
    var h := AddTwo(s.h, t.h);
    r := State(a, b, c, d, e, f, g, h);
  }

  // ---------- The two loops of AlgoTransform ----------

  method FillSchedule(block: Block) returns (w: array<Word>)
    ensures fresh(w) && w.Length == 64
    ensures forall t | 0 <= t < 64 :: w[t] == Schedule(block, t)
  {
    hide Schedule, MessageWord, Add, SmallSigma0, SmallSigma1;
    w := new Word[64];
    for t := 0 to 16
      invariant forall i | 0 <= i < t :: w[i] == Schedule(block, i)
    {
      w[t] := MessageWord(block, t);
      ScheduleStarts(block, t);
    }
    for t := 16 to 64
      invariant forall i | 0 <= i < t :: w[i] == Schedule(block, i)
    {
      ScheduleContinues(block, t);
      var next := AddFour(SmallSigma1(w[t - 2]), w[t - 7], SmallSigma0(w[t - 15]), w[t - 16]);
      w[t] := next;
    }
  }

  method RunRounds(w: array<Word>, s: State, ghost block: Block) returns (r: State)
    requires w.Length == 64 && forall t | 0 <= t < 64 :: w[t] == Schedule(block, t)
    ensures r == Rounds(block, s, 64)
  {
    hide Rounds, Round, Schedule;
    RoundsStart(block, s);
    r := s;
    for t := 0 to 64
      invariant r == Rounds(block, s, t)
    {
      RoundsContinue(block, s, t);
      r := OneRound(r, K[t], w[t]);
    }
  }

  /** memcpy_s to a place inside a buffer. */
  method PutBytes(dst: array<Byte>, at: nat, bytes: seq<Byte>)
    requires at + |bytes| <= dst.Length
    modifies dst
    ensures dst[..] == old(dst[..at]) + bytes + old(dst[at + |bytes|..])
  {
    forall i | 0 <= i < |bytes| {
      dst[at + i] := bytes[i];
    }
  }

  /** The struct AlgoCTX. */
  class AlgoCtx {
    const h: array<Word>
    const data: array<Byte>
    var num: nat
    var nbits: nat
    /** Whether memset_s reports success for no bytes in no room. */
    const emptySetOk: bool

    predicate Shaped()
    {
      h.Length == 8 && data.Length == BLOCK_SIZE
    }

    predicate Valid()
      reads this
    {
      Shaped() && num < BLOCK_SIZE && nbits < TWO_TO_64
    }

    constructor (emptySetOk: bool)
      ensures Valid() && fresh(h) && fresh(data) && this.emptySetOk == emptySetOk
    {
      this.emptySetOk := emptySetOk;
      h := new Word[8](_ => 0);
      data := new Byte[BLOCK_SIZE](_ => 0);
      num, nbits := 0, 0;
    }

    /** The hash value held in h. */
    function Hash(): State
      requires Shaped()
      reads h
    {
      State(h[0], h[1], h[2], h[3], h[4], h[5], h[6], h[7])
    }

    method AlgoInit()
      requires Shaped()
      modifies this, h
      ensures Valid() && Hash() == INITIAL_HASH && num == 0 && nbits == 0
    {
      h[0], h[1], h[2], h[3] := 0x6a09e667, 0xbb67ae85, 0x3c6ef372, 0xa54ff53a;
      h[4], h[5], h[6], h[7] := 0x510e527f, 0x9b05688c, 0x1f83d9ab, 0x5be0cd19;
      num := 0;
      nbits := 0;
    }

    method AlgoTransform(block: Block)
      requires Shaped()
      modifies h
      ensures Hash() == Compress(old(Hash()), block)
    {
      hide Rounds, AddStates;
      var w := FillSchedule(block);
      var r := RunRounds(w, Hash(), block);
      r := AddBack(Hash(), r);
      h[0], h[1], h[2], h[3] := r.a, r.b, r.c, r.d;
      h[4], h[5], h[6], h[7] := r.e, r.f, r.g, r.h;
    }

    /** What has been absorbed since AlgoInit, as a sponge. */
    function Absorbed(): Sponge
      requires Valid()
      reads this, h, data
    {
      Sponge(Hash(), data[..num])
    }

    /** Bytes that do not fill the buffer are kept in it. */
    method Keep(bytes: seq<Byte>)
      requires Valid() && num + |bytes| < BLOCK_SIZE
      modifies `num, data
      ensures Valid() && Absorbed() == Feed(old(Absorbed()), bytes)
    {
      hide Compress, Feed;
      FeedShort(Absorbed(), bytes);
      PutBytes(data, num, bytes);
      num := num + |bytes|;
    }

    /** Bytes that just fill the buffer are compressed with what it held. */
    method FillUp(bytes: seq<Byte>)
      requires Valid() && num + |bytes| == BLOCK_SIZE
      modifies `num, h, data
      ensures Valid() && num == 0 && Absorbed() == Feed(old(Absorbed()), bytes)
    {
      hide Compress, Feed;
      FeedToFull(Absorbed(), bytes);
      ghost var pending := data[..num];
      PutBytes(data, num, bytes);
      assert data[..] == pending + bytes;
      AlgoTransform(data[..]);
      num := 0;
    }

    method AlgoUpdate(input: seq<Byte>) returns (ok: bool)
      requires Valid()
      modifies this, h, data
      ensures Valid() && ok
      ensures Absorbed() == Feed(old(Absorbed()), input)
      ensures nbits == (old(nbits) + 8 * |input|) % TWO_TO_64
    {
      hide Compress, Feed;
      ghost var start := Absorbed();
      if |input| == 0 {
        FeedShort(start, input);
        assert start.pending + input == start.pending;
        return true;
      }
      nbits := (nbits + 8 * |input|) % TWO_TO_64;
      var pos := 0;
      if num != 0 {
        var need := BLOCK_SIZE - num;
        if |input| < need {
          Keep(input);
          return true;
        }
        FeedConcat(start, input[..need], input[need..]);
        assert input[..need] + input[need..] == input;
        FillUp(input[..need]);
        pos := need;
      }
      assert Feed(Absorbed(), input[pos..]) == Feed(start, input);
      while |input| - pos >= BLOCK_SIZE
        invariant 0 <= pos <= |input| && num == 0
        invariant nbits == (old(nbits) + 8 * |input|) % TWO_TO_64
        invariant Feed(Absorbed(), input[pos..]) == Feed(start, input)
      {
        ghost var before := Absorbed();
        var block, rest := input[pos..pos + BLOCK_SIZE], input[pos + BLOCK_SIZE..];
        assert input[pos..] == block + rest && before.pending + block == block;
        FeedConcat(before, block, rest);
        FeedToFull(before, block);
        AlgoTransform(block);
        pos := pos + BLOCK_SIZE;
      }
      FeedShort(Absorbed(), input[pos..]);
      if |input| - pos > 0 {
        Keep(input[pos..]);
      }
      return true;
    }

    /**
     The first half of AlgoFinal: the pending bytes and 0x80 are padded, through a block of their
     own if the length field no longer fits behind them. The length is still missing. Behind 63 pending
     bytes the marker is the last byte of the block, and no room is left for the zeros.
     */
    method PadTail() returns (ok: bool, tmp: array<Byte>)
      requires Valid()
      modifies h
      ensures fresh(tmp) && tmp.Length == BLOCK_SIZE
      ensures ok == (num != 63 || emptySetOk)
      ensures !ok ==> Hash() == old(Hash())
      ensures ok ==>
                forall bits :: Compress(Hash(), tmp[..PAD_LENGTH] + LengthField(bits)) == Close(old(Absorbed()), bits)
    {
      hide Compress, LengthField, Close;
      ghost var s := Absorbed();
      tmp := new Byte[BLOCK_SIZE];
      var len := num;
      forall i | 0 <= i < len { tmp[i] := data[i]; }
      tmp[len] := 0x80;
      len := len + 1;
      if len > PAD_LENGTH {
        ok := len < BLOCK_SIZE || emptySetOk;
        if !ok { return; }
        forall i | len <= i < BLOCK_SIZE { tmp[i] := 0; }
        assert tmp[..] == s.pending + [0x80] + Zeros(63 - |s.pending|);
        AlgoTransform(tmp[..]);
        forall i | 0 <= i < PAD_LENGTH { tmp[i] := 0; }
        assert tmp[..PAD_LENGTH] == Zeros(56);
        forall bits { CloseInTwoBlocks(s, bits); }
      } else {
        forall i | len <= i < PAD_LENGTH { tmp[i] := 0; }
        assert tmp[..PAD_LENGTH] == s.pending + [0x80] + Zeros(55 - |s.pending|);
        forall bits { CloseInOneBlock(s, bits); }
        ok := true;
      }
    }

    method AlgoFinal(md: array<Byte>) returns (ok: bool)
      requires Shaped() && md.Length == SHA256_DIGEST_LENGTH && md != data && nbits < TWO_TO_64
      modifies this, h, data, md
      ensures ok == (old(num) < BLOCK_SIZE && (old(num) != 63 || emptySetOk))
      ensures ok ==> md[..] == Digest(Close(old(Absorbed()), old(nbits) as bv64))
      ensures ok ==> Valid() && Absorbed() == Sponge(State(0, 0, 0, 0, 0, 0, 0, 0), []) && nbits == 0
      ensures ok ==> forall i :: 0 <= i < BLOCK_SIZE ==> data[i] == 0
      ensures !ok ==> Hash() == old(Hash()) && data[..] == old(data[..]) && num == old(num) && nbits == old(nbits)
    {
      hide Compress, LengthField, Digest, Close;
      if !(num < BLOCK_SIZE) {
        return false;
      }
      var tmp;
      ok, tmp := PadTail();
      if !ok { return false; }
      TransformLast(tmp);
      StoreDigest(md);
      Wipe();
      return true;
    }

    /** Puts the length field into the last block and compresses it. */
    method TransformLast(tmp: array<Byte>)
      requires Shaped() && tmp.Length == BLOCK_SIZE && nbits < TWO_TO_64
      modifies h, tmp
      ensures Hash() == Compress(old(Hash()), old(tmp[..PAD_LENGTH]) + LengthField(nbits as bv64))
    {
      hide Compress, LengthField;
      var field := LengthBytes(nbits as bv64);
      ghost var head := tmp[..PAD_LENGTH];
      PutBytes(tmp, PAD_LENGTH, field);
      assert tmp[..] == head + field;
      AlgoTransform(tmp[..]);
    }

    /** Writes the hash value big-endian. */
    method StoreDigest(md: array<Byte>)
      requires Shaped() && md.Length == SHA256_DIGEST_LENGTH
      modifies md
      ensures md[..] == Digest(old(Hash()))
    {
      hide WordBytes;
      ghost var s := Hash();
      for i := 0 to 8
        invariant Hash() == s && md[..4 * i] == DigestPrefix(s, i)
      {
        assert h[i] == WordAt(s, i);
        var bytes := MaskedBytes(h[i]);
        PutBytes(md, 4 * i, bytes);
      }
      assert md[..] == md[..32];
    }

    method Wipe()
      requires Shaped()
      modifies this, h, data
      ensures Valid() && Absorbed() == Sponge(State(0, 0, 0, 0, 0, 0, 0, 0), []) && nbits == 0
      ensures forall i :: 0 <= i < BLOCK_SIZE ==> data[i] == 0
    {
      forall i | 0 <= i < 8 { h[i] := 0; }
      forall i | 0 <= i < BLOCK_SIZE { data[i] := 0; }
      num, nbits := 0, 0;
    }
  }

  /** The four bytes of a word, as the shifts and masks give them. */
  method MaskedBytes(w: Word) returns (bytes: seq<Byte>)
    ensures bytes == WordBytes(w)
  {
    bytes := [((w >> 24) & 0xFF) as Byte, ((w >> 16) & 0xFF) as Byte, ((w >> 8) & 0xFF) as Byte, (w & 0xFF) as Byte];
  }

  /** The eight bytes of the length field, as the shifts and masks give them. */
  method LengthBytes(bits: bv64) returns (bytes: seq<Byte>)
    ensures bytes == LengthField(bits)
  {
    bytes := [((bits >> 56) & 0xFF) as Byte, ((bits >> 48) & 0xFF) as Byte, ((bits >> 40) & 0xFF) as Byte,
              ((bits >> 32) & 0xFF) as Byte, ((bits >> 24) & 0xFF) as Byte, ((bits >> 16) & 0xFF) as Byte,
              ((bits >> 8) & 0xFF) as Byte, (bits & 0xFF) as Byte];
  }

  /** The class HashCalculator has no fields of its own: its calls act on the thread's one context. */
  class HashCalculator {
    const context: AlgoCtx

    constructor (context: AlgoCtx)
      ensures this.context == context
    {
      this.context := context;
    }

    method Init() returns (ok: bool)
      requires context.Shaped()
      modifies context, context.h
      ensures ok && context.Valid() && context.Absorbed() == EMPTY && context.nbits == 0
    {
      context.AlgoInit();
      return true;
    }

    method Update(value: seq<Byte>) returns (ok: bool)
      requires context.Valid()
      modifies context, context.h, context.data
      ensures ok && context.Valid()
      ensures context.Absorbed() == Feed(old(context.Absorbed()), value)
      ensures context.nbits == (old(context.nbits) + 8 * |value|) % TWO_TO_64
    {
      ok := context.AlgoUpdate(value);
    }

    method GetResult() returns (ok: bool, value: seq<Byte>)
      requires context.Valid()
      modifies context, context.h, context.data
      ensures context.Valid()
      ensures ok == (|old(context.Absorbed()).pending| != 63 || context.emptySetOk)
      ensures ok ==> value == Digest(Close(old(context.Absorbed()), old(context.nbits) as bv64))
      ensures !ok ==> context.Absorbed() == old(context.Absorbed()) && context.nbits == old(context.nbits)
    {
      hide Digest, Close, LengthField;
      var md := new Byte[SHA256_DIGEST_LENGTH];
      ok := context.AlgoFinal(md);
      value := md[..];
    }
  }

  lemma BitCountOf(length: nat)
    requires 8 * length < TWO_TO_64
    ensures (8 * length) as bv64 == BitCount(length)
  {
  }

  /**
   The protocol that the callers of the class follow. Whatever the context held before, and however
   the message is cut, the result is the SHA-256 digest of the whole message; there is none exactly when
   the message is one byte short of whole blocks and memset_s does not accept that there is nothing to set.
   */
  method DigestOfChunks(calculator: HashCalculator, chunks: seq<seq<Byte>>) returns (ok: bool, value: seq<Byte>)
    requires calculator.context.Shaped() && 8 * |Flatten(chunks)| < TWO_TO_64
    modifies calculator.context, calculator.context.h, calculator.context.data
    ensures ok <==> |Flatten(chunks)| % 64 != 63 || calculator.context.emptySetOk
    ensures ok ==> value == Sha256(Flatten(chunks))
  {
    hide Feed, Sha256, Digest, Close, BitCount;
    ok := calculator.Init();
    ghost var message := Flatten(chunks);
    ghost var done: seq<Byte> := [];
    FeedShort(EMPTY, done);
    for i := 0 to |chunks|
      invariant calculator.context.Valid()
      invariant done + Flatten(chunks[i..]) == message
      invariant calculator.context.Absorbed() == Feed(EMPTY, done)
      invariant calculator.context.nbits == 8 * |done|
    {
      FeedConcat(EMPTY, done, chunks[i]);
      assert chunks[i..] == [chunks[i]] + chunks[i + 1..];
      ok := calculator.Update(chunks[i]);
      done := done + chunks[i];
    }
    assert done == message;
    FeedThenCloseIsSha256(message);
    FeedLeavesRemainder(message);
    BitCountOf(|message|);
    ok, value := calculator.GetResult();
  }
}
