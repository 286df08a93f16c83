/** What the standard asks of the padding and of the constants, proved of Sha256Spec. */
module Sha256Properties {
  import opened Sha256Spec

  /** Section 5.1.1: the zero count solves l + 1 + k = 448 mod 512 (here in bytes) ... */
  lemma ZeroCountIsLeast(length: nat, k: nat)
    ensures (length + 1 + ZeroCount(length)) % 64 == 56
    ensures (length + 1 + k) % 64 == 56 ==> ZeroCount(length) <= k
  {
  }

  /** The number that eight big-endian bytes stand for. */
  function FieldValue(field: seq<Byte>): bv64
    requires |field| == 8
  {
    ((field[0] as bv64) << 56) | ((field[1] as bv64) << 48) | ((field[2] as bv64) << 40) |
    ((field[3] as bv64) << 32) | ((field[4] as bv64) << 24) | ((field[5] as bv64) << 16) |
    ((field[6] as bv64) << 8) | (field[7] as bv64)
  }

  /** Section 5.1.1: reading the length field back gives the bit count. */
  lemma LengthFieldRoundTrip(bits: bv64)
    ensures FieldValue(LengthField(bits)) == bits
  {
  }

  /** Four bytes as a word, most significant first. */
  function BytesWord(bytes: seq<Byte>): Word
    requires |bytes| == 4
  {
    ((bytes[0] as Word) << 24) | ((bytes[1] as Word) << 16) | ((bytes[2] as Word) << 8) | (bytes[3] as Word)
  }

  lemma WordBytesRoundTrip(w: Word)
    ensures BytesWord(WordBytes(w)) == w
  {
  }

  lemma {:induction false} DigestHoldsTheWords(s: State, n: nat, t: nat)
    requires t < n <= 8
    ensures DigestPrefix(s, n)[4 * t..4 * t + 4] == WordBytes(WordAt(s, t))
    decreases n
  {
    hide WordBytes, WordAt;
    if t < n - 1 {
      DigestHoldsTheWords(s, n - 1, t);
      assert DigestPrefix(s, n)[..4 * (n - 1)] == DigestPrefix(s, n - 1);
    }
  }

  /** The words of the hash value can be read back from the digest, so different values have different digests. */
  lemma DigestReadsBack(s: State, t: nat)
    requires t < 8
    ensures BytesWord(Digest(s)[4 * t..4 * t + 4]) == WordAt(s, t)
  {
    hide WordBytes, WordAt, BytesWord;
    DigestHoldsTheWords(s, 8, t);
    WordBytesRoundTrip(WordAt(s, t));
  }

  lemma DigestIsInjective(s: State, t: State)
    ensures Digest(s) == Digest(t) ==> s == t
  {
    hide Digest, BytesWord;
    if Digest(s) == Digest(t) {
      forall i: nat | i < 8
        ensures WordAt(s, i) == WordAt(t, i)
      {
        DigestReadsBack(s, i);
        DigestReadsBack(t, i);
      }
      assert WordAt(s, 0) == WordAt(t, 0) && WordAt(s, 1) == WordAt(t, 1) && WordAt(s, 2) == WordAt(t, 2);
      assert WordAt(s, 3) == WordAt(t, 3) && WordAt(s, 4) == WordAt(t, 4) && WordAt(s, 5) == WordAt(t, 5);
      assert WordAt(s, 6) == WordAt(t, 6) && WordAt(s, 7) == WordAt(t, 7);
    }
  }

  /** Padding is injective: two messages with the same padded form are the same message. */
  lemma PaddingIsInjective(x: seq<Byte>, y: seq<Byte>)
    requires 8 * |x| < TWO_TO_64 && 8 * |y| < TWO_TO_64
    ensures x + Padding(|x|) == y + Padding(|y|) ==> x == y
  {
    hide LengthField, BitCount;
    var p, q := x + Padding(|x|), y + Padding(|y|);
    assert p[|x|] == 0x80 && q[|y|] == 0x80;
    assert forall i :: |x| < i < |p| - 8 ==> p[i] == 0;
    assert forall i :: |y| < i < |q| - 8 ==> q[i] == 0;
    assert p[..|x|] == x && q[..|y|] == y;
  }

  // ---------- Sections 4.2.2 and 5.3.3: where the constants come from ----------

  /** w is the first 32 bits of the fractional part of the cube root of n; r is that root times 2^32, cut. */
  predicate CubeRootFraction(w: Word, n: nat, r: nat) {
    && r * r * r <= n * 0x1_0000_0000_0000_0000_0000_0000 < (r + 1) * (r + 1) * (r + 1)
    && w as nat == r % 0x1_0000_0000
  }

  /** w is the first 32 bits of the fractional part of the square root of n; r is that root times 2^32, cut. */
  predicate SquareRootFraction(w: Word, n: nat, r: nat) {
    && r * r <= n * 0x1_0000_0000_0000_0000 < (r + 1) * (r + 1)
    && w as nat == r % 0x1_0000_0000
  }

  /** The initial hash value comes from the square roots of the first eight primes. */
  lemma InitialHashFromSquareRoots()
    ensures SquareRootFraction(INITIAL_HASH.a, 2, 0x1_6a09e667) && SquareRootFraction(INITIAL_HASH.b, 3, 0x1_bb67ae85)
    ensures SquareRootFraction(INITIAL_HASH.c, 5, 0x2_3c6ef372) && SquareRootFraction(INITIAL_HASH.d, 7, 0x2_a54ff53a)
    ensures SquareRootFraction(INITIAL_HASH.e, 11, 0x3_510e527f) && SquareRootFraction(INITIAL_HASH.f, 13, 0x3_9b05688c)
    ensures SquareRootFraction(INITIAL_HASH.g, 17, 0x4_1f83d9ab) && SquareRootFraction(INITIAL_HASH.h, 19, 0x4_5be0cd19)
  {
  }

  predicate RowOfCubeRoots(row: seq<Word>, primes: seq<nat>, roots: seq<nat>) {
    && |row| == |primes| == |roots| == 8
    && CubeRootFraction(row[0], primes[0], roots[0]) && CubeRootFraction(row[1], primes[1], roots[1])
    && CubeRootFraction(row[2], primes[2], roots[2]) && CubeRootFraction(row[3], primes[3], roots[3])
    && CubeRootFraction(row[4], primes[4], roots[4]) && CubeRootFraction(row[5], primes[5], roots[5])
    && CubeRootFraction(row[6], primes[6], roots[6]) && CubeRootFraction(row[7], primes[7], roots[7])
  }

  /** The round constants come from the cube roots of the first sixty-four primes. */
  lemma RoundConstantsFromCubeRoots0()
    ensures RowOfCubeRoots(K0, [2, 3, 5, 7, 11, 13, 17, 19],
      [0x1_428a2f98, 0x1_71374491, 0x1_b5c0fbcf, 0x1_e9b5dba5, 0x2_3956c25b, 0x2_59f111f1, 0x2_923f82a4, 0x2_ab1c5ed5])
    ensures RowOfCubeRoots(K1, [23, 29, 31, 37, 41, 43, 47, 53],
      [0x2_d807aa98, 0x3_12835b01, 0x3_243185be, 0x3_550c7dc3, 0x3_72be5d74, 0x3_80deb1fe, 0x3_9bdc06a7, 0x3_c19bf174])
  {
  }

  lemma RoundConstantsFromCubeRoots16()
    ensures RowOfCubeRoots(K2, [59, 61, 67, 71, 73, 79, 83, 89],
      [0x3_e49b69c1, 0x3_efbe4786, 0x4_0fc19dc6, 0x4_240ca1cc, 0x4_2de92c6f, 0x4_4a7484aa, 0x4_5cb0a9dc, 0x4_76f988da])
    ensures RowOfCubeRoots(K3, [97, 101, 103, 107, 109, 113, 127, 131],
      [0x4_983e5152, 0x4_a831c66d, 0x4_b00327c8, 0x4_bf597fc7, 0x4_c6e00bf3, 0x4_d5a79147, 0x5_06ca6351, 0x5_14292967])
  {
  }

  lemma RoundConstantsFromCubeRoots32()
    ensures RowOfCubeRoots(K4, [137, 139, 149, 151, 157, 163, 167, 173],
      [0x5_27b70a85, 0x5_2e1b2138, 0x5_4d2c6dfc, 0x5_53380d13, 0x5_650a7354, 0x5_766a0abb, 0x5_81c2c92e, 0x5_92722c85])
    ensures RowOfCubeRoots(K5, [179, 181, 191, 193, 197, 199, 211, 223],
      [0x5_a2bfe8a1, 0x5_a81a664b, 0x5_c24b8b70, 0x5_c76c51a3, 0x5_d192e819, 0x5_d6990624, 0x5_f40e3585, 0x6_106aa070])
  {
  }

  lemma RoundConstantsFromCubeRoots48()
    ensures RowOfCubeRoots(K6, [227, 229, 233, 239, 241, 251, 257, 263],
      [0x6_19a4c116, 0x6_1e376c08, 0x6_2748774c, 0x6_34b0bcb5, 0x6_391c0cb3, 0x6_4ed8aa4a, 0x6_5b9cca4f, 0x6_682e6ff3])
    ensures RowOfCubeRoots(K7, [269, 271, 277, 281, 283, 293, 307, 311],
      [0x6_748f82ee, 0x6_78a5636f, 0x6_84c87814, 0x6_8cc70208, 0x6_90befffa, 0x6_a4506ceb, 0x6_bef9a3f7, 0x6_c67178f2])
  {
  }

  // ---------- What the functions of section 4.1.2 do, bit by bit ----------

  /** Ch chooses: where x has a one the bit of y, and where it has a zero that of z. */
  lemma ChChooses(x: Word, y: Word, z: Word)
    ensures Ch(x, y, z) & x == y & x
    ensures Ch(x, y, z) & !x == z & !x
  {
  }

  /** Maj takes the majority: where two agree their bit, whatever the third. */
  lemma MajTakesTheMajority(x: Word, y: Word, z: Word)
    ensures Maj(x, y, z) & !(x ^ y) == x & !(x ^ y)
    ensures Maj(x, y, z) & (x ^ y) == z & (x ^ y)
  {
  }

  lemma AddCancels(x: Word, y: Word, z: Word)
    requires Add(x, z) == Add(y, z)
    ensures x == y
  {
  }

  lemma FiveCancel(x: Word, y: Word, a: Word, b: Word, c: Word, d: Word)
    requires Add(Add(Add(Add(x, a), b), c), d) == Add(Add(Add(Add(y, a), b), c), d)
    ensures x == y
  {
    hide Add;
    AddCancels(Add(Add(Add(x, a), b), c), Add(Add(Add(y, a), b), c), d);
    AddCancels(Add(Add(x, a), b), Add(Add(y, a), b), c);
    AddCancels(Add(x, a), Add(y, a), b);
    AddCancels(x, y, a);
  }

  /** A round loses nothing: different variables stay different. */
  lemma RoundIsInjective(s: State, t: State, k: Word, w: Word)
    requires Round(s, k, w) == Round(t, k, w)
    ensures s == t
  {
    hide Add, Ch, Maj, BigSigma0, BigSigma1;
    assert s.a == t.a && s.b == t.b && s.c == t.c && s.e == t.e && s.f == t.f && s.g == t.g;
    var sum, choice := BigSigma1(s.e), Ch(s.e, s.f, s.g);
    var t1 := Add(Add(Add(Add(s.h, sum), choice), k), w);
    var u1 := Add(Add(Add(Add(t.h, sum), choice), k), w);
    var t2 := Add(BigSigma0(s.a), Maj(s.a, s.b, s.c));
    AddCancels(t1, u1, t2);
    FiveCancel(s.h, t.h, sum, choice, k, w);
    assert Add(s.d, t1) == Add(t.d, t1);
    AddCancels(s.d, t.d, t1);
  }

  // ---------- One step of each recursion of the standard ----------

  lemma ScheduleStarts(block: Block, t: nat)
    requires t < 16
    ensures Schedule(block, t) == MessageWord(block, t)
  {
    hide ScheduleStep, MessageWord;
  }

  lemma ScheduleContinues(block: Block, t: nat)
    requires 16 <= t < 64
    ensures Schedule(block, t) ==
            ScheduleStep(
              Schedule(block, t - 2), Schedule(block, t - 7), Schedule(block, t - 15), Schedule(block, t - 16))
  {
    hide ScheduleStep, MessageWord;
  }

  lemma RoundsStart(block: Block, s: State)
    ensures Rounds(block, s, 0) == s
  {
    hide Round, Schedule;
  }

  lemma RoundsContinue(block: Block, s: State, t: nat)
    requires t < 64
    ensures |K| == 64
    ensures Rounds(block, s, t + 1) == Round(Rounds(block, s, t), K[t], Schedule(block, t))
  {
    hide Round, Schedule;
  }

  lemma AddsWords(s: State, t: State, i: nat)
    requires i < 8
    ensures WordAt(AddStates(s, t), i) == Add(WordAt(s, i), WordAt(t, i))
  {
    hide Add;
  }

  /** A block is mixed into the hash value by adding word to word. */
  lemma CompressAdds(s: State, block: Block, i: nat)
    requires i < 8
    ensures WordAt(Compress(s, block), i) == Add(WordAt(s, i), WordAt(Rounds(block, s, 64), i))
  {
    hide Rounds, Add, WordAt, AddStates;
    AddsWords(s, Rounds(block, s, 64), i);
  }
}
