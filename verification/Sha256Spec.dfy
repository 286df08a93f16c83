/**
 The Secure Hash Algorithm SHA-256 as FIPS 180-4 defines it, for messages of whole bytes.

 Everything here is recursive and follows the standard, not the program: the functions of
 section 4.1.2, the constants of section 4.2.2, the padding of section 5.1.1, the initial hash
 value of section 5.3.3 and the computation of section 6.2.
 */
module Sha256Spec {

  type Byte = bv8
  type Word = bv32
  type Block = b: seq<Byte> | |b| == 64 witness seq(64, _ => 0)

  /** The hash value H, or the eight working variables of one round. */
  datatype State = State(a: Word, b: Word, c: Word, d: Word, e: Word, f: Word, g: Word, h: Word)

  const TWO_TO_64: nat := 0x1_0000_0000_0000_0000

  // ---------- Sections 3.2 and 4.1.2: functions ----------

  /** Addition modulo 2^32, which is what + on 32-bit vectors is. */
  function Add(x: Word, y: Word): Word { x + y }

  function Rotr(x: Word, n: bv6): Word
    requires 0 < n < 32
  {
    (x >> n) | (x << (32 - n))
  }

  function Ch(x: Word, y: Word, z: Word): Word { (x & y) ^ (!x & z) }

  function Maj(x: Word, y: Word, z: Word): Word { (x & y) ^ (x & z) ^ (y & z) }

  function BigSigma0(x: Word): Word { Rotr(x, 2) ^ Rotr(x, 13) ^ Rotr(x, 22) }

  function BigSigma1(x: Word): Word { Rotr(x, 6) ^ Rotr(x, 11) ^ Rotr(x, 25) }

  function SmallSigma0(x: Word): Word { Rotr(x, 7) ^ Rotr(x, 18) ^ (x >> 3) }

  function SmallSigma1(x: Word): Word { Rotr(x, 17) ^ Rotr(x, 19) ^ (x >> 10) }

  // ---------- Sections 4.2.2 and 5.3.3: constants ----------

  const K0: seq<Word> := [
    0x428a2f98, 0x71374491, 0xb5c0fbcf, 0xe9b5dba5, 0x3956c25b, 0x59f111f1, 0x923f82a4, 0xab1c5ed5]
  const K1: seq<Word> := [
    0xd807aa98, 0x12835b01, 0x243185be, 0x550c7dc3, 0x72be5d74, 0x80deb1fe, 0x9bdc06a7, 0xc19bf174]
  const K2: seq<Word> := [
    0xe49b69c1, 0xefbe4786, 0x0fc19dc6, 0x240ca1cc, 0x2de92c6f, 0x4a7484aa, 0x5cb0a9dc, 0x76f988da]
  const K3: seq<Word> := [
    0x983e5152, 0xa831c66d, 0xb00327c8, 0xbf597fc7, 0xc6e00bf3, 0xd5a79147, 0x06ca6351, 0x14292967]
  const K4: seq<Word> := [
    0x27b70a85, 0x2e1b2138, 0x4d2c6dfc, 0x53380d13, 0x650a7354, 0x766a0abb, 0x81c2c92e, 0x92722c85]
  const K5: seq<Word> := [
    0xa2bfe8a1, 0xa81a664b, 0xc24b8b70, 0xc76c51a3, 0xd192e819, 0xd6990624, 0xf40e3585, 0x106aa070]
  const K6: seq<Word> := [
    0x19a4c116, 0x1e376c08, 0x2748774c, 0x34b0bcb5, 0x391c0cb3, 0x4ed8aa4a, 0x5b9cca4f, 0x682e6ff3]
  const K7: seq<Word> := [
    0x748f82ee, 0x78a5636f, 0x84c87814, 0x8cc70208, 0x90befffa, 0xa4506ceb, 0xbef9a3f7, 0xc67178f2]

  /** The sixty-four round constants. */
  const K: seq<Word> := K0 + K1 + K2 + K3 + K4 + K5 + K6 + K7

  const INITIAL_HASH := State(0x6a09e667, 0xbb67ae85, 0x3c6ef372, 0xa54ff53a,
                             0x510e527f, 0x9b05688c, 0x1f83d9ab, 0x5be0cd19)

  // ---------- Section 6.2.2: the hash computation of one block ----------

  /** Word t of a block, big-endian. */
  function MessageWord(block: Block, t: nat): Word
    requires t < 16
  {
    ((block[4 * t] as Word) << 24) | ((block[4 * t + 1] as Word) << 16) |
    ((block[4 * t + 2] as Word) << 8) | (block[4 * t + 3] as Word)
  }

  /** W_t from W_{t-2}, W_{t-7}, W_{t-15} and W_{t-16}. */
  function ScheduleStep(w2: Word, w7: Word, w15: Word, w16: Word): Word {
    Add(Add(Add(SmallSigma1(w2), w7), SmallSigma0(w15)), w16)
  }

  /** The message schedule W_t. */
  function Schedule(block: Block, t: nat): Word
    requires t < 64
  {
    if t < 16 then
      MessageWord(block, t)
    else
      ScheduleStep(Schedule(block, t - 2), Schedule(block, t - 7), Schedule(block, t - 15), Schedule(block, t - 16))
  }

  /** One round on the working variables, with constant k and schedule word w. */
  function Round(s: State, k: Word, w: Word): State {
    var t1 := Add(Add(Add(Add(s.h, BigSigma1(s.e)), Ch(s.e, s.f, s.g)), k), w);
    var t2 := Add(BigSigma0(s.a), Maj(s.a, s.b, s.c));
    State(Add(t1, t2), s.a, s.b, s.c, Add(s.d, t1), s.e, s.f, s.g)
  }

  /** The working variables after the first t rounds. */
  function Rounds(block: Block, s: State, t: nat): State
    requires t <= 64
  {
    if t == 0 then s else Round(Rounds(block, s, t - 1), K[t - 1], Schedule(block, t - 1))
  }

  function AddStates(s: State, t: State): State {
    State(Add(s.a, t.a), Add(s.b, t.b), Add(s.c, t.c), Add(s.d, t.d),
          Add(s.e, t.e), Add(s.f, t.f), Add(s.g, t.g), Add(s.h, t.h))
  }

  function Compress(s: State, block: Block): State {
    AddStates(s, Rounds(block, s, 64))
  }

  /** The hash value after every block of a padded message. */
  function HashBlocks(s: State, padded: seq<Byte>): State
    requires |padded| % 64 == 0
    decreases |padded|
  {
    if padded == [] then s else HashBlocks(Compress(s, padded[..64]), padded[64..])
  }

  // ---------- Section 5.1.1: padding ----------

  function Zeros(n: nat): (z: seq<Byte>)
    ensures |z| == n
  {
    seq(n, _ => 0)
  }

  /** The number of zero bytes between the byte 0x80 and the length field. */
  function ZeroCount(length: nat): (zeros: nat)
    ensures (length + zeros + 9) % 64 == 0
  {
    (55 - length) % 64
  }

  /** A bit count as eight bytes, most significant first. */
  function LengthField(bits: bv64): (bytes: seq<Byte>)
    ensures |bytes| == 8
  {
    [(bits >> 56) as Byte, ((bits >> 48) & 0xFF) as Byte, ((bits >> 40) & 0xFF) as Byte,
     ((bits >> 32) & 0xFF) as Byte, ((bits >> 24) & 0xFF) as Byte, ((bits >> 16) & 0xFF) as Byte,
     ((bits >> 8) & 0xFF) as Byte, (bits & 0xFF) as Byte]
  }

  function BitCount(length: nat): bv64
    requires 8 * length < TWO_TO_64
  {
    (8 * length) as bv64
  }

  /** What is appended to a message of so many bytes. */
  function Padding(length: nat): (p: seq<Byte>)
    requires 8 * length < TWO_TO_64
    ensures |p| == ZeroCount(length) + 9
  {
    [0x80] + Zeros(ZeroCount(length)) + LengthField(BitCount(length))
  }

  // ---------- Section 6.2: the digest ----------

  /** The four bytes of a word, most significant first. */
  function WordBytes(w: Word): (bytes: seq<Byte>)
    ensures |bytes| == 4
  {
    [(w >> 24) as Byte, ((w >> 16) & 0xFF) as Byte, ((w >> 8) & 0xFF) as Byte, (w & 0xFF) as Byte]
  }

  function WordAt(s: State, i: nat): Word
    requires i < 8
  {
    match i
    case 0 => s.a case 1 => s.b case 2 => s.c case 3 => s.d
    case 4 => s.e case 5 => s.f case 6 => s.g case _ => s.h
  }

  /** The first n words of the hash value, as bytes. */
  function DigestPrefix(s: State, n: nat): (bytes: seq<Byte>)
    requires n <= 8
    ensures |bytes| == 4 * n
  {
    if n == 0 then [] else DigestPrefix(s, n - 1) + WordBytes(WordAt(s, n - 1))
  }

  /** The 256-bit message digest. */
  function Digest(s: State): (md: seq<Byte>)
    ensures |md| == 32
  {
    DigestPrefix(s, 8)
  }

  function Sha256(message: seq<Byte>): seq<Byte>
    requires 8 * |message| < TWO_TO_64
  {
    Digest(HashBlocks(INITIAL_HASH, message + Padding(|message|)))
  }
}
