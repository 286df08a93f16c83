/** A hash that takes one byte at a time: the simple form that the streaming context refines. */
module Sponges {
  import opened Sequences
  import opened Sha256Spec

  datatype Sponge = Sponge(hash: State, pending: seq<Byte>) {
    predicate Valid() { |pending| < 64 }
  }

  const EMPTY := Sponge(INITIAL_HASH, [])

  /** One byte joins the pending ones; the sixty-fourth completes a block. */
  function TakeByte(s: Sponge, b: Byte): (r: Sponge)
    requires s.Valid()
    ensures r.Valid()
  {
    if |s.pending| == 63 then Sponge(Compress(s.hash, s.pending + [b]), []) else Sponge(s.hash, s.pending + [b])
  }

  function Feed(s: Sponge, bytes: seq<Byte>): (r: Sponge)
    requires s.Valid()
    ensures r.Valid()
    decreases |bytes|
  {
    if bytes == [] then s else Feed(TakeByte(s, bytes[0]), bytes[1..])
  }

  lemma {:induction false} FeedConcat(s: Sponge, x: seq<Byte>, y: seq<Byte>)
    requires s.Valid()
    ensures Feed(s, x + y) == Feed(Feed(s, x), y)
    decreases |x|
  {
    hide Compress;
    if x == [] {
      assert x + y == y;
    } else {
      FeedConcat(TakeByte(s, x[0]), x[1..], y);
      assert (x + y)[1..] == x[1..] + y;
    }
  }

  lemma {:induction false} FeedShort(s: Sponge, bytes: seq<Byte>)
    requires |s.pending| + |bytes| < 64
    ensures Feed(s, bytes) == Sponge(s.hash, s.pending + bytes)
    decreases |bytes|
  {
    hide Compress;
    if bytes == [] {
      assert s.pending + bytes == s.pending;
    } else {
      FeedShort(TakeByte(s, bytes[0]), bytes[1..]);
      assert s.pending + [bytes[0]] + bytes[1..] == s.pending + bytes;
    }
  }

  lemma FeedToFull(s: Sponge, bytes: seq<Byte>)
    requires |s.pending| < 64 == |s.pending| + |bytes|
    ensures Feed(s, bytes) == Sponge(Compress(s.hash, s.pending + bytes), [])
  {
    hide Compress;
    var k := |bytes| - 1;
    assert bytes == bytes[..k] + [bytes[k]];
    FeedConcat(s, bytes[..k], [bytes[k]]);
    FeedShort(s, bytes[..k]);
    var t := Sponge(s.hash, s.pending + bytes[..k]);
    assert t.pending + [bytes[k]] == s.pending + bytes;
    assert Feed(t, [bytes[k]]) == Feed(TakeByte(t, bytes[k]), []);
  }

  /** Where the last complete block of a message ends. */
  function BlocksEnd(length: nat): nat { length - length % 64 }

  /** From an empty buffer, feeding folds compression over the complete blocks and keeps the rest. */
  lemma {:induction false} FeedFoldsBlocks(h: State, bytes: seq<Byte>)
    ensures var end := BlocksEnd(|bytes|);
            Feed(Sponge(h, []), bytes) == Sponge(HashBlocks(h, bytes[..end]), bytes[end..])
    decreases |bytes|
  {
    hide Compress;
    var end := BlocksEnd(|bytes|);
    if |bytes| < 64 {
      FeedShort(Sponge(h, []), bytes);
      assert bytes[..end] == [] && bytes[end..] == bytes;
    } else {
      var first, rest := bytes[..64], bytes[64..];
      assert bytes == first + rest && [] + first == first;
      FeedConcat(Sponge(h, []), first, rest);
      FeedToFull(Sponge(h, []), first);
      FeedFoldsBlocks(Compress(h, first), rest);
      assert bytes[..end][..64] == first && bytes[..end][64..] == rest[..end - 64];
      assert bytes[end..] == rest[end - 64..];
    }
  }

  lemma FeedLeavesRemainder(message: seq<Byte>)
    ensures |Feed(EMPTY, message).pending| == |message| % 64
  {
    hide Feed, HashBlocks;
    FeedFoldsBlocks(INITIAL_HASH, message);
  }

  /** Closing: the pending bytes, the padding and the bit count are the last one or two blocks. */
  function Close(s: Sponge, bits: bv64): State
    requires s.Valid()
  {
    HashBlocks(s.hash, s.pending + [0x80] + Zeros(ZeroCount(|s.pending|)) + LengthField(bits))
  }

  lemma {:induction false} HashBlocksConcat(h: State, x: seq<Byte>, y: seq<Byte>)
    requires |x| % 64 == |y| % 64 == 0
    ensures HashBlocks(h, x + y) == HashBlocks(HashBlocks(h, x), y)
    decreases |x|
  {
    hide Compress;
    if x == [] {
      assert x + y == y;
    } else {
      assert (x + y)[..64] == x[..64] && (x + y)[64..] == x[64..] + y;
      HashBlocksConcat(Compress(h, x[..64]), x[64..], y);
    }
  }

  lemma BlocksEndFacts(length: nat)
    ensures BlocksEnd(length) <= length && BlocksEnd(length) % 64 == 0 && length - BlocksEnd(length) < 64
    ensures ZeroCount(length - BlocksEnd(length)) == ZeroCount(length)
  {
  }

  /** The blocks already absorbed and the closing blocks together are the padded message. */
  lemma CloseCompletesPadding(message: seq<Byte>, end: nat, bits: bv64)
    requires end <= |message| && end % 64 == 0 && |message| - end < 64
    requires ZeroCount(|message| - end) == ZeroCount(|message|)
    ensures var pad := [0x80] + Zeros(ZeroCount(|message|)) + LengthField(bits);
            && |message + pad| % 64 == 0
            && Close(Sponge(HashBlocks(INITIAL_HASH, message[..end]), message[end..]), bits) ==
               HashBlocks(INITIAL_HASH, message + pad)
  {
    hide Compress, LengthField, HashBlocks, ZeroCount, Zeros;
    var zeros, field := Zeros(ZeroCount(|message|)), LengthField(bits);
    var tail := message[end..] + [0x80] + zeros + field;
    assert message + ([0x80] + zeros + field) == message[..end] + tail;
    HashBlocksConcat(INITIAL_HASH, message[..end], tail);
  }

  /** Feeding byte by byte and closing computes the standard's digest. */
  lemma FeedThenCloseIsSha256(message: seq<Byte>)
    requires 8 * |message| < TWO_TO_64
    ensures Digest(Close(Feed(EMPTY, message), BitCount(|message|))) == Sha256(message)
  {
    hide Compress, Digest, LengthField, BitCount, HashBlocks, ZeroCount, Zeros, BlocksEnd, Feed, Close;
    BlocksEndFacts(|message|);
    FeedFoldsBlocks(INITIAL_HASH, message);
    CloseCompletesPadding(message, BlocksEnd(|message|), BitCount(|message|));
  }

  lemma HashOneBlock(h: State, block: Block)
    ensures HashBlocks(h, block) == Compress(h, block)
  {
    hide Compress;
    assert block[..64] == block && block[64..] == [];
    assert HashBlocks(Compress(h, block), []) == Compress(h, block);
  }

  /** With at most 55 pending bytes, closing takes one block ... */
  lemma CloseInOneBlock(s: Sponge, bits: bv64)
    requires |s.pending| <= 55
    ensures Close(s, bits) ==
            Compress(s.hash, s.pending + [0x80] + Zeros(55 - |s.pending|) + LengthField(bits))
  {
    hide Compress, LengthField, HashBlocks;
    assert ZeroCount(|s.pending|) == 55 - |s.pending|;
    HashOneBlock(s.hash, s.pending + [0x80] + Zeros(55 - |s.pending|) + LengthField(bits));
  }

  /** ... and otherwise two, the second of which is zeros and the length. */
  lemma CloseInTwoBlocks(s: Sponge, bits: bv64)
    requires 56 <= |s.pending| < 64
    ensures Close(s, bits) == Compress(Compress(s.hash, s.pending + [0x80] + Zeros(63 - |s.pending|)),
                                       Zeros(56) + LengthField(bits))
  {
    hide Compress, LengthField, HashBlocks;
    assert ZeroCount(|s.pending|) == 119 - |s.pending|;
    var first, second := s.pending + [0x80] + Zeros(63 - |s.pending|), Zeros(56) + LengthField(bits);
    assert Zeros(119 - |s.pending|) == Zeros(63 - |s.pending|) + Zeros(56);
    assert s.pending + [0x80] + Zeros(119 - |s.pending|) + LengthField(bits) == first + second;
    HashBlocksConcat(s.hash, first, second);
    HashOneBlock(s.hash, first);
    HashOneBlock(HashBlocks(s.hash, first), second);
  }

  // ---------- Chunks ----------

  function FeedAll(s: Sponge, chunks: seq<seq<Byte>>): (r: Sponge)
    requires s.Valid()
    ensures r.Valid()
    decreases |chunks|
  {
    if chunks == [] then s else FeedAll(Feed(s, chunks[0]), chunks[1..])
  }

  /** How a message is cut into chunks does not matter. */
  lemma {:induction false} ChunkingDoesNotMatter(s: Sponge, chunks: seq<seq<Byte>>)
    requires s.Valid()
    ensures FeedAll(s, chunks) == Feed(s, Flatten(chunks))
    decreases |chunks|
  {
    if chunks != [] {
      FeedConcat(s, chunks[0], Flatten(chunks[1..]));
      ChunkingDoesNotMatter(Feed(s, chunks[0]), chunks[1..]);
    }
  }
}
