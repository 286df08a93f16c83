/**
 The packed pixel buffer of frameworks/common/src/avsession_pixel_map_adapter.cpp: a two-byte header
 length, the image information, a four-byte size, and the pixels; and the copy that makes pixels with
 padded rows dense.
 */
module PixelBuffer {
  import opened Machine
  import opened Wrappers

  const IMAGE_BYTE_SIZE := 2
  const DATA_BYTE_SIZE := 4
  const DEFAULT_IMAGE_INFO_SIZE := 48
  /** Header length, image information and size. */
  const OVERHEAD := IMAGE_BYTE_SIZE + DEFAULT_IMAGE_INFO_SIZE + DATA_BYTE_SIZE
  const TWO_TO_32 := 0x1_0000_0000

  /** An ImageInfo as it lies in memory. */
  type RawInfo = b: Bytes | |b| == DEFAULT_IMAGE_INFO_SIZE witness seq(DEFAULT_IMAGE_INFO_SIZE, _ => 0)
  /** A size that fits an unsigned 32-bit number. */
  type UInt32 = n: nat | n < TWO_TO_32

  /** The fields that survive packing: the first six words of an ImageInfo. */
  datatype ImageInfo = ImageInfo(
    width: bv32, height: bv32, pixelFormat: bv32, colorSpace: bv32, alphaType: bv32, baseDensity: bv32)

  datatype Picture = Picture(info: ImageInfo, pixels: Bytes)

  // ---------- Rows with padding ----------

  /** Where row i starts, rows being so many bytes apart. */
  function Start(i: nat, apart: nat): nat { i * apart }

  lemma NextStart(i: nat, apart: nat)
    ensures Start(0, apart) == 0 && Start(i + 1, apart) == Start(i, apart) + apart
  {
  }

  lemma {:induction false} StartsIncrease(i: nat, k: nat, apart: nat)
    requires i <= k
    ensures Start(i, apart) <= Start(k, apart)
    decreases k - i
  {
    hide Start;
    if i < k {
      StartsIncrease(i, k - 1, apart);
      NextStart(k - 1, apart);
    }
  }

  /** The last byte of the last of h rows is there. */
  predicate RowsFit(h: nat, stride: nat, w: nat, size: nat) { h > 0 ==> Start(h - 1, stride) + w <= size }

  lemma LowerRowsFit(i: nat, h: nat, stride: nat, w: nat, size: nat)
    requires i <= h && RowsFit(h, stride, w, size)
    ensures RowsFit(i, stride, w, size)
  {
    if i > 0 { StartsIncrease(i - 1, h - 1, stride); }
  }

  /** The first h rows of w bytes, rows starting every stride bytes. */
  function Rows(src: Bytes, h: nat, stride: nat, w: nat): (rows: Bytes)
    requires RowsFit(h, stride, w, |src|)
    ensures |rows| == Start(h, w)
  {
    NextStart(if h == 0 then 0 else h - 1, w);
    if h == 0 then [] else
      LowerRowsFit(h - 1, h, stride, w, |src|);
      Rows(src, h - 1, stride, w) + src[Start(h - 1, stride)..Start(h - 1, stride) + w]
  }

  /** Dense packing: row i, column j ends up at i * w + j. */
  lemma {:induction false} RowsAreDense(src: Bytes, h: nat, stride: nat, w: nat, i: nat, j: nat)
    requires RowsFit(h, stride, w, |src|)
    requires i < h && j < w
    ensures Start(i, w) + j < |Rows(src, h, stride, w)| && Start(i, stride) + j < |src|
    ensures Rows(src, h, stride, w)[Start(i, w) + j] == src[Start(i, stride) + j]
  {
    hide Start;
    NextStart(h - 1, w);
    LowerRowsFit(h - 1, h, stride, w, |src|);
    if i < h - 1 {
      RowsAreDense(src, h - 1, stride, w, i, j);
    }
  }

  /** bufferSize - i * rowBytes in unsigned 32-bit arithmetic. */
  function Remaining(bufferSize: UInt32, i: nat, rowBytes: nat): UInt32 {
    (bufferSize - Start(i, rowBytes) % TWO_TO_32) % TWO_TO_32
  }

  /** The room that is left never wraps around and always holds the next row. */
  lemma RemainingCoversTheRow(bufferSize: UInt32, height: nat, rowBytes: nat, i: nat)
    requires Start(height, rowBytes) <= bufferSize && i < height
    ensures Start(i, rowBytes) + rowBytes <= bufferSize
    ensures Remaining(bufferSize, i, rowBytes) == bufferSize - Start(i, rowBytes) >= rowBytes
  {
    hide Start;
    NextStart(i, rowBytes);
    StartsIncrease(i + 1, height, rowBytes);
  }

  predicate DmaIsValid(height: int, stride: int, rowBytes: int, bufferSize: int) {
    height >= 0 && rowBytes > 0 && stride >= 0 && Start(height, rowBytes) <= bufferSize
  }

  /** memcpy_s: copies unless the count is over the room given. */
  method CopyBytes(dst: array<bv8>, at: nat, room: nat, src: Bytes) returns (ok: bool)
    requires at + |src| <= dst.Length
    modifies dst
    ensures ok == (|src| <= room)
    ensures dst[..] == if ok then old(dst[..at]) + src + old(dst[at + |src|..]) else old(dst[..])
  {
    ok := |src| <= room;
    if ok {
      forall k | 0 <= k < |src| { dst[at + k] := src[k]; }
    }
  }

  /** The first i rows are in place and the rest of the destination is as it was. */
  predicate Filled(now: Bytes, was: Bytes, src: Bytes, i: nat, stride: nat, w: nat)
    requires RowsFit(i, stride, w, |src|)
  {
    Start(i, w) <= |was| && now == Rows(src, i, stride, w) + was[Start(i, w)..]
  }

  lemma FilledGrows(now: Bytes, was: Bytes, src: Bytes, i: nat, stride: nat, w: nat)
    requires RowsFit(i, stride, w, |src|) && RowsFit(i + 1, stride, w, |src|)
    requires Filled(now, was, src, i, stride, w) && Start(i, w) + w <= |was|
    ensures |now| == |was| && Start(i, stride) + w <= |src|
    ensures var row := src[Start(i, stride)..Start(i, stride) + w];
            Filled(now[..Start(i, w)] + row + now[Start(i, w) + w..], was, src, i + 1, stride, w)
  {
    hide Start;
    NextStart(i, w);
    var row := src[Start(i, stride)..Start(i, stride) + w];
    assert Rows(src, i + 1, stride, w) == Rows(src, i, stride, w) + row;
    assert now[..Start(i, w)] == Rows(src, i, stride, w);
    assert now[Start(i, w) + w..] == was[Start(i, w) + w..];
  }

  /** One row: the destination pointer is at row i, and the room left is what remains of the buffer. */
  method CopyRow(dst: array<bv8>, src: Bytes, i: nat, height: nat, stride: nat, w: nat, ghost was: Bytes)
    returns (ok: bool)
    requires dst.Length < TWO_TO_32
    requires i < height && Start(height, w) <= dst.Length
    requires RowsFit(i, stride, w, |src|) && RowsFit(height, stride, w, |src|)
    requires Filled(dst[..], was, src, i, stride, w)
    modifies dst
    ensures ok && RowsFit(i + 1, stride, w, |src|) && Filled(dst[..], was, src, i + 1, stride, w)
  {
    hide Filled, Remaining, Start, Rows;
    LowerRowsFit(i + 1, height, stride, w, |src|);
    RemainingCoversTheRow(dst.Length, height, w, i);
    ghost var before := dst[..];
    FilledSize(before, was, src, i, stride, w);
    FilledGrows(before, was, src, i, stride, w);
    var row := src[Start(i, stride)..Start(i, stride) + w];
    ok := CopyBytes(dst, Start(i, w), Remaining(dst.Length, i, w), row);
  }

  lemma FilledSize(now: Bytes, was: Bytes, src: Bytes, i: nat, stride: nat, w: nat)
    requires RowsFit(i, stride, w, |src|) && Filled(now, was, src, i, stride, w)
    ensures |now| == |was|
  {
    hide Start;
  }

  /** Copies DMA pixels row by row, dropping what pads each row. */
  method CopyRows(src: Bytes, height: int, stride: int, rowBytes: int, dst: array<bv8>) returns (ok: bool)
    requires dst.Length < TWO_TO_32
    requires DmaIsValid(height, stride, rowBytes, dst.Length) ==> RowsFit(height, stride, rowBytes, |src|)
    modifies dst
    ensures ok == DmaIsValid(height, stride, rowBytes, dst.Length)
    ensures if ok then Filled(dst[..], old(dst[..]), src, height, stride, rowBytes) else dst[..] == old(dst[..])
  {
    if !(height >= 0 && rowBytes > 0 && stride >= 0) { return false; }
    if Start(height, rowBytes) > dst.Length { return false; }
    ghost var was := dst[..];
    var i := 0;
    NothingFilled(was, src, stride, rowBytes);
    while i < height
      invariant 0 <= i <= height
      invariant RowsFit(i, stride, rowBytes, |src|)
      invariant Filled(dst[..], was, src, i, stride, rowBytes)
    {
      hide *;
      ok := CopyRow(dst, src, i, height, stride, rowBytes, was);
      if !ok { return false; }
      i := i + 1;
    }
    ok := true;
  }

  /** What a filled destination holds, byte by byte: row i, column j in its place, and nothing else touched. */
  lemma FilledIsDense(
    now: Bytes, was: Bytes, src: Bytes, h: nat, stride: nat, w: nat, i: nat, j: nat)
    requires RowsFit(h, stride, w, |src|) && Filled(now, was, src, h, stride, w)
    requires i < h && j < w
    ensures |now| == |was| && Start(i, w) + j < |now| && Start(i, stride) + j < |src|
    ensures now[Start(i, w) + j] == src[Start(i, stride) + j]
    ensures forall k :: Start(h, w) <= k < |was| ==> now[k] == was[k]
  {
    hide Start;
    RowsAreDense(src, h, stride, w, i, j);
  }

  lemma NothingFilled(was: Bytes, src: Bytes, stride: nat, w: nat)
    ensures RowsFit(0, stride, w, |src|) && Filled(was, was, src, 0, stride, w)
  {
  }

  /**
   Copies the pixels of a source into a buffer of its own size. Pixels in DMA memory lie in rows of
   rowBytes bytes every stride bytes; the source owns the rows it announces.
   */
  method CopyPixMapToDst(
    dma: bool, src: Bytes, height: int, stride: int, rowBytes: int, dst: array<bv8>) returns (ok: bool)
    requires dst.Length < TWO_TO_32
    requires dma && DmaIsValid(height, stride, rowBytes, dst.Length) ==> RowsFit(height, stride, rowBytes, |src|)
    requires !dma ==> |src| >= dst.Length
    modifies dst
    ensures ok == (dma ==> DmaIsValid(height, stride, rowBytes, dst.Length))
    ensures !ok ==> dst[..] == old(dst[..])
    ensures !dma ==> dst[..] == src[..dst.Length]
    ensures dma && ok ==> Filled(dst[..], old(dst[..]), src, height, stride, rowBytes)
  {
    hide Filled, RowsFit, DmaIsValid, Rows;
    if dma {
      ok := CopyRows(src, height, stride, rowBytes, dst);
    } else {
      ok := CopyBytes(dst, 0, dst.Length, src[..dst.Length]);
    }
  }

  // ---------- The four size bytes ----------

  function Mask(i: nat): bv32
    requires i < DATA_BYTE_SIZE
  {
    match i case 0 => 0xFF000000 case 1 => 0x00FF0000 case 2 => 0x0000FF00 case _ => 0x000000FF
  }

  function Shift(i: nat): (s: bv6)
    requires i < DATA_BYTE_SIZE
    ensures s <= 24
  {
    match i case 0 => 24 case 1 => 16 case 2 => 8 case _ => 0
  }

  /** The i-th size byte, most significant first. */
  function SizeByte(size: bv32, i: nat): bv8
    requires i < DATA_BYTE_SIZE
  {
    ByteUnder(size, Mask(i), Shift(i))
  }

  function ByteUnder(size: bv32, mask: bv32, shift: bv6): bv8
    requires shift <= 24
  {
    (((size & mask) >> shift) & 0xFF) as bv8
  }

  function SizeBytes(size: bv32): (b: Bytes)
    ensures |b| == DATA_BYTE_SIZE
  {
    [SizeByte(size, 0), SizeByte(size, 1), SizeByte(size, 2), SizeByte(size, 3)]
  }

  /** The sum of the first n bytes shifted to their places, in unsigned 32-bit arithmetic. */
  function SizeUpTo(b: Bytes, n: nat): bv32
    requires |b| == DATA_BYTE_SIZE && n <= DATA_BYTE_SIZE
  {
    if n == 0 then 0 else Plus(SizeUpTo(b, n - 1), Placed(b[n - 1], n - 1))
  }

  function Plus(x: bv32, y: bv32): bv32 { x + y }

  function Placed(byte: bv8, i: nat): bv32
    requires i < DATA_BYTE_SIZE
  {
    (byte as bv32) << Shift(i)
  }

  function SizeOf(b: Bytes): bv32
    requires |b| == DATA_BYTE_SIZE
  {
    SizeUpTo(b, DATA_BYTE_SIZE)
  }

  lemma SizeOfFour(b: Bytes)
    requires |b| == DATA_BYTE_SIZE
    ensures SizeOf(b) == Plus(Plus(Plus(Plus(0, Placed(b[0], 0)), Placed(b[1], 1)), Placed(b[2], 2)), Placed(b[3], 3))
  {
    hide Plus, Placed;
    assert SizeUpTo(b, 1) == Plus(0, Placed(b[0], 0));
    assert SizeUpTo(b, 2) == Plus(SizeUpTo(b, 1), Placed(b[1], 1));
    assert SizeUpTo(b, 3) == Plus(SizeUpTo(b, 2), Placed(b[2], 2));
  }

  lemma SplitAndSum(size: bv32)
    ensures Plus(Plus(Plus(Plus(0,
              Placed(SizeByte(size, 0), 0)), Placed(SizeByte(size, 1), 1)), Placed(SizeByte(size, 2), 2)),
              Placed(SizeByte(size, 3), 3)) == size
  {
  }

  lemma SumAndSplit(a: bv8, b: bv8, c: bv8, d: bv8)
    ensures var size := Plus(Plus(Plus(Plus(0, Placed(a, 0)), Placed(b, 1)), Placed(c, 2)), Placed(d, 3));
            SizeByte(size, 0) == a && SizeByte(size, 1) == b && SizeByte(size, 2) == c && SizeByte(size, 3) == d
  {
  }

  /** Encoder and decoder undo each other on every 32-bit value and on every four bytes. */
  lemma SizeRoundTrip(size: bv32)
    ensures SizeOf(SizeBytes(size)) == size
  {
    hide SizeOf, SizeByte, Plus, Placed;
    SizeOfFour(SizeBytes(size));
    SplitAndSum(size);
  }

  lemma SizeBytesRoundTrip(b: Bytes)
    requires |b| == DATA_BYTE_SIZE
    ensures SizeBytes(SizeOf(b)) == b
  {
    hide SizeOf, SizeByte, Plus, Placed;
    SizeOfFour(b);
    SumAndSplit(b[0], b[1], b[2], b[3]);
  }

  // ---------- The packed buffer ----------

  /** What the image library makes of the fields. */
  type ByteCount = ImageInfo -> Int32

  function AsUInt32(n: int): UInt32 { n % TWO_TO_32 }

  function AsWord(n: UInt32): bv32 { n as bv32 }

  function AsInt32(n: nat): int { if n % TWO_TO_32 < 0x8000_0000 then n % TWO_TO_32 else n % TWO_TO_32 - TWO_TO_32 }

  /** Four bytes of memory as a 32-bit field. */
  function Field(b: Bytes, at: nat): bv32
    requires at + 4 <= |b|
  {
    (b[at] as bv32) | ((b[at + 1] as bv32) << 8) | ((b[at + 2] as bv32) << 16) | ((b[at + 3] as bv32) << 24)
  }

  /** The fields of an ImageInfo that starts at position at. */
  function FieldsAt(b: Bytes, at: nat): ImageInfo
    requires at + 24 <= |b|
  {
    ImageInfo(
      Field(b, at), Field(b, at + 4), Field(b, at + 8), Field(b, at + 12), Field(b, at + 16), Field(b, at + 20))
  }

  function Pack(info: RawInfo, pixels: Bytes): Bytes
    requires |pixels| < TWO_TO_32
  {
    [0, 48] + info + SizeBytes(AsWord(|pixels|)) + pixels
  }

  function HeaderLength(b: Bytes): bv16
    requires |b| >= 2
  {
    ((b[0] as bv16) << 8) + (b[1] as bv16)
  }

  /** How many pixel bytes a buffer has room for, as an unsigned 32-bit number. */
  function PixelRoom(b: Bytes): UInt32 { (|b| - OVERHEAD) % TWO_TO_32 }

  predicate HasInfo(b: Bytes) {
    AsInt32(|b|) > IMAGE_BYTE_SIZE + DEFAULT_IMAGE_INFO_SIZE && HeaderLength(b) == 48
  }

  predicate Accepted(b: Bytes, count: ByteCount) {
    && HasInfo(b) && |b| >= OVERHEAD
    && AsUInt32(count(FieldsAt(b, IMAGE_BYTE_SIZE))) == PixelRoom(b)
    && SizeOf(b[OVERHEAD - DATA_BYTE_SIZE..OVERHEAD]) == AsWord(PixelRoom(b))
  }

  /** A buffer that ends within its size bytes is not announced by a negative byte count, which would have them read. */
  predicate SizeIsThere(b: Bytes, count: ByteCount) {
    HasInfo(b) && |b| < OVERHEAD ==> count(FieldsAt(b, IMAGE_BYTE_SIZE)) != |b| - OVERHEAD
  }

  /** The picture in a buffer, or nothing for a buffer that is turned down. */
  function Parse(b: Bytes, count: ByteCount): Option<Picture> {
    if Accepted(b, count) then
      Some(Picture(FieldsAt(b, IMAGE_BYTE_SIZE), b[OVERHEAD..OVERHEAD + PixelRoom(b)]))
    else None
  }

  /**
   A packed picture is taken, and comes back as it was, exactly when its pixels are as many as its
   fields announce and the whole buffer has a size that fits an int32_t.
   */
  lemma PackThenParse(info: RawInfo, pixels: Bytes, count: ByteCount)
    requires |pixels| < 0x8000_0000
    ensures Parse(Pack(info, pixels), count) ==
            if count(FieldsAt(info, 0)) == |pixels| && |pixels| + OVERHEAD < 0x8000_0000 then
              Some(Picture(FieldsAt(info, 0), pixels))
            else None
  {
    hide SizeBytes, SizeOf, AsWord, Field;
    var b := Pack(info, pixels);
    InfoOfPack(info, pixels);
    assert b[OVERHEAD - DATA_BYTE_SIZE..OVERHEAD] == SizeBytes(AsWord(|pixels|));
    assert PixelRoom(b) == |pixels| && b[OVERHEAD..OVERHEAD + |pixels|] == pixels;
    SizeRoundTrip(AsWord(|pixels|));
    assert AsInt32(|b|) > 50 <==> |b| < 0x8000_0000;
  }

  // ---------- The format, byte by byte ----------

  /** A field is four bytes, least significant first. */
  lemma FieldExactly(b: Bytes, at: nat)
    requires at + 4 <= |b|
    ensures var f := Field(b, at);
            && f & 0xFF == b[at] as bv32 && (f >> 8) & 0xFF == b[at + 1] as bv32
            && (f >> 16) & 0xFF == b[at + 2] as bv32 && f >> 24 == b[at + 3] as bv32
  {
  }

  /** The fields that are read lie in this order, every four bytes. */
  lemma FieldsExactly(b: Bytes, at: nat)
    requires at + 24 <= |b|
    ensures var i := FieldsAt(b, at);
            && i.width == Field(b, at) && i.height == Field(b, at + 4) && i.pixelFormat == Field(b, at + 8)
            && i.colorSpace == Field(b, at + 12) && i.alphaType == Field(b, at + 16)
            && i.baseDensity == Field(b, at + 20)
  {
  }

  /** Four bytes as a number, most significant first. */
  function BigEndian(a: bv8, b: bv8, c: bv8, d: bv8): bv32 {
    ((a as bv32) << 24) | ((b as bv32) << 16) | ((c as bv32) << 8) | (d as bv32)
  }

  lemma SumIsBigEndian(a: bv8, b: bv8, c: bv8, d: bv8)
    ensures Plus(Plus(Plus(Plus(0, Placed(a, 0)), Placed(b, 1)), Placed(c, 2)), Placed(d, 3)) == BigEndian(a, b, c, d)
  {
  }

  lemma SizeIsBigEndian(b: Bytes)
    requires |b| == 4
    ensures SizeOf(b) == BigEndian(b[0], b[1], b[2], b[3])
  {
    hide SizeOf, Plus, Placed, BigEndian;
    SizeOfFour(b);
    SumIsBigEndian(b[0], b[1], b[2], b[3]);
  }

  /** What is built: 0 and 48, the image information, the number of pixel bytes, the pixels. */
  lemma PackExactly(info: RawInfo, pixels: Bytes)
    requires |pixels| < TWO_TO_32
    ensures var b := Pack(info, pixels);
            && |b| == 54 + |pixels| && b[0] == 0 && b[1] == 48 && b[2..50] == info && b[54..] == pixels
            && BigEndian(b[50], b[51], b[52], b[53]) == |pixels| as bv32
  {
    hide SizeOf, BigEndian, SizeByte;
    var size := SizeBytes(|pixels| as bv32);
    SizeRoundTrip(|pixels| as bv32);
    SizeIsBigEndian(size);
    assert Pack(info, pixels)[50..54] == size;
  }

  /**
   What is taken: a buffer with an int32_t size over 50 and at least 54 bytes, 0 and 48 in front, and as many
   bytes behind the size, by 32-bit numbers, as the size says and as the image library computes.
   */
  lemma AcceptedExactly(b: Bytes, count: ByteCount)
    ensures Parse(b, count).Some? <==>
            && 50 < |b| % 0x1_0000_0000 < 0x8000_0000 && |b| >= 54 && b[0] == 0 && b[1] == 48
            && count(FieldsAt(b, 2)) % 0x1_0000_0000 == (|b| - 54) % 0x1_0000_0000
            && BigEndian(b[50], b[51], b[52], b[53]) == ((|b| - 54) % 0x1_0000_0000) as bv32
  {
    hide SizeOf, BigEndian, FieldsAt, HeaderLength;
    assert Parse(b, count).Some? <==> Accepted(b, count);
    hide Parse;
    if |b| >= 54 {
      HeaderIsZeroAndFortyEight(b);
      SizeIsBigEndian(b[50..54]);
      assert b[50..54][0] == b[50] && b[50..54][1] == b[51] && b[50..54][2] == b[52] && b[50..54][3] == b[53];
    }
  }

  /** The picture in it: its fields, and so many bytes behind the size. */
  lemma ParsedExactly(b: Bytes, count: ByteCount)
    requires Parse(b, count).Some?
    ensures 54 <= 54 + (|b| - 54) % 0x1_0000_0000 <= |b|
    ensures Parse(b, count).value == Picture(FieldsAt(b, 2), b[54..54 + (|b| - 54) % 0x1_0000_0000])
  {
    hide SizeOf, FieldsAt, HeaderLength, AsWord;
    RoomIsThere(b);
  }

  lemma HeaderIsZeroAndFortyEight(b: Bytes)
    requires |b| >= 2
    ensures HeaderLength(b) == 48 <==> b[0] == 0 && b[1] == 48
  {
  }

  /** Copying from DMA memory needs a height and a stride that are not negative, a width, and room for all rows. */
  lemma DmaExactly(height: int, stride: int, rowBytes: int, bufferSize: int)
    ensures DmaIsValid(height, stride, rowBytes, bufferSize) <==>
            height >= 0 && stride >= 0 && rowBytes > 0 && height * rowBytes <= bufferSize
  {
  }

  lemma InfoOfPack(info: RawInfo, pixels: Bytes)
    requires |pixels| < TWO_TO_32
    ensures |Pack(info, pixels)| == OVERHEAD + |pixels| && HeaderLength(Pack(info, pixels)) == 48
    ensures FieldsAt(Pack(info, pixels), IMAGE_BYTE_SIZE) == FieldsAt(info, 0)
  {
    hide SizeBytes, Field;
    var b := Pack(info, pixels);
    assert b[0] == 0 && b[1] == 48;
    assert forall k :: 0 <= k < DEFAULT_IMAGE_INFO_SIZE ==> b[IMAGE_BYTE_SIZE + k] == info[k];
    assert info[0..24] == b[2..26];
    SameFields(info, 0, b, IMAGE_BYTE_SIZE);
  }

  lemma SameFields(b: Bytes, at: nat, c: Bytes, from: nat)
    requires at + 24 <= |b| && from + 24 <= |c| && b[at..at + 24] == c[from..from + 24]
    ensures FieldsAt(b, at) == FieldsAt(c, from)
  {
    hide Field;
    SameField(b, at, c, from, 0);
    SameField(b, at, c, from, 4);
    SameField(b, at, c, from, 8);
    SameField(b, at, c, from, 12);
    SameField(b, at, c, from, 16);
    SameField(b, at, c, from, 20);
  }

  lemma SameField(b: Bytes, at: nat, c: Bytes, from: nat, k: nat)
    requires at + 24 <= |b| && from + 24 <= |c| && b[at..at + 24] == c[from..from + 24] && k <= 20
    ensures Field(b, at + k) == Field(c, from + k)
  {
    hide Field;
    var x, y := b[at..at + 24], c[from..from + 24];
    assert x[k] == y[k] && x[k + 1] == y[k + 1] && x[k + 2] == y[k + 2] && x[k + 3] == y[k + 3];
    FieldOfBytes(b, at + k);
    FieldOfBytes(c, from + k);
  }

  lemma FieldOfBytes(b: Bytes, at: nat)
    requires at + 4 <= |b|
    ensures Field(b, at) == Field([b[at], b[at + 1], b[at + 2], b[at + 3]], 0)
  {
  }

  lemma HeaderIsFortyEight(b: Bytes)
    requires |b| >= 2 && HeaderLength(b) == 48
    ensures b[0] == 0 && b[1] == 48
  {
  }

  /**
   Every buffer that is taken starts with the packing of the picture it is taken for, and is exactly that
   packing unless it has more than 4 GiB of pixels, where its size is cut to 32 bits.
   */
  lemma ParsedIsPacked(b: Bytes, count: ByteCount)
    requires Parse(b, count).Some?
    ensures OVERHEAD <= |b|
    ensures var p := Parse(b, count).value;
            var info := b[IMAGE_BYTE_SIZE..IMAGE_BYTE_SIZE + DEFAULT_IMAGE_INFO_SIZE];
            && Pack(info, p.pixels) <= b && (Pack(info, p.pixels) == b <==> |b| < OVERHEAD + TWO_TO_32)
            && p.info == FieldsAt(info, 0) && AsUInt32(count(p.info)) == |p.pixels|
  {
    hide SizeBytes, SizeOf, AsWord, Field;
    HeaderIsFortyEight(b);
    var room := PixelRoom(b);
    RoomIsThere(b);
    var size := b[OVERHEAD - DATA_BYTE_SIZE..OVERHEAD];
    var info := b[IMAGE_BYTE_SIZE..IMAGE_BYTE_SIZE + DEFAULT_IMAGE_INFO_SIZE];
    SizeBytesRoundTrip(size);
    assert b[..OVERHEAD + room] == b[..2] + info + size + b[OVERHEAD..OVERHEAD + room];
    assert b[..2] == [0, 48];
    assert b[2..26] == info[0..24];
    SameFields(info, 0, b, IMAGE_BYTE_SIZE);
  }

  lemma RoomIsThere(b: Bytes)
    requires AsInt32(|b|) > IMAGE_BYTE_SIZE + DEFAULT_IMAGE_INFO_SIZE && |b| >= OVERHEAD
    ensures OVERHEAD + PixelRoom(b) <= |b|
    ensures OVERHEAD + PixelRoom(b) == |b| <==> |b| < OVERHEAD + TWO_TO_32
  {
  }

  /** Appends the four size bytes, moving the mask down a byte at a time. */
  method AppendSize(buffer: Bytes, pixelDataSize: bv32) returns (imgBuffer: Bytes)
    ensures imgBuffer == buffer + SizeBytes(pixelDataSize)
  {
    hide ByteUnder, Shift;
    imgBuffer := buffer;
    var computedValue: bv32 := 0xFF000000;
    for i := 0 to DATA_BYTE_SIZE
      invariant i < DATA_BYTE_SIZE ==> computedValue == Mask(i)
      invariant imgBuffer == buffer + SizeBytes(pixelDataSize)[..i]
    {
      var tmpValue := ByteUnder(pixelDataSize, computedValue, Shift(i));
      assert SizeBytes(pixelDataSize)[i] == tmpValue;
      imgBuffer := imgBuffer + [tmpValue];
      computedValue := computedValue >> 8;
    }
  }

  method ConvertAndSetInnerImgBuffer(info: RawInfo, pixels: Bytes) returns (imgBuffer: Bytes)
    requires |pixels| < 0x8000_0000
    ensures imgBuffer == Pack(info, pixels)
  {
    hide AsWord, SizeBytes;
    var imageInfoSize: bv16 := 48;
    imgBuffer := [((imageInfoSize & 0xFF00) >> 8) as bv8];
    imgBuffer := imgBuffer + [(imageInfoSize & 0x00FF) as bv8];
    imgBuffer := imgBuffer + info;
    imgBuffer := AppendSize(imgBuffer, AsWord(|pixels|));
    imgBuffer := imgBuffer + pixels;
  }

  lemma SizeBytesThere(b: Bytes, count: ByteCount)
    requires HasInfo(b) && SizeIsThere(b, count)
    requires AsUInt32(count(FieldsAt(b, IMAGE_BYTE_SIZE))) == PixelRoom(b)
    ensures OVERHEAD + PixelRoom(b) <= |b|
  {
  }

  /** The pixels are given to the image library; the picture is what it is given. */
  method ConvertFromInner(innerImgBuffer: Bytes, count: ByteCount) returns (picture: Option<Picture>)
    requires SizeIsThere(innerImgBuffer, count)
    ensures picture == Parse(innerImgBuffer, count)
  {
    hide AsWord, Field, Plus, Placed;
    if AsInt32(|innerImgBuffer|) <= IMAGE_BYTE_SIZE + DEFAULT_IMAGE_INFO_SIZE { return None; }
    var imgBufferSize := innerImgBuffer[0] as bv16;
    imgBufferSize := (imgBufferSize << 8) + (innerImgBuffer[1] as bv16);
    if imgBufferSize != 48 { return None; }
    var imageInfo := ConvertImageInfoFromInner(innerImgBuffer);
    var imgByteSizeExist := PixelRoom(innerImgBuffer);
    var imgByteSizeInner := AsUInt32(count(imageInfo));
    if imgByteSizeInner != imgByteSizeExist { return None; }
    SizeBytesThere(innerImgBuffer, count);
    var dataSize: bv32 := 0;
    ghost var sizeBytes := innerImgBuffer[OVERHEAD - DATA_BYTE_SIZE..OVERHEAD];
    for i := 0 to DATA_BYTE_SIZE
      invariant dataSize == SizeUpTo(sizeBytes, i)
    {
      var tmpValue := innerImgBuffer[IMAGE_BYTE_SIZE + DEFAULT_IMAGE_INFO_SIZE + i];
      dataSize := Plus(dataSize, Placed(tmpValue, i));
    }
    if dataSize != AsWord(imgByteSizeExist) { return None; }
    picture := Some(Picture(imageInfo, innerImgBuffer[OVERHEAD..OVERHEAD + imgByteSizeExist]));
  }

  method ConvertImageInfoFromInner(innerImgBuffer: Bytes) returns (imageInfo: ImageInfo)
    requires AsInt32(|innerImgBuffer|) > IMAGE_BYTE_SIZE + DEFAULT_IMAGE_INFO_SIZE
    ensures imageInfo == FieldsAt(innerImgBuffer, IMAGE_BYTE_SIZE)
  {
    var offset := IMAGE_BYTE_SIZE;
    var width, height := Field(innerImgBuffer, offset), Field(innerImgBuffer, offset + 4);
    offset := offset + 8;
    var pixelFormat := Field(innerImgBuffer, offset);
    offset := offset + 4;
    var colorSpace := Field(innerImgBuffer, offset);
    offset := offset + 4;
    var alphaType := Field(innerImgBuffer, offset);
    offset := offset + 4;
    imageInfo := ImageInfo(width, height, pixelFormat, colorSpace, alphaType, Field(innerImgBuffer, offset));
  }
}
