/**
 The parcel of a metadata object token by token, and what the reader makes of any stream: which tokens it
 takes for which field, and where each failure leaves it.
 */
module MetaDataWire {
  import opened Machine
  import opened MetaDataRoundTrip
  import opened MetaDataSpec
  import opened Parcels
  import opened Wrappers

  // ---------- Writing ----------

  function SentBytes(image: Option<Image>): Image {
    if image.Some? && |image.value| <= 10485760 then image.value else []
  }

  /** Sending records the lengths of the images that are there, 0 for one over 10 MiB, and changes nothing else. */
  lemma MeasuredExactly(m: MetaData)
    ensures var r := Measured(m).fields.sizes;
            && r.mediaLength == (if m.mediaImage.Some? then |SentBytes(m.mediaImage)| else m.fields.sizes.mediaLength)
            && r.avQueueLength ==
               (if m.avQueueImage.Some? then |SentBytes(m.avQueueImage)| else m.fields.sizes.avQueueLength)
            && r.displayTags == m.fields.sizes.displayTags
            && Measured(m) == m.(fields := m.fields.(sizes := r))
  {
  }

  /** The size of both images, the mask with its highest bit first, the fields in this order, the icon. */
  lemma EncodeStart(m: MetaData)
    ensures var e, f := Encode(m), m.fields;
            && |e| >= 29
            && e[0] == I32(|SentBytes(m.mediaImage)| + |SentBytes(m.avQueueImage)|)
            && e[1].Str? && |e[1].s| == 28
            && (forall i :: 0 <= i < 28 ==> e[1].s[i] == if m.mask[27 - i] then '1' else '0')
            && e[2] == Str(f.identity.assetId)
            && e[3] == Str(f.identity.title)
            && e[4] == Str(f.identity.artist)
            && e[5] == Str(f.identity.author)
            && e[6] == Str(f.queue.avQueueName)
            && e[7] == Str(f.queue.avQueueId)
            && e[8] == Str(f.queue.avQueueImageUri)
            && e[9] == Str(f.credits.album)
            && e[10] == Str(f.credits.writer)
            && e[11] == Str(f.credits.composer)
            && e[12] == I64(f.credits.duration)
            && e[13] == Str(f.about.mediaImageUri)
            && e[14] == Dbl(f.about.publishDate)
            && e[15] == Str(f.about.subTitle)
            && e[16] == Str(f.about.description)
            && e[17] == Str(f.lyrics.lyric)
            && e[18] == Str(f.lyrics.singleLyricText)
            && e[19] == Str(f.lyrics.previousAssetId)
            && e[20] == Str(f.lyrics.nextAssetId)
            && e[21] == I32(f.intervals.skipIntervals)
            && e[22] == I32(f.intervals.fastForwardSkipIntervals)
            && e[23] == I32(f.intervals.rewindSkipIntervals)
            && e[24] == I32(f.intervals.filter)
            && e[27] == I32(f.sizes.displayTags)
            && e[25] == I32(Measured(m).fields.sizes.mediaLength)
            && e[26] == I32(Measured(m).fields.sizes.avQueueLength)
            && e[28] == Icon(m.bundleIcon)
  {
    hide Encode, ExceptImages, FieldTokens, DrmTokens, At, MaskString;
    var e, w := Encode(m), Measured(m);
    EncodeInParts(m);
    MaskIsPrinted(m.mask);
    FieldTokensExactly(e, w.fields);
  }

  lemma MaskIsPrinted(mask: Mask)
    ensures |MaskString(mask)| == 28
    ensures forall i :: 0 <= i < 28 ==> MaskString(mask)[i] == if mask[27 - i] then '1' else '0'
  {
  }

  lemma TokenAt(s: seq<Token>, at: nat, t: seq<Token>, i: nat)
    requires At(s, at, t) && i < |t|
    ensures at + i < |s| && s[at + i] == t[i]
  {
    assert s[at..at + |t|][i] == t[i];
  }

  lemma EncodeInParts(m: MetaData)
    ensures var e, w := Encode(m), Measured(m);
            && |e| >= 29 && e[0] == I32(|Blob(m)|) && e[1] == Str(MaskString(m.mask))
            && At(e, 2, FieldTokens(w.fields)) && e[28] == Icon(m.bundleIcon)
  {
    hide FieldTokens, DrmTokens, MaskString;
    var e, w := Encode(m), Measured(m);
    assert e[..] == e;
    EncodeParts(e, 0, m);
    Parts(w);
    var afterFields := [Icon(w.bundleIcon)] + DrmTokens(w.drmSchemes);
    AtConcat(e, 1, [Str(MaskString(w.mask))], FieldTokens(w.fields) + afterFields);
    AtHead(e, 1, Str(MaskString(w.mask)));
    AtConcat(e, 2, FieldTokens(w.fields), afterFields);
    AtConcat(e, 28, [Icon(w.bundleIcon)], DrmTokens(w.drmSchemes));
    AtHead(e, 28, Icon(w.bundleIcon));
  }

  lemma FieldTokensExactly(e: seq<Token>, f: Fields)
    requires At(e, 2, FieldTokens(f))
    ensures |e| >= 28
    ensures e[2] == Str(f.identity.assetId)
    ensures e[3] == Str(f.identity.title)
    ensures e[4] == Str(f.identity.artist)
    ensures e[5] == Str(f.identity.author)
    ensures e[6] == Str(f.queue.avQueueName)
    ensures e[7] == Str(f.queue.avQueueId)
    ensures e[8] == Str(f.queue.avQueueImageUri)
    ensures e[9] == Str(f.credits.album)
    ensures e[10] == Str(f.credits.writer)
    ensures e[11] == Str(f.credits.composer)
    ensures e[12] == I64(f.credits.duration)
    ensures e[13] == Str(f.about.mediaImageUri)
    ensures e[14] == Dbl(f.about.publishDate)
    ensures e[15] == Str(f.about.subTitle)
    ensures e[16] == Str(f.about.description)
    ensures e[17] == Str(f.lyrics.lyric)
    ensures e[18] == Str(f.lyrics.singleLyricText)
    ensures e[19] == Str(f.lyrics.previousAssetId)
    ensures e[20] == Str(f.lyrics.nextAssetId)
    ensures e[21] == I32(f.intervals.skipIntervals)
    ensures e[22] == I32(f.intervals.fastForwardSkipIntervals)
    ensures e[23] == I32(f.intervals.rewindSkipIntervals)
    ensures e[24] == I32(f.intervals.filter)
    ensures e[25] == I32(f.sizes.mediaLength)
    ensures e[26] == I32(f.sizes.avQueueLength)
    ensures e[27] == I32(f.sizes.displayTags)
  {
    SplitFields(e, 2, f);
    hide At, FieldTokens;
    TokenAt(e, 2, IdentityTokens(f.identity), 0);
    TokenAt(e, 2, IdentityTokens(f.identity), 1);
    TokenAt(e, 2, IdentityTokens(f.identity), 2);
    TokenAt(e, 2, IdentityTokens(f.identity), 3);
    TokenAt(e, 6, QueueTokens(f.queue), 0);
    TokenAt(e, 6, QueueTokens(f.queue), 1);
    TokenAt(e, 6, QueueTokens(f.queue), 2);
    TokenAt(e, 9, CreditsTokens(f.credits), 0);
    TokenAt(e, 9, CreditsTokens(f.credits), 1);
    TokenAt(e, 9, CreditsTokens(f.credits), 2);
    TokenAt(e, 9, CreditsTokens(f.credits), 3);
    TokenAt(e, 13, AboutTokens(f.about), 0);
    TokenAt(e, 13, AboutTokens(f.about), 1);
    TokenAt(e, 13, AboutTokens(f.about), 2);
    TokenAt(e, 13, AboutTokens(f.about), 3);
    TokenAt(e, 17, LyricsTokens(f.lyrics), 0);
    TokenAt(e, 17, LyricsTokens(f.lyrics), 1);
    TokenAt(e, 17, LyricsTokens(f.lyrics), 2);
    TokenAt(e, 17, LyricsTokens(f.lyrics), 3);
    TokenAt(e, 21, IntervalsTokens(f.intervals), 0);
    TokenAt(e, 21, IntervalsTokens(f.intervals), 1);
    TokenAt(e, 21, IntervalsTokens(f.intervals), 2);
    TokenAt(e, 21, IntervalsTokens(f.intervals), 3);
    TokenAt(e, 25, SizesTokens(f.sizes), 0);
    TokenAt(e, 25, SizesTokens(f.sizes), 1);
    TokenAt(e, 25, SizesTokens(f.sizes), 2);
  }

  /** Then at most ten schemes with their number, and the images one after the other if they make 1 byte to 10 MiB. */
  lemma EncodeEnd(m: MetaData)
    ensures var e, n := Encode(m), |m.drmSchemes|;
            var blob := SentBytes(m.mediaImage) + SentBytes(m.avQueueImage);
            var drm := if n <= 10 then [I32(n)] + seq(n, i requires 0 <= i < n => Str(m.drmSchemes[i])) else [];
            |e| >= 29 && e[29..] == drm + if 0 < |blob| <= 10485760 then [Raw(blob)] else []
  {
    hide FieldTokens;
    var head := [I32(|Blob(m)|), Str(MaskString(m.mask))] + FieldTokens(Measured(m).fields) + [Icon(m.bundleIcon)];
    var tail := DrmTokens(m.drmSchemes) + if SendsBlob(|Blob(m)|) then [Raw(Blob(m))] else [];
    assert Encode(m) == head + tail;
    assert |head| == 29;
  }

  // ---------- Reading the fields ----------

  /** Token i of the fields is of the type of field i. */
  predicate Typed(s: seq<Token>, at: nat, i: nat) {
    && at + i < |s|
    && if i == 10 then s[at + i].I64? else if i == 12 then s[at + i].Dbl?
       else if i >= 19 then s[at + i].I32? else s[at + i].Str?
  }

  /** Exactly the first k of the 26 fields can be read. */
  predicate Readable(s: seq<Token>, at: nat, k: nat) {
    k <= 26 && (forall i :: 0 <= i < k ==> Typed(s, at, i)) && (k < 26 ==> !Typed(s, at, k))
  }

  function StrAt(s: seq<Token>, i: nat, was: string): string { if IsStr(s, i) then s[i].s else was }

  function LongAt(s: seq<Token>, i: nat, was: Int64): Int64 { if IsI64(s, i) then s[i].l else was }

  function DoubleAt(s: seq<Token>, i: nat, was: DoubleBits): DoubleBits { if IsDbl(s, i) then s[i].d else was }

  function IntAt(s: seq<Token>, i: nat, was: Int32): Int32 { if IsI32(s, i) then s[i].i else was }

  /** How many of the n fields from the given one on are among the first k. */
  function Share(k: nat, from: nat, n: nat): nat { if k <= from then 0 else if k < from + n then k - from else n }

  lemma IdentityReads(s: seq<Token>, at: nat, was: Identity, k: nat)
    requires Readable(s, at, k) && k >= 0
    ensures IdentityAt(s, at + 0, was) ==
            Part(k >= 4, Identity(
              if k > 0 then StrAt(s, at + 0, was.assetId) else was.assetId,
              if k > 1 then StrAt(s, at + 1, was.title) else was.title,
              if k > 2 then StrAt(s, at + 2, was.artist) else was.artist,
              if k > 3 then StrAt(s, at + 3, was.author) else was.author), at + 0 + Share(k, 0, 4))
  {
    assert k > 0 ==> Typed(s, at, 0);
    assert k > 1 ==> Typed(s, at, 1);
    assert k > 2 ==> Typed(s, at, 2);
    assert k > 3 ==> Typed(s, at, 3);
  }

  lemma QueueReads(s: seq<Token>, at: nat, was: Queue, k: nat)
    requires Readable(s, at, k) && k >= 4
    ensures QueueAt(s, at + 4, was) ==
            Part(k >= 7, Queue(
              if k > 4 then StrAt(s, at + 4, was.avQueueName) else was.avQueueName,
              if k > 5 then StrAt(s, at + 5, was.avQueueId) else was.avQueueId,
              if k > 6 then StrAt(s, at + 6, was.avQueueImageUri) else was.avQueueImageUri), at + 4 + Share(k, 4, 3))
  {
    assert k > 4 ==> Typed(s, at, 4);
    assert k > 5 ==> Typed(s, at, 5);
    assert k > 6 ==> Typed(s, at, 6);
  }

  lemma CreditsReads(s: seq<Token>, at: nat, was: Credits, k: nat)
    requires Readable(s, at, k) && k >= 7
    ensures CreditsAt(s, at + 7, was) ==
            Part(k >= 11, Credits(
              if k > 7 then StrAt(s, at + 7, was.album) else was.album,
              if k > 8 then StrAt(s, at + 8, was.writer) else was.writer,
              if k > 9 then StrAt(s, at + 9, was.composer) else was.composer,
              if k > 10 then LongAt(s, at + 10, was.duration) else was.duration), at + 7 + Share(k, 7, 4))
  {
    assert k > 7 ==> Typed(s, at, 7);
    assert k > 8 ==> Typed(s, at, 8);
    assert k > 9 ==> Typed(s, at, 9);
    assert k > 10 ==> Typed(s, at, 10);
  }

  lemma AboutReads(s: seq<Token>, at: nat, was: About, k: nat)
    requires Readable(s, at, k) && k >= 11
    ensures AboutAt(s, at + 11, was) ==
            Part(k >= 15, About(
              if k > 11 then StrAt(s, at + 11, was.mediaImageUri) else was.mediaImageUri,
              if k > 12 then DoubleAt(s, at + 12, was.publishDate) else was.publishDate,
              if k > 13 then StrAt(s, at + 13, was.subTitle) else was.subTitle,
              if k > 14 then StrAt(s, at + 14, was.description) else was.description), at + 11 + Share(k, 11, 4))
  {
    assert k > 11 ==> Typed(s, at, 11);
    assert k > 12 ==> Typed(s, at, 12);
    assert k > 13 ==> Typed(s, at, 13);
    assert k > 14 ==> Typed(s, at, 14);
  }

  lemma LyricsReads(s: seq<Token>, at: nat, was: Lyrics, k: nat)
    requires Readable(s, at, k) && k >= 15
    ensures LyricsAt(s, at + 15, was) ==
            Part(k >= 19, Lyrics(
              if k > 15 then StrAt(s, at + 15, was.lyric) else was.lyric,
              if k > 16 then StrAt(s, at + 16, was.singleLyricText) else was.singleLyricText,
              if k > 17 then StrAt(s, at + 17, was.previousAssetId) else was.previousAssetId,
              if k > 18 then StrAt(s, at + 18, was.nextAssetId) else was.nextAssetId), at + 15 + Share(k, 15, 4))
  {
    assert k > 15 ==> Typed(s, at, 15);
    assert k > 16 ==> Typed(s, at, 16);
    assert k > 17 ==> Typed(s, at, 17);
    assert k > 18 ==> Typed(s, at, 18);
  }

  lemma IntervalsReads(s: seq<Token>, at: nat, was: Intervals, k: nat)
    requires Readable(s, at, k) && k >= 19
    ensures IntervalsAt(s, at + 19, was) ==
            Part(k >= 23, Intervals(
              if k > 19 then IntAt(s, at + 19, was.skipIntervals) else was.skipIntervals,
              if k > 20 then IntAt(s, at + 20, was.fastForwardSkipIntervals) else was.fastForwardSkipIntervals,
              if k > 21 then IntAt(s, at + 21, was.rewindSkipIntervals) else was.rewindSkipIntervals,
              if k > 22 then IntAt(s, at + 22, was.filter) else was.filter), at + 19 + Share(k, 19, 4))
  {
    assert k > 19 ==> Typed(s, at, 19);
    assert k > 20 ==> Typed(s, at, 20);
    assert k > 21 ==> Typed(s, at, 21);
    assert k > 22 ==> Typed(s, at, 22);
  }

  lemma SizesReads(s: seq<Token>, at: nat, was: Sizes, k: nat)
    requires Readable(s, at, k) && k >= 23
    ensures SizesAt(s, at + 23, was) ==
            Part(k >= 26, Sizes(
              if k > 23 then IntAt(s, at + 23, was.mediaLength) else was.mediaLength,
              if k > 24 then IntAt(s, at + 24, was.avQueueLength) else was.avQueueLength,
              if k > 25 then IntAt(s, at + 25, was.displayTags) else was.displayTags), at + 23 + Share(k, 23, 3))
  {
    assert k > 23 ==> Typed(s, at, 23);
    assert k > 24 ==> Typed(s, at, 24);
    assert k > 25 ==> Typed(s, at, 25);
  }

  /** The parts whose turn comes are read, and a part that is not read to its end ends the reading. */
  lemma ReadInParts(s: seq<Token>, at: nat, was: Fields, k: nat)
    requires k <= 26
    requires k >= 0 ==>
               IdentityAt(s, at + 0, was.identity).ok == (k >= 4)
               && IdentityAt(s, at + 0, was.identity).cursor == at + 0 + Share(k, 0, 4)
    requires k >= 4 ==>
               QueueAt(s, at + 4, was.queue).ok == (k >= 7)
               && QueueAt(s, at + 4, was.queue).cursor == at + 4 + Share(k, 4, 3)
    requires k >= 7 ==>
               CreditsAt(s, at + 7, was.credits).ok == (k >= 11)
               && CreditsAt(s, at + 7, was.credits).cursor == at + 7 + Share(k, 7, 4)
    requires k >= 11 ==>
               AboutAt(s, at + 11, was.about).ok == (k >= 15)
               && AboutAt(s, at + 11, was.about).cursor == at + 11 + Share(k, 11, 4)
    requires k >= 15 ==>
               LyricsAt(s, at + 15, was.lyrics).ok == (k >= 19)
               && LyricsAt(s, at + 15, was.lyrics).cursor == at + 15 + Share(k, 15, 4)
    requires k >= 19 ==>
               IntervalsAt(s, at + 19, was.intervals).ok == (k >= 23)
               && IntervalsAt(s, at + 19, was.intervals).cursor == at + 19 + Share(k, 19, 4)
    requires k >= 23 ==>
               SizesAt(s, at + 23, was.sizes).ok == (k >= 26)
               && SizesAt(s, at + 23, was.sizes).cursor == at + 23 + Share(k, 23, 3)
    ensures ReadFields(s, at, was) ==
            Part(k == 26, Fields(
              if k >= 0 then IdentityAt(s, at + 0, was.identity).value else was.identity,
              if k >= 4 then QueueAt(s, at + 4, was.queue).value else was.queue,
              if k >= 7 then CreditsAt(s, at + 7, was.credits).value else was.credits,
              if k >= 11 then AboutAt(s, at + 11, was.about).value else was.about,
              if k >= 15 then LyricsAt(s, at + 15, was.lyrics).value else was.lyrics,
              if k >= 19 then IntervalsAt(s, at + 19, was.intervals).value else was.intervals,
              if k >= 23 then SizesAt(s, at + 23, was.sizes).value else was.sizes), at + k)
  {
    hide IdentityAt, QueueAt, CreditsAt, AboutAt, LyricsAt, IntervalsAt, SizesAt;
  }

  /** Reading takes the fields in their order up to the first that is not there, and leaves the others alone. */
  lemma ReadFieldsExactly(s: seq<Token>, at: nat, was: Fields, k: nat)
    requires Readable(s, at, k)
    ensures var r := ReadFields(s, at, was);
            && r.ok == (k == 26) && r.cursor == at + k
            && (var f, w := r.value.identity, was.identity;
                && f.assetId == (if k > 0 then StrAt(s, at + 0, w.assetId) else w.assetId)
                && f.title == (if k > 1 then StrAt(s, at + 1, w.title) else w.title)
                && f.artist == (if k > 2 then StrAt(s, at + 2, w.artist) else w.artist)
                && f.author == (if k > 3 then StrAt(s, at + 3, w.author) else w.author))
            && (var f, w := r.value.queue, was.queue;
                && f.avQueueName == (if k > 4 then StrAt(s, at + 4, w.avQueueName) else w.avQueueName)
                && f.avQueueId == (if k > 5 then StrAt(s, at + 5, w.avQueueId) else w.avQueueId)
                && f.avQueueImageUri == (if k > 6 then StrAt(s, at + 6, w.avQueueImageUri) else w.avQueueImageUri))
            && (var f, w := r.value.credits, was.credits;
                && f.album == (if k > 7 then StrAt(s, at + 7, w.album) else w.album)
                && f.writer == (if k > 8 then StrAt(s, at + 8, w.writer) else w.writer)
                && f.composer == (if k > 9 then StrAt(s, at + 9, w.composer) else w.composer)
                && f.duration == (if k > 10 then LongAt(s, at + 10, w.duration) else w.duration))
            && (var f, w := r.value.about, was.about;
                && f.mediaImageUri == (if k > 11 then StrAt(s, at + 11, w.mediaImageUri) else w.mediaImageUri)
                && f.publishDate == (if k > 12 then DoubleAt(s, at + 12, w.publishDate) else w.publishDate)
                && f.subTitle == (if k > 13 then StrAt(s, at + 13, w.subTitle) else w.subTitle)
                && f.description == (if k > 14 then StrAt(s, at + 14, w.description) else w.description))
            && (var f, w := r.value.lyrics, was.lyrics;
                && f.lyric == (if k > 15 then StrAt(s, at + 15, w.lyric) else w.lyric)
                && f.singleLyricText == (if k > 16 then StrAt(s, at + 16, w.singleLyricText) else w.singleLyricText)
                && f.previousAssetId == (if k > 17 then StrAt(s, at + 17, w.previousAssetId) else w.previousAssetId)
                && f.nextAssetId == (if k > 18 then StrAt(s, at + 18, w.nextAssetId) else w.nextAssetId))
            && (var f, w := r.value.intervals, was.intervals;
                && f.skipIntervals == (if k > 19 then IntAt(s, at + 19, w.skipIntervals) else w.skipIntervals)
                && f.fastForwardSkipIntervals ==
                   (if k > 20 then IntAt(s, at + 20, w.fastForwardSkipIntervals) else w.fastForwardSkipIntervals)
                && f.rewindSkipIntervals ==
                   (if k > 21 then IntAt(s, at + 21, w.rewindSkipIntervals) else w.rewindSkipIntervals)
                && f.filter == (if k > 22 then IntAt(s, at + 22, w.filter) else w.filter))
            && (var f, w := r.value.sizes, was.sizes;
                && f.mediaLength == (if k > 23 then IntAt(s, at + 23, w.mediaLength) else w.mediaLength)
                && f.avQueueLength == (if k > 24 then IntAt(s, at + 24, w.avQueueLength) else w.avQueueLength)
                && f.displayTags == (if k > 25 then IntAt(s, at + 25, w.displayTags) else w.displayTags))
  {
    assert k <= 26;
    hide IdentityAt, QueueAt, CreditsAt, AboutAt, LyricsAt, IntervalsAt, SizesAt, Readable;
    hide StrAt, LongAt, DoubleAt, IntAt, ReadFields;
    IdentityReads(s, at, was.identity, k);
    if k >= 4 { QueueReads(s, at, was.queue, k); }
    if k >= 7 { CreditsReads(s, at, was.credits, k); }
    if k >= 11 { AboutReads(s, at, was.about, k); }
    if k >= 15 { LyricsReads(s, at, was.lyrics, k); }
    if k >= 19 { IntervalsReads(s, at, was.intervals, k); }
    if k >= 23 { SizesReads(s, at, was.sizes, k); }
    ReadInParts(s, at, was, k);
  }

  // ---------- Reading the rest ----------

  lemma {:induction false} FlippedSoFar(text: string, n: nat, j: nat)
    requires n <= |text| <= 28 && j < 28
    ensures Flipped(New().mask, text, n)[j] == (|text| - n <= j < |text| && text[|text| - 1 - j] == '1')
    decreases n
  {
    if n > 0 { FlippedSoFar(text, n - 1, j); }
  }

  /** A mask is read from its last character on, and may be shorter than 28 bits. */
  lemma MaskReadExactly(text: string, j: nat)
    requires |text| <= 28 && j < 28
    ensures Flipped(New().mask, text, |text|)[j] == (j < |text| && text[|text| - 1 - j] == '1')
  {
    FlippedSoFar(text, |text|, j);
  }

  /** A new object has these fields and nothing else. */
  lemma NewIsEmpty()
    ensures var m := New();
            && (forall i :: 0 <= i < 28 ==> !m.mask[i])
            && m.fields == Fields(
                 Identity("", "", "", ""), Queue("", "", ""), Credits("", "", "", 0), About("", 0, "", ""),
                 Lyrics("", "", "", ""), Intervals(15, 0, 0, 2), Sizes(0, 0, 0))
            && m.mediaImage == m.avQueueImage == m.bundleIcon == None && m.drmSchemes == []
  {
  }

  /** Exactly the first k of n strings are there. */
  predicate StringsThere(s: seq<Token>, at: nat, n: nat, k: nat) {
    k <= n && (forall i :: at <= i < at + k ==> IsStr(s, i)) && (k < n ==> !IsStr(s, at + k))
  }

  lemma {:induction false} ReadStringsExactly(s: seq<Token>, at: nat, n: nat, k: nat, soFar: seq<string>)
    requires StringsThere(s, at, n, k)
    ensures ReadStrings(s, at, n, soFar) ==
            DrmRead(if k == n then Some(soFar + seq(n, i requires 0 <= i => StrAt(s, at + i, ""))) else None, at + k)
    decreases n
  {
    var all := seq(n, i requires 0 <= i => StrAt(s, at + i, ""));
    if n == 0 {
      assert soFar + all == soFar;
    } else if k > 0 {
      assert IsStr(s, at);
      ReadStringsExactly(s, at + 1, n - 1, k - 1, soFar + [s[at].s]);
      var rest := seq(n - 1, i requires 0 <= i => StrAt(s, at + 1 + i, ""));
      assert all[0] == StrAt(s, at + 0, "") == s[at].s;
      forall i | 0 < i < n
        ensures all[i] == rest[i - 1]
      {
        assert at + i == at + 1 + (i - 1);
      }
      assert all == [s[at].s] + rest;
      assert soFar + [s[at].s] + rest == soFar + all;
    }
  }

  /** Schemes are read from a count of 0 to 10 and so many strings; another count or a missing string is a failure. */
  lemma ReadDrmExactly(s: seq<Token>, at: nat, k: nat)
    ensures !IsI32(s, at) ==> ReadDrm(s, at) == DrmRead(None, at)
    ensures IsI32(s, at) && !(0 <= s[at].i <= 10) ==> ReadDrm(s, at) == DrmRead(None, at + 1)
    ensures IsI32(s, at) && 0 <= s[at].i <= 10 && StringsThere(s, at + 1, s[at].i, k) ==>
              ReadDrm(s, at) == DrmRead(
                if k == s[at].i then Some(seq(k, i requires 0 <= i => StrAt(s, at + 1 + i, ""))) else None, at + 1 + k)
  {
    if IsI32(s, at) && 0 <= s[at].i <= 10 && StringsThere(s, at + 1, s[at].i, k) {
      ReadStringsExactly(s, at + 1, s[at].i, k, []);
      var all := seq(s[at].i, i requires 0 <= i => StrAt(s, at + 1 + i, ""));
      assert [] + all == all;
    }
  }

  /** What is read, whether that is a failure, and where it ends, from the size of the images on. */
  datatype Body = Body(failed: bool, data: MetaData, cursor: nat)

  /**
   The body of a stream is read so: without a mask of 1 to 28 characters nothing more; an icon that is
   announced in the mask and missing ends it, even behind fields that cannot be read; then such fields, and
   schemes that cannot be read, are failures.
   */
  predicate IsBody(r: Body, s: seq<Token>, at: nat) {
    var masked := IsStr(s, at) && 0 < |s[at].s| <= 28;
    if !masked then r == Body(false, New(), if IsStr(s, at) then at + 1 else at)
    else
      var f := ReadFields(s, at + 1, New().fields);
      var there := f.cursor < |s| && s[f.cursor].Icon?;
      var end := if there then f.cursor + 1 else f.cursor;
      var data := New().(mask := Flipped(New().mask, s[at].s, |s[at].s|), fields := f.value,
                         bundleIcon := if there then s[f.cursor].image else None);
      var drm := ReadDrm(s, end);
      if data.mask[24] && data.bundleIcon.None? then r == Body(false, data, end)
      else if !f.ok then r == Body(true, data, end)
      else if drm.schemes.None? then r == Body(true, data, drm.cursor)
      else r == Body(false, data.(drmSchemes := drm.schemes.value), drm.cursor)
  }

  predicate Announced(n: int) { 0 < n <= 10485760 }

  /**
   What is turned down: a stream without a size, a failed body, display tags but 0 and 1, and where a size of
   1 byte to 10 MiB is announced, raw data of another size or a media length beyond it.
   */
  lemma DecodeExactly(s: seq<Token>, at: nat)
    ensures !IsI32(s, at) ==> Decode(s, at) == Decoded(None, at)
    ensures IsI32(s, at) ==>
              var r := ReadExceptImages(s, at + 1);
              && IsBody(Body(r.failed, r.data, r.cursor), s, at + 1)
              && var tags, n := r.data.fields.sizes.displayTags, r.data.fields.sizes.mediaLength;
                 var raw := r.cursor < |s| && s[r.cursor].Raw? && |s[r.cursor].bytes| == s[at].i;
                 if r.failed || tags < 0 || tags > 1 then Decode(s, at) == Decoded(None, r.cursor)
                 else if !Announced(s[at].i) then Decode(s, at) == Decoded(Some(r.data), r.cursor)
                 else if !raw then Decode(s, at) == Decoded(None, r.cursor)
                 else
                   && Decode(s, at).cursor == r.cursor + 1
                   && (Decode(s, at).data.Some? <==> 0 <= n <= s[at].i)
                   && (0 <= n <= s[at].i ==> Split(Decode(s, at).data.value, r.data, s[r.cursor].bytes))
  {
    hide ReadFields, ReadDrm, Flipped;
  }

  /** The images of a blob: n bytes for the one and the others for the other; each is announced in the mask. */
  predicate Split(w: MetaData, m: MetaData, blob: seq<bv8>)
    requires 0 <= m.fields.sizes.mediaLength <= |blob|
  {
    var n := m.fields.sizes.mediaLength;
    && w == m.(mediaImage := w.mediaImage, avQueueImage := w.avQueueImage, mask := w.mask)
    && w.mediaImage == (if n == 0 then m.mediaImage else Some(blob[..n]))
    && w.avQueueImage == (if n == |blob| then m.avQueueImage else Some(blob[n..]))
    && (forall i :: 0 <= i < 28 ==>
          w.mask[i] == (m.mask[i] || (i == 12 && n > 0) || (i == 6 && n < |blob|)))
  }
}
