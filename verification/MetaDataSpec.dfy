/**
 The parcel format of AVMetaData (frameworks/common/src/avmeta_data.cpp) on values: what is written
 for a metadata object, and what is read back from a stream of tokens.
 */
module MetaDataSpec {
  import opened Machine
  import opened Parcels
  import opened Wrappers

  const META_KEY_AVQUEUE_IMAGE := 6
  const META_KEY_MEDIA_IMAGE := 12
  const META_KEY_BUNDLE_ICON := 24
  const META_KEY_MAX := 28
  const DISPLAY_TAG_ALL := 1
  const MAX_IMAGE_SIZE := 10 * 1024 * 1024
  const MAX_DRM_SCHEMES := 10
  const FIELDS := 26

  /** Bit i is entry i. */
  type Mask = m: seq<bool> | |m| == META_KEY_MAX witness seq(META_KEY_MAX, _ => false)

  // The 26 fields that are written one after the other, in the order they are written.

  datatype Identity = Identity(assetId: string, title: string, artist: string, author: string)
  datatype Queue = Queue(avQueueName: string, avQueueId: string, avQueueImageUri: string)
  datatype Credits = Credits(album: string, writer: string, composer: string, duration: Int64)
  datatype About = About(mediaImageUri: string, publishDate: DoubleBits, subTitle: string, description: string)
  datatype Lyrics = Lyrics(lyric: string, singleLyricText: string, previousAssetId: string, nextAssetId: string)
  datatype Intervals = Intervals(
    skipIntervals: Int32, fastForwardSkipIntervals: Int32, rewindSkipIntervals: Int32, filter: Int32)
  datatype Sizes = Sizes(mediaLength: Int32, avQueueLength: Int32, displayTags: Int32)

  datatype Fields = Fields(
    identity: Identity, queue: Queue, credits: Credits, about: About,
    lyrics: Lyrics, intervals: Intervals, sizes: Sizes)

  datatype MetaData = MetaData(
    mask: Mask, fields: Fields, mediaImage: Option<Image>, avQueueImage: Option<Image>,
    bundleIcon: Option<Image>, drmSchemes: seq<string>)

  function NewFields(): Fields {
    Fields(
      Identity("", "", "", ""), Queue("", "", ""), Credits("", "", "", 0), About("", 0, "", ""),
      Lyrics("", "", "", ""), Intervals(15, 0, 0, 2), Sizes(0, 0, 0))
  }

  function New(): MetaData {
    MetaData(seq(META_KEY_MAX, _ => false), NewFields(), None, None, None, [])
  }

  // ---------- The plain fields: what is written ----------

  function IdentityTokens(v: Identity): seq<Token> {
    [Str(v.assetId), Str(v.title), Str(v.artist), Str(v.author)]
  }

  function QueueTokens(v: Queue): seq<Token> {
    [Str(v.avQueueName), Str(v.avQueueId), Str(v.avQueueImageUri)]
  }

  function CreditsTokens(v: Credits): seq<Token> {
    [Str(v.album), Str(v.writer), Str(v.composer), I64(v.duration)]
  }

  function AboutTokens(v: About): seq<Token> {
    [Str(v.mediaImageUri), Dbl(v.publishDate), Str(v.subTitle), Str(v.description)]
  }

  function LyricsTokens(v: Lyrics): seq<Token> {
    [Str(v.lyric), Str(v.singleLyricText), Str(v.previousAssetId), Str(v.nextAssetId)]
  }

  function IntervalsTokens(v: Intervals): seq<Token> {
    [I32(v.skipIntervals), I32(v.fastForwardSkipIntervals), I32(v.rewindSkipIntervals), I32(v.filter)]
  }

  function SizesTokens(v: Sizes): seq<Token> {
    [I32(v.mediaLength), I32(v.avQueueLength), I32(v.displayTags)]
  }

  function FieldTokens(f: Fields): (t: seq<Token>)
    ensures |t| == FIELDS
  {
    IdentityTokens(f.identity) + QueueTokens(f.queue) + CreditsTokens(f.credits) + AboutTokens(f.about)
    + LyricsTokens(f.lyrics) + IntervalsTokens(f.intervals) + SizesTokens(f.sizes)
  }

  // ---------- The plain fields: what is read ----------

  predicate IsStr(s: seq<Token>, i: nat) { i < |s| && s[i].Str? }
  predicate IsI32(s: seq<Token>, i: nat) { i < |s| && s[i].I32? }
  predicate IsI64(s: seq<Token>, i: nat) { i < |s| && s[i].I64? }
  predicate IsDbl(s: seq<Token>, i: nat) { i < |s| && s[i].Dbl? }

  /** How many of up to four reads succeed, when the first failure ends them. */
  function InARow(first: bool, second: bool, third: bool, fourth: bool): nat {
    if !first then 0 else if !second then 1 else if !third then 2 else if !fourth then 3 else 4
  }

  /** A read of several fields in a row stops at the first that is not there; the others keep their values. */
  datatype Part<T> = Part(ok: bool, value: T, cursor: nat)

  function IdentityAt(s: seq<Token>, at: nat, was: Identity): Part<Identity> {
    var n := InARow(IsStr(s, at), IsStr(s, at + 1), IsStr(s, at + 2), IsStr(s, at + 3));
    Part(n == 4, Identity(
      if n > 0 then s[at].s else was.assetId,
      if n > 1 then s[at + 1].s else was.title,
      if n > 2 then s[at + 2].s else was.artist,
      if n > 3 then s[at + 3].s else was.author), at + n)
  }

  function QueueAt(s: seq<Token>, at: nat, was: Queue): Part<Queue> {
    var n := InARow(IsStr(s, at), IsStr(s, at + 1), IsStr(s, at + 2), false);
    Part(n == 3, Queue(
      if n > 0 then s[at].s else was.avQueueName,
      if n > 1 then s[at + 1].s else was.avQueueId,
      if n > 2 then s[at + 2].s else was.avQueueImageUri), at + n)
  }

  function CreditsAt(s: seq<Token>, at: nat, was: Credits): Part<Credits> {
    var n := InARow(IsStr(s, at), IsStr(s, at + 1), IsStr(s, at + 2), IsI64(s, at + 3));
    Part(n == 4, Credits(
      if n > 0 then s[at].s else was.album,
      if n > 1 then s[at + 1].s else was.writer,
      if n > 2 then s[at + 2].s else was.composer,
      if n > 3 then s[at + 3].l else was.duration), at + n)
  }

  function AboutAt(s: seq<Token>, at: nat, was: About): Part<About> {
    var n := InARow(IsStr(s, at), IsDbl(s, at + 1), IsStr(s, at + 2), IsStr(s, at + 3));
    Part(n == 4, About(
      if n > 0 then s[at].s else was.mediaImageUri,
      if n > 1 then s[at + 1].d else was.publishDate,
      if n > 2 then s[at + 2].s else was.subTitle,
      if n > 3 then s[at + 3].s else was.description), at + n)
  }

  function LyricsAt(s: seq<Token>, at: nat, was: Lyrics): Part<Lyrics> {
    var n := InARow(IsStr(s, at), IsStr(s, at + 1), IsStr(s, at + 2), IsStr(s, at + 3));
    Part(n == 4, Lyrics(
      if n > 0 then s[at].s else was.lyric,
      if n > 1 then s[at + 1].s else was.singleLyricText,
      if n > 2 then s[at + 2].s else was.previousAssetId,
      if n > 3 then s[at + 3].s else was.nextAssetId), at + n)
  }

  function IntervalsAt(s: seq<Token>, at: nat, was: Intervals): Part<Intervals> {
    var n := InARow(IsI32(s, at), IsI32(s, at + 1), IsI32(s, at + 2), IsI32(s, at + 3));
    Part(n == 4, Intervals(
      if n > 0 then s[at].i else was.skipIntervals,
      if n > 1 then s[at + 1].i else was.fastForwardSkipIntervals,
      if n > 2 then s[at + 2].i else was.rewindSkipIntervals,
      if n > 3 then s[at + 3].i else was.filter), at + n)
  }

  function SizesAt(s: seq<Token>, at: nat, was: Sizes): Part<Sizes> {
    var n := InARow(IsI32(s, at), IsI32(s, at + 1), IsI32(s, at + 2), false);
    Part(n == 3, Sizes(
      if n > 0 then s[at].i else was.mediaLength,
      if n > 1 then s[at + 1].i else was.avQueueLength,
      if n > 2 then s[at + 2].i else was.displayTags), at + n)
  }

  function FromSizes(s: seq<Token>, at: nat, f: Fields): Part<Fields> {
    var r := SizesAt(s, at, f.sizes);
    Part(r.ok, f.(sizes := r.value), r.cursor)
  }

  function FromIntervals(s: seq<Token>, at: nat, f: Fields): Part<Fields> {
    var r := IntervalsAt(s, at, f.intervals);
    var read := f.(intervals := r.value);
    if r.ok then FromSizes(s, r.cursor, read) else Part(false, read, r.cursor)
  }

  function FromLyrics(s: seq<Token>, at: nat, f: Fields): Part<Fields> {
    var r := LyricsAt(s, at, f.lyrics);
    var read := f.(lyrics := r.value);
    if r.ok then FromIntervals(s, r.cursor, read) else Part(false, read, r.cursor)
  }

  function FromAbout(s: seq<Token>, at: nat, f: Fields): Part<Fields> {
    var r := AboutAt(s, at, f.about);
    var read := f.(about := r.value);
    if r.ok then FromLyrics(s, r.cursor, read) else Part(false, read, r.cursor)
  }

  function FromCredits(s: seq<Token>, at: nat, f: Fields): Part<Fields> {
    var r := CreditsAt(s, at, f.credits);
    var read := f.(credits := r.value);
    if r.ok then FromAbout(s, r.cursor, read) else Part(false, read, r.cursor)
  }

  function FromQueue(s: seq<Token>, at: nat, f: Fields): Part<Fields> {
    var r := QueueAt(s, at, f.queue);
    var read := f.(queue := r.value);
    if r.ok then FromCredits(s, r.cursor, read) else Part(false, read, r.cursor)
  }

  function FromIdentity(s: seq<Token>, at: nat, f: Fields): Part<Fields> {
    var r := IdentityAt(s, at, f.identity);
    var read := f.(identity := r.value);
    if r.ok then FromQueue(s, r.cursor, read) else Part(false, read, r.cursor)
  }

  function ReadFields(s: seq<Token>, at: nat, f: Fields): Part<Fields> { FromIdentity(s, at, f) }

  // ---------- The mask ----------

  /** std::bitset prints its highest bit first. */
  function MaskString(mask: Mask): string {
    seq(META_KEY_MAX, i requires 0 <= i < META_KEY_MAX => if mask[META_KEY_MAX - 1 - i] then '1' else '0')
  }

  /** The mask after the first n characters have flipped their bits. */
  function Flipped(mask: Mask, text: string, n: nat): Mask
    requires n <= |text| <= META_KEY_MAX
  {
    if n == 0 then mask else
      var before := Flipped(mask, text, n - 1);
      if text[n - 1] == '1' then before[|text| - n := !before[|text| - n]] else before
  }

  // ---------- DRM schemes ----------

  function StringTokens(strings: seq<string>): seq<Token> {
    seq(|strings|, i requires 0 <= i < |strings| => Str(strings[i]))
  }

  /** More schemes than allowed are not written at all, and nobody looks at that result. */
  function DrmTokens(schemes: seq<string>): seq<Token> {
    if |schemes| <= MAX_DRM_SCHEMES then [I32(|schemes|)] + StringTokens(schemes) else []
  }

  datatype DrmRead = DrmRead(schemes: Option<seq<string>>, cursor: nat)

  function ReadStrings(s: seq<Token>, at: nat, n: nat, soFar: seq<string>): DrmRead
    decreases n
  {
    if n == 0 then DrmRead(Some(soFar), at)
    else if at < |s| && s[at].Str? then ReadStrings(s, at + 1, n - 1, soFar + [s[at].s])
    else DrmRead(None, at)
  }

  function ReadDrm(s: seq<Token>, at: nat): DrmRead {
    if at < |s| && s[at].I32? then
      if 0 <= s[at].i <= MAX_DRM_SCHEMES then ReadStrings(s, at + 1, s[at].i, []) else DrmRead(None, at + 1)
    else DrmRead(None, at)
  }

  // ---------- Writing ----------

  /** The buffer sent for an image: one over the limit is dropped. */
  function Sent(image: Option<Image>): Image {
    if image.None? || |image.value| > MAX_IMAGE_SIZE then [] else image.value
  }

  /** Writing records the lengths of the images that are there. */
  function Measured(m: MetaData): MetaData {
    var media := if m.mediaImage.Some? then |Sent(m.mediaImage)| else m.fields.sizes.mediaLength;
    var avQueue := if m.avQueueImage.Some? then |Sent(m.avQueueImage)| else m.fields.sizes.avQueueLength;
    m.(fields := m.fields.(sizes := m.fields.sizes.(mediaLength := media, avQueueLength := avQueue)))
  }

  function Blob(m: MetaData): seq<bv8> { Sent(m.mediaImage) + Sent(m.avQueueImage) }

  predicate SendsBlob(n: int) { 0 < n <= MAX_IMAGE_SIZE }

  function ExceptImages(m: MetaData): seq<Token> {
    [Str(MaskString(m.mask))] + FieldTokens(m.fields)
    + [Icon(m.bundleIcon)] + DrmTokens(m.drmSchemes)
  }

  /** Everything WriteToParcel appends for m. */
  function Encode(m: MetaData): seq<Token> {
    [I32(|Blob(m)|)] + ExceptImages(Measured(m)) + (if SendsBlob(|Blob(m)|) then [Raw(Blob(m))] else [])
  }

  // ---------- Reading ----------

  /** failed is what UnmarshallingExceptImg returns: true for a failure. */
  datatype ExceptImagesRead = ExceptImagesRead(failed: bool, data: MetaData, cursor: nat)

  /**
   A mask of a bad size, and a missing bundle icon whose bit is set, end the reading early but are
   not reported as failures.
   */
  function ReadExceptImages(s: seq<Token>, at: nat): ExceptImagesRead {
    if !(at < |s| && s[at].Str?) then ExceptImagesRead(false, New(), at)
    else if !(0 < |s[at].s| <= META_KEY_MAX) then ExceptImagesRead(false, New(), at + 1)
    else AfterMask(s, at + 1, Flipped(New().mask, s[at].s, |s[at].s|))
  }

  function AfterMask(s: seq<Token>, at: nat, mask: Mask): ExceptImagesRead {
    var f := ReadFields(s, at, NewFields());
    var there := f.cursor < |s| && s[f.cursor].Icon?;
    var icon := if there then s[f.cursor].image else None;
    var data := New().(mask := mask, fields := f.value, bundleIcon := icon);
    AfterIcon(s, if there then f.cursor + 1 else f.cursor, data, f.ok)
  }

  function AfterIcon(s: seq<Token>, at: nat, data: MetaData, ok: bool): ExceptImagesRead {
    if data.mask[META_KEY_BUNDLE_ICON] && data.bundleIcon.None? then ExceptImagesRead(false, data, at)
    else if !ok then ExceptImagesRead(true, data, at)
    else
      var drm := ReadDrm(s, at);
      if drm.schemes.None? then ExceptImagesRead(true, data, drm.cursor)
      else ExceptImagesRead(false, data.(drmSchemes := drm.schemes.value), drm.cursor)
  }

  datatype Decoded = Decoded(data: Option<MetaData>, cursor: nat)

  /** The two images are cut out of the blob at the media length. */
  function WithImages(m: MetaData, blob: seq<bv8>): MetaData
    requires 0 <= m.fields.sizes.mediaLength <= |blob|
  {
    var n := m.fields.sizes.mediaLength;
    var media := if n > 0 then m.(mediaImage := Some(blob[..n]), mask := m.mask[META_KEY_MEDIA_IMAGE := true]) else m;
    if |blob| <= n then media
    else media.(avQueueImage := Some(blob[n..]), mask := media.mask[META_KEY_AVQUEUE_IMAGE := true])
  }

  function ReadImages(s: seq<Token>, at: nat, size: nat, m: MetaData): Decoded {
    if at < |s| && s[at].Raw? && |s[at].bytes| == size then
      if 0 <= m.fields.sizes.mediaLength <= size then Decoded(Some(WithImages(m, s[at].bytes)), at + 1)
      else Decoded(None, at + 1)
    else Decoded(None, at)
  }

  /** What Unmarshalling makes of a stream, and where it leaves the cursor. */
  function Decode(s: seq<Token>, at: nat): Decoded {
    if !(at < |s| && s[at].I32?) then Decoded(None, at) else
      var r := ReadExceptImages(s, at + 1);
      if r.failed || !(0 <= r.data.fields.sizes.displayTags <= DISPLAY_TAG_ALL) then Decoded(None, r.cursor)
      else if SendsBlob(s[at].i) then ReadImages(s, r.cursor, s[at].i, r.data)
      else Decoded(Some(r.data), r.cursor)
  }
}
