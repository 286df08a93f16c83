/** The metadata object of frameworks/common/src/avmeta_data.cpp, written to and read from a parcel. */
module MetaData {
  import opened MetaDataRoundTrip
  import opened MetaDataSpec
  import opened MetaDataWire
  import opened Parcels
  import opened Wrappers

  lemma Regroup(
    t: seq<Token>, a: seq<Token>, b: seq<Token>, c: seq<Token>, d: seq<Token>, e: seq<Token>, f: seq<Token>,
    g: seq<Token>)
    ensures t + a + b + c + d + e + f + g == t + (a + b + c + d + e + f + g)
  {
    assert t + a + b + c + d + e == t + (a + b + c + d + e);
  }

  class AVMetaData {
    var metaMask: Mask
    var fields: Fields
    var mediaImage: Option<Image>
    var avQueueImage: Option<Image>
    var bundleIcon: Option<Image>
    var drmSchemes: seq<string>

    ghost function View(): MetaDataSpec.MetaData
      reads this
    {
      MetaDataSpec.MetaData(metaMask, fields, mediaImage, avQueueImage, bundleIcon, drmSchemes)
    }

    constructor ()
      ensures View() == New()
    {
      metaMask, fields := seq(META_KEY_MAX, _ => false), NewFields();
      mediaImage, avQueueImage, bundleIcon, drmSchemes := None, None, None, [];
    }

    // ---------- Writing ----------

    /** A pixel map's buffer, or nothing when it is over the limit. */
    static method ImageBuffer(image: Image) returns (buffer: Image)
      ensures buffer == Sent(Some(image))
    {
      buffer := image;
      if |buffer| > MAX_IMAGE_SIZE { buffer := []; }
    }

    /** Both images, one after the other, in one buffer. */
    static method Joined(media: Image, avQueue: Image) returns (blob: seq<bv8>)
      ensures blob == media + avQueue
    {
      var both := |media| + |avQueue|;
      var buffer := new bv8[both];
      for i := 0 to |media|
        invariant buffer[..i] == media[..i]
      {
        buffer[i] := media[i];
      }
      var j, k := |media|, 0;
      while j < both && k < |avQueue|
        invariant j == |media| + k && k <= |avQueue|
        invariant buffer[..j] == media + avQueue[..k]
      {
        buffer[j] := avQueue[k];
        j, k := j + 1, k + 1;
      }
      blob := buffer[..];
    }

    method WriteDrmSchemes(parcel: Parcel) returns (ok: bool)
      modifies parcel`tokens
      ensures parcel.tokens == old(parcel.tokens) + DrmTokens(drmSchemes)
      ensures ok == (|drmSchemes| <= MAX_DRM_SCHEMES)
    {
      if |drmSchemes| > MAX_DRM_SCHEMES { return false; }
      parcel.Write(I32(|drmSchemes|));
      var all := StringTokens(drmSchemes);
      for i := 0 to |drmSchemes|
        invariant parcel.tokens == old(parcel.tokens) + [I32(|drmSchemes|)] + all[..i]
      {
        assert all[..i + 1] == all[..i] + [Str(drmSchemes[i])];
        parcel.Write(Str(drmSchemes[i]));
      }
      ok := true;
    }

    method WriteNames(data: Parcel)
      modifies data`tokens
      ensures data.tokens ==
              old(data.tokens) + IdentityTokens(fields.identity) + QueueTokens(fields.queue)
              + CreditsTokens(fields.credits)
    {
      data.Write(Str(fields.identity.assetId));
      data.Write(Str(fields.identity.title));
      data.Write(Str(fields.identity.artist));
      data.Write(Str(fields.identity.author));
      data.Write(Str(fields.queue.avQueueName));
      data.Write(Str(fields.queue.avQueueId));
      data.Write(Str(fields.queue.avQueueImageUri));
      data.Write(Str(fields.credits.album));
      data.Write(Str(fields.credits.writer));
      data.Write(Str(fields.credits.composer));
      data.Write(I64(fields.credits.duration));
    }

    method WriteTexts(data: Parcel)
      modifies data`tokens
      ensures data.tokens == old(data.tokens) + AboutTokens(fields.about) + LyricsTokens(fields.lyrics)
    {
      data.Write(Str(fields.about.mediaImageUri));
      data.Write(Dbl(fields.about.publishDate));
      data.Write(Str(fields.about.subTitle));
      data.Write(Str(fields.about.description));
      data.Write(Str(fields.lyrics.lyric));
      data.Write(Str(fields.lyrics.singleLyricText));
      data.Write(Str(fields.lyrics.previousAssetId));
      data.Write(Str(fields.lyrics.nextAssetId));
    }

    method WriteNumbers(data: Parcel)
      modifies data`tokens
      ensures data.tokens == old(data.tokens) + IntervalsTokens(fields.intervals) + SizesTokens(fields.sizes)
    {
      data.Write(I32(fields.intervals.skipIntervals));
      data.Write(I32(fields.intervals.fastForwardSkipIntervals));
      data.Write(I32(fields.intervals.rewindSkipIntervals));
      data.Write(I32(fields.intervals.filter));
      data.Write(I32(fields.sizes.mediaLength));
      data.Write(I32(fields.sizes.avQueueLength));
      data.Write(I32(fields.sizes.displayTags));
    }

    method WritePlainFields(data: Parcel)
      modifies data`tokens
      ensures data.tokens == old(data.tokens) + FieldTokens(fields)
    {
      hide IdentityTokens, QueueTokens, CreditsTokens, AboutTokens, LyricsTokens, IntervalsTokens, SizesTokens;
      WriteNames(data);
      WriteTexts(data);
      WriteNumbers(data);
      Regroup(
        old(data.tokens), IdentityTokens(fields.identity), QueueTokens(fields.queue), CreditsTokens(fields.credits),
        AboutTokens(fields.about), LyricsTokens(fields.lyrics), IntervalsTokens(fields.intervals),
        SizesTokens(fields.sizes));
    }

    method MarshallingExceptImg(data: Parcel) returns (ok: bool)
      modifies data`tokens
      ensures ok && data.tokens == old(data.tokens) + ExceptImages(View())
    {
      hide FieldTokens, MaskString, DrmTokens;
      data.Write(Str(MaskString(metaMask)));
      WritePlainFields(data);
      data.Write(Icon(bundleIcon));
      var _ := WriteDrmSchemes(data);
      ok := true;
    }

    /** Appends the encoding; the only fields it changes are the two image lengths. */
    method WriteToParcel(parcel: Parcel) returns (ok: bool)
      modifies `fields, parcel`tokens
      ensures ok && View() == Measured(old(View()))
      ensures parcel.tokens == old(parcel.tokens) + Encode(old(View()))
    {
      hide ExceptImages;
      var media, avQueue: Image := [], [];
      if mediaImage.Some? {
        media := ImageBuffer(mediaImage.value);
        fields := fields.(sizes := fields.sizes.(mediaLength := |media|));
      }
      if avQueueImage.Some? {
        avQueue := ImageBuffer(avQueueImage.value);
        fields := fields.(sizes := fields.sizes.(avQueueLength := |avQueue|));
      }
      var both := |media| + |avQueue|;
      parcel.Write(I32(both));
      ok := MarshallingExceptImg(parcel);
      if 0 < both <= MAX_IMAGE_SIZE {
        var buffer := Joined(media, avQueue);
        parcel.Write(Raw(buffer));
      }
    }

    // ---------- Reading ----------

    /** Flips the bits that are '1' in the text. */
    method FlipBits(text: string)
      requires |text| <= META_KEY_MAX
      modifies `metaMask
      ensures metaMask == Flipped(old(metaMask), text, |text|)
    {
      for i := 0 to |text|
        invariant metaMask == Flipped(old(metaMask), text, i)
      {
        if text[i] == '1' {
          var bit := |text| - i - 1;
          metaMask := metaMask[bit := !metaMask[bit]];
        }
      }
    }

    // Each of the next seven reads its fields up to the first that is not there.

    static method ReadIdentity(data: Parcel, was: Identity) returns (ok: bool, v: Identity)
      modifies data`cursor
      ensures Part(ok, v, data.cursor) == IdentityAt(data.tokens, old(data.cursor), was)
    {
      v := was;
      var assetId;
      ok, assetId := data.ReadString(v.assetId);
      if !ok { return; }
      v := v.(assetId := assetId);
      var title;
      ok, title := data.ReadString(v.title);
      if !ok { return; }
      v := v.(title := title);
      var artist;
      ok, artist := data.ReadString(v.artist);
      if !ok { return; }
      v := v.(artist := artist);
      var author;
      ok, author := data.ReadString(v.author);
      if !ok { return; }
      v := v.(author := author);
    }

    static method ReadQueue(data: Parcel, was: Queue) returns (ok: bool, v: Queue)
      modifies data`cursor
      ensures Part(ok, v, data.cursor) == QueueAt(data.tokens, old(data.cursor), was)
    {
      v := was;
      var avQueueName;
      ok, avQueueName := data.ReadString(v.avQueueName);
      if !ok { return; }
      v := v.(avQueueName := avQueueName);
      var avQueueId;
      ok, avQueueId := data.ReadString(v.avQueueId);
      if !ok { return; }
      v := v.(avQueueId := avQueueId);
      var avQueueImageUri;
      ok, avQueueImageUri := data.ReadString(v.avQueueImageUri);
      if !ok { return; }
      v := v.(avQueueImageUri := avQueueImageUri);
    }

    static method ReadCredits(data: Parcel, was: Credits) returns (ok: bool, v: Credits)
      modifies data`cursor
      ensures Part(ok, v, data.cursor) == CreditsAt(data.tokens, old(data.cursor), was)
    {
      v := was;
      var album;
      ok, album := data.ReadString(v.album);
      if !ok { return; }
      v := v.(album := album);
      var writer;
      ok, writer := data.ReadString(v.writer);
      if !ok { return; }
      v := v.(writer := writer);
      var composer;
      ok, composer := data.ReadString(v.composer);
      if !ok { return; }
      v := v.(composer := composer);
      var duration;
      ok, duration := data.ReadInt64(v.duration);
      if !ok { return; }
      v := v.(duration := duration);
    }

    static method ReadAbout(data: Parcel, was: About) returns (ok: bool, v: About)
      modifies data`cursor
      ensures Part(ok, v, data.cursor) == AboutAt(data.tokens, old(data.cursor), was)
    {
      v := was;
      var mediaImageUri;
      ok, mediaImageUri := data.ReadString(v.mediaImageUri);
      if !ok { return; }
      v := v.(mediaImageUri := mediaImageUri);
      var publishDate;
      ok, publishDate := data.ReadDouble(v.publishDate);
      if !ok { return; }
      v := v.(publishDate := publishDate);
      var subTitle;
      ok, subTitle := data.ReadString(v.subTitle);
      if !ok { return; }
      v := v.(subTitle := subTitle);
      var description;
      ok, description := data.ReadString(v.description);
      if !ok { return; }
      v := v.(description := description);
    }

    static method ReadLyrics(data: Parcel, was: Lyrics) returns (ok: bool, v: Lyrics)
      modifies data`cursor
      ensures Part(ok, v, data.cursor) == LyricsAt(data.tokens, old(data.cursor), was)
    {
      v := was;
      var lyric;
      ok, lyric := data.ReadString(v.lyric);
      if !ok { return; }
      v := v.(lyric := lyric);
      var singleLyricText;
      ok, singleLyricText := data.ReadString(v.singleLyricText);
      if !ok { return; }
      v := v.(singleLyricText := singleLyricText);
      var previousAssetId;
      ok, previousAssetId := data.ReadString(v.previousAssetId);
      if !ok { return; }
      v := v.(previousAssetId := previousAssetId);
      var nextAssetId;
      ok, nextAssetId := data.ReadString(v.nextAssetId);
      if !ok { return; }
      v := v.(nextAssetId := nextAssetId);
    }

    static method ReadIntervals(data: Parcel, was: Intervals) returns (ok: bool, v: Intervals)
      modifies data`cursor
      ensures Part(ok, v, data.cursor) == IntervalsAt(data.tokens, old(data.cursor), was)
    {
      v := was;
      var skipIntervals;
      ok, skipIntervals := data.ReadInt32(v.skipIntervals);
      if !ok { return; }
      v := v.(skipIntervals := skipIntervals);
      var fastForwardSkipIntervals;
      ok, fastForwardSkipIntervals := data.ReadInt32(v.fastForwardSkipIntervals);
      if !ok { return; }
      v := v.(fastForwardSkipIntervals := fastForwardSkipIntervals);
      var rewindSkipIntervals;
      ok, rewindSkipIntervals := data.ReadInt32(v.rewindSkipIntervals);
      if !ok { return; }
      v := v.(rewindSkipIntervals := rewindSkipIntervals);
      var filter;
      ok, filter := data.ReadInt32(v.filter);
      if !ok { return; }
      v := v.(filter := filter);
    }

    static method ReadSizes(data: Parcel, was: Sizes) returns (ok: bool, v: Sizes)
      modifies data`cursor
      ensures Part(ok, v, data.cursor) == SizesAt(data.tokens, old(data.cursor), was)
    {
      v := was;
      var mediaLength;
      ok, mediaLength := data.ReadInt32(v.mediaLength);
      if !ok { return; }
      v := v.(mediaLength := mediaLength);
      var avQueueLength;
      ok, avQueueLength := data.ReadInt32(v.avQueueLength);
      if !ok { return; }
      v := v.(avQueueLength := avQueueLength);
      var displayTags;
      ok, displayTags := data.ReadInt32(v.displayTags);
      if !ok { return; }
      v := v.(displayTags := displayTags);
    }

    method ReadPlainFields(data: Parcel) returns (ok: bool)
      modifies `fields, data`cursor
      ensures Part(ok, fields, data.cursor) == ReadFields(data.tokens, old(data.cursor), old(fields))
    {
      hide IdentityAt, QueueAt, CreditsAt, AboutAt, LyricsAt, IntervalsAt, SizesAt;
      var identity;
      ok, identity := ReadIdentity(data, fields.identity);
      fields := fields.(identity := identity);
      if !ok { return; }
      var queue;
      ok, queue := ReadQueue(data, fields.queue);
      fields := fields.(queue := queue);
      if !ok { return; }
      var credits;
      ok, credits := ReadCredits(data, fields.credits);
      fields := fields.(credits := credits);
      if !ok { return; }
      var about;
      ok, about := ReadAbout(data, fields.about);
      fields := fields.(about := about);
      if !ok { return; }
      var lyrics;
      ok, lyrics := ReadLyrics(data, fields.lyrics);
      fields := fields.(lyrics := lyrics);
      if !ok { return; }
      var intervals;
      ok, intervals := ReadIntervals(data, fields.intervals);
      fields := fields.(intervals := intervals);
      if !ok { return; }
      var sizes;
      ok, sizes := ReadSizes(data, fields.sizes);
      fields := fields.(sizes := sizes);
    }

    method ReadDrmSchemes(parcel: Parcel) returns (ok: bool)
      modifies `drmSchemes, parcel`cursor
      ensures var r := ReadDrm(parcel.tokens, old(parcel.cursor));
              ok == r.schemes.Some? && parcel.cursor == r.cursor
              && drmSchemes == if ok then r.schemes.value else old(drmSchemes)
    {
      var n;
      ok, n := parcel.ReadInt32(0);
      if !ok { return; }
      if !(0 <= n <= MAX_DRM_SCHEMES) { return false; }
      var schemes: seq<string> := [];
      for i := 0 to n
        invariant drmSchemes == old(drmSchemes)
        invariant ReadStrings(parcel.tokens, old(parcel.cursor) + 1, n, []) ==
                  ReadStrings(parcel.tokens, parcel.cursor, n - i, schemes)
      {
        var scheme;
        ok, scheme := parcel.ReadString("");
        if !ok { return; }
        schemes := schemes + [scheme];
      }
      drmSchemes, ok := schemes, true;
    }

    /** Returns true for a failure. */
    method UnmarshallingExceptImg(data: Parcel) returns (failed: bool)
      requires View() == New()
      modifies this, data`cursor
      ensures var r := ReadExceptImages(data.tokens, old(data.cursor));
              failed == r.failed && View() == r.data && data.cursor == r.cursor
    {
      hide ReadFields, ReadDrm;
      var _, mask := data.ReadString("");
      if !(0 < |mask| <= META_KEY_MAX) { return false; }
      FlipBits(mask);
      var ok := ReadPlainFields(data);
      bundleIcon := data.ReadParcelable();
      if metaMask[META_KEY_BUNDLE_ICON] && bundleIcon.None? { return false; }
      if ok { ok := ReadDrmSchemes(data); }
      failed := !ok;
    }

    static method Section(buffer: seq<bv8>, from: nat, to: nat) returns (image: Image)
      requires from <= to <= |buffer|
      ensures image == buffer[from..to]
    {
      image := [];
      for i := from to to
        invariant image == buffer[from..i]
      {
        image := image + [buffer[i]];
      }
    }

    method ReadFromParcel(data: Parcel, size: nat) returns (ok: bool)
      modifies `metaMask, `mediaImage, `avQueueImage, data`cursor
      ensures var r := ReadImages(data.tokens, old(data.cursor), size, old(View()));
              ok == r.data.Some? && data.cursor == r.cursor && (ok ==> View() == r.data.value)
    {
      var buffer := data.ReadRawData(size);
      var n := fields.sizes.mediaLength;
      if buffer.None? || !(0 <= n <= size) { return false; }
      assert buffer.value[0..n] == buffer.value[..n] && buffer.value[n..size] == buffer.value[n..];
      if n > 0 {
        var media := Section(buffer.value, 0, n);
        SetMediaImage(media);
      }
      if size <= n { return true; }
      var avQueue := Section(buffer.value, n, size);
      SetAVQueueImage(avQueue);
      ok := true;
    }

    method SetMediaImage(image: Image)
      modifies `metaMask, `mediaImage
      ensures mediaImage == Some(image) && metaMask == old(metaMask)[META_KEY_MEDIA_IMAGE := true]
    {
      mediaImage, metaMask := Some(image), metaMask[META_KEY_MEDIA_IMAGE := true];
    }

    method SetAVQueueImage(image: Image)
      modifies `metaMask, `avQueueImage
      ensures avQueueImage == Some(image) && metaMask == old(metaMask)[META_KEY_AVQUEUE_IMAGE := true]
    {
      avQueueImage, metaMask := Some(image), metaMask[META_KEY_AVQUEUE_IMAGE := true];
    }

    /** The object read, or null. */
    static method Unmarshalling(data: Parcel) returns (m: AVMetaData?)
      modifies data`cursor
      ensures m != null ==> fresh(m)
      ensures var r := Decode(data.tokens, old(data.cursor));
              data.cursor == r.cursor && (if m == null then None else Some(m.View())) == r.data
    {
      hide ReadExceptImages, ReadImages;
      m := null;
      var ok, size := data.ReadInt32(0);
      if !ok { return; }
      var read := new AVMetaData();
      var failed := read.UnmarshallingExceptImg(data);
      if failed { return; }
      if read.fields.sizes.displayTags < 0 || read.fields.sizes.displayTags > DISPLAY_TAG_ALL { return; }
      if 0 < size <= MAX_IMAGE_SIZE {
        ok := read.ReadFromParcel(data, size);
        if !ok { return; }
      }
      m := read;
    }
  }

  /** The object with the lengths of its images in the fields for them. */
  function WithLengths(m: MetaDataSpec.MetaData): MetaDataSpec.MetaData
    requires Sendable(m)
  {
    var z := m.fields.sizes;
    var media := if m.mediaImage.Some? then |m.mediaImage.value| else z.mediaLength;
    var avQueue := if m.avQueueImage.Some? then |m.avQueueImage.value| else z.avQueueLength;
    m.(fields := m.fields.(sizes := Sizes(media, avQueue, z.displayTags)))
  }

  lemma LengthsAreMeasured(m: MetaDataSpec.MetaData)
    requires Sendable(m)
    ensures Measured(m) == WithLengths(m)
  {
    MeasuredExactly(m);
  }

  /**
   Sending metadata through a parcel that carries other things before and after it: the reader ends
   up with what the sender then has, at the end of what was written, exactly for sendable metadata.
   */
  method SendAndReceive(sent: AVMetaData, before: seq<Token>, rest: seq<Token>)
    returns (received: AVMetaData?, read: nat)
    modifies sent`fields
    ensures sent.View() == Measured(old(sent.View()))
    ensures received != null && received.View() == sent.View() && read == |before| + |Encode(old(sent.View()))|
            <==> Sendable(old(sent.View()))
    ensures Sendable(old(sent.View())) ==>
              received != null && received.View() == WithLengths(old(sent.View()))
  {
    hide Decode, Encode;
    var parcel := new Parcel();
    parcel.tokens := before;
    ghost var m := sent.View();
    var _ := sent.WriteToParcel(parcel);
    parcel.tokens, parcel.cursor := parcel.tokens + rest, |before|;
    RoundTripExactly(before, m, rest);
    received := AVMetaData.Unmarshalling(parcel);
    read := parcel.cursor;
    if Sendable(m) { LengthsAreMeasured(m); }
  }
}
