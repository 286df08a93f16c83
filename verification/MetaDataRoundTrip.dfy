/** Unmarshalling undoes marshalling: when exactly, and what happens otherwise. */
module MetaDataRoundTrip {
  import opened MetaDataSpec
  import opened Parcels
  import opened Wrappers

  /** The tokens t stand in s from position at on. */
  predicate At(s: seq<Token>, at: nat, t: seq<Token>) { at + |t| <= |s| && s[at..at + |t|] == t }

  lemma AtConcat(s: seq<Token>, at: nat, t: seq<Token>, u: seq<Token>)
    requires At(s, at, t + u)
    ensures At(s, at, t) && At(s, at + |t|, u)
  {
    var w := t + u;
    assert w[..|t|] == t && w[|t|..] == u;
    assert s[at..at + |w|][..|t|] == s[at..at + |t|];
    assert s[at..at + |w|][|t|..] == s[at + |t|..at + |w|];
  }

  lemma AtHead(s: seq<Token>, at: nat, t: Token)
    requires At(s, at, [t])
    ensures at < |s| && s[at] == t
  {
    assert s[at..at + 1][0] == t;
  }

  // ---------- The mask ----------

  lemma {:induction false} MaskBits(mask: Mask, n: nat)
    requires n <= META_KEY_MAX
    ensures var r := Flipped(New().mask, MaskString(mask), n);
            forall j :: 0 <= j < META_KEY_MAX ==> r[j] == (j >= META_KEY_MAX - n && mask[j])
  {
    if n > 0 {
      MaskBits(mask, n - 1);
      var text := MaskString(mask);
      assert text[n - 1] == if mask[META_KEY_MAX - n] then '1' else '0';
    }
  }

  /** Printing a mask high bit first and flipping the bits of the print gives the mask back. */
  lemma MaskRoundTrip(mask: Mask)
    ensures Flipped(New().mask, MaskString(mask), META_KEY_MAX) == mask
  {
    MaskBits(mask, META_KEY_MAX);
  }

  // ---------- The plain fields ----------

  lemma IdentityReadBack(s: seq<Token>, at: nat, v: Identity, was: Identity)
    requires At(s, at, IdentityTokens(v))
    ensures IdentityAt(s, at, was) == Part(true, v, at + 4)
  {
    var x, t := s[at..at + 4], IdentityTokens(v);
    assert x[0] == t[0] && x[1] == t[1] && x[2] == t[2] && x[3] == t[3];
  }

  lemma QueueReadBack(s: seq<Token>, at: nat, v: Queue, was: Queue)
    requires At(s, at, QueueTokens(v))
    ensures QueueAt(s, at, was) == Part(true, v, at + 3)
  {
    var x, t := s[at..at + 3], QueueTokens(v);
    assert x[0] == t[0] && x[1] == t[1] && x[2] == t[2];
  }

  lemma CreditsReadBack(s: seq<Token>, at: nat, v: Credits, was: Credits)
    requires At(s, at, CreditsTokens(v))
    ensures CreditsAt(s, at, was) == Part(true, v, at + 4)
  {
    var x, t := s[at..at + 4], CreditsTokens(v);
    assert x[0] == t[0] && x[1] == t[1] && x[2] == t[2] && x[3] == t[3];
  }

  lemma AboutReadBack(s: seq<Token>, at: nat, v: About, was: About)
    requires At(s, at, AboutTokens(v))
    ensures AboutAt(s, at, was) == Part(true, v, at + 4)
  {
    var x, t := s[at..at + 4], AboutTokens(v);
    assert x[0] == t[0] && x[1] == t[1] && x[2] == t[2] && x[3] == t[3];
  }

  lemma LyricsReadBack(s: seq<Token>, at: nat, v: Lyrics, was: Lyrics)
    requires At(s, at, LyricsTokens(v))
    ensures LyricsAt(s, at, was) == Part(true, v, at + 4)
  {
    var x, t := s[at..at + 4], LyricsTokens(v);
    assert x[0] == t[0] && x[1] == t[1] && x[2] == t[2] && x[3] == t[3];
  }

  lemma IntervalsReadBack(s: seq<Token>, at: nat, v: Intervals, was: Intervals)
    requires At(s, at, IntervalsTokens(v))
    ensures IntervalsAt(s, at, was) == Part(true, v, at + 4)
  {
    var x, t := s[at..at + 4], IntervalsTokens(v);
    assert x[0] == t[0] && x[1] == t[1] && x[2] == t[2] && x[3] == t[3];
  }

  lemma SizesReadBack(s: seq<Token>, at: nat, v: Sizes, was: Sizes)
    requires At(s, at, SizesTokens(v))
    ensures SizesAt(s, at, was) == Part(true, v, at + 3)
  {
    var x, t := s[at..at + 3], SizesTokens(v);
    assert x[0] == t[0] && x[1] == t[1] && x[2] == t[2];
  }

  lemma FieldsRoundTrip(s: seq<Token>, at: nat, f: Fields, g: Fields)
    requires At(s, at, FieldTokens(f))
    ensures ReadFields(s, at, g) == Part(true, f, at + FIELDS)
  {
    hide At, IdentityTokens, IdentityAt, QueueTokens, QueueAt, CreditsTokens, CreditsAt, AboutTokens, AboutAt,
      LyricsTokens, LyricsAt, IntervalsTokens, IntervalsAt, SizesTokens, SizesAt;
    SplitFields(s, at, f);
    IdentityReadBack(s, at, f.identity, g.identity);
    QueueReadBack(s, at + 4, f.queue, g.queue);
    CreditsReadBack(s, at + 7, f.credits, g.credits);
    AboutReadBack(s, at + 11, f.about, g.about);
    LyricsReadBack(s, at + 15, f.lyrics, g.lyrics);
    IntervalsReadBack(s, at + 19, f.intervals, g.intervals);
    SizesReadBack(s, at + 23, f.sizes, g.sizes);
  }

  lemma SplitFields(s: seq<Token>, at: nat, f: Fields)
    requires At(s, at, FieldTokens(f))
    ensures At(s, at, IdentityTokens(f.identity))
            && At(s, at + 4, QueueTokens(f.queue))
            && At(s, at + 7, CreditsTokens(f.credits))
            && At(s, at + 11, AboutTokens(f.about))
            && At(s, at + 15, LyricsTokens(f.lyrics))
            && At(s, at + 19, IntervalsTokens(f.intervals))
            && At(s, at + 23, SizesTokens(f.sizes))
  {
    var fromSizes := SizesTokens(f.sizes);
    var fromIntervals := IntervalsTokens(f.intervals) + fromSizes;
    var fromLyrics := LyricsTokens(f.lyrics) + fromIntervals;
    var fromAbout := AboutTokens(f.about) + fromLyrics;
    var fromCredits := CreditsTokens(f.credits) + fromAbout;
    var fromQueue := QueueTokens(f.queue) + fromCredits;
    assert FieldTokens(f) == IdentityTokens(f.identity) + fromQueue;
    AtConcat(s, at, IdentityTokens(f.identity), fromQueue);
    AtConcat(s, at + 4, QueueTokens(f.queue), fromCredits);
    AtConcat(s, at + 7, CreditsTokens(f.credits), fromAbout);
    AtConcat(s, at + 11, AboutTokens(f.about), fromLyrics);
    AtConcat(s, at + 15, LyricsTokens(f.lyrics), fromIntervals);
    AtConcat(s, at + 19, IntervalsTokens(f.intervals), fromSizes);
  }

  // ---------- DRM schemes ----------

  lemma {:induction false} StringsRoundTrip(s: seq<Token>, at: nat, strings: seq<string>, soFar: seq<string>)
    requires At(s, at, StringTokens(strings))
    ensures ReadStrings(s, at, |strings|, soFar) == DrmRead(Some(soFar + strings), at + |strings|)
    decreases |strings|
  {
    if strings == [] {
      assert soFar + strings == soFar;
    } else {
      assert StringTokens(strings) == [Str(strings[0])] + StringTokens(strings[1..]);
      AtConcat(s, at, [Str(strings[0])], StringTokens(strings[1..]));
      AtHead(s, at, Str(strings[0]));
      StringsRoundTrip(s, at + 1, strings[1..], soFar + [strings[0]]);
      assert soFar + [strings[0]] + strings[1..] == soFar + strings;
    }
  }

  lemma DrmRoundTrip(s: seq<Token>, at: nat, schemes: seq<string>)
    requires |schemes| <= MAX_DRM_SCHEMES
    requires At(s, at, DrmTokens(schemes))
    ensures ReadDrm(s, at) == DrmRead(Some(schemes), at + |DrmTokens(schemes)|)
  {
    AtConcat(s, at, [I32(|schemes|)], StringTokens(schemes));
    AtHead(s, at, I32(|schemes|));
    StringsRoundTrip(s, at + 1, schemes, []);
    assert [] + schemes == schemes;
  }

  /** Whatever follows, no reader takes more schemes than a writer may send. */
  lemma {:induction false} FewSchemes(s: seq<Token>, at: nat, n: nat, soFar: seq<string>)
    ensures var r := ReadStrings(s, at, n, soFar); r.schemes.Some? ==> |r.schemes.value| == |soFar| + n
    decreases n
  {
    if n > 0 && at < |s| && s[at].Str? {
      FewSchemes(s, at + 1, n - 1, soFar + [s[at].s]);
    }
  }

  // ---------- Everything but the images ----------

  function Imageless(m: MetaData): MetaData { m.(mediaImage := None, avQueueImage := None) }

  predicate IconLost(m: MetaData) { m.mask[META_KEY_BUNDLE_ICON] && m.bundleIcon.None? }

  /** Where the DRM schemes start in what is written except the images. */
  const BEFORE_DRM := 1 + FIELDS + 1

  lemma Parts(m: MetaData)
    ensures ExceptImages(m) ==
            [Str(MaskString(m.mask))] + (FieldTokens(m.fields) + ([Icon(m.bundleIcon)] + DrmTokens(m.drmSchemes)))
  {
    hide FieldTokens;
  }

  /** Up to the DRM schemes everything is read back as it was. */
  lemma UpToIcon(s: seq<Token>, at: nat, m: MetaData)
    requires At(s, at, ExceptImages(m))
    ensures At(s, at + BEFORE_DRM, DrmTokens(m.drmSchemes))
    ensures ReadExceptImages(s, at) == AfterIcon(s, at + BEFORE_DRM, Imageless(m).(drmSchemes := []), true)
  {
    hide FieldTokens, ReadFields, DrmTokens, AfterIcon;
    Parts(m);
    var afterFields := [Icon(m.bundleIcon)] + DrmTokens(m.drmSchemes);
    var afterMask := FieldTokens(m.fields) + afterFields;
    AtConcat(s, at, [Str(MaskString(m.mask))], afterMask);
    AtHead(s, at, Str(MaskString(m.mask)));
    AtConcat(s, at + 1, FieldTokens(m.fields), afterFields);
    AtConcat(s, at + 1 + FIELDS, [Icon(m.bundleIcon)], DrmTokens(m.drmSchemes));
    AtHead(s, at + 1 + FIELDS, Icon(m.bundleIcon));
    MaskRoundTrip(m.mask);
    FieldsRoundTrip(s, at + 1, m.fields, NewFields());
  }

  lemma ExceptImagesRoundTrip(s: seq<Token>, at: nat, m: MetaData)
    requires At(s, at, ExceptImages(m))
    ensures IconLost(m) ==>
              ReadExceptImages(s, at) ==
              ExceptImagesRead(false, Imageless(m).(drmSchemes := []), at + BEFORE_DRM)
    ensures !IconLost(m) && |m.drmSchemes| <= MAX_DRM_SCHEMES ==>
              ReadExceptImages(s, at) == ExceptImagesRead(false, Imageless(m), at + |ExceptImages(m)|)
    ensures |m.drmSchemes| > MAX_DRM_SCHEMES ==> ReadExceptImages(s, at).data.drmSchemes != m.drmSchemes
    ensures ReadExceptImages(s, at).data.fields == m.fields
  {
    hide FieldTokens, ReadFields, ReadExceptImages;
    UpToIcon(s, at, m);
    Parts(m);
    if |m.drmSchemes| <= MAX_DRM_SCHEMES {
      DrmRoundTrip(s, at + BEFORE_DRM, m.drmSchemes);
    } else if at + BEFORE_DRM < |s| && s[at + BEFORE_DRM].I32? && 0 <= s[at + BEFORE_DRM].i <= MAX_DRM_SCHEMES {
      FewSchemes(s, at + BEFORE_DRM + 1, s[at + BEFORE_DRM].i, []);
    }
  }

  // ---------- The whole ----------

  /** What a caller can check before marshalling. */
  predicate Sendable(m: MetaData) {
    && |m.drmSchemes| <= MAX_DRM_SCHEMES
    && !IconLost(m)
    && 0 <= m.fields.sizes.displayTags <= DISPLAY_TAG_ALL
    && (m.mediaImage.Some? ==> m.mediaImage.value != [] && m.mask[META_KEY_MEDIA_IMAGE])
    && (m.avQueueImage.Some? ==> m.avQueueImage.value != [] && m.mask[META_KEY_AVQUEUE_IMAGE])
    && Size(m.mediaImage) + Size(m.avQueueImage) <= MAX_IMAGE_SIZE
    && (m.mediaImage.None? && m.avQueueImage.Some? ==> m.fields.sizes.mediaLength == 0)
  }

  function Size(image: Option<Image>): nat { if image.Some? then |image.value| else 0 }

  predicate RoundTrips(s: seq<Token>, at: nat, m: MetaData) {
    Decode(s, at) == Decoded(Some(Measured(m)), at + |Encode(m)|)
  }

  lemma EncodeParts(s: seq<Token>, at: nat, m: MetaData)
    requires At(s, at, Encode(m))
    ensures at < |s| && s[at] == I32(|Blob(m)|)
    ensures At(s, at + 1, ExceptImages(Measured(m)))
    ensures var end := at + 1 + |ExceptImages(Measured(m))|;
            if SendsBlob(|Blob(m)|) then
              end < |s| && s[end] == Raw(Blob(m)) && |Encode(m)| == 2 + |ExceptImages(Measured(m))|
            else |Encode(m)| == 1 + |ExceptImages(Measured(m))|
  {
    hide ExceptImages, Measured;
    var size := [I32(|Blob(m)|)];
    var body := ExceptImages(Measured(m));
    var tail := if SendsBlob(|Blob(m)|) then [Raw(Blob(m))] else [];
    assert Encode(m) == size + (body + tail);
    AtConcat(s, at, size, body + tail);
    AtHead(s, at, size[0]);
    AtConcat(s, at + 1, body, tail);
    if tail != [] { AtHead(s, at + 1 + |body|, tail[0]); }
  }

  /** Splitting the blob gives back both images and nothing else changes. */
  lemma ImagesRoundTrip(m: MetaData)
    requires SendsBlob(|Blob(m)|)
    requires Sendable(m)
    ensures 0 <= Measured(m).fields.sizes.mediaLength <= |Blob(m)|
    ensures WithImages(Imageless(Measured(m)), Blob(m)) == Measured(m)
  {
    var n := |Sent(m.mediaImage)|;
    assert Blob(m)[..n] == Sent(m.mediaImage) && Blob(m)[n..] == Sent(m.avQueueImage);
    if m.mediaImage.Some? { assert m.mask[META_KEY_MEDIA_IMAGE := true] == m.mask; }
    if m.avQueueImage.Some? { assert m.mask[META_KEY_AVQUEUE_IMAGE := true] == m.mask; }
  }

  /** decode(encode(x) + rest) == (x, rest), for everything that may be sent. */
  lemma SendableRoundTrips(s: seq<Token>, at: nat, m: MetaData)
    requires At(s, at, Encode(m))
    requires Sendable(m)
    ensures RoundTrips(s, at, m)
  {
    hide ExceptImages, ReadExceptImages, WithImages, FieldTokens, ReadFields;
    EncodeParts(s, at, m);
    ExceptImagesRoundTrip(s, at + 1, Measured(m));
    if SendsBlob(|Blob(m)|) {
      ImagesRoundTrip(m);
    } else {
      assert m.mediaImage.None? && m.avQueueImage.None?;
    }
  }

  /** An image that is too big, empty, unannounced in the mask or cut at a stale length is not read back. */
  lemma BadImagesAreLost(m: MetaData)
    requires SendsBlob(|Blob(m)|) && 0 <= Measured(m).fields.sizes.mediaLength <= |Blob(m)|
    requires |m.drmSchemes| <= MAX_DRM_SCHEMES && !IconLost(m) && 0 <= m.fields.sizes.displayTags <= DISPLAY_TAG_ALL
    requires WithImages(Imageless(Measured(m)), Blob(m)) == Measured(m)
    ensures Sendable(m)
  {
  }

  lemma TooManySchemesAreLost(s: seq<Token>, at: nat, m: MetaData)
    requires At(s, at, Encode(m)) && RoundTrips(s, at, m)
    ensures |m.drmSchemes| <= MAX_DRM_SCHEMES
  {
    hide ExceptImages, ReadExceptImages, FieldTokens, ReadFields;
    EncodeParts(s, at, m);
    ExceptImagesRoundTrip(s, at + 1, Measured(m));
  }

  /** A bundle icon that is announced but missing stops the reader before the DRM schemes. */
  lemma LostIconStopsTheReader(s: seq<Token>, at: nat, m: MetaData)
    requires At(s, at, Encode(m)) && RoundTrips(s, at, m)
    requires |m.drmSchemes| <= MAX_DRM_SCHEMES
    ensures !IconLost(m)
  {
    hide ReadExceptImages, FieldTokens, ReadFields, WithImages;
    EncodeParts(s, at, m);
    var w := Measured(m);
    ExceptImagesRoundTrip(s, at + 1, w);
    UpToIcon(s, at + 1, w);
    AtConcat(s, at + 1 + BEFORE_DRM, [I32(|w.drmSchemes|)], StringTokens(w.drmSchemes));
    AtHead(s, at + 1 + BEFORE_DRM, I32(|w.drmSchemes|));
  }

  /** Metadata that may not be sent never comes back as it was. */
  lemma OnlySendableRoundTrips(s: seq<Token>, at: nat, m: MetaData)
    requires At(s, at, Encode(m))
    requires RoundTrips(s, at, m)
    ensures Sendable(m)
  {
    hide ExceptImages, ReadExceptImages, WithImages, FieldTokens, ReadFields;
    EncodeParts(s, at, m);
    TooManySchemesAreLost(s, at, m);
    LostIconStopsTheReader(s, at, m);
    ExceptImagesRoundTrip(s, at + 1, Measured(m));
    if SendsBlob(|Blob(m)|) {
      BadImagesAreLost(m);
    }
  }

  /**
   Unmarshalling what was marshalled, whatever stands before and after it, gives back every field
   and consumes exactly what was written if and only if the metadata was sendable.
   */
  lemma RoundTripExactly(before: seq<Token>, m: MetaData, rest: seq<Token>)
    ensures RoundTrips(before + Encode(m) + rest, |before|, m) <==> Sendable(m)
  {
    hide Encode, RoundTrips, Sendable;
    var s := before + Encode(m) + rest;
    assert s[|before|..|before| + |Encode(m)|] == Encode(m);
    if Sendable(m) {
      SendableRoundTrips(s, |before|, m);
    }
    if RoundTrips(s, |before|, m) {
      OnlySendableRoundTrips(s, |before|, m);
    }
  }
}
