/** The masking of device names and titles for logs, from utils/include/avsession_utils.h. */
module NameMasking {
  import opened Machine
  import opened Sequences
  import opened Utf8

  const STAR: bv8 := 0x2A
  const THREE_STARS: Bytes := [STAR, STAR, STAR]
  const FOUR_STARS: Bytes := [STAR, STAR, STAR, STAR]

  // ---------- How much is kept ----------

  datatype Keep = Keep(front: nat, back: nat)

  /** Of a device name with at least three characters. */
  function DeviceKeep(n: nat): Keep {
    if n >= 16 then Keep(4, 3) else if n >= 9 then Keep(3, 2) else if n >= 6 then Keep(2, 2) else Keep(2, 1)
  }

  function Ceil(x: real): int { -((-x).Floor) }

  /** Division as C++ does it, towards zero. */
  function Half(n: int): int { if n >= 0 then n / 2 else -((-n) / 2) }

  function Max(a: int, b: int): (r: int)
    ensures r >= b
  {
    if a > b then a else b
  }

  /** Of a title with at least four characters. */
  function TitleKeep(n: nat, ratio: real): (keep: Keep)
    ensures keep.front >= 1 && keep.back >= 1
  {
    if n <= 7 then
      var maskLen := Ceil(n as real * ratio);
      var front := Half(n - maskLen);
      Keep(Max(front, 1), Max(n - maskLen - front, 1))
    else Keep(2, 2)
  }

  // ---------- The masked strings, as functions of bytes ----------

  function Slice(s: Bytes, from: nat, count: nat): Bytes
    requires from <= |s|
  {
    if from + count <= |s| then s[from..from + count] else s[from..]
  }

  lemma {:induction false} PositionsInside(s: Bytes)
    ensures forall i :: 0 <= i < |Positions(s)| ==> Positions(s)[i] < |s|
    ensures forall i, j :: 0 <= i < j < |Positions(s)| ==> Positions(s)[i] < Positions(s)[j]
    decreases |s|
  {
    hide IsContinuation;
    if s != [] { PositionsInside(s[..|s| - 1]); }
  }

  function MaskedDeviceName(s: Bytes): Bytes {
    PositionsInside(s);
    var p, n := Positions(s), |Positions(s)|;
    if s == [] then []
    else if n == 0 then FOUR_STARS
    else if n < 3 then s[p[0]..if n >= 2 then p[1] else |s|] + FOUR_STARS
    else s[..p[DeviceKeep(n).front]] + FOUR_STARS + s[p[n - DeviceKeep(n).back]..]
  }

  function MaskedTitle(s: Bytes, ratio: real): Bytes {
    PositionsInside(s);
    var p, n := Positions(s), |Positions(s)|;
    if s == [] then []
    else if n == 0 then THREE_STARS
    else if n <= 3 then
      if (n == 3 && 0xE0 <= s[0] <= 0xEF) || n == 2 then Slice(s, p[0], 3) + THREE_STARS
      else [STAR] + s + [STAR]
    else
      var keep := TitleKeep(n, ratio);
      if keep.front + keep.back >= n then [s[0]] + THREE_STARS
      else s[..p[keep.front]] + THREE_STARS + s[p[n - keep.back]..]
  }

  // ---------- The programs ----------

  /** The loop that both begin with. */
  method CharPositions(s: Bytes) returns (charPositions: seq<nat>)
    ensures charPositions == Positions(s)
  {
    hide IsContinuation;
    charPositions := [];
    for i := 0 to |s|
      invariant charPositions == Positions(s[..i])
    {
      assert s[..i + 1][..i] == s[..i];
      if !IsContinuation(s[i]) {
        charPositions := charPositions + [i];
      }
    }
    assert s[..|s|] == s;
  }

  method GetAnonyDeviceName(deviceName: Bytes) returns (masked: Bytes)
    ensures masked == MaskedDeviceName(deviceName)
  {
    hide Positions;
    if deviceName == [] { return []; }
    PositionsInside(deviceName);
    var charPositions := CharPositions(deviceName);
    var charCount := |charPositions|;
    if charCount == 0 { return FOUR_STARS; }
    var firstCharLen :=
      if charCount >= 2 then charPositions[1] - charPositions[0] else |deviceName| - charPositions[0];
    var firstChar := deviceName[charPositions[0]..charPositions[0] + firstCharLen];
    if charCount < 3 { return firstChar + FOUR_STARS; }
    var keepFront, keepBack := 2, 1;
    if charCount >= 6 { keepFront, keepBack := 2, 2; }
    if charCount >= 9 { keepFront, keepBack := 3, 2; }
    if charCount >= 16 { keepFront, keepBack := 4, 3; }
    var frontPart := deviceName[..charPositions[keepFront]];
    var backPart := deviceName[charPositions[charCount - keepBack]..];
    masked := frontPart + FOUR_STARS + backPart;
  }

  method GetAnonyTitle(title: Bytes, ratio: real) returns (masked: Bytes)
    ensures masked == MaskedTitle(title, ratio)
  {
    hide Positions, TitleKeep, Slice;
    if title == [] { return []; }
    PositionsInside(title);
    var charPositions := CharPositions(title);
    var charCount := |charPositions|;
    if charCount == 0 { return THREE_STARS; }
    if charCount <= 3 {
      var firstChar := Slice(title, charPositions[0], 3);
      if charCount == 3 {
        var firstByte := title[0];
        if 0xE0 <= firstByte <= 0xEF { return firstChar + THREE_STARS; }
      }
      if charCount == 2 { return firstChar + THREE_STARS; }
      return [STAR] + title + [STAR];
    }
    var keepFront, keepBack := TitleKeepCounts(charCount, ratio);
    if keepFront + keepBack >= charCount { return [title[0]] + THREE_STARS; }
    var start := charPositions[keepFront];
    var end := charPositions[charCount - keepBack];
    masked := title[..start] + THREE_STARS + title[end..];
  }

  method TitleKeepCounts(charCount: nat, ratio: real) returns (keepFront: nat, keepBack: nat)
    ensures Keep(keepFront, keepBack) == TitleKeep(charCount, ratio)
  {
    if charCount <= 7 {
      var maskLen := Ceil(charCount as real * ratio);
      var front := Half(charCount - maskLen);
      var back := charCount - maskLen - front;
      keepFront, keepBack := Max(front, 1), Max(back, 1);
    } else {
      keepFront, keepBack := 2, 2;
    }
  }

  // ---------- What the masks do to characters ----------

  /** Characters in front, stars, characters behind. */
  function Around(chars: seq<Bytes>, front: nat, stars: Bytes, back: nat): Bytes
    requires front <= |chars| && back <= |chars|
  {
    Flatten(chars[..front]) + stars + Flatten(chars[|chars| - back..])
  }

  lemma {:induction false} StarsAreValid(stars: Bytes)
    requires forall i :: 0 <= i < |stars| ==> stars[i] == STAR
    ensures Valid(stars)
  {
    if stars != [] {
      StarsAreValid(stars[1..]);
      StartOfValid([STAR], stars[1..]);
      assert stars == [STAR] + stars[1..];
    }
  }

  lemma AroundIsValid(chars: seq<Bytes>, front: nat, stars: Bytes, back: nat)
    requires AllWellFormed(chars) && front <= |chars| && back <= |chars|
    requires forall i :: 0 <= i < |stars| ==> stars[i] == STAR
    ensures Valid(Around(chars, front, stars, back))
  {
    hide Valid, WellFormed;
    FlattenIsValid(chars[..front]);
    StarsAreValid(stars);
    FlattenIsValid(chars[|chars| - back..]);
    ValidConcat(Flatten(chars[..front]), stars);
    ValidConcat(Flatten(chars[..front]) + stars, Flatten(chars[|chars| - back..]));
  }

  /** Cutting at positions is cutting at characters. */
  lemma CutsAtCharacters(chars: seq<Bytes>, i: nat)
    requires AllWellFormed(chars) && i < |chars|
    ensures var s := Flatten(chars);
            |Positions(s)| == |chars| && Positions(s)[i] <= |s|
            && s[..Positions(s)[i]] == Flatten(chars[..i]) && s[Positions(s)[i]..] == Flatten(chars[i..])
  {
    hide WellFormed, Positions;
    PositionsAreBoundaries(chars);
    FlattenParts(chars, i);
  }

  lemma DeviceKeepFits(n: nat)
    requires n >= 3
    ensures var keep := DeviceKeep(n);
            keep.back >= 1 && keep.front + keep.back <= n && (keep.front + keep.back < n <==> n >= 4)
  {
  }

  lemma CutsAround(chars: seq<Bytes>, front: nat, stars: Bytes, back: nat)
    requires AllWellFormed(chars) && 1 <= back && front + back <= |chars|
    ensures var s, p := Flatten(chars), Positions(Flatten(chars));
            |p| == |chars| && p[front] <= |s| && p[|p| - back] <= |s|
            && s[..p[front]] + stars + s[p[|p| - back]..] == Around(chars, front, stars, back)
  {
    hide WellFormed, Positions, Flatten;
    CutsAtCharacters(chars, front);
    CutsAtCharacters(chars, |chars| - back);
  }

  /** A device name with at least three characters keeps the outer ones; the others become four stars. */
  lemma LongDeviceName(chars: seq<Bytes>)
    requires AllWellFormed(chars) && |chars| >= 3
    ensures var keep := DeviceKeep(|chars|);
            keep.front + keep.back <= |chars| && (keep.front + keep.back < |chars| <==> |chars| >= 4)
            && MaskedDeviceName(Flatten(chars)) == Around(chars, keep.front, FOUR_STARS, keep.back)
  {
    hide WellFormed, Positions, DeviceKeep, Flatten, Around, MaskedDeviceName;
    var keep := DeviceKeep(|chars|);
    DeviceKeepFits(|chars|);
    CutsAround(chars, keep.front, FOUR_STARS, keep.back);
    MaskOfLongName(Flatten(chars));
  }

  lemma NotEmpty(chars: seq<Bytes>)
    requires AllWellFormed(chars) && chars != []
    ensures |Flatten(chars)| >= |chars[0]| > 0 && Flatten(chars)[0] == chars[0][0]
    ensures Flatten(chars)[..|chars[0]|] == chars[0]
  {
  }

  /** A shorter one shows its first character and hides the second. */
  lemma ShortDeviceName(chars: seq<Bytes>)
    requires AllWellFormed(chars) && 1 <= |chars| <= 2
    ensures MaskedDeviceName(Flatten(chars)) == chars[0] + FOUR_STARS
  {
    hide WellFormed, Positions;
    NotEmpty(chars);
    CutsAtCharacters(chars, 0);
    PositionsAreBoundaries(chars);
    assert chars[..0] == [];
    if |chars| == 2 {
      CutsAtCharacters(chars, 1);
      assert chars[..1] == [chars[0]];
    } else {
      assert chars == [chars[0]];
    }
    FlattenOne(chars[0]);
  }

  /** Masking a valid device name gives valid UTF-8. */
  lemma MaskedDeviceNameIsValid(s: Bytes)
    requires Valid(s)
    ensures Valid(MaskedDeviceName(s))
  {
    hide WellFormed, Valid, MaskedDeviceName, Around;
    var chars := Split(s);
    if chars == [] {
      EmptyName();
    } else if |chars| <= 2 {
      ShortDeviceName(chars);
      OneChar(chars[0], FOUR_STARS);
    } else {
      LongDeviceName(chars);
      var keep := DeviceKeep(|chars|);
      AroundIsValid(chars, keep.front, FOUR_STARS, keep.back);
    }
  }

  lemma EmptyName()
    ensures Flatten<bv8>([]) == [] && MaskedDeviceName([]) == [] && Valid([])
    ensures forall ratio :: MaskedTitle([], ratio) == []
  {
  }

  lemma OneChar(c: Bytes, stars: Bytes)
    requires WellFormed(c) && forall i :: 0 <= i < |stars| ==> stars[i] == STAR
    ensures Valid(c + stars)
  {
    StarsAreValid(stars);
    StartOfValid(c, stars);
  }

  // ---------- Titles ----------

  /** The ratio every caller uses. */
  const DEFAULT_RATIO := 0.3

  lemma CeilIsPositive(x: real)
    ensures Ceil(x) >= 1 <==> x > 0.0
  {
  }

  /** Something of a title with at least four characters is hidden exactly for a positive ratio, or beyond seven. */
  lemma TitleKeepFits(n: nat, ratio: real)
    requires n >= 4
    ensures var keep := TitleKeep(n, ratio);
            keep.front + keep.back < n <==> n >= 8 || ratio > 0.0
  {
    hide Ceil;
    if n <= 7 {
      CeilIsPositive(n as real * ratio);
      assert n == 4 || n == 5 || n == 6 || n == 7;
      assert n as real * ratio > 0.0 <==> ratio > 0.0;
    }
  }

  lemma DefaultTitleKeep(n: nat)
    requires n >= 4
    ensures TitleKeep(n, DEFAULT_RATIO) == if n == 4 then Keep(1, 1) else if n == 5 then Keep(1, 2) else Keep(2, 2)
  {
    CeilIs(1.2, 2);
    CeilIs(1.5, 2);
    CeilIs(1.8, 2);
    CeilIs(2.1, 3);
    hide Ceil;
    if n == 4 {
      assert n as real * DEFAULT_RATIO == 1.2;
    } else if n == 5 {
      assert n as real * DEFAULT_RATIO == 1.5;
    } else if n == 6 {
      assert n as real * DEFAULT_RATIO == 1.8;
    } else if n == 7 {
      assert n as real * DEFAULT_RATIO == 2.1;
    }
  }

  lemma CeilIs(x: real, n: int)
    requires (n - 1) as real < x <= n as real
    ensures Ceil(x) == n
  {
  }

  /** A title of at least four positions, whatever its bytes are: what is kept of it at both ends. */
  lemma MaskOfLongTitle(s: Bytes, ratio: real)
    requires |Positions(s)| >= 4
    ensures var p, n, keep := Positions(s), |Positions(s)|, TitleKeep(|Positions(s)|, ratio);
            |s| > 0
            && if keep.front + keep.back >= n then MaskedTitle(s, ratio) == [s[0]] + THREE_STARS
               else p[keep.front] <= |s| && p[n - keep.back] <= |s|
                    && MaskedTitle(s, ratio) == s[..p[keep.front]] + THREE_STARS + s[p[n - keep.back]..]
  {
    PositionsInside(s);
    NoPositions();
    hide Positions, TitleKeep;
  }

  /** A device name of at least three positions, whatever its bytes are: what is kept of it at both ends. */
  lemma MaskOfLongName(s: Bytes)
    requires |Positions(s)| >= 3
    ensures var p, n, keep := Positions(s), |Positions(s)|, DeviceKeep(|Positions(s)|);
            p[keep.front] <= |s| && p[n - keep.back] <= |s|
            && MaskedDeviceName(s) == s[..p[keep.front]] + FOUR_STARS + s[p[n - keep.back]..]
  {
    PositionsInside(s);
    hide Positions;
  }

  /** A title with at least four characters keeps the outer ones; the others become three stars. */
  lemma LongTitle(chars: seq<Bytes>, ratio: real)
    requires AllWellFormed(chars) && |chars| >= 4
    ensures var keep := TitleKeep(|chars|, ratio);
            if |chars| >= 8 || ratio > 0.0 then
              keep.front + keep.back < |chars|
              && MaskedTitle(Flatten(chars), ratio) == Around(chars, keep.front, THREE_STARS, keep.back)
            else MaskedTitle(Flatten(chars), ratio) == [chars[0][0]] + THREE_STARS
  {
    hide WellFormed, Positions, TitleKeep, Flatten, Around, MaskedTitle;
    var keep := TitleKeep(|chars|, ratio);
    TitleKeepFits(|chars|, ratio);
    NotEmpty(chars);
    PositionsAreBoundaries(chars);
    MaskOfLongTitle(Flatten(chars), ratio);
    if keep.front + keep.back < |chars| {
      CutsAround(chars, keep.front, THREE_STARS, keep.back);
    }
  }

  /** Two characters become the first three bytes, whatever they belong to. */
  lemma TwoCharacterTitle(chars: seq<Bytes>, ratio: real)
    requires AllWellFormed(chars) && |chars| == 2
    ensures MaskedTitle(Flatten(chars), ratio) == Slice(Flatten(chars), 0, 3) + THREE_STARS
  {
    hide WellFormed, Positions;
    NotEmpty(chars);
    PositionsAreBoundaries(chars);
    assert chars[..0] == [];
  }

  /** One character, or three that do not begin with a three-byte one, are shown in full between two stars. */
  lemma OtherShortTitle(chars: seq<Bytes>, ratio: real)
    requires AllWellFormed(chars) && (|chars| == 1 || |chars| == 3)
    ensures MaskedTitle(Flatten(chars), ratio) ==
            if |chars| == 3 && |chars[0]| == 3 then chars[0] + THREE_STARS else [STAR] + Flatten(chars) + [STAR]
  {
    hide Positions, Flatten;
    NotEmpty(chars);
    PositionsAreBoundaries(chars);
    assert chars[..0] == [];
    EmptyName();
    ThreeByteStart(chars[0]);
    if |chars| == 3 && |chars[0]| == 3 { assert Slice(Flatten(chars), 0, 3) == chars[0]; }
  }

  lemma ThreeByteStart(c: Bytes)
    requires WellFormed(c)
    ensures |c| == 3 <==> 0xE0 <= c[0] <= 0xEF
  {
  }

  /** A character cut short is not valid UTF-8. */
  lemma CutCharacterIsInvalid(c: Bytes, k: nat, rest: Bytes)
    requires WellFormed(c) && 0 < k < |c|
    requires rest != [] && !IsContinuation(rest[0])
    ensures !Valid(c[..k] + rest)
  {
    hide IsContinuation;
    var s := c[..k] + rest;
    assert s[0] == c[0] && s[k] == rest[0];
    if |c| <= |s| { assert s[..|c|][k] == rest[0]; }
  }

  lemma StarIsNoContinuation()
    ensures !IsContinuation(STAR)
  {
  }

  lemma TwoCharacterTitleIsValid(chars: seq<Bytes>)
    requires AllWellFormed(chars) && |chars| == 2
    ensures Valid(Slice(Flatten(chars), 0, 3) + THREE_STARS) <==> |chars[0]| == 3 || |Flatten(chars)| <= 3
  {
    hide WellFormed, Valid, Flatten;
    var a, b, s := chars[0], chars[1], Flatten(chars);
    assert Slice(s, 0, 3) == if |s| <= 3 then s else s[..3];
    TwoCharacters(chars);
    StarIsNoContinuation();
    StarsAreValid(THREE_STARS);
    if |s| <= 3 {
      FlattenIsValid(chars);
      ValidConcat(s, THREE_STARS);
    } else if |a| == 3 {
      assert s[..3] == a;
      StartOfValid(a, THREE_STARS);
    } else if |a| > 3 {
      assert s[..3] == a[..3];
      CutCharacterIsInvalid(a, 3, THREE_STARS);
    } else {
      var k := 3 - |a|;
      assert s[..3] + THREE_STARS == a + (b[..k] + THREE_STARS);
      CutCharacterIsInvalid(b, k, THREE_STARS);
      StartOfValid(a, b[..k] + THREE_STARS);
    }
  }

  lemma TwoCharacters(chars: seq<Bytes>)
    requires AllWellFormed(chars) && |chars| == 2
    ensures Flatten(chars) == chars[0] + chars[1] && |chars[0]| > 0 && |chars[1]| > 0
  {
    assert chars[1..] == [chars[1]];
    FlattenOne(chars[1]);
  }

  lemma BetweenStarsIsValid(s: Bytes)
    requires Valid(s)
    ensures Valid([STAR] + s + [STAR])
  {
    hide Valid;
    StarsAreValid([STAR]);
    ValidConcat([STAR], s);
    ValidConcat([STAR] + s, [STAR]);
  }

  lemma FirstByteIsValid(c: Bytes)
    requires WellFormed(c)
    ensures Valid([c[0]] + THREE_STARS) <==> |c| == 1
  {
    StarIsNoContinuation();
    if |c| == 1 {
      assert c == [c[0]];
      OneChar(c, THREE_STARS);
    } else {
      assert [c[0]] == c[..1];
      CutCharacterIsInvalid(c, 1, THREE_STARS);
    }
  }

  /** The titles whose masking cuts a character in two. */
  predicate CutsACharacter(chars: seq<Bytes>, ratio: real) {
    || (|chars| == 2 && |chars[0]| != 3 && |chars[0]| + |chars[1]| > 3)
    || (4 <= |chars| <= 7 && ratio <= 0.0 && |chars[0]| > 1)
  }

  /** Masking a valid title gives valid UTF-8 except for these titles, where it never does. */
  lemma MaskedTitleIsValid(s: Bytes, ratio: real)
    requires Valid(s)
    ensures Valid(MaskedTitle(s, ratio)) <==> !CutsACharacter(Split(s), ratio)
  {
    hide WellFormed, Valid, MaskedTitle, Around, Slice, TitleKeep;
    var chars := Split(s);
    if chars == [] {
      EmptyName();
    } else if |chars| == 2 {
      TwoCharacterTitle(chars, ratio);
      TwoCharacterTitleIsValid(chars);
      TwoCharacters(chars);
    } else if |chars| <= 3 {
      OtherShortTitle(chars, ratio);
      BetweenStarsIsValid(s);
      OneChar(chars[0], THREE_STARS);
    } else {
      LongTitle(chars, ratio);
      if |chars| >= 8 || ratio > 0.0 {
        var keep := TitleKeep(|chars|, ratio);
        AroundIsValid(chars, keep.front, THREE_STARS, keep.back);
      } else {
        FirstByteIsValid(chars[0]);
        NotEmpty(chars);
      }
    }
  }

  /** A letter and a three-byte character, at the default ratio: the character is cut after its second byte. */
  lemma ATitleCutShort()
    ensures var title := [0x61, 0xE4, 0xBD, 0xA0];
            Valid(title) && !Valid(MaskedTitle(title, DEFAULT_RATIO))
  {
    var a, b := [0x61], [0xE4, 0xBD, 0xA0];
    assert WellFormed(a) && WellFormed(b);
    StartOfValid(b, []);
    StartOfValid(a, b + []);
    assert b + [] == b && a + b == [0x61, 0xE4, 0xBD, 0xA0];
    TwoCharacters([a, b]);
    TwoCharacterTitle([a, b], DEFAULT_RATIO);
    TwoCharacterTitleIsValid([a, b]);
  }

  // ---------- What is hidden ----------

  predicate OnlyStars(s: Bytes) { forall i :: 0 <= i < |s| ==> s[i] == STAR }

  predicate NoStars(s: Bytes) { forall i :: 0 <= i < |s| ==> s[i] != STAR }

  /** A string without its stars: what a mask leaves to be read. */
  function Unstarred(s: Bytes): Bytes {
    if s == [] then [] else (if s[0] == STAR then [] else [s[0]]) + Unstarred(s[1..])
  }

  lemma {:induction false} UnstarredConcat(s: Bytes, t: Bytes)
    ensures Unstarred(s + t) == Unstarred(s) + Unstarred(t)
    decreases |s|
  {
    if s == [] {
      assert s + t == t;
    } else {
      assert (s + t)[1..] == s[1..] + t;
      UnstarredConcat(s[1..], t);
    }
  }

  lemma {:induction false} OnlyStarsVanish(s: Bytes)
    ensures Unstarred(s) == [] <==> OnlyStars(s)
    decreases |s|
  {
    if s != [] {
      OnlyStarsVanish(s[1..]);
      assert forall i :: 0 < i < |s| ==> s[i] == s[1..][i - 1];
    }
  }

  /** Stars in place of a part hide nothing exactly when the part is stars itself. */
  lemma HidesThePart(front: Bytes, part: Bytes, stars: Bytes, back: Bytes)
    requires OnlyStars(stars)
    ensures Unstarred(front + stars + back) == Unstarred(front + part + back) <==> OnlyStars(part)
  {
    hide Unstarred, OnlyStars;
    OnlyStarsVanish(stars);
    OnlyStarsVanish(part);
    UnstarredConcat(front, stars);
    UnstarredConcat(front + stars, back);
    UnstarredConcat(front, part);
    UnstarredConcat(front + part, back);
    var f, p, b := Unstarred(front), Unstarred(part), Unstarred(back);
    assert f + [] + b == f + b;
    assert |f + p + b| == |f + b| + |p|;
  }

  /** What the mask of a device name leaves out: the second of two characters, and the inner ones of at least four. */
  function HiddenOfName(chars: seq<Bytes>): Bytes {
    if |chars| == 2 then chars[1]
    else if |chars| >= 4 then
      DeviceKeepFits(|chars|);
      Flatten(chars[DeviceKeep(|chars|).front..|chars| - DeviceKeep(|chars|).back])
    else []
  }

  lemma ThreeParts(chars: seq<Bytes>, i: nat, j: nat)
    requires i <= j <= |chars|
    ensures Flatten(chars) == Flatten(chars[..i]) + Flatten(chars[i..j]) + Flatten(chars[j..])
  {
    FlattenParts(chars, j);
    FlattenParts(chars[..j], i);
    assert chars[..j][..i] == chars[..i] && chars[..j][i..] == chars[i..j];
  }

  lemma AroundHides(chars: seq<Bytes>, front: nat, stars: Bytes, back: nat)
    requires OnlyStars(stars) && front + back <= |chars|
    ensures Unstarred(Around(chars, front, stars, back)) == Unstarred(Flatten(chars)) <==>
            OnlyStars(Flatten(chars[front..|chars| - back]))
  {
    hide Unstarred, OnlyStars, Flatten;
    var j := |chars| - back;
    ThreeParts(chars, front, j);
    HidesThePart(Flatten(chars[..front]), Flatten(chars[front..j]), stars, Flatten(chars[j..]));
  }

  lemma LongNameHides(chars: seq<Bytes>)
    requires AllWellFormed(chars) && |chars| >= 3
    ensures Unstarred(MaskedDeviceName(Flatten(chars))) == Unstarred(Flatten(chars)) <==> OnlyStars(HiddenOfName(chars))
  {
    hide WellFormed, MaskedDeviceName, Unstarred, DeviceKeep, OnlyStars, Flatten;
    var n := |chars|;
    LongDeviceName(chars);
    DeviceKeepFits(n);
    var keep := DeviceKeep(n);
    FourAreStars();
    AroundHides(chars, keep.front, FOUR_STARS, keep.back);
    if n == 3 {
      assert chars[keep.front..n - keep.back] == [];
      EmptyName();
      NoByteIsOnlyStars();
    }
  }

  lemma FourAreStars()
    ensures OnlyStars(FOUR_STARS) && OnlyStars(THREE_STARS)
  {
  }

  /** The mask of a device name hides nothing exactly when all it leaves out are stars. */
  lemma NameHidesExactly(chars: seq<Bytes>)
    requires AllWellFormed(chars)
    ensures Unstarred(MaskedDeviceName(Flatten(chars))) == Unstarred(Flatten(chars)) <==> OnlyStars(HiddenOfName(chars))
  {
    hide WellFormed, MaskedDeviceName, Unstarred, DeviceKeep;
    var n, s := |chars|, Flatten(chars);
    if n == 0 {
      EmptyName();
    } else if n <= 2 {
      ShortDeviceName(chars);
      var second := if n == 2 then chars[1] else [];
      if n == 2 {
        TwoCharacters(chars);
      } else {
        assert chars == [chars[0]];
        FlattenOne(chars[0]);
      }
      assert s == chars[0] + second + [] && chars[0] + FOUR_STARS == chars[0] + FOUR_STARS + [];
      HidesThePart(chars[0], second, FOUR_STARS, []);
    } else {
      LongNameHides(chars);
    }
  }

  lemma InnerIsHidden(chars: seq<Bytes>, i: nat, j: nat)
    requires AllWellFormed(chars) && NoStars(Flatten(chars)) && i < j <= |chars|
    ensures !OnlyStars(Flatten(chars[i..j]))
  {
    ThreeParts(chars, i, j);
    NotEmpty(chars[i..j]);
    SomethingHidden(Flatten(chars[..i]), Flatten(chars[i..j]), Flatten(chars[j..]));
  }

  /** Of the names without stars, those with no, one or three characters are shown in full, and no others. */
  lemma NamesShownInFull(chars: seq<Bytes>)
    requires AllWellFormed(chars) && NoStars(Flatten(chars))
    ensures Unstarred(MaskedDeviceName(Flatten(chars))) == Unstarred(Flatten(chars)) <==>
            |chars| == 0 || |chars| == 1 || |chars| == 3
  {
    hide MaskedDeviceName, Unstarred, DeviceKeep, OnlyStars, NoStars, Flatten, WellFormed;
    NameHidesExactly(chars);
    NoByteIsOnlyStars();
    var n := |chars|;
    if n == 2 {
      TwoCharacters(chars);
      assert chars[0] + chars[1] + [] == Flatten(chars);
      SomethingHidden(chars[0], chars[1], []);
    } else if n >= 4 {
      DeviceKeepFits(n);
      InnerIsHidden(chars, DeviceKeep(n).front, n - DeviceKeep(n).back);
    }
  }

  lemma NoByteIsOnlyStars()
    ensures OnlyStars([])
  {
  }

  lemma SomethingHidden(front: Bytes, part: Bytes, back: Bytes)
    requires NoStars(front + part + back) && part != []
    ensures !OnlyStars(part)
  {
    assert (front + part + back)[|front|] == part[0];
  }

  /** What the mask of a title leaves out. */
  function HiddenOfTitle(chars: seq<Bytes>, ratio: real): Bytes
    requires AllWellFormed(chars)
  {
    var n, s := |chars|, Flatten(chars);
    if n == 2 then (if |s| <= 3 then [] else s[3..])
    else if n == 3 && |chars[0]| == 3 then Flatten(chars[1..])
    else if n >= 8 || (n >= 4 && ratio > 0.0) then
      TitleKeepFits(n, ratio);
      Flatten(chars[TitleKeep(n, ratio).front..n - TitleKeep(n, ratio).back])
    else if n >= 4 then
      NotEmpty(chars);
      s[1..]
    else []
  }

  lemma LongTitleHides(chars: seq<Bytes>, ratio: real)
    requires AllWellFormed(chars) && |chars| >= 4
    ensures Unstarred(MaskedTitle(Flatten(chars), ratio)) == Unstarred(Flatten(chars)) <==>
            OnlyStars(HiddenOfTitle(chars, ratio))
  {
    hide WellFormed, MaskedTitle, Unstarred, TitleKeep, OnlyStars, Flatten, Around, AllWellFormed, Positions;
    var n, s := |chars|, Flatten(chars);
    FourAreStars();
    LongTitle(chars, ratio);
    if n >= 8 || ratio > 0.0 {
      TitleKeepFits(n, ratio);
      AroundHides(chars, TitleKeep(n, ratio).front, THREE_STARS, TitleKeep(n, ratio).back);
    } else {
      NotEmpty(chars);
      FirstByteHides(s);
    }
  }

  lemma FirstByteHides(s: Bytes)
    requires s != []
    ensures Unstarred([s[0]] + THREE_STARS) == Unstarred(s) <==> OnlyStars(s[1..])
  {
    FourAreStars();
    hide Unstarred, OnlyStars;
    assert s == [s[0]] + s[1..] + [] && [s[0]] + THREE_STARS == [s[0]] + THREE_STARS + [];
    HidesThePart([s[0]], s[1..], THREE_STARS, []);
  }

  /** The mask of a title hides nothing exactly when all it leaves out are stars. */
  lemma TitleHidesExactly(chars: seq<Bytes>, ratio: real)
    requires AllWellFormed(chars)
    ensures Unstarred(MaskedTitle(Flatten(chars), ratio)) == Unstarred(Flatten(chars)) <==>
            OnlyStars(HiddenOfTitle(chars, ratio))
  {
    hide WellFormed, MaskedTitle, Unstarred, TitleKeep;
    var n, s := |chars|, Flatten(chars);
    if n == 0 {
      EmptyName();
    } else if n == 2 {
      TwoCharacterTitle(chars, ratio);
      var k := if |s| <= 3 then |s| else 3;
      assert Slice(s, 0, 3) == s[..k] && s == s[..k] + s[k..] + [];
      assert s[..k] + THREE_STARS == s[..k] + THREE_STARS + [];
      HidesThePart(s[..k], s[k..], THREE_STARS, []);
    } else if n <= 3 {
      OtherShortTitle(chars, ratio);
      if n == 3 && |chars[0]| == 3 {
        assert s == chars[0] + Flatten(chars[1..]) + [];
        assert chars[0] + THREE_STARS == chars[0] + THREE_STARS + [];
        HidesThePart(chars[0], Flatten(chars[1..]), THREE_STARS, []);
      } else {
        BetweenStarsNothingIsHidden(s);
      }
    } else {
      LongTitleHides(chars, ratio);
    }
  }

  lemma BetweenStarsNothingIsHidden(s: Bytes)
    ensures Unstarred([STAR] + s + [STAR]) == Unstarred(s)
  {
    OnlyStarsVanish([STAR]);
    hide Unstarred;
    UnstarredConcat([STAR], s);
    UnstarredConcat([STAR] + s, [STAR]);
  }

  lemma FirstByteOfMany(chars: seq<Bytes>)
    requires AllWellFormed(chars) && NoStars(Flatten(chars)) && |chars| >= 2
    ensures |Flatten(chars)| > 0 && !OnlyStars(Flatten(chars)[1..])
  {
    var s := Flatten(chars);
    NotEmpty(chars);
    NotEmpty(chars[1..]);
    assert s == chars[0] + Flatten(chars[1..]);
    assert s == [s[0]] + s[1..] + [];
    SomethingHidden([s[0]], s[1..], []);
  }

  /**
   Of the titles without stars, these are shown in full and no others: at most one character, two in at
   most three bytes, and three of which the first has not three bytes.
   */
  lemma TitlesShownInFull(chars: seq<Bytes>, ratio: real)
    requires AllWellFormed(chars) && NoStars(Flatten(chars))
    ensures Unstarred(MaskedTitle(Flatten(chars), ratio)) == Unstarred(Flatten(chars)) <==>
            |chars| <= 1 || (|chars| == 2 && |Flatten(chars)| <= 3) || (|chars| == 3 && |chars[0]| != 3)
  {
    hide MaskedTitle, Unstarred, TitleKeep, OnlyStars, NoStars;
    TitleHidesExactly(chars, ratio);
    NoByteIsOnlyStars();
    var n, s := |chars|, Flatten(chars);
    if n == 2 && |s| > 3 {
      assert s == s[..3] + s[3..] + [];
      SomethingHidden(s[..3], s[3..], []);
    } else if n == 3 && |chars[0]| == 3 {
      NotEmpty(chars[1..]);
      assert s == chars[0] + Flatten(chars[1..]) + [];
      SomethingHidden(chars[0], Flatten(chars[1..]), []);
    } else if n >= 4 && (n >= 8 || ratio > 0.0) {
      TitleKeepFits(n, ratio);
      InnerIsHidden(chars, TitleKeep(n, ratio).front, n - TitleKeep(n, ratio).back);
    } else if n >= 4 {
      FirstByteOfMany(chars);
    }
  }
}
