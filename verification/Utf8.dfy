/** UTF-8 as sections 3 and 4 of RFC 3629 define it: bytes, characters, and where characters start. */
module Utf8 {
  import opened Machine
  import opened Sequences

  /** The bytes that the mask 0xC0 finds to continue a character. */
  predicate IsContinuation(b: bv8) { b & 0xC0 == 0x80 }

  /** How many bytes a character with this first byte has; 0 if none starts with it. */
  function CharLength(first: bv8): nat {
    if first <= 0x7F then 1
    else if 0xC2 <= first <= 0xDF then 2
    else if 0xE0 <= first <= 0xEF then 3
    else if 0xF0 <= first <= 0xF4 then 4
    else 0
  }

  /** The second byte is narrower after some first bytes: no overlong forms, no surrogates, nothing over U+10FFFF. */
  predicate SecondFits(first: bv8, second: bv8) {
    && IsContinuation(second)
    && (first == 0xE0 ==> second >= 0xA0)
    && (first == 0xED ==> second <= 0x9F)
    && (first == 0xF0 ==> second >= 0x90)
    && (first == 0xF4 ==> second <= 0x8F)
  }

  /** The bytes of one character. */
  predicate WellFormed(c: Bytes) {
    && c != [] && |c| == CharLength(c[0])
    && (|c| >= 2 ==> SecondFits(c[0], c[1]))
    && (forall i :: 2 <= i < |c| ==> IsContinuation(c[i]))
  }

  predicate Valid(s: Bytes) {
    s == [] || (0 < CharLength(s[0]) <= |s| && WellFormed(s[..CharLength(s[0])]) && Valid(s[CharLength(s[0])..]))
  }

  // ---------- Characters ----------

  predicate AllWellFormed(chars: seq<Bytes>) { forall i :: 0 <= i < |chars| ==> WellFormed(chars[i]) }

  /** The characters of a valid string. */
  function Split(s: Bytes): (chars: seq<Bytes>)
    requires Valid(s)
    ensures AllWellFormed(chars) && Flatten(chars) == s
  {
    if s == [] then [] else
      var k := CharLength(s[0]);
      var rest := Split(s[k..]);
      assert ([s[..k]] + rest)[1..] == rest;
      [s[..k]] + rest
  }

  lemma StartOfValid(c: Bytes, rest: Bytes)
    requires WellFormed(c)
    ensures Valid(c + rest) <==> Valid(rest)
  {
    var s := c + rest;
    assert s[0] == c[0] && s[..|c|] == c && s[|c|..] == rest;
  }

  lemma {:induction false} FlattenIsValid(chars: seq<Bytes>)
    requires AllWellFormed(chars)
    ensures Valid(Flatten(chars))
    decreases |chars|
  {
    if chars != [] {
      FlattenIsValid(chars[1..]);
      StartOfValid(chars[0], Flatten(chars[1..]));
    }
  }

  lemma ValidConcat(s: Bytes, t: Bytes)
    requires Valid(s) && Valid(t)
    ensures Valid(s + t)
  {
    FlattenConcat(Split(s), Split(t));
    FlattenIsValid(Split(s) + Split(t));
  }

  // ---------- Where characters start ----------

  /** The positions of the bytes that do not continue a character. */
  function Positions(s: Bytes): seq<nat> {
    if s == [] then [] else
      Positions(s[..|s| - 1]) + if IsContinuation(s[|s| - 1]) then [] else [|s| - 1]
  }

  lemma OneMoreByte(s: Bytes, b: bv8)
    ensures Positions(s + [b]) == Positions(s) + if IsContinuation(b) then [] else [|s|]
  {
    assert (s + [b])[..|s|] == s;
  }

  /** A first byte never continues a character. */
  lemma FirstStarts(c: Bytes)
    requires WellFormed(c)
    ensures !IsContinuation(c[0])
    ensures AllContinue(c[1..])
  {
    FirstByte(c[0]);
    hide CharLength, IsContinuation;
    forall i | 0 <= i < |c[1..]|
      ensures IsContinuation(c[1..][i])
    {
      assert c[1..][i] == c[i + 1];
    }
  }

  predicate AllContinue(t: Bytes) { forall i :: 0 <= i < |t| ==> IsContinuation(t[i]) }

  lemma FirstByte(b: bv8)
    requires CharLength(b) > 0
    ensures !IsContinuation(b)
  {
  }

  lemma {:induction false} ContinuationsDoNotStart(s: Bytes, t: Bytes)
    requires AllContinue(t)
    ensures Positions(s + t) == Positions(s)
    decreases |t|
  {
    hide Positions, IsContinuation;
    if t == [] {
      assert s + t == s;
    } else {
      var init, last := t[..|t| - 1], t[|t| - 1];
      assert IsContinuation(last) && AllContinue(init);
      hide AllContinue;
      assert s + t == s + init + [last];
      ContinuationsDoNotStart(s, init);
      OneMoreByte(s + init, last);
    }
  }

  lemma OneMoreChar(s: Bytes, c: Bytes)
    requires WellFormed(c)
    ensures Positions(s + c) == Positions(s) + [|s|]
  {
    FirstStarts(c);
    hide IsContinuation, WellFormed, Positions, AllContinue;
    var start, rest := s + [c[0]], c[1..];
    assert s + c == start + rest;
    OneMoreByte(s, c[0]);
    ContinuationsDoNotStart(start, rest);
  }

  /** In a valid string the positions are the character boundaries: one for each character, at its first byte. */
  lemma {:induction false} PositionsAreBoundaries(chars: seq<Bytes>)
    requires AllWellFormed(chars)
    ensures var p := Positions(Flatten(chars));
            |p| == |chars| && forall i :: 0 <= i < |p| ==> p[i] == |Flatten(chars[..i])|
    decreases |chars|
  {
    hide WellFormed, Positions;
    if chars == [] {
      NoPositions();
    } else {
      var n := |chars| - 1;
      var init := chars[..n];
      PositionsAreBoundaries(init);
      FlattenParts(chars, n);
      assert chars[n..] == [chars[n]];
      FlattenOne(chars[n]);
      OneMoreChar(Flatten(init), chars[n]);
      assert forall i :: 0 <= i <= n ==> init[..i] == chars[..i];
    }
  }

  lemma NoPositions()
    ensures Positions([]) == []
  {
  }
}
