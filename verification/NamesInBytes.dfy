/** What the two masks make of any bytes, valid UTF-8 or not, with every count spelled out. */
module NamesInBytes {
  import opened Machine
  import opened NameMasking
  import opened Utf8

  /** The positions are those of the bytes that are not 10xxxxxx, each once, in order. */
  lemma {:induction false} PositionsExactly(s: Bytes, i: nat)
    ensures i in Positions(s) <==> i < |s| && s[i] & 0xC0 != 0x80
    ensures forall j, k :: 0 <= j < k < |Positions(s)| ==> Positions(s)[j] < Positions(s)[k] < |s|
    decreases |s|
  {
    PositionsInside(s);
    if s != [] {
      PositionsExactly(s[..|s| - 1], i);
      PositionsInside(s[..|s| - 1]);
    }
  }

  lemma TheStars()
    ensures FOUR_STARS == [0x2A, 0x2A, 0x2A, 0x2A] && THREE_STARS == [0x2A, 0x2A, 0x2A]
  {
  }

  /** A device name with fewer than three positions. */
  lemma ShortNameInBytes(s: Bytes)
    requires |Positions(s)| < 3
    ensures forall i :: 0 <= i < |Positions(s)| ==> Positions(s)[i] < |s|
    ensures |Positions(s)| == 2 ==> Positions(s)[0] < Positions(s)[1]
    ensures var p, n := Positions(s), |Positions(s)|;
            MaskedDeviceName(s) ==
            if s == [] then []
            else if n == 0 then FOUR_STARS
            else if n == 1 then s[p[0]..] + FOUR_STARS
            else s[p[0]..p[1]] + FOUR_STARS
  {
    PositionsInside(s);
    NoPositions();
    hide Positions;
  }

  /** What is kept of a longer one at both ends, by the number of its positions. */
  lemma DeviceKeepExactly(n: nat)
    ensures n >= 3 ==>
              DeviceKeep(n) ==
              if n <= 5 then Keep(2, 1) else if n <= 8 then Keep(2, 2) else if n <= 15 then Keep(3, 2) else Keep(4, 3)
  {
  }

  /** The number m of characters to hide of n: the product with the ratio, rounded up. */
  predicate ToHide(m: int, n: nat, ratio: real) { (m - 1) as real < n as real * ratio <= m as real }

  /** Of four to seven characters m are to be hidden, and of the others half are shown in front, one at least. */
  lemma TitleKeepExactly(n: nat, ratio: real, m: int)
    requires n >= 4 && ToHide(m, n, ratio)
    ensures n >= 8 ==> TitleKeep(n, ratio) == Keep(2, 2)
    ensures n <= 7 ==> (TitleKeep(n, ratio).front + TitleKeep(n, ratio).back >= n <==> m <= 0)
    ensures n <= 7 && m >= n - 1 ==> TitleKeep(n, ratio) == Keep(1, 1)
    ensures n <= 7 && 0 < m < n - 1 ==> TitleKeep(n, ratio) == Keep((n - m) / 2, n - m - (n - m) / 2)
  {
    CeilIs(n as real * ratio, m);
    hide Ceil;
  }

  /** A title with at most three positions. */
  lemma ShortTitleInBytes(s: Bytes, ratio: real)
    requires |Positions(s)| <= 3
    ensures forall i :: 0 <= i < |Positions(s)| ==> Positions(s)[i] < |s|
    ensures var p, n := Positions(s), |Positions(s)|;
            MaskedTitle(s, ratio) ==
            if s == [] then []
            else if n == 0 then THREE_STARS
            else if n == 2 || (n == 3 && 0xE0 <= s[0] <= 0xEF) then
              (if p[0] + 3 <= |s| then s[p[0]..p[0] + 3] else s[p[0]..]) + THREE_STARS
            else [0x2A] + s + [0x2A]
  {
    PositionsInside(s);
    NoPositions();
    hide Positions;
  }
}
