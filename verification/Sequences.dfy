/** Concatenating a list of lists, and cutting a list to a length. */
module Sequences {

  function Flatten<T>(parts: seq<seq<T>>): seq<T> { if parts == [] then [] else parts[0] + Flatten(parts[1..]) }

  lemma {:induction false} FlattenConcat<T>(a: seq<seq<T>>, b: seq<seq<T>>)
    ensures Flatten(a + b) == Flatten(a) + Flatten(b)
    decreases |a|
  {
    if a == [] {
      assert a + b == b;
    } else {
      assert (a + b)[1..] == a[1..] + b;
      FlattenConcat(a[1..], b);
    }
  }

  lemma FlattenOne<T>(c: seq<T>)
    ensures Flatten([c]) == c
  {
    assert [c][1..] == [];
  }

  lemma FlattenParts<T>(parts: seq<seq<T>>, i: nat)
    requires i <= |parts|
    ensures Flatten(parts) == Flatten(parts[..i]) + Flatten(parts[i..])
  {
    FlattenConcat(parts[..i], parts[i..]);
    assert parts[..i] + parts[i..] == parts;
  }

  lemma FlattenLast<T>(parts: seq<seq<T>>)
    requires parts != []
    ensures Flatten(parts) == Flatten(parts[..|parts| - 1]) + parts[|parts| - 1]
  {
    FlattenParts(parts, |parts| - 1);
    FlattenOne(parts[|parts| - 1]);
    assert parts[|parts| - 1..] == [parts[|parts| - 1]];
  }

  lemma FlattenAppend<T>(parts: seq<seq<T>>, part: seq<T>)
    ensures Flatten(parts + [part]) == Flatten(parts) + part
  {
    FlattenConcat(parts, [part]);
    FlattenOne(part);
  }

  /** The first n of a list, or all of it. */
  function Cut<T>(s: seq<T>, n: int): (r: seq<T>)
    ensures |r| <= |s| && (n >= 0 ==> |r| <= n)
  {
    if n >= |s| then s else if n <= 0 then [] else s[..n]
  }

  lemma CutNothing<T>(n: int)
    ensures Cut<T>([], n) == []
  {
  }

  lemma CutShort<T>(s: seq<T>, n: int)
    requires |Cut(s, n)| < n
    ensures Cut(s, n) == s
  {
  }

  lemma CutConcat<T>(s: seq<T>, t: seq<T>, n: int)
    ensures |Cut(s, n)| < n ==> Cut(s + t, n) == s + Cut(t, n - |s|)
    ensures |Cut(s, n)| >= n ==> Cut(s + t, n) == Cut(s, n)
  {
  }

  lemma CutTwice<T>(s: seq<T>, t: seq<T>, n: nat)
    ensures Cut(Cut(s, n) + t, n) == Cut(s + t, n)
  {
  }
}
