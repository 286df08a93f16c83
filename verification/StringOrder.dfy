/** The order of std::string, and std::map's walk over its keys. */
module StringOrder {

  predicate Less(a: string, b: string) {
    b != [] && (a == [] || a[0] < b[0] || (a[0] == b[0] && Less(a[1..], b[1..])))
  }

  lemma {:induction false} LessIsStrict(a: string, b: string)
    requires Less(a, b)
    ensures a != b && !Less(b, a)
    decreases |a|
  {
    if a != [] && a[0] == b[0] {
      LessIsStrict(a[1..], b[1..]);
    }
  }

  lemma {:induction false} LessIsTotal(a: string, b: string)
    ensures a == b || Less(a, b) || Less(b, a)
    decreases |a|
  {
    if a != [] && b != [] && a[0] == b[0] {
      LessIsTotal(a[1..], b[1..]);
      assert a == [a[0]] + a[1..] && b == [b[0]] + b[1..];
    }
  }

  lemma {:induction false} LessIsTransitive(a: string, b: string, c: string)
    requires Less(a, b) && Less(b, c)
    ensures Less(a, c)
    decreases |a|
  {
    if a != [] && a[0] == b[0] && b[0] == c[0] {
      LessIsTransitive(a[1..], b[1..], c[1..]);
    }
  }

  /** The first difference decides, and a proper beginning is less. */
  lemma {:induction false} LessExactly(a: string, b: string)
    ensures Less(a, b) <==>
            (a != b && a <= b)
            || exists i :: 0 <= i < |a| && i < |b| && a[..i] == b[..i] && a[i] < b[i]
    decreases |a|
  {
    if a == [] || b == [] {
    } else if a[0] != b[0] {
      if a[0] < b[0] { assert a[..0] == b[..0] && a[0] < b[0]; }
      forall i | 0 < i < |a| && i < |b|
        ensures a[..i] != b[..i]
      {
        assert a[..i][0] == a[0] && b[..i][0] == b[0];
      }
    } else {
      LessExactly(a[1..], b[1..]);
      assert a == [a[0]] + a[1..] && b == [b[0]] + b[1..];
      forall i | 0 < i < |a| && i < |b|
        ensures a[..i] == b[..i] <==> a[1..][..i - 1] == b[1..][..i - 1]
      {
        assert a[..i] == [a[0]] + a[1..][..i - 1] && b[..i] == [b[0]] + b[1..][..i - 1];
        assert a[..i][1..] == a[1..][..i - 1] && b[..i][1..] == b[1..][..i - 1];
      }
      if i :| 0 <= i < |a[1..]| && i < |b[1..]| && a[1..][..i] == b[1..][..i] && a[1..][i] < b[1..][i] {
        assert a[..i + 1] == b[..i + 1] && a[i + 1] < b[i + 1];
      }
    }
  }

  predicate IsLeast(k: string, keys: set<string>) { k in keys && forall j :: j in keys && j != k ==> Less(k, j) }

  lemma {:induction false} LeastExists(keys: set<string>)
    ensures keys == {} || exists k :: IsLeast(k, keys)
    decreases |keys|
  {
    if keys != {} {
      var k :| k in keys;
      var rest := keys - {k};
      LeastExists(rest);
      if rest == {} {
        assert IsLeast(k, keys);
      } else {
        var j :| IsLeast(j, rest);
        LessIsTotal(k, j);
        if Less(k, j) {
          forall i | i in keys && i != k && i != j { LessIsTransitive(k, j, i); }
          assert IsLeast(k, keys);
        } else {
          assert IsLeast(j, keys);
        }
      }
    }
  }

  lemma LeastIsUnique(j: string, k: string, keys: set<string>)
    requires IsLeast(j, keys) && IsLeast(k, keys)
    ensures j == k
  {
    if j != k { LessIsStrict(j, k); }
  }

  ghost function Least(keys: set<string>): (k: string)
    requires keys != {}
    ensures IsLeast(k, keys)
  {
    LeastExists(keys);
    var k :| IsLeast(k, keys);
    k
  }

  /** The keys in ascending order. */
  ghost function Sorted(keys: set<string>): seq<string> {
    if keys == {} then [] else [Least(keys)] + Sorted(keys - {Least(keys)})
  }

  /** Every key is listed exactly once. */
  lemma {:induction false} SortedListsEach(keys: set<string>)
    ensures |Sorted(keys)| == |keys| && forall k :: k in keys <==> k in Sorted(keys)
    ensures forall i, j :: 0 <= i < j < |Sorted(keys)| ==> Less(Sorted(keys)[i], Sorted(keys)[j])
    decreases |keys|
  {
    if keys != {} {
      var k := Least(keys);
      SortedListsEach(keys - {k});
      var rest := Sorted(keys - {k});
      forall j | 0 <= j < |rest|
        ensures Less(k, rest[j])
      {
        assert rest[j] in keys - {k};
      }
    }
  }

  /** The key that an ascending walk comes to next. */
  method NextKey(keys: set<string>) returns (k: string)
    requires keys != {}
    ensures k == Least(keys)
  {
    LeastExists(keys);
    k :| IsLeast(k, keys);
    LeastIsUnique(k, Least(keys), keys);
  }

  method SortedKeys(keys: set<string>) returns (listed: seq<string>)
    ensures listed == Sorted(keys)
  {
    listed := [];
    var rest := keys;
    while rest != {}
      invariant Sorted(keys) == listed + Sorted(rest)
    {
      var key := NextKey(rest);
      assert listed + ([key] + Sorted(rest - {key})) == listed + [key] + Sorted(rest - {key});
      listed, rest := listed + [key], rest - {key};
    }
  }
}
