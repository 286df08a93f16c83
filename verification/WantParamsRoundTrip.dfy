/** What converting WantParams to a C array and back keeps, and when it keeps everything. */
module WantParamsRoundTrip {
  import opened Machine
  import opened StringOrder
  import opened WantParamsSpec
  import opened Wrappers

  // ---------- Setting keys in order ----------

  /** Setting a key beyond all others appends. */
  lemma {:induction false} SetAppends(w: Params, key: string, value: Value)
    requires forall i :: 0 <= i < |w| ==> Less(w[i].key, key)
    ensures SetParam(w, key, value) == w + [Entry(key, value)]
  {
    if w != [] {
      LessIsStrict(w[0].key, key);
      SetAppends(w[1..], key, value);
      assert w == [w[0]] + w[1..];
    }
  }

  /** Setting is a map update: the key reads as the new value, and every other key as before. */
  lemma {:induction false} SetThenGet(w: Params, key: string, value: Value, other: string)
    ensures GetParam(SetParam(w, key, value), other) == if other == key then Some(value) else GetParam(w, other)
  {
    if w != [] && w[0].key != key && !Less(key, w[0].key) {
      SetThenGet(w[1..], key, value, other);
    }
  }

  lemma {:induction false} SetKeys(w: Params, key: string, value: Value, i: nat)
    requires i < |SetParam(w, key, value)|
    ensures var k := SetParam(w, key, value)[i].key; k == key || exists j :: 0 <= j < |w| && w[j].key == k
  {
    if w != [] && w[0].key != key && !Less(key, w[0].key) && i > 0 {
      SetKeys(w[1..], key, value, i - 1);
      var k := SetParam(w, key, value)[i].key;
      if k != key {
        var j :| 0 <= j < |w[1..]| && w[1..][j].key == k;
        assert w[j + 1].key == k;
      }
    }
  }

  lemma {:induction false} SetKeepsOrder(w: Params, key: string, value: Value)
    requires Ordered(w)
    ensures Ordered(SetParam(w, key, value))
  {
    if w == [] || w[0].key == key {
    } else if Less(key, w[0].key) {
      forall j | 0 < j < |w| { LessIsTransitive(key, w[0].key, w[j].key); }
    } else {
      LessIsTotal(key, w[0].key);
      SetKeepsOrder(w[1..], key, value);
      var rest := SetParam(w[1..], key, value);
      forall i | 0 <= i < |rest|
        ensures Less(w[0].key, rest[i].key)
      {
        SetKeys(w[1..], key, value, i);
      }
    }
  }

  // ---------- What is kept ----------

  /** A map that is not taken for a descriptor and is not empty. */
  predicate IsMap(v: Value) { v.Nested? && v.params != [] && GetParam(v.params, TYPE_PROPERTY).None? }

  /** What comes back for an entry that is neither a map nor of a 64-bit type; None if it is dropped. */
  function KeptValue(key: string, v: Value, stale: Int32): Option<Value> {
    match v
    case Nested(p) =>
      (match GetParam(p, VALUE_PROPERTY)
       case Some(Int(i)) => if p == [] then None else Some(Nested(FdParams(i)))
       case _ => None)
    case Others(a) => Some(Others(FdElements(key, Fds(key, a, stale))))
    case Unknown => None
    case _ => Some(v)
  }

  function Fds(key: string, elements: seq<Value>, stale: Int32): seq<Int32> {
    seq(|elements|, i requires 0 <= i < |elements| =>
      var fd := if elements[i].Nested? then FdUnder(elements[i].params, key) else None;
      if fd.Some? then fd.value else stale)
  }

  /** The entries in key order up to and including the first map, less those that are dropped. */
  function Kept(w: Params, stale: Int32): SetResult {
    if w == [] then SetResult(true, []) else
      var key, v := w[0].key, w[0].value;
      if v.Long? || v.Longs? then SetResult(false, [])
      else if IsMap(v) then
        var inner := Kept(v.params, stale);
        if inner.ok then SetResult(true, [Entry(key, Nested(inner.params))]) else SetResult(false, [])
      else
        var rest, kept := Kept(w[1..], stale), KeptValue(key, v, stale);
        if kept.None? then rest else SetResult(rest.ok, [Entry(key, kept.value)] + rest.params)
  }

  lemma {:induction false} OneItemEach(w: Params, stale: Int32)
    requires ParsedParams(w, stale).Parsed?
    ensures |ParsedParams(w, stale).value| == |w|
  {
    if w != [] {
      OneItemEach(w[1..], stale);
    }
  }

  lemma {:induction false} FdsAreParsed(key: string, a: seq<Value>, stale: Int32)
    requires ParsedFds(key, a, stale).Parsed?
    ensures ParsedFds(key, a, stale).value == Fds(key, a, stale)
  {
    if a != [] {
      FdsAreParsed(key, a[1..], stale);
      assert Fds(key, a, stale) == Fds(key, a[..1], stale) + Fds(key, a[1..], stale);
    }
  }

  /** An entry that neither ends the loop nor fails is set to what is kept of it, or not set. */
  lemma PlainValue(key: string, v: Value, stale: Int32)
    requires ParsedValue(key, v, stale).Parsed?
    requires !v.Long? && !v.Longs? && !IsMap(v)
    ensures var c := ParsedValue(key, v, stale).value;
            !c.CMap? && !c.CLong? && !c.CLongs?
            && KeptValue(key, v, stale) == if c.Null? then None else Some(Boxed(key, c))
  {
    match v
    case Others(a) => FdsAreParsed(key, a, stale);
    case Nested(p) => if p == [] { assert ParsedParams(p, stale) == Parsed([]); }
    case _ =>
  }

  lemma MapValue(key: string, v: Value, stale: Int32)
    requires ParsedValue(key, v, stale).Parsed? && IsMap(v)
    ensures ParsedParams(v.params, stale).Parsed?
    ensures ParsedValue(key, v, stale).value == CMap(ParsedParams(v.params, stale).value)
  {
    if ParsedParams(v.params, stale).Parsed? { OneItemEach(v.params, stale); }
  }

  predicate Beyond(acc: Params, w: Params) {
    forall i, j :: 0 <= i < |acc| && 0 <= j < |w| ==> Less(acc[i].key, w[j].key)
  }

  /** Converting back appends exactly what is kept. */
  lemma {:induction false} SetsWhatIsKept(w: Params, stale: Int32, acc: Params)
    requires DeepOrdered(w) && Beyond(acc, w)
    requires ParsedParams(w, stale).Parsed?
    ensures SetParameters(ParsedParams(w, stale).value, acc) ==
            SetResult(Kept(w, stale).ok, acc + Kept(w, stale).params)
    decreases w
  {
    hide ParsedValue, KeptValue, Boxed, Less;
    if w == [] {
      assert acc + [] == acc;
    } else {
      var key, v := w[0].key, w[0].value;
      assert w[0] == Entry(key, v);
      var c := ParsedValue(key, v, stale).value;
      var items, rest := ParsedParams(w, stale).value, ParsedParams(w[1..], stale).value;
      assert items == [CItem(key, c)] + rest && items[1..] == rest;
      TailOrdered(w);
      if v.Long? || v.Longs? {
        LongValue(key, v, stale);
        assert acc + [] == acc;
      } else if IsMap(v) {
        MapValue(key, v, stale);
        SetsWhatIsKept(v.params, stale, []);
        SetAppends(acc, key, Nested(Kept(v.params, stale).params));
        assert [] + Kept(v.params, stale).params == Kept(v.params, stale).params;
        assert acc + [] == acc;
      } else {
        PlainValue(key, v, stale);
        if c.Null? {
          SetsWhatIsKept(w[1..], stale, acc);
        } else {
          var entry := Entry(key, Boxed(key, c));
          SetAppends(acc, key, Boxed(key, c));
          SetsWhatIsKept(w[1..], stale, acc + [entry]);
          assert acc + [entry] + Kept(w[1..], stale).params == acc + ([entry] + Kept(w[1..], stale).params);
        }
      }
    }
  }

  lemma LongValue(key: string, v: Value, stale: Int32)
    requires v.Long? || v.Longs?
    requires ParsedValue(key, v, stale).Parsed?
    ensures var c := ParsedValue(key, v, stale).value; c.CLong? || c.CLongs?
  {
  }

  lemma TailOrdered(w: Params)
    requires w != [] && DeepOrdered(w)
    ensures DeepOrdered(w[1..])
    ensures w[0].value.Nested? ==> DeepOrdered(w[0].value.params)
    ensures forall j :: 0 <= j < |w[1..]| ==> Less(w[0].key, w[1..][j].key)
  {
  }

  // ---------- When conversion succeeds ----------

  /** No array is empty and every other array holds maps, in maps as well unless they have a type. */
  predicate Convertible(w: Params) {
    forall i :: 0 <= i < |w| ==> ConvertibleValue(w[i].value)
  }

  predicate ConvertibleValue(v: Value) {
    match v
    case Strs(a) => a != []
    case Bools(a) => a != []
    case Ints(a) => a != []
    case Longs(a) => a != []
    case Dbls(a) => a != []
    case Others(a) => a != [] && forall i :: 0 <= i < |a| ==> a[i].Nested?
    case Nested(p) => GetParam(p, TYPE_PROPERTY).Some? || Convertible(p)
    case _ => true
  }

  lemma {:induction false} FdsConvert(key: string, a: seq<Value>, stale: Int32)
    ensures ParsedFds(key, a, stale).Parsed? <==> forall i :: 0 <= i < |a| ==> a[i].Nested?
  {
    if a != [] {
      FdsConvert(key, a[1..], stale);
      assert forall i :: 0 < i < |a| ==> a[i] == a[1..][i - 1];
    }
  }

  lemma ValueConverts(key: string, v: Value, stale: Int32)
    requires v.Nested? ==> (ParsedParams(v.params, stale).Parsed? <==> Convertible(v.params))
    ensures ParsedValue(key, v, stale).Parsed? <==> ConvertibleValue(v)
  {
    if v.Others? { FdsConvert(key, v.elements, stale); }
  }

  lemma {:induction false} ConvertsExactly(w: Params, stale: Int32)
    ensures ParsedParams(w, stale).Parsed? <==> Convertible(w)
    decreases w
  {
    hide ParsedValue, ConvertibleValue;
    if w != [] {
      var key, v := w[0].key, w[0].value;
      assert w[0] == Entry(key, v);
      ConvertsExactly(w[1..], stale);
      if v.Nested? { ConvertsExactly(v.params, stale); }
      ValueConverts(key, v, stale);
      ConvertibleTail(w);
    }
  }

  lemma ConvertibleTail(w: Params)
    requires w != []
    ensures Convertible(w) <==> ConvertibleValue(w[0].value) && Convertible(w[1..])
  {
    hide ConvertibleValue;
    assert forall i :: 0 < i < |w| ==> w[i] == w[1..][i - 1];
    assert forall i :: 0 <= i < |w[1..]| ==> w[1..][i] == w[i + 1];
  }

  // ---------- When it is the identity ----------

  predicate IsFd(v: Value) {
    v.Nested? && |v.params| == 2 && v.params[0] == Entry(TYPE_PROPERTY, Str(FD))
    && v.params[1].key == VALUE_PROPERTY && v.params[1].value.Int?
  }

  predicate IsFdElement(key: string, v: Value) {
    v.Nested? && |v.params| == 1 && v.params[0].key == key && IsFd(v.params[0].value)
  }

  /**
   What a caller can check: no 64-bit types, no unknown interfaces, no empty arrays or maps; a map with
   a type is exactly a descriptor, arrays of maps hold descriptors under the array's own key; and any
   other map comes last.
   */
  predicate Clean(w: Params)
    decreases w
  {
    w == [] || (CleanValue(w[0].key, w[0].value) && (IsMap(w[0].value) ==> |w| == 1) && Clean(w[1..]))
  }

  predicate CleanValue(key: string, v: Value)
    decreases v
  {
    match v
    case Long(_) => false
    case Longs(_) => false
    case Unknown => false
    case Strs(a) => a != []
    case Bools(a) => a != []
    case Ints(a) => a != []
    case Dbls(a) => a != []
    case Others(a) => a != [] && forall i :: 0 <= i < |a| ==> IsFdElement(key, a[i])
    case Nested(p) => IsFd(v) || (IsMap(v) && Clean(p))
    case _ => true
  }

  lemma {:induction false} KeptIsShort(w: Params, stale: Int32)
    ensures |Kept(w, stale).params| <= |w|
  {
    if w != [] {
      KeptIsShort(w[1..], stale);
    }
  }

  lemma FdIsKept(v: Value, stale: Int32, key: string)
    requires v.Nested? && !IsMap(v)
    ensures KeptValue(key, v, stale) == Some(v) <==> IsFd(v)
  {
    var p := v.params;
    if IsFd(v) {
      assert p == FdParams(p[1].value.i);
      assert GetParam(p[1..], VALUE_PROPERTY) == Some(p[1].value);
    }
  }

  lemma FdUnderElement(key: string, e: Value)
    requires IsFdElement(key, e)
    ensures FdUnder(e.params, key).Some? && e == FdElement(key, FdUnder(e.params, key).value)
  {
    var p := e.params[0].value.params;
    assert GetParam(p[1..], VALUE_PROPERTY) == Some(p[1].value);
    assert p == FdParams(p[1].value.i);
    assert e.params == [Entry(key, e.params[0].value)];
  }

  lemma FdArrayIsKept(key: string, a: seq<Value>, stale: Int32)
    ensures KeptValue(key, Others(a), stale) == Some(Others(a)) <==>
            forall i :: 0 <= i < |a| ==> IsFdElement(key, a[i])
  {
    var fds := Fds(key, a, stale);
    if forall i :: 0 <= i < |a| ==> IsFdElement(key, a[i]) {
      forall i | 0 <= i < |a|
        ensures FdElement(key, fds[i]) == a[i]
      {
        FdUnderElement(key, a[i]);
      }
      assert FdElements(key, fds) == a;
    }
    if FdElements(key, fds) == a {
      forall i | 0 <= i < |a|
        ensures IsFdElement(key, a[i])
      {
        assert a[i] == FdElement(key, fds[i]);
      }
    }
  }

  /** One entry that is not a map: kept as it is exactly when it is clean. */
  lemma ValueIsKept(key: string, v: Value, stale: Int32)
    requires ConvertibleValue(v) && !IsMap(v) && !v.Long? && !v.Longs?
    ensures KeptValue(key, v, stale) == Some(v) <==> CleanValue(key, v)
  {
    match v
    case Nested(p) => FdIsKept(v, stale, key);
    case Others(a) => FdArrayIsKept(key, a, stale);
    case _ =>
  }

  lemma {:induction false} KeptIsIdentity(w: Params, stale: Int32)
    requires Convertible(w)
    ensures Kept(w, stale) == SetResult(true, w) <==> Clean(w)
    decreases w
  {
    hide KeptValue, CleanValue, ConvertibleValue;
    if w != [] {
      var key, v := w[0].key, w[0].value;
      var entry := Entry(key, v);
      assert w == [entry] + w[1..];
      ConvertibleTail(w);
      if v.Long? || v.Longs? {
        LongIsNotClean(key, v);
      } else if IsMap(v) {
        MapIsClean(key, v);
        KeptIsIdentity(v.params, stale);
        if |w| == 1 { assert w[1..] == []; }
      } else {
        KeptIsIdentity(w[1..], stale);
        KeptIsShort(w[1..], stale);
        ValueIsKept(key, v, stale);
        var kept := KeptValue(key, v, stale);
        if kept.Some? {
          var back := [Entry(key, kept.value)] + Kept(w[1..], stale).params;
          assert back[0] == Entry(key, kept.value) && back[1..] == Kept(w[1..], stale).params;
        }
      }
    }
  }

  lemma LongIsNotClean(key: string, v: Value)
    requires v.Long? || v.Longs?
    ensures !CleanValue(key, v)
  {
  }

  lemma MapIsClean(key: string, v: Value)
    requires IsMap(v)
    ensures CleanValue(key, v) <==> Clean(v.params)
    ensures ConvertibleValue(v) ==> Convertible(v.params)
  {
  }

  lemma {:induction false} CleanIsConvertible(w: Params)
    requires Clean(w)
    ensures Convertible(w)
    decreases w
  {
    if w != [] {
      CleanIsConvertible(w[1..]);
      ConvertibleTail(w);
      var v := w[0].value;
      assert w[0] == Entry(w[0].key, v);
      if IsMap(v) { CleanIsConvertible(v.params); }
    }
  }

  /** There and back without an error, and the same map again. A null array, from an empty map, is an error. */
  predicate RoundTrips(w: Params, stale: Int32) {
    var parsed := ParsedParams(w, stale);
    parsed.Parsed? && parsed.value != [] && SetParameters(parsed.value, []) == SetResult(true, w)
  }

  /** At any depth of nesting, converting there and back is the identity exactly for clean, non-empty maps. */
  lemma RoundTripsExactly(w: Params, stale: Int32)
    requires DeepOrdered(w)
    ensures RoundTrips(w, stale) <==> w != [] && Clean(w)
  {
    hide Clean, Kept, ParsedParams, SetParameters;
    ConvertsExactly(w, stale);
    if Clean(w) { CleanIsConvertible(w); }
    if Convertible(w) {
      OneItemEach(w, stale);
      SetsWhatIsKept(w, stale, []);
      assert [] + Kept(w, stale).params == Kept(w, stale).params;
      KeptIsIdentity(w, stale);
    }
  }

  /** An entry behind a map is silently lost: a concrete map that comes back shorter, without an error. */
  lemma EntriesBehindAMapAreLost(stale: Int32)
    ensures var first := Entry("a", Nested([Entry("x", Int(1))]));
            var w := [first, Entry("b", Int(2))];
            DeepOrdered(w) && Convertible(w) && Kept(w, stale) == SetResult(true, [first])
  {
    var inner := [Entry("x", Int(1))];
    assert inner[1..] == [];
    assert GetParam(inner, TYPE_PROPERTY) == GetParam([], TYPE_PROPERTY) by {
      assert "x"[0] != TYPE_PROPERTY[0];
    }
    assert Kept(inner, stale) == SetResult(true, inner);
  }
}
