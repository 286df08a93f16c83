/** What the C array itself holds for each entry of a map, and what setting any C array does. */
module WantParamsArray {
  import opened Machine
  import opened StringOrder
  import opened WantParamsRoundTrip
  import opened WantParamsSpec
  import opened Wrappers

  // ---------- Reading a map ----------

  /** A key is found with exactly the value of its entry. */
  lemma {:induction false} GetParamExactly(w: Params, key: string, value: Value)
    requires Ordered(w)
    ensures GetParam(w, key) == Some(value) <==> Entry(key, value) in w
    decreases |w|
  {
    if w != [] {
      assert w == [w[0]] + w[1..];
      GetParamExactly(w[1..], key, value);
      if w[0].key == key && Entry(key, value) in w[1..] {
        var j :| 0 <= j < |w[1..]| && w[1..][j] == Entry(key, value);
        assert Less(w[0].key, w[j + 1].key);
        LessIsStrict(w[0].key, w[j + 1].key);
      }
    }
  }

  // ---------- The way there ----------

  /** The number under "value" of a map, if there is one. */
  predicate IsNumber(v: Option<Value>) { v.Some? && v.value.Int? }

  /** The number in the slot of an array element: that of the descriptor under the key, or what malloc left there. */
  function Slot(element: Value, key: string, stale: Int32): Int32 {
    var inner := if element.Nested? then GetParam(element.params, key) else None;
    if inner.Some? && inner.value.Nested? && IsNumber(GetParam(inner.value.params, "value")) then
      GetParam(inner.value.params, "value").value.i
    else stale
  }

  /**
   A C value carries a value of the map: a plain value or a list of them itself, a map with a "type" as the
   number under its "value", any other map entry by entry, and an array of maps as the numbers in them.
   */
  predicate Carries(c: CValue, key: string, v: Value, stale: Int32)
    decreases v
  {
    match v
    case Str(s) => c == CStr(s)
    case Bool(b) => c == CBool(b)
    case Int(i) => c == CInt(i)
    case Long(l) => c == CLong(l)
    case Dbl(d) => c == CDbl(d)
    case Strs(a) => c == CStrs(a)
    case Bools(a) => c == CBools(a)
    case Ints(a) => c == CInts(a)
    case Longs(a) => c == CLongs(a)
    case Dbls(a) => c == CDbls(a)
    case Unknown => c == Null
    case Others(a) => c == CFds(seq(|a|, i requires 0 <= i < |a| => Slot(a[i], key, stale)))
    case Nested(p) =>
      var number := GetParam(p, "value");
      if GetParam(p, "type").Some? then c == if IsNumber(number) then CFd(number.value.i) else Null
      else if p == [] then c == Null
      else c.CMap? && CarriesAll(c.items, p, stale)
  }

  predicate CarriesAll(items: seq<CItem>, w: Params, stale: Int32)
    decreases w
  {
    && |items| == |w|
    && forall i :: 0 <= i < |w| ==> items[i].key == w[i].key && Carries(items[i].value, w[i].key, w[i].value, stale)
  }

  lemma {:induction false} SlotsAreParsed(key: string, a: seq<Value>, stale: Int32)
    requires ParsedFds(key, a, stale).Parsed?
    ensures ParsedFds(key, a, stale).value == seq(|a|, i requires 0 <= i < |a| => Slot(a[i], key, stale))
  {
    if a != [] {
      SlotsAreParsed(key, a[1..], stale);
      var all := seq(|a|, i requires 0 <= i < |a| => Slot(a[i], key, stale));
      assert all == [Slot(a[0], key, stale)] + all[1..];
      assert all[1..] == seq(|a[1..]|, i requires 0 <= i < |a[1..]| => Slot(a[1..][i], key, stale));
    }
  }

  lemma ValueIsCarried(key: string, v: Value, stale: Int32)
    requires ParsedValue(key, v, stale).Parsed?
    requires v.Nested? && ParsedParams(v.params, stale).Parsed? ==>
               CarriesAll(ParsedParams(v.params, stale).value, v.params, stale)
    ensures Carries(ParsedValue(key, v, stale).value, key, v, stale)
  {
    match v
    case Others(a) => SlotsAreParsed(key, a, stale);
    case Nested(p) =>
      if ParsedParams(p, stale).Parsed? { OneItemEach(p, stale); }
    case _ =>
  }

  /** The array of a map has one item per entry, under the entry's key, and it carries the entry's value. */
  lemma {:induction false} ArrayCarriesTheMap(w: Params, stale: Int32)
    requires ParsedParams(w, stale).Parsed?
    ensures CarriesAll(ParsedParams(w, stale).value, w, stale)
    decreases w
  {
    hide Carries, ParsedValue;
    if w != [] {
      var key, v := w[0].key, w[0].value;
      assert w[0] == Entry(key, v);
      ArrayCarriesTheMap(w[1..], stale);
      if v.Nested? && ParsedParams(v.params, stale).Parsed? { ArrayCarriesTheMap(v.params, stale); }
      ValueIsCarried(key, v, stale);
      var items, rest := ParsedParams(w, stale).value, ParsedParams(w[1..], stale).value;
      forall i | 0 < i < |w|
        ensures items[i].key == w[i].key && Carries(items[i].value, w[i].key, w[i].value, stale)
      {
        assert items[i] == rest[i - 1] && w[i] == w[1..][i - 1];
      }
    }
  }

  // ---------- The way back, from any array ----------

  function Descriptor(fd: Int32): Value { Nested([Entry("type", Str("FD")), Entry("value", Int(fd))]) }

  /** What is boxed carries the same value, and descriptors become descriptor maps. */
  lemma BoxedCarries(key: string, c: CValue, stale: Int32)
    requires !c.Null? && !c.CMap? && !c.CLong? && !c.CLongs?
    ensures Carries(c, key, Boxed(key, c), stale)
    ensures c.CFd? ==> Boxed(key, c) == Descriptor(c.fd)
    ensures c.CFds? ==>
              Boxed(key, c) ==
              Others(seq(|c.fds|, i requires 0 <= i < |c.fds| => Nested([Entry(key, Descriptor(c.fds[i]))])))
  {
    if c.CFd? {
      FdIsKept(Boxed(key, c), stale, key);
      assert GetParam(FdParams(c.fd)[1..], VALUE_PROPERTY) == Some(Int(c.fd));
    }
    if c.CFds? {
      forall i | 0 <= i < |c.fds|
        ensures Slot(FdElement(key, c.fds[i]), key, stale) == c.fds[i]
      {
        FdUnderElement(key, FdElement(key, c.fds[i]));
        assert GetParam(FdParams(c.fds[i])[1..], VALUE_PROPERTY) == Some(Int(c.fds[i]));
      }
      assert c.fds == seq(|c.fds|, i requires 0 <= i < |c.fds| => Slot(Boxed(key, c).elements[i], key, stale));
    }
  }

  /** An item that neither ends the loop nor is an error. */
  predicate Passes(item: CItem) { !item.value.CMap? && !item.value.CLong? && !item.value.CLongs? }

  /** Where the last item under a key stands that is not null; -1 if there is none. */
  function LastUnder(items: seq<CItem>, key: string): (i: int)
    ensures -1 <= i < |items|
    ensures i >= 0 ==> items[i].key == key && !items[i].value.Null?
    ensures forall j :: i < j < |items| && items[j].key == key ==> items[j].value.Null?
  {
    if items == [] then -1
    else
      var n := |items| - 1;
      if items[n].key == key && !items[n].value.Null? then n else LastUnder(items[..n], key)
  }

  /** Such items are all set: each key has the value of its last item that is not null, or keeps its own. */
  lemma {:induction false} PassingItemsAreSet(items: seq<CItem>, w: Params, key: string)
    requires forall i :: 0 <= i < |items| ==> Passes(items[i])
    ensures SetParameters(items, w).ok
    ensures var i := LastUnder(items, key);
            && (i >= 0 ==> Passes(items[i])
                           && GetParam(SetParameters(items, w).params, key) == Some(Boxed(key, items[i].value)))
            && (i == -1 ==> GetParam(SetParameters(items, w).params, key) == GetParam(w, key))
    decreases |items|
  {
    hide Boxed, SetParam, SetParameters;
    if items == [] {
      NothingToSet(w);
    } else {
      var n := |items| - 1;
      var before := SetParameters(items[..n], w).params;
      PassingItemsAreSet(items[..n], w, key);
      assert items == items[..n] + [items[n]];
      OneMoreIsSet(items[..n], items[n], w);
      if !items[n].value.Null? { SetThenGet(before, items[n].key, Boxed(items[n].key, items[n].value), key); }
    }
  }

  lemma NothingToSet(w: Params)
    ensures SetParameters([], w) == SetResult(true, w)
  {
  }

  lemma {:induction false} OneMoreIsSet(items: seq<CItem>, last: CItem, w: Params)
    requires Passes(last) && forall i :: 0 <= i < |items| ==> Passes(items[i])
    ensures var before := SetParameters(items, w).params;
            SetParameters(items + [last], w) ==
            SetResult(true, if last.value.Null? then before
                            else SetParam(before, last.key, Boxed(last.key, last.value)))
    decreases |items|
  {
    hide Boxed, SetParam;
    var all := items + [last];
    if items == [] {
      assert all[0] == last && all[1..] == [];
    } else {
      assert all[0] == items[0] && all[1..] == items[1..] + [last];
      var next := if items[0].value.Null? then w else SetParam(w, items[0].key, Boxed(items[0].key, items[0].value));
      OneMoreIsSet(items[1..], last, next);
    }
  }

  /** The first other item ends it, a 64-bit value with an error, a map with its entries; the rest does not count. */
  lemma {:induction false} OtherItemsStop(front: seq<CItem>, item: CItem, rest: seq<CItem>, w: Params)
    requires forall i :: 0 <= i < |front| ==> Passes(front[i])
    requires !Passes(item)
    ensures var before := SetParameters(front, w).params;
            SetParameters(front + [item] + rest, w) ==
            if item.value.CMap? && SetParameters(item.value.items, []).ok then
              SetResult(true, SetParam(before, item.key, Nested(SetParameters(item.value.items, []).params)))
            else SetResult(false, before)
    decreases |front|
  {
    hide Boxed, SetParam;
    var all := front + [item] + rest;
    if front == [] {
      assert all[0] == item;
    } else {
      assert all[0] == front[0] && all[1..] == front[1..] + [item] + rest;
      var next := if front[0].value.Null? then w else SetParam(w, front[0].key, Boxed(front[0].key, front[0].value));
      OtherItemsStop(front[1..], item, rest, next);
    }
  }
}
