/** The converters of frameworks/cj/src/cj_avsession_utils.cpp between WantParams and C arrays. */
module WantParamsConverter {
  import opened Machine
  import opened WantParamsArray
  import opened WantParamsRoundTrip
  import opened WantParamsSpec
  import opened Wrappers

  /** CJNO_ERROR and AVSESSION_ERROR. */
  datatype Code = NoError | SessionError

  class WantParams {
    var entries: Params

    constructor ()
      ensures entries == []
    {
      entries := [];
    }

    method SetParam(key: string, value: Value)
      modifies this
      ensures entries == WantParamsSpec.SetParam(old(entries), key, value)
    {
      entries := WantParamsSpec.SetParam(entries, key, value);
    }
  }

  // ---------- From the C array to WantParams ----------

  method SetFdData(key: string, fd: Int32, wantP: WantParams)
    modifies wantP
    ensures wantP.entries == SetParam(old(wantP.entries), key, Nested(FdParams(fd)))
  {
    var wp := new WantParams();
    wp.SetParam(TYPE_PROPERTY, Str(FD));
    wp.SetParam(VALUE_PROPERTY, Int(fd));
    ghost var first := Entry(TYPE_PROPERTY, Str(FD));
    assert wp.entries == [first] + SetParam([], VALUE_PROPERTY, Int(fd)) by {
      assert VALUE_PROPERTY[0] == 'v' && TYPE_PROPERTY[0] == 't';
    }
    assert wp.entries == FdParams(fd);
    wantP.SetParam(key, Nested(wp.entries));
  }

  method InnerSetWantParamsArrayFD(key: string, fds: seq<Int32>, wantP: WantParams)
    modifies wantP
    ensures wantP.entries == SetParam(old(wantP.entries), key, Boxed(key, CFds(fds)))
  {
    var ao: seq<Value> := [];
    for i := 0 to |fds|
      invariant wantP.entries == old(wantP.entries)
      invariant ao == FdElements(key, fds[..i])
    {
      var wp := new WantParams();
      SetFdData(key, fds[i], wp);
      assert wp.entries == [Entry(key, Nested(FdParams(fds[i])))];
      ao := ao + [Nested(wp.entries)];
    }
    assert fds[..|fds|] == fds;
    wantP.SetParam(key, Others(ao));
  }

  method InnerSetWantParamsHashMap(key: string, items: seq<CItem>, wantP: WantParams) returns (code: Code)
    modifies wantP
    ensures var inner := SetParameters(items, []);
            code.NoError? == inner.ok
            && wantP.entries == if inner.ok then SetParam(old(wantP.entries), key, Nested(inner.params))
                                else old(wantP.entries)
    decreases items, 1
  {
    var wp := new WantParams();
    code := SetDataParameters(Some(items), wp);
    if code != NoError { return; }
    wantP.SetParam(key, Nested(wp.entries));
  }

  /** A null array is an error; otherwise the parameters are set one by one. */
  method SetDataParameters(head: Option<seq<CItem>>, wantP: WantParams) returns (code: Code)
    modifies wantP
    ensures head.None? ==> code == SessionError && wantP.entries == old(wantP.entries)
    ensures head.Some? ==> SetResult(code.NoError?, wantP.entries) == SetParameters(head.value, old(wantP.entries))
    decreases if head.Some? then head.value else [], 0
  {
    hide Boxed;
    if head.None? { return SessionError; }
    var items := head.value;
    var i := 0;
    while i < |items|
      invariant i <= |items|
      invariant SetParameters(items, old(wantP.entries)) == SetParameters(items[i..], wantP.entries)
    {
      var key, v := items[i].key, items[i].value;
      assert items[i..][1..] == items[i + 1..];
      if v.Null? {
      } else if v.CMap? {
        code := InnerSetWantParamsHashMap(key, v.items, wantP);
        return;
      } else if v.CFds? {
        InnerSetWantParamsArrayFD(key, v.fds, wantP);
      } else if v.CLong? || v.CLongs? {
        return SessionError;
      } else {
        SetPlain(key, v, wantP);
      }
      i := i + 1;
    }
    code := NoError;
  }

  /** The branches of the loop that box one value or copy one array. */
  method SetPlain(key: string, v: CValue, wantP: WantParams)
    requires !v.Null? && !v.CMap? && !v.CFds? && !v.CLong? && !v.CLongs?
    modifies wantP
    ensures wantP.entries == SetParam(old(wantP.entries), key, Boxed(key, v))
  {
    match v
    case CInt(i) => wantP.SetParam(key, Int(i));
    case CDbl(d) => wantP.SetParam(key, Dbl(d));
    case CStr(s) => wantP.SetParam(key, Str(s));
    case CBool(b) => wantP.SetParam(key, Bool(b));
    case CFd(fd) => SetFdData(key, fd, wantP);
    case CStrs(a) => wantP.SetParam(key, Strs(a));
    case CInts(a) => wantP.SetParam(key, Ints(a));
    case CBools(a) => wantP.SetParam(key, Bools(a));
    case CDbls(a) => wantP.SetParam(key, Dbls(a));
  }

  // ---------- From WantParams to the C array ----------

  /** Leaves the slot alone when there is no descriptor under the key. */
  method GetFDValue(wantParams: Params, key: string, slot: Int32) returns (fd: Int32)
    ensures fd == if FdUnder(wantParams, key).Some? then FdUnder(wantParams, key).value else slot
  {
    fd := slot;
    var value := GetParam(wantParams, key);
    if value.None? || !value.value.Nested? { return; }
    value := GetParam(value.value.params, VALUE_PROPERTY);
    if value.None? || !value.value.Int? { return; }
    fd := value.value.i;
  }

  /** stale is what freshly allocated memory holds. */
  method InnerWrapWantParamsArrayFd(key: string, ao: seq<Value>, stale: Int32) returns (code: Code, value: CValue)
    ensures ParsedValue(key, Others(ao), stale) == if code.NoError? then Parsed(value) else Failed
  {
    value := Null;
    if |ao| == 0 { return SessionError, Null; }
    var arrP: seq<Int32> := [];
    ghost var all := ParsedFds(key, ao, stale);
    assert ao[0..] == ao && (all.Parsed? ==> [] + all.value == all.value);
    for i := 0 to |ao|
      invariant ParsedFds(key, ao, stale) ==
                var rest := ParsedFds(key, ao[i..], stale);
                if rest.Failed? then Failed else Parsed(arrP + rest.value)
    {
      assert ao[i..][1..] == ao[i + 1..];
      if !ao[i].Nested? { return SessionError, Null; }
      var fd := GetFDValue(ao[i].params, key, stale);
      ghost var rest := ParsedFds(key, ao[i + 1..], stale);
      assert rest.Parsed? ==> arrP + ([fd] + rest.value) == arrP + [fd] + rest.value;
      arrP := arrP + [fd];
    }
    assert arrP + [] == arrP;
    code, value := NoError, CFds(arrP);
  }

  method GetValue(key: string, p: Params, stale: Int32) returns (code: Code, value: CValue)
    ensures ParsedValue(key, Nested(p), stale) == if code.NoError? then Parsed(value) else Failed
    decreases p, 1
  {
    code, value := NoError, Null;
    if GetParam(p, TYPE_PROPERTY).Some? {
      var ao := GetParam(p, VALUE_PROPERTY);
      if ao.None? || !ao.value.Int? { return; }
      value := CFd(ao.value.i);
    } else {
      var head;
      head, code := ParseParameters(p, stale);
      if code != NoError { return; }
      if head.Some? { value := CMap(head.value); }
    }
  }

  /** Null and no error for an empty map; null and an error for one that cannot be converted. */
  method ParseParameters(wantP: Params, stale: Int32) returns (head: Option<seq<CItem>>, code: Code)
    ensures code.NoError? == ParsedParams(wantP, stale).Parsed?
    ensures head == if code.NoError? && wantP != [] then Some(ParsedParams(wantP, stale).value) else None
    ensures head.Some? ==> head.value != [] && CarriesAll(head.value, wantP, stale)
    decreases wantP, 0
  {
    if wantP == [] { return None, NoError; }
    var items: seq<CItem> := [];
    var i := 0;
    assert wantP[0..] == wantP && forall x: seq<CItem> :: [] + x == x;
    while i < |wantP|
      invariant i <= |wantP| && |items| == i
      invariant Rest(wantP, stale, i, items)
    {
      hide ParsedParams, ParsedValue;
      var key, v := wantP[i].key, wantP[i].value;
      var value;
      code, value := InnerWrap(key, v, stale);
      NextItem(wantP, stale, i, items, value);
      if code != NoError { return None, code; }
      items := items + [CItem(key, value)];
      i := i + 1;
    }
    assert items + [] == items;
    ArrayCarriesTheMap(wantP, stale);
    head, code := Some(items), NoError;
  }

  /** What is left to convert decides the whole. */
  ghost predicate Rest(w: Params, stale: Int32, i: nat, items: seq<CItem>)
    requires i <= |w|
  {
    var rest := ParsedParams(w[i..], stale);
    ParsedParams(w, stale) == if rest.Failed? then Failed else Parsed(items + rest.value)
  }

  lemma NextItem(w: Params, stale: Int32, i: nat, items: seq<CItem>, value: CValue)
    requires i < |w| && Rest(w, stale, i, items)
    ensures var parsed := ParsedValue(w[i].key, w[i].value, stale);
            if parsed.Failed? then ParsedParams(w, stale).Failed?
            else Rest(w, stale, i + 1, items + [CItem(w[i].key, parsed.value)])
  {
    hide ParsedValue;
    assert w[i..][1..] == w[i + 1..];
    var parsed := ParsedValue(w[i].key, w[i].value, stale);
    var rest := ParsedParams(w[i + 1..], stale);
    if parsed.Parsed? && rest.Parsed? {
      var item := CItem(w[i].key, parsed.value);
      assert items + ([item] + rest.value) == items + [item] + rest.value;
    }
  }

  /** Asks a value for each of its interfaces in turn. */
  method InnerWrap(key: string, v: Value, stale: Int32) returns (code: Code, value: CValue)
    ensures ParsedValue(key, v, stale) == if code.NoError? then Parsed(value) else Failed
    decreases v
  {
    code, value := NoError, Null;
    match v
    case Str(s) => value := CStr(s);
    case Bool(b) => value := CBool(b);
    case Int(i) => value := CInt(i);
    case Long(l) => value := CLong(l);
    case Dbl(d) => value := CDbl(d);
    case Nested(p) => code, value := GetValue(key, p, stale);
    case Strs(a) => if a == [] { code := SessionError; } else { value := CStrs(a); }
    case Bools(a) => if a == [] { code := SessionError; } else { value := CBools(a); }
    case Ints(a) => if a == [] { code := SessionError; } else { value := CInts(a); }
    case Longs(a) => if a == [] { code := SessionError; } else { value := CLongs(a); }
    case Dbls(a) => if a == [] { code := SessionError; } else { value := CDbls(a); }
    case Others(a) => code, value := InnerWrapWantParamsArrayFd(key, a, stale);
    case Unknown =>
  }

  /**
   There and back. The same map comes back without an error exactly when it was clean and not empty;
   a map that can be converted comes back as what is kept of it.
   */
  method ThereAndBack(native: Params, stale: Int32) returns (there: Code, back: Code, result: WantParams)
    requires DeepOrdered(native)
    ensures there.NoError? <==> Convertible(native)
    ensures there.NoError? && native != [] ==>
              SetResult(back.NoError?, result.entries) == Kept(native, stale)
    ensures there.NoError? && back.NoError? && result.entries == native <==> native != [] && Clean(native)
  {
    hide Clean, Kept, ParsedParams, SetParameters, Convertible, DeepOrdered;
    ConvertsExactly(native, stale);
    RoundTripsExactly(native, stale);
    result := new WantParams();
    back := SessionError;
    var head;
    head, there := ParseParameters(native, stale);
    if there != NoError { return; }
    if native != [] { SetsWhatIsKept(native, stale, []); }
    back := SetDataParameters(head, result);
    assert [] + Kept(native, stale).params == Kept(native, stale).params;
  }
}
