/**
 The two converters of frameworks/cj/src/cj_avsession_utils.cpp between WantParams, a map from keys to
 values that may hold further maps, and the C array of parameters handed to Cangjie.
 */
module WantParamsSpec {
  import opened Machine
  import opened StringOrder
  import opened Wrappers

  const FD := "FD"
  const TYPE_PROPERTY := "type"
  const VALUE_PROPERTY := "value"

  /** A boxed value. Others are arrays of anything but the five plain types; Unknown is any other interface. */
  datatype Value =
    | Str(s: string)
    | Bool(b: bool)
    | Int(i: Int32)
    | Long(l: Int64)
    | Dbl(d: DoubleBits)
    | Nested(params: Params)
    | Strs(strs: seq<string>)
    | Bools(bools: seq<bool>)
    | Ints(ints: seq<Int32>)
    | Longs(longs: seq<Int64>)
    | Dbls(dbls: seq<DoubleBits>)
    | Others(elements: seq<Value>)
    | Unknown

  datatype Entry = Entry(key: string, value: Value)

  /** The entries of a std::map, in the order it iterates over them. */
  type Params = seq<Entry>

  /** What the value pointer of a parameter leads to, read as its type tag says; Null is a null pointer. */
  datatype CValue =
    | Null
    | CStr(s: string)
    | CBool(b: bool)
    | CInt(i: Int32)
    | CLong(l: Int64)
    | CDbl(d: DoubleBits)
    | CFd(fd: Int32)
    | CMap(items: seq<CItem>)
    | CStrs(strs: seq<string>)
    | CBools(bools: seq<bool>)
    | CInts(ints: seq<Int32>)
    | CLongs(longs: seq<Int64>)
    | CDbls(dbls: seq<DoubleBits>)
    | CFds(fds: seq<Int32>)

  datatype CItem = CItem(key: string, value: CValue)

  // ---------- std::map ----------

  predicate Ordered(w: Params) { forall i, j :: 0 <= i < j < |w| ==> Less(w[i].key, w[j].key) }

  /** Maps inside maps are ordered too. */
  predicate DeepOrdered(w: Params) {
    Ordered(w) && forall i :: 0 <= i < |w| && w[i].value.Nested? ==> DeepOrdered(w[i].value.params)
  }

  function SetParam(w: Params, key: string, value: Value): Params {
    if w == [] then [Entry(key, value)]
    else if w[0].key == key then [Entry(key, value)] + w[1..]
    else if Less(key, w[0].key) then [Entry(key, value)] + w
    else [w[0]] + SetParam(w[1..], key, value)
  }

  function GetParam(w: Params, key: string): Option<Value> {
    if w == [] then None else if w[0].key == key then Some(w[0].value) else GetParam(w[1..], key)
  }

  // ---------- From WantParams to the C array ----------

  datatype Parsed<T> = Failed | Parsed(value: T)

  /** The integer under VALUE_PROPERTY of the map under a key, when there is one. */
  function FdUnder(w: Params, key: string): Option<Int32> {
    match GetParam(w, key)
    case Some(Nested(inner)) => (match GetParam(inner, VALUE_PROPERTY) case Some(Int(i)) => Some(i) case _ => None)
    case _ => None
  }

  /** The array of descriptors; an element without one leaves its slot as malloc gave it. */
  function ParsedFds(key: string, elements: seq<Value>, stale: Int32): Parsed<seq<Int32>> {
    if elements == [] then Parsed([])
    else if !elements[0].Nested? then Failed
    else
      var rest := ParsedFds(key, elements[1..], stale);
      var fd := FdUnder(elements[0].params, key);
      if rest.Failed? then Failed else Parsed([if fd.Some? then fd.value else stale] + rest.value)
  }

  function ParsedValue(key: string, v: Value, stale: Int32): Parsed<CValue>
    decreases v
  {
    match v
    case Str(s) => Parsed(CStr(s))
    case Bool(b) => Parsed(CBool(b))
    case Int(i) => Parsed(CInt(i))
    case Long(l) => Parsed(CLong(l))
    case Dbl(d) => Parsed(CDbl(d))
    case Nested(p) => ParsedNested(p, stale)
    case Strs(a) => if a == [] then Failed else Parsed(CStrs(a))
    case Bools(a) => if a == [] then Failed else Parsed(CBools(a))
    case Ints(a) => if a == [] then Failed else Parsed(CInts(a))
    case Longs(a) => if a == [] then Failed else Parsed(CLongs(a))
    case Dbls(a) => if a == [] then Failed else Parsed(CDbls(a))
    case Others(a) =>
      if a == [] then Failed else
        (match ParsedFds(key, a, stale) case Failed => Failed case Parsed(fds) => Parsed(CFds(fds)))
    case Unknown => Parsed(Null)
  }

  /** A map with a type is taken for a descriptor; an empty map has no array at all. */
  function ParsedNested(p: Params, stale: Int32): Parsed<CValue>
    decreases p
  {
    if GetParam(p, TYPE_PROPERTY).Some? then
      (match GetParam(p, VALUE_PROPERTY) case Some(Int(i)) => Parsed(CFd(i)) case _ => Parsed(Null))
    else
      match ParsedParams(p, stale)
      case Failed => Failed
      case Parsed(items) => Parsed(if items == [] then Null else CMap(items))
  }

  /** One parameter per entry, or a failure for the whole map. */
  function ParsedParams(w: Params, stale: Int32): Parsed<seq<CItem>>
    decreases w, 1
  {
    if w == [] then Parsed([]) else
      match ParsedValue(w[0].key, w[0].value, stale)
      case Failed => Failed
      case Parsed(v) =>
        match ParsedParams(w[1..], stale)
        case Failed => Failed
        case Parsed(rest) => Parsed([CItem(w[0].key, v)] + rest)
  }

  // ---------- From the C array to WantParams ----------

  /** ok means CJNO_ERROR; what has been set by then stays set. */
  datatype SetResult = SetResult(ok: bool, params: Params)

  /** The two entries that SetFdData boxes. */
  function FdParams(fd: Int32): Params { [Entry(TYPE_PROPERTY, Str(FD)), Entry(VALUE_PROPERTY, Int(fd))] }

  function FdElement(key: string, fd: Int32): Value { Nested([Entry(key, Nested(FdParams(fd)))]) }

  function FdElements(key: string, fds: seq<Int32>): seq<Value> {
    seq(|fds|, i requires 0 <= i < |fds| => FdElement(key, fds[i]))
  }

  /** The value set for a parameter of the other types. */
  function Boxed(key: string, v: CValue): Value
    requires !v.Null? && !v.CMap? && !v.CLong? && !v.CLongs?
  {
    match v
    case CStr(s) => Str(s)
    case CBool(b) => Bool(b)
    case CInt(i) => Int(i)
    case CDbl(d) => Dbl(d)
    case CFd(fd) => Nested(FdParams(fd))
    case CStrs(a) => Strs(a)
    case CBools(a) => Bools(a)
    case CInts(a) => Ints(a)
    case CDbls(a) => Dbls(a)
    case CFds(a) => Others(FdElements(key, a))
  }

  /** Null values are skipped, 64-bit types are errors, and the first map ends the loop. */
  function SetParameters(items: seq<CItem>, w: Params): SetResult
    decreases items
  {
    if items == [] then SetResult(true, w) else
      var key, v := items[0].key, items[0].value;
      if v.Null? then SetParameters(items[1..], w)
      else if v.CMap? then
        var inner := SetParameters(v.items, []);
        if inner.ok then SetResult(true, SetParam(w, key, Nested(inner.params))) else SetResult(false, w)
      else if v.CLong? || v.CLongs? then SetResult(false, w)
      else SetParameters(items[1..], SetParam(w, key, Boxed(key, v)))
  }
}
