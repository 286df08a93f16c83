/** The append buffer of frameworks/common/src/av_shared_memory_base.cpp. */
module SharedMemory {
  import opened Machine
  import opened Sequences
  import opened Wrappers

  const INVALID_POSITION := -1

  // ---------- The memory as a value ----------

  /** All mapped bytes, and how many count as used. A closed memory has no bytes. */
  datatype Memory = Memory(bytes: Bytes, used: nat)

  predicate Bounded(m: Memory) { m.used <= |m.bytes| < 0x8000_0000 }

  function Contents(m: Memory): Bytes
    requires Bounded(m)
  {
    m.bytes[..m.used]
  }

  function Min(a: int, b: int): int { if a < b then a else b }

  predicate Position(p: int) { p >= INVALID_POSITION }

  /** Where a write starts: at the end of what is used, or at a position within the memory. */
  function WriteStart(m: Memory, position: int): nat
    requires Bounded(m) && Position(position)
  {
    if position == INVALID_POSITION then m.used else Min(position, |m.bytes|)
  }

  function WriteLength(m: Memory, n: nat, position: int): nat
    requires Bounded(m) && Position(position)
  {
    Min(n, |m.bytes| - WriteStart(m, position))
  }

  /** emptyCopyOk tells whether memcpy_s reports success for a copy of no bytes. */
  function Written(m: Memory, data: Bytes, position: int, emptyCopyOk: bool): (r: Memory)
    requires Bounded(m) && Position(position)
    ensures Bounded(r) && |r.bytes| == |m.bytes|
  {
    var start, length := WriteStart(m, position), WriteLength(m, |data|, position);
    if data == [] || (length == 0 && !emptyCopyOk) then m
    else Memory(m.bytes[..start] + data[..length] + m.bytes[start + length..], start + length)
  }

  /**
   A write, byte by byte: it starts at what is used, or at its position but not beyond the memory, and puts
   there as much as there is room for; that is the used part afterwards, and every other byte stays.
   */
  lemma WrittenExactly(m: Memory, data: Bytes, position: int, emptyCopyOk: bool)
    requires Bounded(m) && Position(position)
    ensures var r, size := Written(m, data, position, emptyCopyOk), |m.bytes|;
            var start := if position == -1 then m.used else if position < size then position else size;
            var length := if |data| < size - start then |data| else size - start;
            && WriteLength(m, |data|, position) == length && |r.bytes| == size
            && r.used == (if data == [] || (length == 0 && !emptyCopyOk) then m.used else start + length)
            && forall i :: 0 <= i < size ==>
                 r.bytes[i] == if start <= i < start + length then data[i - start] else m.bytes[i]
  {
  }

  lemma NothingWritten(m: Memory, position: int, emptyCopyOk: bool)
    requires Bounded(m) && Position(position)
    ensures Written(m, [], position, emptyCopyOk) == m && WriteLength(m, 0, position) == 0
  {
  }

  /** A write of something, in terms of the part of it that fits. */
  lemma WrittenPart(m: Memory, data: Bytes, position: int, emptyCopyOk: bool, fits: Bytes)
    requires Bounded(m) && Position(position) && data != []
    requires fits == data[..WriteLength(m, |data|, position)]
    ensures var start := WriteStart(m, position);
            start + |fits| <= |m.bytes|
            && Written(m, data, position, emptyCopyOk) ==
               if fits != [] || emptyCopyOk then
                 Memory(m.bytes[..start] + fits + m.bytes[start + |fits|..], start + |fits|)
               else m
  {
  }

  /** The used size that a write of n bytes leaves behind, for any position that the code is given. */
  function UsedAfter(used: int, capacity: int, n: int, position: int): int {
    var start := if position == INVALID_POSITION then used else Min(position, capacity);
    start + Min(n, capacity - start)
  }

  /**
   The arithmetic of a write, which no check guards: where it starts, how much it copies, and the used size
   it leaves. The test that is to refuse a write beyond the capacity never does.
   */
  method Place(size: Int32, capacity: Int32, writeSize: Int32, position: Int32)
    returns (start: int, length: int, next: int)
    ensures next == start + length == UsedAfter(size, capacity, writeSize, position)
    ensures start == if position == INVALID_POSITION then size else Min(position, capacity)
    ensures length == Min(writeSize, capacity - start) && next <= capacity
  {
    if position == INVALID_POSITION {
      start := size;
    } else {
      start := if position < capacity then position else capacity;
    }
    var unusedSize := capacity - start;
    length := if writeSize < unusedSize then writeSize else unusedSize;
    next := start + length;
  }

  /**
   The used size stays within the memory exactly for the append marker, for positions that are not
   negative, and for negative ones from which the write reaches the memory. (Written is defined for the
   first two kinds; the others also put bytes before the mapping.)
   */
  lemma BoundSurvivesExactly(used: nat, capacity: nat, n: nat, position: int)
    requires used <= capacity && n > 0
    ensures 0 <= UsedAfter(used, capacity, n, position) <= capacity <==> Position(position) || position + n >= 0
  {
  }

  /** Three bytes written at -5 into an empty memory of ten leave a negative used size. */
  lemma AUsedSizeBelowZero()
    ensures UsedAfter(0, 10, 3, -5) == -2
  {
  }

  /** At the positions that Written is defined for, it leaves that used size. */
  lemma WrittenUses(m: Memory, data: Bytes, position: int, emptyCopyOk: bool)
    requires Bounded(m) && Position(position) && data != []
    requires WriteLength(m, |data|, position) > 0 || emptyCopyOk
    ensures Written(m, data, position, emptyCopyOk).used == UsedAfter(m.used, |m.bytes|, |data|, position)
  {
  }

  /** What a read of up to n bytes returns. */
  function ReadBytes(m: Memory, n: nat, position: int): Bytes
    requires Bounded(m) && Position(position)
  {
    var start := if position == INVALID_POSITION then 0 else Min(position, m.used);
    m.bytes[start..start + Min(n, m.used - start)]
  }

  /** A read, byte by byte: from the beginning or its position on, as much as is used and asked for. */
  lemma ReadExactly(m: Memory, n: nat, position: int)
    requires Bounded(m) && Position(position)
    ensures var r := ReadBytes(m, n, position);
            var start := if position == -1 then 0 else if position < m.used then position else m.used;
            && |r| == (if n < m.used - start then n else m.used - start)
            && forall i :: 0 <= i < |r| ==> start + i < m.used && r[i] == m.bytes[start + i]
  {
  }

  // ---------- Runs ----------

  datatype Op = Write(data: Bytes, position: int) | ClearUsedSize | Close

  function Step(m: Memory, op: Op, emptyCopyOk: bool): (r: Memory)
    requires Bounded(m) && (op.Write? ==> Position(op.position))
    ensures Bounded(r)
  {
    match op
    case Write(data, position) => Written(m, data, position, emptyCopyOk)
    case ClearUsedSize => m.(used := 0)
    case Close => Memory([], 0)
  }

  /** Clearing keeps the bytes and uses none; closing leaves no bytes. */
  lemma ClearAndClose(m: Memory, emptyCopyOk: bool)
    requires Bounded(m)
    ensures Step(m, Op.ClearUsedSize, emptyCopyOk) == Memory(m.bytes, 0)
    ensures Step(m, Op.Close, emptyCopyOk) == Memory([], 0)
  {
  }

  predicate Allowed(ops: seq<Op>) { forall i :: 0 <= i < |ops| && ops[i].Write? ==> Position(ops[i].position) }

  function Run(m: Memory, ops: seq<Op>, emptyCopyOk: bool): (r: Memory)
    requires Bounded(m) && Allowed(ops)
    ensures Bounded(r)
    decreases |ops|
  {
    if ops == [] then m else Run(Step(m, ops[0], emptyCopyOk), ops[1..], emptyCopyOk)
  }

  /** The mapping keeps its size until it is closed, and the used size never leaves it. */
  lemma {:induction false} RunsStayBounded(m: Memory, ops: seq<Op>, emptyCopyOk: bool)
    requires Bounded(m) && Allowed(ops)
    ensures var r := Run(m, ops, emptyCopyOk);
            0 <= r.used <= |r.bytes| && |r.bytes| == if Close in ops then 0 else |m.bytes|
    decreases |ops|
  {
    if ops != [] {
      RunsStayBounded(Step(m, ops[0], emptyCopyOk), ops[1..], emptyCopyOk);
    }
  }

  // ---------- Appending ----------

  function Appends(inputs: seq<Bytes>): (ops: seq<Op>)
    ensures |ops| == |inputs| && Allowed(ops)
  {
    seq(|inputs|, i requires 0 <= i < |inputs| => Write(inputs[i], INVALID_POSITION))
  }

  /** The sum of the lengths that the appends return. */
  function Returned(m: Memory, inputs: seq<Bytes>, emptyCopyOk: bool): nat
    requires Bounded(m)
    decreases |inputs|
  {
    if inputs == [] then 0 else
      WriteLength(m, |inputs[0]|, INVALID_POSITION)
      + Returned(Written(m, inputs[0], INVALID_POSITION, emptyCopyOk), inputs[1..], emptyCopyOk)
  }

  lemma OneAppend(m: Memory, data: Bytes, emptyCopyOk: bool)
    requires Bounded(m)
    ensures var r := Written(m, data, INVALID_POSITION, emptyCopyOk);
            Contents(r) == Cut(Contents(m) + data, |m.bytes|)
            && r.used == m.used + WriteLength(m, |data|, INVALID_POSITION)
  {
    var length := WriteLength(m, |data|, INVALID_POSITION);
    assert (Contents(m) + data)[..m.used + length] == Contents(m) + data[..length];
  }

  /** Appends hold the concatenation of everything appended, cut at the capacity; their lengths add up to it. */
  lemma {:induction false} AppendsConcatenate(m: Memory, inputs: seq<Bytes>, emptyCopyOk: bool)
    requires Bounded(m)
    ensures var r := Run(m, Appends(inputs), emptyCopyOk);
            |r.bytes| == |m.bytes| && Contents(r) == Cut(Contents(m) + Flatten(inputs), |m.bytes|)
            && r.used == m.used + Returned(m, inputs, emptyCopyOk)
    decreases |inputs|
  {
    hide Written, WriteLength, Cut;
    if inputs == [] {
      assert Contents(m) + [] == Contents(m) && Cut(Contents(m), |m.bytes|) == Contents(m) by { ShortIsUncut(m); }
    } else {
      var next := Written(m, inputs[0], INVALID_POSITION, emptyCopyOk);
      OneAppend(m, inputs[0], emptyCopyOk);
      AppendsConcatenate(next, inputs[1..], emptyCopyOk);
      assert Appends(inputs)[1..] == Appends(inputs[1..]) && Appends(inputs)[0] == Write(inputs[0], INVALID_POSITION);
      assert Contents(m) + Flatten(inputs) == Contents(m) + inputs[0] + Flatten(inputs[1..]);
      CutTwice(Contents(m) + inputs[0], Flatten(inputs[1..]), |m.bytes|);
    }
  }

  lemma ShortIsUncut(m: Memory)
    requires Bounded(m)
    ensures Cut(Contents(m), |m.bytes|) == Contents(m)
  {
  }

  // ---------- Reading back ----------

  /** A read at p returns exactly the used bytes from p on, at most n of them. */
  lemma ReadsContents(m: Memory, n: nat, position: int)
    requires Bounded(m) && Position(position)
    ensures var p := if position == INVALID_POSITION then 0 else Min(position, m.used);
            ReadBytes(m, n, position) == Contents(m)[p..Min(p + n, m.used)]
  {
    var p := if position == INVALID_POSITION then 0 else Min(position, m.used);
    var end := p + Min(n, m.used - p);
    assert end == Min(p + n, m.used);
    assert m.bytes[..m.used][p..end] == m.bytes[p..end];
  }

  /** What was written can be read back where it was written, whatever its position. */
  lemma WriteThenRead(m: Memory, data: Bytes, position: int, emptyCopyOk: bool)
    requires Bounded(m) && Position(position)
    ensures var length := WriteLength(m, |data|, position);
            ReadBytes(Written(m, data, position, emptyCopyOk), length, WriteStart(m, position)) == data[..length]
  {
    var start, length := WriteStart(m, position), WriteLength(m, |data|, position);
    if length > 0 {
      var r := Written(m, data, position, emptyCopyOk);
      WrittenPart(m, data, position, emptyCopyOk, data[..length]);
      assert r.used == start + length && r.bytes[start..start + length] == data[..length];
      assert ReadBytes(r, length, start) == r.bytes[start..start + length];
    }
  }

  /** A write inside what is used keeps what is before it and drops what is behind it. */
  lemma WriteInside(m: Memory, data: Bytes, position: nat, emptyCopyOk: bool)
    requires Bounded(m) && position <= m.used && position < |m.bytes| && data != []
    ensures Contents(Written(m, data, position, emptyCopyOk)) == Cut(Contents(m)[..position] + data, |m.bytes|)
  {
    var length := WriteLength(m, |data|, position);
    assert (Contents(m)[..position] + data)[..position + length] == m.bytes[..position] + data[..length];
  }

  // ---------- The object ----------

  class AVSharedMemoryBase {
    var base: array?<bv8>
    var capacity: Int32
    var size: Int32
    const emptyCopyOk: bool

    ghost predicate Valid()
      reads this, base
    {
      0 <= size <= capacity && if base == null then size == 0 else base.Length == capacity
    }

    ghost function View(): (m: Memory)
      requires Valid()
      reads this, base
      ensures Bounded(m)
    {
      Memory(if base == null then [] else base[..], size)
    }

    /** A memory that has not been mapped. */
    constructor Unmapped(capacity: Int32, emptyCopyOk: bool)
      requires capacity >= 0
      ensures Valid() && base == null && View() == Memory([], 0)
      ensures this.emptyCopyOk == emptyCopyOk && this.capacity == capacity
    {
      this.capacity, this.emptyCopyOk, size, base := capacity, emptyCopyOk, 0, null;
    }

    /** A mapping of a size that Init accepts. */
    constructor (capacity: Int32, emptyCopyOk: bool)
      requires capacity > 0
      ensures Valid() && base != null && fresh(base)
      ensures this.emptyCopyOk == emptyCopyOk && this.capacity == capacity && size == 0
    {
      this.capacity, this.emptyCopyOk, size := capacity, emptyCopyOk, 0;
      base := new bv8[capacity];
    }

    /** memcpy_s to the mapping with the count as the room. */
    method Copy(start: nat, data: Bytes) returns (ok: bool)
      requires base != null && start + |data| <= base.Length
      modifies base
      ensures ok == (data != [] || emptyCopyOk)
      ensures base[..] == if ok then old(base[..start]) + data + old(base[start + |data|..]) else old(base[..])
    {
      ok := data != [] || emptyCopyOk;
      if ok {
        forall k | 0 <= k < |data| { base[start + k] := data[k]; }
      }
    }

    /** Copies the data to where it starts and counts everything up to its end as used. */
    method Store(start: nat, data: Bytes) returns (ok: bool)
      requires Valid() && base != null && start + |data| <= base.Length
      modifies this`size, base
      ensures Valid() && base == old(base)
      ensures ok == (data != [] || emptyCopyOk)
      ensures View() ==
              if ok then
                Memory(old(base[..start]) + data + old(base[start + |data|..]), start + |data|)
              else old(View())
    {
      ok := Copy(start, data);
      if ok { size := start + |data|; }
    }

    /**
     The caller owns writeSize bytes at input, and asks to append or gives a position that is not negative.
     A memory that is not mapped is only found out at its start.
     */
    method Write(input: Option<Bytes>, writeSize: Int32, position: Int32) returns (written: Int32)
      requires Valid() && Position(position)
      requires base == null ==> position <= 0 || capacity == 0
      requires input.Some? ==> writeSize <= |input.value|
      modifies this`size, base
      ensures Valid() && base == old(base) && capacity == old(capacity)
      ensures var data := if input.Some? && writeSize > 0 then input.value[..writeSize] else [];
              View() == Written(old(View()), data, position, emptyCopyOk)
              && written == WriteLength(old(View()), |data|, position)
      ensures written > 0 ==> size == UsedAfter(old(size), capacity, writeSize, position)
    {
      hide Written, UsedAfter;
      NothingWritten(View(), position, emptyCopyOk);
      if input.None? { return 0; }
      if writeSize <= 0 { return 0; }
      var start, length, next := Place(size, capacity, writeSize, position);
      if next > capacity { assert false; }
      if base == null { return 0; }
      ghost var data := input.value[..writeSize];
      assert data[..length] == input.value[..length];
      WrittenPart(View(), data, position, emptyCopyOk, data[..length]);
      if length > 0 || emptyCopyOk { WrittenUses(View(), data, position, emptyCopyOk); }
      var ok := Store(start, input.value[..length]);
      if !ok { return 0; }
      written := length;
    }

    /** The caller owns readSize bytes at out; the bytes copied there come back as data. */
    method Read(out: bool, readSize: Int32, position: Int32) returns (length: Int32, data: Bytes)
      requires Valid() && Position(position)
      ensures data == if out && readSize > 0 then ReadBytes(View(), readSize, position) else []
      ensures length == |data|
    {
      length, data := 0, [];
      if !out { return; }
      if readSize <= 0 { return; }
      var start, maxLength := 0, size;
      if position != INVALID_POSITION {
        start := Min(position, size);
        maxLength := size - start;
      }
      var n := Min(readSize, maxLength);
      if n + start > capacity { assert false; }
      if base == null { return; }
      if n == 0 && !emptyCopyOk { return; }
      length, data := n, base[start..start + n];
    }

    method ClearUsedSize()
      requires Valid()
      modifies this`size
      ensures Valid() && View() == Step(old(View()), Op.ClearUsedSize, emptyCopyOk)
    {
      size := 0;
    }

    method GetUsedSize() returns (used: Int32)
      requires Valid()
      ensures used == View().used
    {
      used := size;
    }

    method Close()
      requires Valid()
      modifies this`base, this`capacity, this`size
      ensures Valid() && View() == Step(old(View()), Op.Close, emptyCopyOk)
      ensures base == null && capacity == if old(base) == null then old(capacity) else 0
    {
      if base != null {
        base, capacity, size := null, 0, 0;
      }
    }
  }

  /** Appending to a fresh mapping: the reader gets the concatenation, cut at the capacity. */
  method AppendAll(capacity: Int32, inputs: seq<Bytes>, emptyCopyOk: bool) returns (data: Bytes, total: nat)
    requires capacity > 0 && forall i :: 0 <= i < |inputs| ==> |inputs[i]| < 0x8000_0000
    ensures data == Cut(Flatten(inputs), capacity) && total == |data|
  {
    assert Flatten(inputs[..0]) == [];
    hide Written, Flatten, ReadBytes;
    var memory := new AVSharedMemoryBase(capacity, emptyCopyOk);
    ghost var start := memory.View();
    total := 0;
    for i := 0 to |inputs|
      invariant memory.Valid() && fresh(memory) && (memory.base != null ==> fresh(memory.base))
      invariant memory.emptyCopyOk == emptyCopyOk && |memory.View().bytes| == capacity
      invariant Contents(memory.View()) == Cut(Flatten(inputs[..i]), capacity) && total == memory.View().used
    {
      OneAppend(memory.View(), inputs[i], emptyCopyOk);
      FlattenLast(inputs[..i + 1]);
      assert inputs[..i + 1][..i] == inputs[..i];
      CutTwice(Flatten(inputs[..i]), inputs[i], capacity);
      var n := memory.Write(Some(inputs[i]), |inputs[i]|, INVALID_POSITION);
      assert inputs[i][..|inputs[i]|] == inputs[i];
      total := total + n;
    }
    assert inputs[..|inputs|] == inputs;
    ReadsContents(memory.View(), capacity, INVALID_POSITION);
    var _, all := memory.Read(true, capacity, INVALID_POSITION);
    data := all;
  }
}
