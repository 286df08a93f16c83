/**
 The storage-record index of utils/src/avsession_storage_event.cpp on values: per user, the files
 recorded since the last report. Reports empty every user's files and keep the users.
 */
module StorageSpec {
  import opened MapSums

  const MAX_BUNDLE_NAMES: nat := 100

  datatype FileInfo = FileInfo(bundleName: string, fileSize: int, timestamp: int)

  type Files = map<string, FileInfo>
  type Index = map<int, Files>

  // ---------- Sizes ----------

  function Counts(index: Index): map<int, int> { map u | u in index :: |index[u]| }

  /** The number of records of all users. */
  ghost function Records(index: Index): int { Sum(Counts(index)) }

  function Sizes(files: Files): map<string, int> { map p | p in files :: files[p].fileSize }

  ghost function Bytes(files: Files): int { Sum(Sizes(files)) }

  ghost function UserBytes(index: Index): map<int, int> { map u | u in index :: Bytes(index[u]) }

  ghost function TotalBytes(index: Index): int { Sum(UserBytes(index)) }

  // ---------- The three operations ----------

  function FilesOf(index: Index, user: int): Files { if user in index then index[user] else map[] }

  function Recorded(index: Index, user: int, path: string, info: FileInfo): Index {
    index[user := FilesOf(index, user)[path := info]]
  }

  function Deleted(index: Index, user: int, path: string): Index {
    if user in index then index[user := index[user] - {path}] else index
  }

  function Emptied(index: Index): Index { map u | u in index :: map[] }

  /** Users and records together decide when to report. */
  ghost predicate Full(index: Index) { |index| + Records(index) >= MAX_BUNDLE_NAMES }

  // ---------- What the operations do to each record ----------

  predicate Holds(index: Index, user: int, path: string) { user in index && path in index[user] }

  /** A write puts in its record, in place of an older one of the same file, and leaves every other alone. */
  lemma RecordedExactly(index: Index, user: int, path: string, info: FileInfo, u: int, p: string)
    ensures var r := Recorded(index, user, path, info);
            && r.Keys == index.Keys + {user}
            && Holds(r, user, path) && r[user][path] == info
            && (u != user || p != path ==>
                  (Holds(r, u, p) <==> Holds(index, u, p)) && (Holds(index, u, p) ==> r[u][p] == index[u][p]))
  {
  }

  /** A deletion takes out that record and leaves every other alone. */
  lemma DeletedExactly(index: Index, user: int, path: string, u: int, p: string)
    ensures var r := Deleted(index, user, path);
            && r.Keys == index.Keys && !Holds(r, user, path)
            && (u != user || p != path ==>
                  (Holds(r, u, p) <==> Holds(index, u, p)) && (Holds(index, u, p) ==> r[u][p] == index[u][p]))
  {
  }

  /** A report takes out every record and no user. */
  lemma EmptiedExactly(index: Index, u: int, p: string)
    ensures Emptied(index).Keys == index.Keys && !Holds(Emptied(index), u, p)
  {
  }

  // ---------- How the operations change the counts ----------

  lemma RecordsAreNatural(index: Index)
    ensures Records(index) >= 0
  {
    SumIsNatural(Counts(index));
  }

  lemma RecordedCounts(index: Index, user: int, path: string, info: FileInfo)
    ensures Records(Recorded(index, user, path, info)) ==
            Records(index) + (if path in FilesOf(index, user) then 0 else 1)
  {
    var after := Recorded(index, user, path, info);
    PutIn(Counts(index), user, |after[user]|);
    assert Counts(after) == Counts(index)[user := |after[user]|];
    SizeAfterPut(FilesOf(index, user), path, info);
  }

  lemma SizeAfterPut(files: Files, path: string, info: FileInfo)
    ensures |files[path := info]| == |files| + (if path in files then 0 else 1)
  {
    assert files[path := info].Keys == files.Keys + {path};
  }

  lemma DeletedCounts(index: Index, user: int, path: string)
    ensures Records(Deleted(index, user, path)) ==
            Records(index) - (if path in FilesOf(index, user) then 1 else 0)
    ensures Deleted(index, user, path).Keys == index.Keys
  {
    if user in index {
      var after := Deleted(index, user, path);
      PutIn(Counts(index), user, |after[user]|);
      assert Counts(after) == Counts(index)[user := |after[user]|];
      assert (index[user] - {path}).Keys == index[user].Keys - {path};
    }
  }

  lemma EmptiedCounts(index: Index)
    ensures Records(Emptied(index)) == 0 && Emptied(index).Keys == index.Keys
  {
    SumOfZeros(Counts(Emptied(index)));
  }

  // ---------- Runs ----------

  datatype Op =
    | Write(user: int, path: string, info: FileInfo)
    | Delete(user: int, path: string)
    | Report

  /** The index, and how many records the summaries of the reports so far have counted. */
  datatype Store = Store(index: Index, reported: int)

  ghost function Flushed(s: Store): Store {
    Store(Emptied(s.index), s.reported + Records(s.index))
  }

  ghost function Step(s: Store, op: Op): Store {
    match op
    case Write(user, path, info) =>
      var next := s.(index := Recorded(s.index, user, path, info));
      if Full(next.index) then Flushed(next) else next
    case Delete(user, path) => s.(index := Deleted(s.index, user, path))
    case Report => Flushed(s)
  }

  ghost function Run(ops: seq<Op>): Store {
    if ops == [] then Store(map[], 0) else Step(Run(ops[..|ops| - 1]), ops[|ops| - 1])
  }

  /** Writes of a file not recorded at the time, less deletions of a file recorded at the time. */
  ghost function NetWrites(ops: seq<Op>): int {
    if ops == [] then 0 else
    var before := Run(ops[..|ops| - 1]).index;
    NetWrites(ops[..|ops| - 1]) +
    match ops[|ops| - 1]
    case Write(user, path, _) => if path in FilesOf(before, user) then 0 else 1
    case Delete(user, path) => if path in FilesOf(before, user) then -1 else 0
    case Report => 0
  }

  /** The index stays below the report threshold, or is empty of records. */
  ghost predicate Bounded(index: Index) { !Full(index) || Records(index) == 0 }

  lemma StepStaysBounded(s: Store, op: Op)
    requires Bounded(s.index)
    ensures Bounded(Step(s, op).index)
  {
    match op
    case Write(user, path, info) => EmptiedCounts(Recorded(s.index, user, path, info));
    case Delete(user, path) =>
      DeletedCounts(s.index, user, path);
      RecordsAreNatural(Deleted(s.index, user, path));
      assert |Deleted(s.index, user, path).Keys| == |s.index.Keys|;
    case Report => EmptiedCounts(s.index);
  }

  lemma {:induction false} RunsStayBounded(ops: seq<Op>)
    ensures Bounded(Run(ops).index)
    decreases |ops|
  {
    if ops == [] {
      assert Counts(map[]) == map[];
    } else {
      RunsStayBounded(ops[..|ops| - 1]);
      StepStaysBounded(Run(ops[..|ops| - 1]), ops[|ops| - 1]);
    }
  }

  /** The records counted in reports and those still held add up to the net writes. */
  lemma {:induction false} RecordsAreConserved(ops: seq<Op>)
    ensures Run(ops).reported + Records(Run(ops).index) == NetWrites(ops)
    decreases |ops|
  {
    if ops == [] {
      assert Counts(map[]) == map[];
    } else {
      var before := Run(ops[..|ops| - 1]);
      RecordsAreConserved(ops[..|ops| - 1]);
      match ops[|ops| - 1]
      case Write(user, path, info) =>
        RecordedCounts(before.index, user, path, info);
        EmptiedCounts(Recorded(before.index, user, path, info));
      case Delete(user, path) => DeletedCounts(before.index, user, path);
      case Report => EmptiedCounts(before.index);
    }
  }

  /** Users are never forgotten, so with 99 of them every further write reports at once. */
  lemma ManyUsersReportEveryWrite(s: Store, user: int, path: string, info: FileInfo)
    requires |s.index| >= 99
    ensures var next := Step(s, Write(user, path, info));
            && Records(next.index) == 0
            && next.reported == s.reported + Records(s.index) + (if path in FilesOf(s.index, user) then 0 else 1)
            && |next.index| >= 99
  {
    var written := Recorded(s.index, user, path, info);
    RecordedCounts(s.index, user, path, info);
    RecordsAreNatural(s.index);
    assert written.Keys == s.index.Keys + {user};
    assert |written.Keys| >= |s.index.Keys|;
    if path in FilesOf(s.index, user) {
      SumIsNatural(Counts(s.index));
      assert Counts(s.index)[user] == |s.index[user]| >= 1 by { assert path in s.index[user]; }
    }
    EmptiedCounts(written);
    assert |Emptied(written).Keys| == |written.Keys|;
  }
}
