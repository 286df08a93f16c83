/** What a storage report consists of, whatever order the hash maps are walked in. */
module StorageReport {
  import opened MapSums
  import opened Sequences
  import opened StorageSpec

  datatype Statistics = Statistics(
    totalCount: int, totalSize: int, localCount: int, localSize: int, castCount: int, castSize: int,
    historyCount: int, historySize: int, recordCount: int, recordSize: int)

  const NO_STATISTICS := Statistics(0, 0, 0, 0, 0, 0, 0, 0, 0, 0)

  /** One string of the event: a user's summary, or one recorded file. */
  datatype Line = Summary(userId: int, stats: Statistics) | File(path: string, info: FileInfo)

  /** A list of a user's files, each once, in some order. */
  ghost predicate Lists(files: Files, lines: seq<Line>) {
    && |lines| == |files|
    && (forall i :: 0 <= i < |lines| ==>
          lines[i].File? && lines[i].path in files && files[lines[i].path] == lines[i].info)
    && (forall i, j :: 0 <= i < j < |lines| ==> lines[i].path != lines[j].path)
  }

  predicate Ascending(users: seq<int>) {
    forall i, j :: 0 <= i < j < |users| ==> users[i] < users[j]
  }

  predicate Covers(users: seq<int>, index: Index) {
    forall u :: u in index ==> u in users
  }

  /** The summaries of the users, in order, carry the counts and sizes of their records. */
  ghost predicate Summarise(index: Index, users: seq<int>, summaries: seq<Line>) {
    && |summaries| == |users|
    && forall i :: 0 <= i < |users| ==>
         && summaries[i].Summary? && summaries[i].userId == users[i]
         && summaries[i].stats.recordCount == |FilesOf(index, users[i])|
         && summaries[i].stats.recordSize == Bytes(FilesOf(index, users[i]))
  }

  ghost predicate ListAll(index: Index, users: seq<int>, listings: seq<seq<Line>>) {
    && |listings| == |users|
    && forall i :: 0 <= i < |users| ==> Lists(FilesOf(index, users[i]), listings[i])
  }

  /** The strings of the event: all summaries, then as many files as fit below 100 strings. */
  function Strings(summaries: seq<Line>, listings: seq<seq<Line>>): seq<Line> {
    var all := summaries + Cut(Flatten(listings), MAX_BUNDLE_NAMES - |summaries|);
    if all == [] then [Summary(-1, NO_STATISTICS)] else all
  }

  // ---------- Adding up over the users ----------

  predicate OnlySummaries(lines: seq<Line>) { forall i :: 0 <= i < |lines| ==> lines[i].Summary? }

  function CountColumn(summaries: seq<Line>): int
    requires OnlySummaries(summaries)
  {
    if summaries == [] then 0 else
    CountColumn(summaries[..|summaries| - 1]) + summaries[|summaries| - 1].stats.recordCount
  }

  function SizeColumn(summaries: seq<Line>): int
    requires OnlySummaries(summaries)
  {
    if summaries == [] then 0 else
    SizeColumn(summaries[..|summaries| - 1]) + summaries[|summaries| - 1].stats.recordSize
  }

  lemma NothingHasNoBytes()
    ensures Bytes(map[]) == 0
  {
    assert Sizes(map[]) == map[];
  }

  lemma CountsWithoutUser(index: Index, user: int)
    requires user in index
    ensures Records(index) == |index[user]| + Records(index - {user})
  {
    TakeOut(Counts(index), user);
    assert Counts(index) - {user} == Counts(index - {user});
  }

  lemma BytesWithoutUser(index: Index, user: int)
    requires user in index
    ensures TotalBytes(index) == Bytes(index[user]) + TotalBytes(index - {user})
  {
    hide Bytes;
    TakeOut(UserBytes(index), user);
    assert UserBytes(index) - {user} == UserBytes(index - {user});
  }

  /** The index without one user adds up to that user's part less. */
  lemma WithoutUser(index: Index, user: int)
    ensures Records(index) == |FilesOf(index, user)| + Records(index - {user})
    ensures TotalBytes(index) == Bytes(FilesOf(index, user)) + TotalBytes(index - {user})
  {
    hide Records, TotalBytes, Bytes;
    if user in index {
      CountsWithoutUser(index, user);
      BytesWithoutUser(index, user);
    } else {
      assert index - {user} == index;
      NothingHasNoBytes();
    }
  }

  lemma LastUserOut(index: Index, users: seq<int>)
    requires users != [] && Ascending(users) && Covers(users, index)
    ensures var n := |users| - 1;
            && Ascending(users[..n]) && Covers(users[..n], index - {users[n]})
            && forall i :: 0 <= i < n ==> FilesOf(index - {users[n]}, users[i]) == FilesOf(index, users[i])
  {
    var n := |users| - 1;
    forall u | u in index && u != users[n]
      ensures u in users[..n]
    {
      var i :| 0 <= i < |users| && users[i] == u;
      assert users[..n][i] == u;
    }
  }

  lemma NoUsersNoRecords(index: Index, users: seq<int>)
    requires users == [] && Covers(users, index)
    ensures Records(index) == 0 && TotalBytes(index) == 0
  {
    assert forall u :: u in index ==> u in users;
    assert index == map[] && Counts(index) == map[] && UserBytes(index) == map[];
  }

  lemma {:induction false} SummariesAddUp(index: Index, users: seq<int>, summaries: seq<Line>)
    requires Ascending(users) && Covers(users, index) && Summarise(index, users, summaries)
    ensures CountColumn(summaries) == Records(index) && SizeColumn(summaries) == TotalBytes(index)
    decreases |users|
  {
    hide Records, TotalBytes, FilesOf, Covers, Bytes;
    if users == [] {
      NoUsersNoRecords(index, users);
    } else {
      var n := |users| - 1;
      LastUserOut(index, users);
      SummariesAddUp(index - {users[n]}, users[..n], summaries[..n]);
      WithoutUser(index, users[n]);
    }
  }

  /** Every record is in exactly one place of the listings. */
  lemma {:induction false} ListingsHoldEveryRecord(index: Index, users: seq<int>, listings: seq<seq<Line>>)
    requires Ascending(users) && Covers(users, index) && ListAll(index, users, listings)
    ensures |Flatten(listings)| == Records(index)
    decreases |users|
  {
    hide Records, TotalBytes, FilesOf, Covers;
    if users == [] {
      NoUsersNoRecords(index, users);
    } else {
      var n := |users| - 1;
      LastUserOut(index, users);
      ListingsHoldEveryRecord(index - {users[n]}, users[..n], listings[..n]);
      WithoutUser(index, users[n]);
      FlattenLast(listings);
    }
  }

  /**
   The event is never longer than 100 strings or one per user; it lists every record exactly when
   users and records together fit into 100 strings (or there are no records); otherwise it is cut.
   */
  lemma ReportIsCompleteWhenItFits(index: Index, users: seq<int>, summaries: seq<Line>, listings: seq<seq<Line>>)
    requires Ascending(users) && Covers(users, index)
    requires Summarise(index, users, summaries) && ListAll(index, users, listings)
    ensures 1 <= |Strings(summaries, listings)|
    ensures |Strings(summaries, listings)| <= if |users| > MAX_BUNDLE_NAMES then |users| else MAX_BUNDLE_NAMES
    ensures users != [] ==> (Strings(summaries, listings) == summaries + Flatten(listings) <==>
                             |users| + Records(index) <= MAX_BUNDLE_NAMES || Records(index) == 0)
    ensures |users| < MAX_BUNDLE_NAMES < |users| + Records(index) ==> |Strings(summaries, listings)| == MAX_BUNDLE_NAMES
  {
    ListingsHoldEveryRecord(index, users, listings);
    var files := Flatten(listings);
    var cut := Cut(files, MAX_BUNDLE_NAMES - |users|);
    if summaries + cut == summaries + files {
      assert cut == (summaries + cut)[|summaries|..] == (summaries + files)[|summaries|..] == files;
    }
  }

  /**
   An event begins with all summaries, goes on with the listings in order, and breaks off at 100 strings;
   without users it is one summary of nothing.
   */
  lemma StringsInOrder(summaries: seq<Line>, listings: seq<seq<Line>>)
    ensures var event, all := Strings(summaries, listings), summaries + Flatten(listings);
            && (all == [] ==> event == [Summary(-1, Statistics(0, 0, 0, 0, 0, 0, 0, 0, 0, 0))])
            && (all != [] && |all| <= 100 ==> event == all)
            && (|all| > 100 ==> event == all[..if |summaries| > 100 then |summaries| else 100])
  {
    var all := summaries + Flatten(listings);
    if |all| > 100 && |summaries| < 100 {
      assert all[..100] == summaries + Flatten(listings)[..100 - |summaries|];
    }
    if |all| > 100 && |summaries| >= 100 {
      assert all[..|summaries|] == summaries;
    }
  }

  // ---------- What an event says about the records ----------

  /** The record counts of the summaries among some strings. */
  function RecordCountIn(lines: seq<Line>): int {
    if lines == [] then 0 else (if lines[0].Summary? then lines[0].stats.recordCount else 0) + RecordCountIn(lines[1..])
  }

  /** The number of file lines among some strings. */
  function FileLines(lines: seq<Line>): nat {
    if lines == [] then 0 else (if lines[0].File? then 1 else 0) + FileLines(lines[1..])
  }

  lemma {:induction false} CountsAdd(s: seq<Line>, t: seq<Line>)
    ensures RecordCountIn(s + t) == RecordCountIn(s) + RecordCountIn(t)
    ensures FileLines(s + t) == FileLines(s) + FileLines(t)
    decreases |s|
  {
    if s == [] {
      assert s + t == t;
    } else {
      assert (s + t)[1..] == s[1..] + t;
      CountsAdd(s[1..], t);
    }
  }

  lemma {:induction false} CountsOfSummaries(summaries: seq<Line>)
    requires OnlySummaries(summaries)
    ensures RecordCountIn(summaries) == CountColumn(summaries) && FileLines(summaries) == 0
    decreases |summaries|
  {
    if summaries != [] {
      var init, last := summaries[..|summaries| - 1], summaries[|summaries| - 1];
      CountsOfSummaries(init);
      CountsAdd(init, [last]);
      assert summaries == init + [last] && [last][1..] == [];
    }
  }

  predicate OnlyFiles(lines: seq<Line>) { forall i :: 0 <= i < |lines| ==> lines[i].File? }

  lemma {:induction false} CountsOfFiles(lines: seq<Line>)
    requires OnlyFiles(lines)
    ensures RecordCountIn(lines) == 0 && FileLines(lines) == |lines|
  {
    if lines != [] { CountsOfFiles(lines[1..]); }
  }

  lemma {:induction false} ListingsAreFiles(listings: seq<seq<Line>>)
    requires forall i :: 0 <= i < |listings| ==> OnlyFiles(listings[i])
    ensures OnlyFiles(Flatten(listings))
    decreases |listings|
  {
    if listings != [] { ListingsAreFiles(listings[1..]); }
  }

  /** How many files a report of so many users has room for. */
  function FilesKept(users: nat, records: nat): nat {
    if users + records <= MAX_BUNDLE_NAMES then records
    else if users <= MAX_BUNDLE_NAMES then MAX_BUNDLE_NAMES - users
    else 0
  }

  /** Every record is counted in the summaries of its report, but only so many have a line in it. */
  lemma ReportCounts(index: Index, users: seq<int>, summaries: seq<Line>, listings: seq<seq<Line>>)
    requires Ascending(users) && Covers(users, index)
    requires Summarise(index, users, summaries) && ListAll(index, users, listings)
    ensures Records(index) >= 0
    ensures RecordCountIn(Strings(summaries, listings)) == Records(index)
    ensures FileLines(Strings(summaries, listings)) == FilesKept(|users|, Records(index))
  {
    hide Records, Covers, Ascending, CountColumn, RecordCountIn, FileLines, Bytes, FilesOf;
    var files := Flatten(listings);
    RecordsAreNatural(index);
    ListingsHoldEveryRecord(index, users, listings);
    SummariesAddUp(index, users, summaries);
    ListingsAreFiles(listings);
    CountsOfStrings(summaries, listings);
  }

  lemma CountsOfStrings(summaries: seq<Line>, listings: seq<seq<Line>>)
    requires OnlySummaries(summaries) && OnlyFiles(Flatten(listings))
    ensures RecordCountIn(Strings(summaries, listings)) == CountColumn(summaries)
    ensures FileLines(Strings(summaries, listings)) == FilesKept(|summaries|, |Flatten(listings)|)
  {
    hide CountColumn, RecordCountIn, FileLines, Flatten, Cut, OnlyFiles, OnlySummaries;
    var files := Flatten(listings);
    var cut := Cut(files, MAX_BUNDLE_NAMES - |summaries|);
    CutFiles(files, MAX_BUNDLE_NAMES - |summaries|);
    CountsOfSummaries(summaries);
    CountsOfFiles(cut);
    CountsAdd(summaries, cut);
    SameCounts(summaries + cut);
  }

  /** The lone summary of an event without users counts nothing. */
  lemma SameCounts(all: seq<Line>)
    ensures var strings := if all == [] then [Summary(-1, NO_STATISTICS)] else all;
            RecordCountIn(strings) == RecordCountIn(all) && FileLines(strings) == FileLines(all)
  {
    assert [Summary(-1, NO_STATISTICS)][1..] == [];
  }

  lemma CutFiles(files: seq<Line>, n: int)
    requires OnlyFiles(files)
    ensures OnlyFiles(Cut(files, n))
    ensures |Cut(files, n)| == if n >= |files| then |files| else if n <= 0 then 0 else n
  {
  }

  /** The number of recorded files that a report drops for good. */
  function FilesLost(users: nat, records: nat): nat { records - FilesKept(users, records) }

  lemma FilesLostExactly(users: nat, records: nat)
    ensures FilesLost(users, records) > 0 <==> records > 0 && users + records > MAX_BUNDLE_NAMES
    ensures FilesLost(users, records) ==
            if users + records <= MAX_BUNDLE_NAMES then 0
            else if users <= MAX_BUNDLE_NAMES then users + records - MAX_BUNDLE_NAMES
            else records
  {
  }

  /**
   The records of an index that have no line in their report, which erases them all: there are some exactly
   when users and records make more than 100, and then as many as are beyond, or all.
   */
  lemma LostBeyondTheLimit(index: Index, users: seq<int>, summaries: seq<Line>, listings: seq<seq<Line>>)
    requires Ascending(users) && Covers(users, index)
    requires Summarise(index, users, summaries) && ListAll(index, users, listings)
    ensures var lost := Records(index) - FileLines(Strings(summaries, listings));
            var all := |users| + Records(index);
            && (lost > 0 <==> Records(index) > 0 && all > MAX_BUNDLE_NAMES)
            && lost == if all <= MAX_BUNDLE_NAMES then 0
                       else if |users| <= MAX_BUNDLE_NAMES then all - MAX_BUNDLE_NAMES
                       else Records(index)
  {
    hide Records, Covers, Ascending, Summarise, ListAll, Strings, FileLines, RecordCountIn;
    ReportCounts(index, users, summaries, listings);
    FilesLostExactly(|users|, Records(index));
  }

  /** The users and records after a write, in terms of those before. */
  lemma WriteGrows(before: Index, user: int, path: string, info: FileInfo)
    ensures var written := Recorded(before, user, path, info);
            && written.Keys == before.Keys + {user}
            && |written| == |before| + (if user in before then 0 else 1)
            && Records(written) == Records(before) + (if path in FilesOf(before, user) then 0 else 1)
            && Records(written) >= 1
  {
    hide Records;
    var written := Recorded(before, user, path, info);
    RecordedCounts(before, user, path, info);
    RecordsAreNatural(before);
    OneRecordAtLeast(before, user, path);
    assert written.Keys == before.Keys + {user};
    assert |written| == |written.Keys| && |before| == |before.Keys|;
    if user in before { assert before.Keys + {user} == before.Keys; }
  }

  /**
   Any write, in terms of the index before it and the users of the disk: when it causes a report, when
   that report drops recorded files, and how many.
   */
  lemma WriteLosesExactly(before: Index, user: int, path: string, info: FileInfo, diskUsers: set<int>)
    ensures var written := Recorded(before, user, path, info);
            var users := |before| + (if user in before then 0 else 1);
            var all := |diskUsers + before.Keys + {user}|;
            var records := Records(before) + (if path in FilesOf(before, user) then 0 else 1);
            && records >= 1 && records == Records(written)
            && diskUsers + written.Keys == diskUsers + before.Keys + {user}
            && (Full(written) <==> users + records >= 100)
            && (FilesLost(all, records) > 0 <==> all + records > 100)
            && FilesLost(all, records) ==
               if all + records <= 100 then 0
               else if all <= 100 then all + records - 100
               else records
  {
    hide Records, Recorded, FilesLost;
    WriteGrows(before, user, path, info);
    FilesLostExactly(|diskUsers + before.Keys + {user}|, Records(Recorded(before, user, path, info)));
  }

  /**
   The write that fills an index, in terms of the index before it and the users of the disk. It leaves
   101 users and records when the writer is a new user and there were 99, and 100 otherwise. When the
   disk knows no further users, the report loses one file in the first case and none in the other.
   */
  lemma FillingWriteLoses(before: Index, user: int, path: string, info: FileInfo, diskUsers: set<int>)
    requires !Full(before) && Full(Recorded(before, user, path, info))
    ensures var written := Recorded(before, user, path, info);
            var beyond := user !in before && |before| + Records(before) == MAX_BUNDLE_NAMES - 1;
            && |written| + Records(written) == MAX_BUNDLE_NAMES + (if beyond then 1 else 0)
            && Records(written) >= 1
            && (diskUsers <= written.Keys ==>
                  FilesLost(|diskUsers + written.Keys|, Records(written)) == if beyond then 1 else 0)
  {
    hide Records, Recorded;
    var written := Recorded(before, user, path, info);
    WriteGrows(before, user, path, info);
    FilesLostExactly(|diskUsers + written.Keys|, Records(written));
    assert user !in before ==> FilesOf(before, user) == map[];
    if diskUsers <= written.Keys { assert diskUsers + written.Keys == written.Keys && |written.Keys| == |written|; }
  }

  lemma OneRecordAtLeast(index: Index, user: int, path: string)
    ensures path in FilesOf(index, user) ==> Records(index) >= 1
  {
    if path in FilesOf(index, user) {
      SumIsNatural(Counts(index));
      assert |index[user]| >= 1 by { assert path in index[user]; }
      assert Counts(index)[user] >= 1;
    }
  }
}
