/**
 The classes of utils/src/avsession_storage_event.cpp. File sizes, directory listings and the clock
 are handed in; what EmitStorageEvent writes is appended to `emitted`.
 */
module Storage {
  import opened MapSums
  import opened Sequences
  import opened StorageReport
  import opened StorageSpec
  import opened UserSets

  /** What the file system answers: the users and files it lists, and the sizes stat gives. */
  datatype Disk = Disk(users: set<int>, files: map<int, set<string>>, sizes: map<string, int>) {
    /** GetFileSizeBytes: a file that cannot be examined counts as empty. */
    function Size(path: string): int {
      if path in sizes then sizes[path] else 0
    }

    function FilesFor(user: int): set<string> {
      if user in files then files[user] else {}
    }
  }

  // ---------- Classifying paths ----------

  predicate HasAt(s: string, part: string, i: nat) {
    i + |part| <= |s| && s[i..i + |part|] == part
  }

  predicate Contains(s: string, part: string) {
    exists i :: 0 <= i <= |s| && HasAt(s, part, i)
  }

  /** The part of a path after its last slash. */
  function BaseName(path: string): string {
    if path == [] then []
    else if path[|path| - 1] == '/' then []
    else BaseName(path[..|path| - 1]) + [path[|path| - 1]]
  }

  predicate Counted(path: string) { Contains(path, ".image.dat") }

  predicate InCache(path: string) { Contains(path, "/cache/") }

  predicate IsCast(path: string) { HasAt(BaseName(path), "cast_", 0) }

  /** The classes of a user's files: all that are counted, and the three they fall into. */
  datatype Kind = Total | Local | Cast | History {
    predicate Has(path: string) {
      && Counted(path)
      && match this
         case Total => true
         case Local => InCache(path) && !IsCast(path)
         case Cast => InCache(path) && IsCast(path)
         case History => !InCache(path)
    }

    function Among(paths: set<string>): set<string> {
      set p | p in paths && Has(p)
    }
  }

  function SizesOf(paths: set<string>, disk: Disk): map<string, int> {
    map p | p in paths :: disk.Size(p)
  }

  /** A count and a size are those of a set of files. */
  ghost predicate IsMeasure(count: int, size: int, paths: set<string>, disk: Disk) {
    count == |paths| && size == Sum(SizesOf(paths, disk))
  }

  ghost predicate Measures(stats: Statistics, paths: set<string>, disk: Disk) {
    && IsMeasure(stats.totalCount, stats.totalSize, Total.Among(paths), disk)
    && IsMeasure(stats.localCount, stats.localSize, Local.Among(paths), disk)
    && IsMeasure(stats.castCount, stats.castSize, Cast.Among(paths), disk)
    && IsMeasure(stats.historyCount, stats.historySize, History.Among(paths), disk)
  }

  lemma MeasureGrows(count: int, size: int, kind: Kind, seen: set<string>, path: string, disk: Disk)
    requires path !in seen && IsMeasure(count, size, kind.Among(seen), disk)
    ensures kind.Has(path) ==> IsMeasure(count + 1, size + disk.Size(path), kind.Among(seen + {path}), disk)
    ensures !kind.Has(path) ==> IsMeasure(count, size, kind.Among(seen + {path}), disk)
  {
    hide Kind.Has;
    if kind.Has(path) {
      assert kind.Among(seen + {path}) == kind.Among(seen) + {path};
      PutIn(SizesOf(kind.Among(seen), disk), path, disk.Size(path));
      assert SizesOf(kind.Among(seen + {path}), disk) == SizesOf(kind.Among(seen), disk)[path := disk.Size(path)];
    } else {
      assert kind.Among(seen + {path}) == kind.Among(seen);
    }
  }

  /** The body of the scan loop for one file. */
  function AddFile(stats: Statistics, path: string, size: int): Statistics {
    if !Counted(path) then stats else
    var stats := stats.(totalCount := stats.totalCount + 1, totalSize := stats.totalSize + size);
    if InCache(path) && IsCast(path) then
      stats.(castCount := stats.castCount + 1, castSize := stats.castSize + size)
    else if InCache(path) then
      stats.(localCount := stats.localCount + 1, localSize := stats.localSize + size)
    else
      stats.(historyCount := stats.historyCount + 1, historySize := stats.historySize + size)
  }

  lemma MeasuresStart(disk: Disk)
    ensures Measures(NO_STATISTICS, {}, disk)
  {
    forall kind: Kind
      ensures kind.Among({}) == {}
    {
    }
    assert SizesOf({}, disk) == map[];
  }

  lemma MeasuresGrow(stats: Statistics, seen: set<string>, path: string, disk: Disk)
    requires Measures(stats, seen, disk) && path !in seen
    ensures Measures(AddFile(stats, path, disk.Size(path)), seen + {path}, disk)
  {
    hide IsMeasure, Kind.Among, Counted, InCache, IsCast;
    MeasureGrows(stats.totalCount, stats.totalSize, Total, seen, path, disk);
    MeasureGrows(stats.localCount, stats.localSize, Local, seen, path, disk);
    MeasureGrows(stats.castCount, stats.castSize, Cast, seen, path, disk);
    MeasureGrows(stats.historyCount, stats.historySize, History, seen, path, disk);
  }

  /** The three classes partition the total, in number and in size. */
  lemma {:induction false} ClassesPartitionTheTotal(stats: Statistics, paths: set<string>, disk: Disk)
    requires Measures(stats, paths, disk)
    ensures stats.localCount + stats.castCount + stats.historyCount == stats.totalCount
    ensures stats.localSize + stats.castSize + stats.historySize == stats.totalSize
  {
    hide Counted, InCache, IsCast;
    assert Total.Among(paths) == Local.Among(paths) + Cast.Among(paths) + History.Among(paths);
    SumOfUnion(Local.Among(paths), Cast.Among(paths), disk);
    SumOfUnion(Local.Among(paths) + Cast.Among(paths), History.Among(paths), disk);
  }

  lemma {:induction false} SumOfUnion(a: set<string>, b: set<string>, disk: Disk)
    requires a !! b
    ensures Sum(SizesOf(a + b, disk)) == Sum(SizesOf(a, disk)) + Sum(SizesOf(b, disk))
    decreases |b|
  {
    if b == {} {
      assert a + b == a && SizesOf(b, disk) == map[];
    } else {
      var p :| p in b;
      SumOfUnion(a, b - {p}, disk);
      TakeOut(SizesOf(b, disk), p);
      TakeOut(SizesOf(a + b, disk), p);
      assert SizesOf(b, disk) - {p} == SizesOf(b - {p}, disk);
      assert SizesOf(a + b, disk) - {p} == SizesOf(a + (b - {p}), disk);
    }
  }

  // ---------- StorageUserData ----------

  class StorageUserData {
    var fileInfoMap: Files

    constructor ()
      ensures fileInfoMap == map[]
    {
      fileInfoMap := map[];
    }

    method AddFileInfo(fileName: string, info: FileInfo)
      modifies this
      ensures fileInfoMap == old(fileInfoMap)[fileName := info]
    {
      fileInfoMap := fileInfoMap[fileName := info];
    }

    method RemoveFileInfo(fileName: string)
      modifies this
      ensures fileInfoMap == old(fileInfoMap) - {fileName}
    {
      fileInfoMap := fileInfoMap - {fileName};
    }

    method ClearFileInfo()
      modifies this
      ensures fileInfoMap == map[]
    {
      fileInfoMap := map[];
    }

    method GetTotalStorageBytes() returns (total: int)
      ensures total == Bytes(fileInfoMap)
    {
      hide Walking;
      ghost var sizes, seen := Sizes(fileInfoMap), {};
      WalkStarts(sizes);
      total := 0;
      var rest := fileInfoMap.Keys;
      assert rest == sizes.Keys;
      while rest != {}
        invariant Walking(sizes, seen, rest, total)
        decreases |rest|
      {
        var path :| path in rest;
        WalkGoesOn(sizes, seen, rest, total, path);
        total := total + fileInfoMap[path].fileSize;
        seen, rest := seen + {path}, rest - {path};
      }
      WalkEnds(sizes, seen, total);
    }

    /** Appends the user's files, in whatever order the map is walked, until the list has maxCount entries. */
    method AppendFileInfoStrings(bundleNames: seq<Line>, maxCount: nat) returns (r: seq<Line>, ghost listing: seq<Line>)
      ensures Lists(fileInfoMap, listing)
      ensures r == bundleNames + Cut(listing, maxCount - |bundleNames|)
    {
      r := bundleNames;
      ghost var done: seq<Line> := [];
      var rest := fileInfoMap.Keys;
      while rest != {} && |r| < maxCount
        invariant rest <= fileInfoMap.Keys
        invariant Lists(fileInfoMap - rest, done)
        invariant r == bundleNames + done && (done == [] || |r| <= maxCount)
        decreases |rest|
      {
        var path :| path in rest;
        var line := File(path, fileInfoMap[path]);
        OneMore(fileInfoMap, rest, path, done);
        r := r + [line];
        done := done + [line];
        rest := rest - {path};
      }
      listing := Complete(fileInfoMap, rest, done);
      assert listing[..|done|] == done;
    }
  }

  lemma OneMore(files: Files, rest: set<string>, path: string, listing: seq<Line>)
    requires rest <= files.Keys && path in rest && Lists(files - rest, listing)
    ensures Lists(files - (rest - {path}), listing + [File(path, files[path])])
  {
    assert (files - (rest - {path})).Keys == (files - rest).Keys + {path};
  }

  /** A listing of some of the files extends to one of all of them. */
  ghost method Complete(files: Files, rest: set<string>, listing: seq<Line>) returns (all: seq<Line>)
    requires rest <= files.Keys && Lists(files - rest, listing)
    ensures Lists(files, all) && listing <= all && (rest == {} ==> all == listing)
    decreases |rest|
  {
    if rest == {} {
      assert files - rest == files;
      all := listing;
    } else {
      var path :| path in rest;
      OneMore(files, rest, path, listing);
      all := Complete(files, rest - {path}, listing + [File(path, files[path])]);
    }
  }

  // ---------- AVSessionStorageEvent ----------

  class AVSessionStorageEvent {
    var storageUserDataMap: map<int, StorageUserData>
    /** The events written by EmitStorageEvent so far. */
    var emitted: seq<seq<Line>>

    /** Each user has an object of its own. */
    ghost predicate Valid()
      reads `storageUserDataMap
    {
      forall u, w :: u in storageUserDataMap && w in storageUserDataMap && u != w ==>
        storageUserDataMap[u] != storageUserDataMap[w]
    }

    ghost function Index(): Index
      reads `storageUserDataMap, storageUserDataMap.Values
    {
      map u | u in storageUserDataMap :: storageUserDataMap[u].fileInfoMap
    }

    constructor ()
      ensures Valid() && Index() == map[] && emitted == [] && storageUserDataMap == map[]
    {
      storageUserDataMap, emitted := map[], [];
    }

    method GetOrCreateStorageUserData(userId: int) returns (userData: StorageUserData)
      requires Valid()
      modifies this`storageUserDataMap
      ensures Valid() && fresh(storageUserDataMap.Values - old(storageUserDataMap.Values))
      ensures userId in storageUserDataMap && storageUserDataMap[userId] == userData
      ensures Index() == old(Index())[userId := FilesOf(old(Index()), userId)]
    {
      if userId in storageUserDataMap {
        userData := storageUserDataMap[userId];
      } else {
        userData := new StorageUserData();
        assert forall u :: u in storageUserDataMap ==> storageUserDataMap[u] in storageUserDataMap.Values;
        storageUserDataMap := storageUserDataMap[userId := userData];
      }
    }

    /** The first half of RecordFileWrite. */
    method StoreFile(fileName: string, info: FileInfo, userId: int)
      requires Valid()
      modifies this`storageUserDataMap, storageUserDataMap.Values
      ensures Valid() && fresh(storageUserDataMap.Values - old(storageUserDataMap.Values))
      ensures Index() == Recorded(old(Index()), userId, fileName, info)
    {
      var userData := GetOrCreateStorageUserData(userId);
      assert userData in storageUserDataMap.Values;
      ghost var before := Index();
      userData.AddFileInfo(fileName, info);
      IndexChangedAt(before, userId);
    }

    /** When only one user's object has changed, the index has changed only there. */
    lemma IndexChangedAt(before: Index, userId: int)
      requires userId in storageUserDataMap && before.Keys == storageUserDataMap.Keys
      requires forall u :: u in storageUserDataMap && u != userId ==> storageUserDataMap[u].fileInfoMap == before[u]
      ensures Index() == before[userId := storageUserDataMap[userId].fileInfoMap]
    {
      var after := before[userId := storageUserDataMap[userId].fileInfoMap];
      assert Index().Keys == after.Keys;
      forall u | u in Index()
        ensures Index()[u] == after[u]
      {
      }
    }

    lemma IndexSize()
      ensures |Index()| == |storageUserDataMap|
    {
      assert Index().Keys == storageUserDataMap.Keys;
      assert |Index().Keys| == |Index()| && |storageUserDataMap.Keys| == |storageUserDataMap|;
    }

    lemma CountsOfObjects()
      ensures Counts(Index()).Keys == storageUserDataMap.Keys
      ensures forall u :: u in storageUserDataMap ==> Counts(Index())[u] == |storageUserDataMap[u].fileInfoMap|
    {
    }

    method CountRecords() returns (total: int)
      ensures total == Records(Index())
    {
      hide Walking, Index, Counts;
      ghost var counts, seen := Counts(Index()), {};
      CountsOfObjects();
      WalkStarts(counts);
      total := 0;
      var rest := storageUserDataMap.Keys;
      while rest != {}
        invariant Walking(counts, seen, rest, total)
        decreases |rest|
      {
        var u := SomeUser(rest);
        WalkGoesOn(counts, seen, rest, total, u);
        total := total + |storageUserDataMap[u].fileInfoMap|;
        seen, rest := seen + {u}, rest - {u};
      }
      WalkEnds(counts, seen, total);
    }

    method RecordFileWrite(fileName: string, bundleName: string, userId: int, now: int, disk: Disk)
      requires Valid()
      modifies this, storageUserDataMap.Values
      ensures Valid()
      ensures var info := FileInfo(bundleName, disk.Size(fileName), now);
              var written := Recorded(old(Index()), userId, fileName, info);
              && Index() == Step(Store(old(Index()), 0), Write(userId, fileName, info)).index
              && (!Full(written) ==> emitted == old(emitted))
              && (Full(written) ==> exists users, summaries, listings ::
                   && IsReport(written, disk, users, summaries, listings)
                   && emitted == old(emitted) + [Strings(summaries, listings)]
                   && Tells(Strings(summaries, listings), written, disk))
      ensures fresh(storageUserDataMap.Values - old(storageUserDataMap.Values))
    {
      hide Records, Recorded, IsReport, Strings, Index, Emptied, Valid, Tells;
      StoreFile(fileName, FileInfo(bundleName, disk.Size(fileName), now), userId);
      var total := CountRecords();
      IndexSize();
      if |storageUserDataMap| + total >= MAX_BUNDLE_NAMES {
        ghost var written := Index();
        ghost var users, summaries, listings := ReportStorageStatistics(disk);
        ReportTells(written, disk, users, summaries, listings);
      }
    }

    method RecordFileDelete(fileName: string, userId: int)
      requires Valid()
      modifies storageUserDataMap.Values
      ensures Valid() && Index() == Deleted(old(Index()), userId, fileName)
    {
      if userId !in storageUserDataMap {
        return;
      }
      assert storageUserDataMap[userId] in storageUserDataMap.Values;
      storageUserDataMap[userId].RemoveFileInfo(fileName);
      IndexChangedAt(old(Index()), userId);
    }

    /** The users of the disk, joined by those of the index one after the other. */
    method CollectAllUsers(disk: Disk) returns (allUsers: set<int>)
      ensures forall u :: u in allUsers <==> u in disk.users || u in Index()
    {
      allUsers := disk.users;
      var rest := storageUserDataMap.Keys;
      while rest != {}
        invariant rest <= storageUserDataMap.Keys
        invariant forall u :: u in allUsers <==> u in disk.users || (u in storageUserDataMap && u !in rest)
        decreases |rest|
      {
        var u := SomeUser(rest);
        allUsers, rest := allUsers + {u}, rest - {u};
      }
    }

    /** The files of a user are those of the index and those its directories hold. */
    method ScanStorageStatistics(userId: int, disk: Disk) returns (stats: Statistics)
      ensures Measures(stats, FilesOf(Index(), userId).Keys + disk.FilesFor(userId), disk)
      ensures stats.recordCount == stats.recordSize == 0
    {
      var allFiles := FilesToScan(userId, disk);
      stats := ScanFiles(allFiles, disk);
    }

    method FilesToScan(userId: int, disk: Disk) returns (allFiles: set<string>)
      ensures allFiles == FilesOf(Index(), userId).Keys + disk.FilesFor(userId)
    {
      allFiles := disk.FilesFor(userId);
      if userId in storageUserDataMap {
        allFiles := storageUserDataMap[userId].fileInfoMap.Keys + allFiles;
      }
    }

    /** The loop of the scan. */
    static method ScanFiles(allFiles: set<string>, disk: Disk) returns (stats: Statistics)
      ensures Measures(stats, allFiles, disk) && stats.recordCount == stats.recordSize == 0
    {
      hide Measures, AddFile, Counted;
      stats := NO_STATISTICS;
      var rest := allFiles;
      ghost var seen: set<string> := {};
      MeasuresStart(disk);
      assert Scanning(stats, seen, rest, allFiles, disk);
      hide Scanning;
      while rest != {}
        invariant Scanning(stats, seen, rest, allFiles, disk)
        decreases |rest|
      {
        var full :| full in rest;
        ScanningGoesOn(stats, seen, rest, allFiles, full, disk);
        stats := AddFile(stats, full, disk.Size(full));
        seen, rest := seen + {full}, rest - {full};
      }
      ScanningEnds(stats, seen, allFiles, disk);
    }

    /** The summary of one user. */
    method Summarised(userId: int, disk: Disk) returns (summary: Line)
      ensures summary.Summary? && summary.userId == userId
      ensures Measures(summary.stats, FilesOf(Index(), userId).Keys + disk.FilesFor(userId), disk)
      ensures summary.stats.recordCount == |FilesOf(Index(), userId)|
      ensures summary.stats.recordSize == Bytes(FilesOf(Index(), userId))
    {
      hide IsMeasure, Bytes;
      NothingHasNoBytes();
      var stats := ScanStorageStatistics(userId, disk);
      if userId in storageUserDataMap {
        var size := storageUserDataMap[userId].GetTotalStorageBytes();
        stats := stats.(recordCount := |storageUserDataMap[userId].fileInfoMap|, recordSize := size);
      }
      summary := Summary(userId, stats);
    }

    /** The first loop of a report: the users in ascending order and their summaries. */
    method SummariseUsers(all: set<int>, disk: Disk) returns (users: seq<int>, summaries: seq<Line>)
      ensures Ascending(users) && (forall u :: u in users <==> u in all) && |summaries| == |users|
      ensures Summarise(Index(), users, summaries) && MeasureAll(Index(), users, summaries, disk)
    {
      hide Measures, FilesOf, Bytes, Index, Summarise, MeasureAll;
      users, summaries := [], [];
      NoSummaries(Index(), disk);
      var rest := all;
      while rest != {}
        invariant AscendingWalk(users, rest, all) && |summaries| == |users|
        invariant Summarise(Index(), users, summaries) && MeasureAll(Index(), users, summaries, disk)
        decreases |rest|
      {
        var u := LeastUser(rest);
        AscendingGoesOn(users, rest, all, u);
        var summary := Summarised(u, disk);
        OneMoreSummary(Index(), users, summaries, disk, u, summary);
        users, summaries, rest := users + [u], summaries + [summary], rest - {u};
      }
    }

    /** The second loop of a report: files are appended while there are fewer than 100 strings. */
    method AppendFiles(users: seq<int>, summaries: seq<Line>) returns (lines: seq<Line>, ghost listings: seq<seq<Line>>)
      requires |users| == |summaries|
      ensures ListAll(Index(), users, listings)
      ensures lines == summaries + Cut(Flatten(listings), MAX_BUNDLE_NAMES - |summaries|)
    {
      hide Lists, Index, FilesOf, Cut;
      lines := summaries;
      ghost var done: seq<seq<Line>> := [];
      var i := 0;
      CutNothing<Line>(MAX_BUNDLE_NAMES - |summaries|);
      while i < |users| && |lines| < MAX_BUNDLE_NAMES
        invariant i <= |users| && ListAll(Index(), users[..i], done)
        invariant lines == summaries + Cut(Flatten(done), MAX_BUNDLE_NAMES - |summaries|)
      {
        ghost var listing;
        var more;
        more, listing := AppendFilesOf(users[i], lines);
        FlattenAppend(done, listing);
        CutConcat(Flatten(done), listing, MAX_BUNDLE_NAMES - |summaries|);
        assert lines == summaries + Flatten(done) by { CutShort(Flatten(done), MAX_BUNDLE_NAMES - |summaries|); }
        lines := more;
        done := done + [listing];
        assert done[..|done| - 1] == done[..i];
        i := i + 1;
      }
      assert users[..|users|] == users;
      listings := FinishListings(Index(), users, done, MAX_BUNDLE_NAMES - |summaries|);
    }

    method ClearAll()
      requires Valid()
      modifies storageUserDataMap.Values
      ensures Valid() && Index() == Emptied(old(Index()))
    {
      var rest := storageUserDataMap.Keys;
      while rest != {}
        invariant rest <= storageUserDataMap.Keys
        invariant forall u :: u in storageUserDataMap && u !in rest ==> storageUserDataMap[u].fileInfoMap == map[]
        decreases |rest|
      {
        var u := SomeUser(rest);
        assert storageUserDataMap[u] in storageUserDataMap.Values;
        storageUserDataMap[u].ClearFileInfo();
        rest := rest - {u};
      }
      EmptyIndex(old(Index()));
    }

    lemma EmptyIndex(before: Index)
      requires before.Keys == storageUserDataMap.Keys
      requires forall u :: u in storageUserDataMap ==> storageUserDataMap[u].fileInfoMap == map[]
      ensures Index() == Emptied(before)
    {
      assert Index().Keys == Emptied(before).Keys;
      forall u | u in Index()
        ensures Index()[u] == Emptied(before)[u]
      {
      }
    }

    method ReportStorageStatistics(disk: Disk)
      returns (ghost users: seq<int>, ghost summaries: seq<Line>, ghost listings: seq<seq<Line>>)
      requires Valid()
      modifies this`emitted, storageUserDataMap.Values
      ensures Valid() && Index() == Emptied(old(Index()))
      ensures IsReport(old(Index()), disk, users, summaries, listings)
      ensures emitted == old(emitted) + [Strings(summaries, listings)]
    {
      hide Cut, Lists, Measures, Bytes, Emptied, MeasureAll, Summarise, ListAll, FilesOf, Flatten;
      var allUsers := CollectAllUsers(disk);
      var perUser, lines := SummariseUsers(allUsers, disk);
      users, summaries := perUser, lines;
      lines, listings := AppendFiles(perUser, lines);
      if lines == [] {
        lines := [Summary(-1, NO_STATISTICS)];
      }
      emitted := emitted + [lines];
      ClearAll();
    }

    method AppendFilesOf(userId: int, lines: seq<Line>) returns (more: seq<Line>, ghost listing: seq<Line>)
      ensures Lists(FilesOf(Index(), userId), listing)
      ensures more == lines + Cut(listing, MAX_BUNDLE_NAMES - |lines|)
    {
      hide Cut;
      if userId in storageUserDataMap {
        more, listing := storageUserDataMap[userId].AppendFileInfoStrings(lines, MAX_BUNDLE_NAMES);
      } else {
        more, listing := lines, [];
        CutNothing<Line>(MAX_BUNDLE_NAMES - |lines|);
      }
    }
  }

  /** Listings of users the loop did not come to do not show in a list that is already full. */
  ghost method FinishListings(index: Index, users: seq<int>, done: seq<seq<Line>>, n: int) returns (all: seq<seq<Line>>)
    requires |done| <= |users| && ListAll(index, users[..|done|], done)
    requires |done| == |users| || |Cut(Flatten(done), n)| >= n
    ensures ListAll(index, users, all) && Cut(Flatten(all), n) == Cut(Flatten(done), n)
    decreases |users| - |done|
  {
    hide Lists, FilesOf, Cut;
    if |done| == |users| {
      assert users[..|users|] == users;
      all := done;
    } else {
      var listing := ListOf(FilesOf(index, users[|done|]));
      var next := done + [listing];
      assert next[..|done|] == done;
      FlattenAppend(done, listing);
      CutConcat(Flatten(done), listing, n);
      all := FinishListings(index, users, next, n);
    }
  }

  ghost method ListOf(files: Files) returns (listing: seq<Line>)
    ensures Lists(files, listing)
  {
    assert files - files.Keys == map[];
    listing := Complete(files, files.Keys, []);
  }

  // ---------- Ascending walks and cut lists ----------

  ghost predicate AscendingWalk(users: seq<int>, rest: set<int>, all: set<int>) {
    && Ascending(users)
    && (forall u :: u in all <==> u in users || u in rest)
    && (forall u, w :: u in users && w in rest ==> u < w)
  }

  lemma AscendingGoesOn(users: seq<int>, rest: set<int>, all: set<int>, u: int)
    requires AscendingWalk(users, rest, all) && u in rest && forall w :: w in rest ==> u <= w
    ensures AscendingWalk(users + [u], rest - {u}, all)
  {
    assert forall i :: 0 <= i < |users| ==> users[i] in users;
  }

  /** What the strings of a report of an index are made of. */
  ghost predicate IsReport(index: Index, disk: Disk, users: seq<int>, summaries: seq<Line>, listings: seq<seq<Line>>) {
    && Ascending(users) && (forall u :: u in users <==> u in disk.users || u in index)
    && Summarise(index, users, summaries) && MeasureAll(index, users, summaries, disk)
    && ListAll(index, users, listings)
  }

  /** An event counts all records of the index in its summaries and has lines for as many as there is room for. */
  ghost predicate Tells(event: seq<Line>, index: Index, disk: Disk) {
    && Records(index) >= 0
    && RecordCountIn(event) == Records(index)
    && FileLines(event) == FilesKept(|disk.users + index.Keys|, Records(index))
  }

  lemma NoSummaries(index: Index, disk: Disk)
    ensures Summarise(index, [], []) && MeasureAll(index, [], [], disk)
  {
  }

  lemma OneMoreSummary(index: Index, users: seq<int>, summaries: seq<Line>, disk: Disk, u: int, summary: Line)
    requires Summarise(index, users, summaries) && MeasureAll(index, users, summaries, disk)
    requires summary.Summary? && summary.userId == u
    requires summary.stats.recordCount == |FilesOf(index, u)| && summary.stats.recordSize == Bytes(FilesOf(index, u))
    requires Measures(summary.stats, FilesOf(index, u).Keys + disk.FilesFor(u), disk)
    ensures Summarise(index, users + [u], summaries + [summary])
    ensures MeasureAll(index, users + [u], summaries + [summary], disk)
  {
    hide Measures, FilesOf, Bytes;
  }

  lemma {:induction false} AscendingSize(users: seq<int>, all: set<int>)
    requires Ascending(users) && forall u :: u in users <==> u in all
    ensures |users| == |all|
    decreases |users|
  {
    if users == [] {
      assert forall u :: u in all ==> u in users;
      assert all == {};
    } else {
      var n := |users| - 1;
      assert users == users[..n] + [users[n]];
      assert users[n] in users && users[n] in all;
      AscendingSize(users[..n], all - {users[n]});
    }
  }

  lemma ReportTells(index: Index, disk: Disk, users: seq<int>, summaries: seq<Line>, listings: seq<seq<Line>>)
    requires IsReport(index, disk, users, summaries, listings)
    ensures Tells(Strings(summaries, listings), index, disk)
  {
    hide Records, Summarise, MeasureAll, ListAll, Strings, FilesKept, RecordCountIn, FileLines;
    AscendingSize(users, disk.users + index.Keys);
    ReportCounts(index, users, summaries, listings);
  }

  ghost predicate MeasureAll(index: Index, users: seq<int>, summaries: seq<Line>, disk: Disk) {
    && |summaries| == |users|
    && forall i :: 0 <= i < |users| ==>
         summaries[i].Summary?
         && Measures(summaries[i].stats, FilesOf(index, users[i]).Keys + disk.FilesFor(users[i]), disk)
  }

  /** A scan that has measured some of the files and has the rest ahead. */
  ghost predicate Scanning(stats: Statistics, seen: set<string>, rest: set<string>, all: set<string>, disk: Disk) {
    && seen !! rest && seen + rest == all
    && Measures(stats, seen, disk) && stats.recordCount == stats.recordSize == 0
  }

  lemma ScanningGoesOn(
    stats: Statistics, seen: set<string>, rest: set<string>, all: set<string>, path: string, disk: Disk)
    requires Scanning(stats, seen, rest, all, disk) && path in rest
    ensures Scanning(AddFile(stats, path, disk.Size(path)), seen + {path}, rest - {path}, all, disk)
  {
    hide Measures, AddFile;
    MeasuresGrow(stats, seen, path, disk);
    FileKeepsRecords(stats, path, disk.Size(path));
  }

  lemma FileKeepsRecords(stats: Statistics, path: string, size: int)
    ensures AddFile(stats, path, size).recordCount == stats.recordCount
    ensures AddFile(stats, path, size).recordSize == stats.recordSize
  {
    hide Counted, InCache, IsCast;
  }

  lemma ScanningEnds(stats: Statistics, seen: set<string>, all: set<string>, disk: Disk)
    requires Scanning(stats, seen, {}, all, disk)
    ensures Measures(stats, all, disk) && stats.recordCount == stats.recordSize == 0
  {
    assert seen == all;
  }

  // ---------- Runs ----------

  /** A call from outside, with the clock and the disk as it finds them. */
  datatype Call =
    | WriteCall(fileName: string, bundleName: string, userId: int, now: int, disk: Disk)
    | DeleteCall(fileName: string, userId: int)
    | ReportCall(disk: Disk)

  function OpOf(call: Call): Op {
    match call
    case WriteCall(fileName, bundleName, userId, now, disk) =>
      Write(userId, fileName, FileInfo(bundleName, disk.Size(fileName), now))
    case DeleteCall(fileName, userId) => Delete(userId, fileName)
    case ReportCall(_) => Report
  }

  function OpsOf(calls: seq<Call>): (ops: seq<Op>)
    ensures |ops| == |calls|
  {
    seq(|calls|, i requires 0 <= i < |calls| => OpOf(calls[i]))
  }

  /** The record counts of all summaries of all events. */
  function RecordCountOfAll(events: seq<seq<Line>>): int { RecordCountIn(Flatten(events)) }

  /** The file lines of all events. */
  function FileLinesOfAll(events: seq<seq<Line>>): nat { FileLines(Flatten(events)) }

  /** How many records a report of an index has no line for. */
  ghost function LostFrom(index: Index, disk: Disk): int {
    RecordsAreNatural(index);
    FilesLost(|disk.users + index.Keys|, Records(index))
  }

  /** How many records a call erases without a line. */
  ghost function LostBy(index: Index, call: Call): int {
    match call
    case WriteCall(fileName, bundleName, userId, now, disk) =>
      var written := Recorded(index, userId, fileName, FileInfo(bundleName, disk.Size(fileName), now));
      if Full(written) then LostFrom(written, disk) else 0
    case DeleteCall(_, _) => 0
    case ReportCall(disk) => LostFrom(index, disk)
  }

  /** The records that the reports of a run have erased without a line, report by report. */
  ghost function LostIn(calls: seq<Call>): int
    decreases |calls|
  {
    if calls == [] then 0 else
    var init := calls[..|calls| - 1];
    LostIn(init) + LostBy(Run(OpsOf(init)).index, calls[|calls| - 1])
  }

  lemma OneMoreEvent(events: seq<seq<Line>>, event: seq<Line>)
    ensures RecordCountOfAll(events + [event]) == RecordCountOfAll(events) + RecordCountIn(event)
    ensures FileLinesOfAll(events + [event]) == FileLinesOfAll(events) + FileLines(event)
  {
    FlattenAppend(events, event);
    CountsAdd(Flatten(events), event);
  }

  lemma OneMoreCall(calls: seq<Call>, i: nat)
    requires i < |calls|
    ensures Run(OpsOf(calls[..i + 1])) == Step(Run(OpsOf(calls[..i])), OpOf(calls[i]))
    ensures LostIn(calls[..i + 1]) == LostIn(calls[..i]) + LostBy(Run(OpsOf(calls[..i])).index, calls[i])
  {
    hide Step, LostBy;
    assert OpsOf(calls[..i + 1])[..i] == OpsOf(calls[..i]);
    assert calls[..i + 1][..i] == calls[..i];
  }

  /**
   The events emitted in a step tell of exactly the records that the step erases: all are counted, and all
   but those lost have a line.
   */
  lemma StepTells(s: Store, call: Call, emitted: seq<seq<Line>>, now: seq<seq<Line>>)
    requires s.reported == RecordCountOfAll(emitted)
    requires match call
             case WriteCall(fileName, bundleName, userId, time, disk) =>
               var written := Recorded(s.index, userId, fileName, FileInfo(bundleName, disk.Size(fileName), time));
               if Full(written) then (exists event :: Tells(event, written, disk) && now == emitted + [event])
               else now == emitted
             case DeleteCall(_, _) => now == emitted
             case ReportCall(disk) => exists event :: Tells(event, s.index, disk) && now == emitted + [event]
    ensures Step(s, OpOf(call)).reported == RecordCountOfAll(now)
    ensures FileLinesOfAll(now) + LostBy(s.index, call) ==
            FileLinesOfAll(emitted) + RecordCountOfAll(now) - RecordCountOfAll(emitted)
  {
    hide RecordCountOfAll, FileLinesOfAll, Records, Recorded, FilesKept, RecordCountIn, FileLines;
    match call
    case WriteCall(fileName, bundleName, userId, time, disk) =>
      var written := Recorded(s.index, userId, fileName, FileInfo(bundleName, disk.Size(fileName), time));
      if Full(written) {
        var event :| Tells(event, written, disk) && now == emitted + [event];
        OneMoreEvent(emitted, event);
      }
    case DeleteCall(_, _) =>
    case ReportCall(disk) =>
      var event :| Tells(event, s.index, disk) && now == emitted + [event];
      OneMoreEvent(emitted, event);
  }

  /**
   Any calls on a fresh index. The index is what the calls make of it, and the record counts of all
   emitted summaries, with the records still held, add up to the net writes. So do the file lines of all
   events, the records that each report had no line for, and those still held.
   */
  method Replay(calls: seq<Call>) returns (storage: AVSessionStorageEvent)
    ensures fresh(storage) && storage.Valid()
    ensures storage.Index() == Run(OpsOf(calls)).index && Bounded(storage.Index())
    ensures RecordCountOfAll(storage.emitted) + Records(storage.Index()) == NetWrites(OpsOf(calls))
    ensures FileLinesOfAll(storage.emitted) + LostIn(calls) + Records(storage.Index()) == NetWrites(OpsOf(calls))
  {
    hide Run, Step, Tells, RecordCountOfAll, FileLinesOfAll, LostIn, LostBy, Records, Bounded, NetWrites;
    storage := new AVSessionStorageEvent();
    NothingYet();
    for i := 0 to |calls|
      invariant fresh(storage) && storage.Valid() && fresh(storage.storageUserDataMap.Values)
      invariant storage.Index() == Run(OpsOf(calls[..i])).index
      invariant RecordCountOfAll(storage.emitted) == Run(OpsOf(calls[..i])).reported
      invariant FileLinesOfAll(storage.emitted) + LostIn(calls[..i]) == RecordCountOfAll(storage.emitted)
    {
      OneMoreCall(calls, i);
      ApplyCall(storage, calls[i], Run(OpsOf(calls[..i])));
    }
    assert calls[..|calls|] == calls;
    RunsStayBounded(OpsOf(calls));
    RecordsAreConserved(OpsOf(calls));
  }

  lemma NothingYet()
    ensures Run(OpsOf([])) == Store(map[], 0) && RecordCountOfAll([]) == FileLinesOfAll([]) == LostIn([]) == 0
  {
  }

  method ApplyCall(storage: AVSessionStorageEvent, call: Call, ghost s: Store)
    requires storage.Valid() && storage.Index() == s.index && RecordCountOfAll(storage.emitted) == s.reported
    modifies storage, storage.storageUserDataMap.Values
    ensures storage.Valid()
    ensures fresh(storage.storageUserDataMap.Values - old(storage.storageUserDataMap.Values))
    ensures storage.Index() == Step(s, OpOf(call)).index
    ensures RecordCountOfAll(storage.emitted) == Step(s, OpOf(call)).reported
    ensures FileLinesOfAll(storage.emitted) + LostBy(s.index, call) ==
            old(FileLinesOfAll(storage.emitted)) + RecordCountOfAll(storage.emitted) - s.reported
  {
    hide RecordCountOfAll, FileLinesOfAll, LostFrom, Records, Recorded, Full, Deleted, Emptied;
    hide IsReport, Tells, Strings;
    ghost var before := storage.emitted;
    match call
    case WriteCall(fileName, bundleName, userId, now, disk) =>
      storage.RecordFileWrite(fileName, bundleName, userId, now, disk);
      StepTells(s, call, before, storage.emitted);
    case DeleteCall(fileName, userId) =>
      storage.RecordFileDelete(fileName, userId);
    case ReportCall(disk) =>
      ghost var users, summaries, listings := storage.ReportStorageStatistics(disk);
      ReportTells(s.index, disk, users, summaries, listings);
      StepTells(s, call, before, storage.emitted);
  }
}
