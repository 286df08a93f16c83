/** Which class a file of the storage statistics belongs to, in terms of its directory and its name. */
module StoragePaths {
  import opened MapSums
  import opened Storage
  import opened StorageReport

  ghost predicate Within(path: string, part: string) { exists a, b: string :: path == a + part + b }

  predicate NoSlash(name: string) { forall i :: 0 <= i < |name| ==> name[i] != '/' }

  /** The last part of the path begins so. */
  ghost predicate NameBegins(path: string, prefix: string) {
    exists name: string :: NoSlash(name) && prefix <= name && EndsIn(path, name)
  }

  /** The path is this name, in some directory or by itself. */
  ghost predicate EndsIn(path: string, name: string) {
    path == name || exists dir: string :: path == dir + "/" + name
  }

  lemma ContainsExactly(path: string, part: string)
    ensures Contains(path, part) <==> Within(path, part)
  {
    if Contains(path, part) {
      var i :| 0 <= i <= |path| && HasAt(path, part, i);
      assert path == path[..i] + part + path[i + |part|..];
    }
    if Within(path, part) {
      var a, b :| path == a + part + b;
      assert path[|a|..|a| + |part|] == part;
      assert HasAt(path, part, |a|);
    }
  }

  lemma {:induction false} BaseNameInDirectory(dir: string, name: string)
    requires NoSlash(name)
    ensures BaseName(dir + "/" + name) == name && BaseName(name) == name
    decreases |name|
  {
    var path := dir + "/" + name;
    if name != [] {
      var n := |name| - 1;
      BaseNameInDirectory(dir, name[..n]);
      assert path[..|path| - 1] == dir + "/" + name[..n] && path[|path| - 1] == name[n];
      assert name == name[..n] + [name[n]];
    }
  }

  lemma BaseNameIsTheLastPart(path: string, name: string)
    requires NoSlash(name) && EndsIn(path, name)
    ensures BaseName(path) == name
  {
    if path == name {
      BaseNameInDirectory("", name);
    } else {
      var dir :| path == dir + "/" + name;
      BaseNameInDirectory(dir, name);
    }
  }

  lemma {:induction false} BaseNameEndsThePath(path: string)
    ensures NoSlash(BaseName(path)) && EndsIn(path, BaseName(path))
    decreases |path|
  {
    if path != [] {
      var init, last := path[..|path| - 1], path[|path| - 1];
      assert path == init + [last];
      if last == '/' {
        assert path == init + "/" + [];
      } else {
        BaseNameEndsThePath(init);
        if init != BaseName(init) {
          var dir :| init == dir + "/" + BaseName(init);
          assert path == dir + "/" + BaseName(path);
        }
      }
    }
  }

  lemma IsCastExactly(path: string)
    ensures IsCast(path) <==> NameBegins(path, "cast_")
  {
    hide EndsIn;
    BaseNameEndsThePath(path);
    assert IsCast(path) <==> "cast_" <= BaseName(path);
    if NameBegins(path, "cast_") {
      var name: string :| NoSlash(name) && "cast_" <= name && EndsIn(path, name);
      BaseNameIsTheLastPart(path, name);
    }
  }

  /**
   Files are counted that have ".image.dat" in their path: as cast if they are in the cache and their name
   begins with "cast_", as local if it does not, and as history outside the cache.
   */
  lemma ClassesExactly(path: string)
    ensures Total.Has(path) <==> Within(path, ".image.dat")
    ensures Cast.Has(path) <==>
            Within(path, ".image.dat") && Within(path, "/cache/") && NameBegins(path, "cast_")
    ensures Local.Has(path) <==>
            Within(path, ".image.dat") && Within(path, "/cache/") && !NameBegins(path, "cast_")
    ensures History.Has(path) <==> Within(path, ".image.dat") && !Within(path, "/cache/")
  {
    hide Within, NameBegins, Contains, IsCast;
    ContainsExactly(path, ".image.dat");
    ContainsExactly(path, "/cache/");
    IsCastExactly(path);
  }

  ghost function CastFiles(paths: set<string>): set<string> {
    set p | p in paths && Within(p, ".image.dat") && Within(p, "/cache/") && NameBegins(p, "cast_")
  }

  ghost function LocalFiles(paths: set<string>): set<string> {
    set p | p in paths && Within(p, ".image.dat") && Within(p, "/cache/") && !NameBegins(p, "cast_")
  }

  ghost function HistoryFiles(paths: set<string>): set<string> {
    set p | p in paths && Within(p, ".image.dat") && !Within(p, "/cache/")
  }

  /** What statistics that measure some files hold: the numbers of the files of each class, and their sizes. */
  lemma MeasuresExactly(stats: Statistics, paths: set<string>, disk: Disk)
    requires Measures(stats, paths, disk)
    ensures stats.castCount == |CastFiles(paths)|
    ensures stats.castSize == Sum(map p | p in CastFiles(paths) :: disk.Size(p))
    ensures stats.localCount == |LocalFiles(paths)|
    ensures stats.localSize == Sum(map p | p in LocalFiles(paths) :: disk.Size(p))
    ensures stats.historyCount == |HistoryFiles(paths)|
    ensures stats.historySize == Sum(map p | p in HistoryFiles(paths) :: disk.Size(p))
    ensures stats.totalCount == stats.castCount + stats.localCount + stats.historyCount
    ensures stats.totalSize == stats.castSize + stats.localSize + stats.historySize
  {
    hide Kind.Has, Within, NameBegins;
    forall p { ClassesExactly(p); }
    assert CastFiles(paths) == Cast.Among(paths);
    assert LocalFiles(paths) == Local.Among(paths);
    assert HistoryFiles(paths) == History.Among(paths);
    assert (map p | p in CastFiles(paths) :: disk.Size(p)) == SizesOf(CastFiles(paths), disk);
    assert (map p | p in LocalFiles(paths) :: disk.Size(p)) == SizesOf(LocalFiles(paths), disk);
    assert (map p | p in HistoryFiles(paths) :: disk.Size(p)) == SizesOf(HistoryFiles(paths), disk);
    ClassesPartitionTheTotal(stats, paths, disk);
  }

  /** A file that cannot be examined counts as empty, and a user without a directory has no files. */
  lemma DiskAnswers(disk: Disk, path: string, user: int)
    ensures disk.Size(path) == (if path in disk.sizes then disk.sizes[path] else 0)
    ensures disk.FilesFor(user) == (if user in disk.files then disk.files[user] else {})
  {
  }

  /** Two files of one directory of the cache: the one that begins with "cast_" is cast, the other local. */
  lemma TwoFilesOfTheCache(dir: string, id: string, size: int)
    requires NoSlash(id)
    ensures var path := dir + "/cache/cast_" + id + ".image.dat";
            AddFile(NO_STATISTICS, path, size) ==
            NO_STATISTICS.(totalCount := 1, totalSize := size, castCount := 1, castSize := size)
    ensures var path := dir + "/cache/" + id + ".image.dat";
            !("cast_" <= id + ".image.dat") ==>
              AddFile(NO_STATISTICS, path, size) ==
              NO_STATISTICS.(totalCount := 1, totalSize := size, localCount := 1, localSize := size)
  {
    hide Contains, BaseName;
    InCacheWithName(dir, "cast_" + id + ".image.dat");
    InCacheWithName(dir, id + ".image.dat");
    assert dir + "/cache/" + ("cast_" + id + ".image.dat") == dir + "/cache/cast_" + id + ".image.dat";
    assert dir + "/cache/" + (id + ".image.dat") == dir + "/cache/" + id + ".image.dat";
  }

  lemma InCacheWithName(dir: string, name: string)
    requires NoSlash(name) && |name| >= 10 && name[|name| - 10..] == ".image.dat"
    ensures var path := dir + "/cache/" + name;
            Counted(path) && InCache(path) && (IsCast(path) <==> "cast_" <= name)
  {
    hide Contains, BaseName;
    var path := dir + "/cache/" + name;
    assert path == (dir + "/cache") + "/" + name;
    BaseNameInDirectory(dir + "/cache", name);
    assert path == (dir + "/cache/" + name[..|name| - 10]) + ".image.dat" + [];
    ContainsExactly(path, ".image.dat");
    ContainsExactly(path, "/cache/");
  }
}
