/** The desktop script: the same pipeline as the command-line one, with a
    manual cache file, a two-phase scan that the user can stop, grouping by
    the raw tag artist, a per-artist prefix in place of random sampling, and
    a choice between copying (under a size cap) and linking. The widgets,
    the thread pool and the global stop flag are replaced by values: the
    moment the user presses stop is the parameter `cancel`. */
module Mp3SelectorGui {
  import opened Common
  import opened Snapshot
  import opened Cache
  import opened Grouping
  import opened Packing

  // ---------------------------------------------------------------- watermark

  /** `get_folder_modification_time`: the running maximum over the walk;
      an `.mp3` file whose mtime cannot be read is skipped, and any other
      failure makes the whole function return 0. */
  method FolderModificationTime(fs: FileSystem, folder: Path) returns (t: int)
    ensures t == Watermark(fs, folder).GetOr(0)
  {
    var walk := WalkOf(fs, folder);
    var latest := 0;
    for i := 0 to |walk|
      invariant DirsMax(fs, walk, 0) == DirsMax(fs, walk[i..], latest)
    {
      var d := walk[i];
      assert walk[i..][0] == d && walk[i..][1..] == walk[i + 1..];
      if d.root !in fs.mtime {
        return 0;
      }
      var folderTime := fs.mtime[d.root];
      if folderTime > latest {
        latest := folderTime;
      }
      ghost var start := latest;
      for j := 0 to |d.files|
        invariant FilesMax(fs, d.root, d.files, start) == FilesMax(fs, d.root, d.files[j..], latest)
      {
        var file := d.files[j];
        assert d.files[j..][0] == file && d.files[j..][1..] == d.files[j + 1..];
        if IsMp3Name(file, IgnoreCase) {
          var path := Join(d.root, file);
          if path in fs.mtime {
            var fileTime := fs.mtime[path];
            if fileTime > latest {
              latest := fileTime;
            }
          }
        }
      }
      assert d.files[|d.files|..] == [];
    }
    assert walk[|walk|..] == [];
    return latest;
  }

  /** The watermark as this script sees it: never a failure, 0 instead. */
  function FolderTime(fs: FileSystem, folder: Path): int {
    Watermark(fs, folder).GetOr(0)
  }

  // ---------------------------------------------------------------- cache

  /** `save_cache`: the folder, its watermark and the records, under the
      folder's cache-file name. */
  function SaveCache(store: CacheDir, cacheName: Path -> Path, fs: FileSystem, folder: Path, songs: seq<Song>): (r: CacheDir)
    ensures cacheName(folder) in r && r[cacheName(folder)] == Record(folder, FolderTime(fs, folder), songs)
    ensures forall p :: p in store && p != cacheName(folder) ==> p in r && r[p] == store[p]
  {
    store[cacheName(folder) := Record(folder, FolderTime(fs, folder), songs)]
  }

  /** The file `load_cache` opens: a non-empty manual path that exists,
      otherwise the folder's own cache file. */
  function CacheFileOf(store: CacheDir, cacheName: Path -> Path, folder: Path, manual: Path): Path {
    if manual != "" && manual in store then manual else cacheName(folder)
  }

  /** What `load_cache` returns. The folder and watermark checks run only
      when no manual path is given, and then a single missing path rejects
      the cache; with a manual path the surviving songs are returned. */
  function LoadSpec(store: CacheDir, cacheName: Path -> Path, fs: FileSystem, folder: Path, manual: Path): Option<seq<Song>> {
    var file := CacheFileOf(store, cacheName, folder, manual);
    if file !in store then None
    else match store[file]
      case Corrupt => None
      case Stored(f, modTime, songs) =>
        if manual == "" && (f != Some(folder) || FolderTime(fs, folder) > modTime.GetOr(0)) then None
        else
          var valid := KeepPresent(fs.present, songs.GetOr([]));
          if |valid| != |songs.GetOr([])| && manual == "" then None else Some(valid)
  }

  /** `load_cache(music_folder, manual_path)`. */
  method LoadCache(store: CacheDir, cacheName: Path -> Path, fs: FileSystem, folder: Path, manual: Path)
    returns (r: Option<seq<Song>>)
    ensures r == LoadSpec(store, cacheName, fs, folder, manual)
  {
    var file := cacheName(folder);
    if manual != "" && manual in store {
      file := manual;
    }
    if file !in store {
      return None;
    }
    var data := store[file];
    if data.Corrupt? {
      return None;
    }
    if manual == "" {
      if data.folder != Some(folder) {
        return None;
      }
      var current := FolderModificationTime(fs, folder);
      if current > data.folderModTime.GetOr(0) {
        return None;
      }
    }
    var songs := data.songs.GetOr([]);
    var valid := [];
    for i := 0 to |songs|
      invariant valid == KeepPresent(fs.present, songs[..i])
    {
      assert songs[..i + 1][..i] == songs[..i];
      if songs[i].path in fs.present {
        valid := valid + [songs[i]];
      }
    }
    assert songs[..|songs|] == songs;
    if |valid| != |songs| && manual == "" {
      return None;
    }
    return Some(valid);
  }

  /** Without a manual path the cache is accepted exactly when its file
      exists and parses, names the folder, is not older than the watermark
      and every stored path exists; the songs then come back unchanged. */
  lemma LoadAutomatic(store: CacheDir, cacheName: Path -> Path, fs: FileSystem, folder: Path, songs: seq<Song>)
    ensures var file := cacheName(folder);
      LoadSpec(store, cacheName, fs, folder, "") == Some(songs) <==>
        && file in store
        && store[file].Stored?
        && store[file].folder == Some(folder)
        && FolderTime(fs, folder) <= store[file].folderModTime.GetOr(0)
        && AllPresent(fs.present, store[file].songs.GetOr([]))
        && songs == store[file].songs.GetOr([])
  {
    var file := cacheName(folder);
    if file in store && store[file].Stored? {
      KeepPresentAll(fs.present, store[file].songs.GetOr([]));
    }
  }

  /** With an existing manual file the folder and the watermark are not
      looked at: the result is the stored songs whose files exist, in stored
      order. */
  lemma LoadManual(store: CacheDir, cacheName: Path -> Path, fs: FileSystem, folder: Path, manual: Path)
    requires manual != "" && manual in store && store[manual].Stored?
    ensures LoadSpec(store, cacheName, fs, folder, manual) ==
      Some(KeepPresent(fs.present, store[manual].songs.GetOr([])))
    ensures forall s :: s in LoadSpec(store, cacheName, fs, folder, manual).value <==>
      s in store[manual].songs.GetOr([]) && s.path in fs.present
  {
    var stored := store[manual].songs.GetOr([]);
    forall s | s in KeepPresent(fs.present, stored) ensures s in stored && s.path in fs.present {
      KeepPresentSource(fs.present, stored, s);
    }
    forall s | s in stored && s.path in fs.present ensures s in KeepPresent(fs.present, stored) {
      KeepPresentComplete(fs.present, stored, s);
    }
  }

  /** A manual path that does not exist falls back to the folder's own
      file, but the folder and watermark checks stay skipped and missing
      paths are still only filtered out. */
  lemma LoadManualMissing(store: CacheDir, cacheName: Path -> Path, fs: FileSystem, folder: Path, manual: Path)
    requires manual != "" && manual !in store
    ensures var file := cacheName(folder);
      LoadSpec(store, cacheName, fs, folder, manual) ==
        if file in store && store[file].Stored?
        then Some(KeepPresent(fs.present, store[file].songs.GetOr([])))
        else None
  {
  }

  /** When some walked directory cannot be stamped the watermark is 0, so
      any cache for the folder stamped at 0 or later is trusted. */
  lemma UnreadableFolderTrustsCache(store: CacheDir, cacheName: Path -> Path, fs: FileSystem, folder: Path)
    requires Watermark(fs, folder).None?
    requires cacheName(folder) in store && store[cacheName(folder)].Stored?
    requires store[cacheName(folder)].folder == Some(folder)
    requires store[cacheName(folder)].folderModTime.GetOr(0) >= 0
    requires AllPresent(fs.present, store[cacheName(folder)].songs.GetOr([]))
    ensures LoadSpec(store, cacheName, fs, folder, "") == Some(store[cacheName(folder)].songs.GetOr([]))
  {
    LoadAutomatic(store, cacheName, fs, folder, store[cacheName(folder)].songs.GetOr([]));
  }

  /** Saving and then loading automatically with nothing changed gives back
      exactly the saved songs when their files exist. */
  lemma CacheRoundTrip(store: CacheDir, cacheName: Path -> Path, fs: FileSystem, folder: Path, songs: seq<Song>)
    requires AllPresent(fs.present, songs)
    ensures LoadSpec(SaveCache(store, cacheName, fs, folder, songs), cacheName, fs, folder, "") == Some(songs)
  {
    LoadAutomatic(SaveCache(store, cacheName, fs, folder, songs), cacheName, fs, folder, songs);
  }

  // ---------------------------------------------------------------- stop flag

  /** When the user pressed stop, as the scan sees it: never; during the
      walk, once `checks` reads of the flag have come back clear (the flag is
      set by the end of the walk at the latest); or during the metadata
      phase, after `consumed` finished records were taken in. The flag is
      never cleared during a run. */
  datatype Cancel = Never | DuringScan(checks: nat) | DuringMetadata(consumed: nat)

  /** The value of the stop flag at its `t`-th read during the walk. */
  predicate StopSeen(cancel: Cancel, t: nat) {
    cancel.DuringScan? && t >= cancel.checks
  }

  /** The number of records phase 2 takes in before it stops. */
  function Consumed(cancel: Cancel, n: nat): (r: nat)
    ensures r <= n
    ensures cancel.DuringMetadata? ==> r == Min(cancel.consumed, n)
    ensures !cancel.DuringMetadata? ==> r == n
  {
    if cancel.DuringMetadata? && cancel.consumed < n then cancel.consumed else n
  }

  // ---------------------------------------------------------------- phase 1

  /** Phase 1 of `list_mp3_files_parallel`: collect the paths whose
      lower-cased name ends in `.mp3`, in walk order, reading the stop flag
      before each directory and each file; a stop seen at any point, or set
      by the end of the walk, gives []; a truthy `limit` cuts the list. */
  method CollectMp3Files(fs: FileSystem, folder: Path, limit: int, cancel: Cancel) returns (paths: seq<Path>)
    ensures cancel.DuringScan? ==> paths == []
    ensures !cancel.DuringScan? ==> paths == LimitTo(Mp3Paths(WalkOf(fs, folder), IgnoreCase), limit)
  {
    var walk := WalkOf(fs, folder);
    var mp3: seq<Path> := [];
    var checks := 0;
    for i := 0 to |walk|
      invariant !StopSeen(cancel, checks) ==> mp3 == Mp3Paths(walk[..i], IgnoreCase)
    {
      if StopSeen(cancel, checks) {
        break;
      }
      checks := checks + 1;
      var d := walk[i];
      ghost var before := mp3;
      assert walk[..i + 1][..i] == walk[..i];
      for j := 0 to |d.files|
        invariant !StopSeen(cancel, checks) ==> mp3 == before + DirMp3s(d.root, d.files[..j], IgnoreCase)
      {
        if StopSeen(cancel, checks) {
          break;
        }
        checks := checks + 1;
        var file := d.files[j];
        assert d.files[..j + 1][..j] == d.files[..j];
        if IsMp3Name(file, IgnoreCase) {
          mp3 := mp3 + [Join(d.root, file)];
        }
      }
      assert d.files[..|d.files|] == d.files;
    }
    assert walk[..|walk|] == walk;
    if cancel.DuringScan? {
      return [];
    }
    if limit != 0 {
      mp3 := SlicePrefix(mp3, limit);
    }
    return mp3;
  }

  /** File `j` of walk step `i` exists and has an `.mp3` name in any case. */
  predicate Mp3FileAt(walk: seq<Dir>, i: int, j: int) {
    0 <= i < |walk| && 0 <= j < |walk[i].files| && IsMp3Name(walk[i].files[j], IgnoreCase)
  }

  /** Without a stop, phase 1 keeps only `.mp3` names of the walk (in any
      letter case), is bounded by a positive `limit`, and with no limit
      misses none of them. */
  lemma CollectGuarantees(fs: FileSystem, folder: Path, limit: int)
    ensures var walk := WalkOf(fs, folder);
      var r := LimitTo(Mp3Paths(walk, IgnoreCase), limit);
      && (limit > 0 ==> |r| <= limit)
      && (forall p :: p in r ==>
            exists i, j :: Mp3FileAt(walk, i, j) && p == Join(walk[i].root, walk[i].files[j]))
      && (limit == 0 ==>
            forall i, j :: Mp3FileAt(walk, i, j) ==> Join(walk[i].root, walk[i].files[j]) in r)
  {
    var walk := WalkOf(fs, folder);
    var all := Mp3Paths(walk, IgnoreCase);
    var r := LimitTo(all, limit);
    forall p | p in r
      ensures exists i, j :: Mp3FileAt(walk, i, j) && p == Join(walk[i].root, walk[i].files[j])
    {
      var k :| 0 <= k < |r| && r[k] == p;
      assert all[k] == p;
      Mp3PathsSource(walk, IgnoreCase, p);
    }
    if limit == 0 {
      forall i, j | Mp3FileAt(walk, i, j)
        ensures Join(walk[i].root, walk[i].files[j]) in r
      {
        Mp3PathsCollects(walk, IgnoreCase, i, j);
      }
    }
  }

  // ---------------------------------------------------------------- phase 2

  /** The record phase 2 makes of one path: when the tags can be read and
      neither field is an empty list, the lower-cased artist and the title
      (with the `Unknown`/`Untitled` defaults for a missing field);
      otherwise the fixed `unknown`/`untitled` record. */
  function GuiRecord(fs: FileSystem, path: Path): (s: Song)
    ensures s.path == path
  {
    if path !in fs.tags then Song(path, "unknown", "untitled")
    else
      var artist := FirstValue(fs.tags[path].artist, "Unknown");
      var title := FirstValue(fs.tags[path].title, "Untitled");
      if artist.Some? && title.Some? then Song(path, Lower(artist.value), title.value)
      else Song(path, "unknown", "untitled")
  }

  /** The records of the collected paths, one per path, in path order. */
  function RecordsOf(fs: FileSystem, paths: seq<Path>): seq<Song> {
    seq(|paths|, i requires 0 <= i < |paths| => GuiRecord(fs, paths[i]))
  }

  /** Every record carries its own path, and its artist is lower case; a
      record whose tags cannot be read, or hold an empty list for a field,
      is the sentinel; a tag without artist or title gets the defaults. */
  lemma GuiRecordCases(fs: FileSystem, path: Path)
    ensures var s := GuiRecord(fs, path);
      && s.path == path
      && NoUpper(s.artist)
      && (path !in fs.tags ==> s == Song(path, "unknown", "untitled"))
      && (path in fs.tags && (fs.tags[path].artist == Some([]) || fs.tags[path].title == Some([])) ==>
            s == Song(path, "unknown", "untitled"))
      && (path in fs.tags && fs.tags[path] == Id3(None, None) ==> s == Song(path, "unknown", "Untitled"))
      && (path in fs.tags && fs.tags[path].artist.Some? && fs.tags[path].artist.value != [] &&
          fs.tags[path].title.Some? && fs.tags[path].title.value != [] ==>
            s == Song(path, Lower(fs.tags[path].artist.value[0]), fs.tags[path].title.value[0]))
  {
    LowerUnknown();
    var s := GuiRecord(fs, path);
    if s.artist != "unknown" {
      assert s.artist == Lower(fs.tags[path].artist.value[0]);
      LowerNoUpper(fs.tags[path].artist.value[0]);
    }
  }

  /** The paths of the records are the collected paths. */
  lemma RecordsPaths(fs: FileSystem, paths: seq<Path>)
    ensures PathsOf(RecordsOf(fs, paths)) == paths
  {
  }

  /** Phase 2: make the record of each collected path and take the finished
      records in until the stop flag is seen; records whose worker saw the
      flag are never taken in. The order in which workers finish is not
      modelled, so the contract speaks of the records as a multiset: a
      stop after `consumed` records leaves that many of them, and without a
      stop every path's record is taken in exactly once. */
  method ProcessMetadata(fs: FileSystem, paths: seq<Path>, cancel: Cancel) returns (records: seq<Song>)
    ensures multiset(records) <= multiset(RecordsOf(fs, paths))
    ensures |records| == Consumed(cancel, |paths|)
    ensures cancel.DuringMetadata? ==> |records| == Min(cancel.consumed, |paths|)
    ensures !cancel.DuringMetadata? ==> multiset(records) == multiset(RecordsOf(fs, paths))
    ensures forall s :: s in records ==> s.path in paths && s == GuiRecord(fs, s.path)
  {
    ghost var all := RecordsOf(fs, paths);
    records := [];
    var completed := 0;
    for i := 0 to |paths|
      invariant records == all[..i] && completed == i
      invariant i <= Consumed(cancel, |paths|)
    {
      if cancel.DuringMetadata? && completed >= cancel.consumed {
        break;
      }
      assert all[..i + 1] == all[..i] + [all[i]];
      records := records + [GuiRecord(fs, paths[i])];
      completed := completed + 1;
    }
    assert |records| == Consumed(cancel, |paths|);
    PrefixSubMultiset(all, |records|);
    assert !cancel.DuringMetadata? ==> records == all;
    forall s | s in records ensures s.path in paths && s == GuiRecord(fs, s.path) {
      var k :| 0 <= k < |records| && records[k] == s;
      assert s == all[k];
    }
  }

  lemma PrefixSubMultiset<T>(s: seq<T>, n: nat)
    requires n <= |s|
    ensures multiset(s[..n]) <= multiset(s)
  {
    assert s == s[..n] + s[n..];
  }

  /** What `list_mp3_files_parallel` may return: nothing after a stop during
      the walk; otherwise the records of the collected (and limited) paths,
      all of them without a stop and the first `consumed` to finish after a
      stop in phase 2. */
  ghost predicate ScanOutcome(fs: FileSystem, folder: Path, limit: int, cancel: Cancel, records: seq<Song>) {
    var collected := LimitTo(Mp3Paths(WalkOf(fs, folder), IgnoreCase), limit);
    if cancel.DuringScan? then records == []
    else
      && multiset(records) <= multiset(RecordsOf(fs, collected))
      && |records| == Consumed(cancel, |collected|)
      && (cancel.Never? ==> multiset(records) == multiset(RecordsOf(fs, collected)))
      && (forall s :: s in records ==> s.path in collected && s == GuiRecord(fs, s.path))
  }

  /** `list_mp3_files_parallel`: phase 1, then phase 2 on what it found. */
  method ListMp3FilesParallel(fs: FileSystem, folder: Path, limit: int, cancel: Cancel) returns (records: seq<Song>)
    ensures ScanOutcome(fs, folder, limit, cancel, records)
  {
    var paths := CollectMp3Files(fs, folder, limit, cancel);
    if paths == [] {
      return [];
    }
    records := ProcessMetadata(fs, paths, cancel);
  }

  // ---------------------------------------------------------------- cache or scan

  /** The cached songs `list_mp3_files_with_cache` uses: only when the cache
      is on and no rescan is forced, and only a non-empty list. */
  function CacheHit(store: CacheDir, cacheName: Path -> Path, fs: FileSystem, folder: Path, manual: Path,
                    useCache: bool, forceRescan: bool): Option<seq<Song>>
  {
    if !useCache || forceRescan then None
    else
      var cached := LoadSpec(store, cacheName, fs, folder, manual);
      if cached.Some? && cached.value != [] then cached else None
  }

  /** What a call of `list_mp3_files_with_cache` may do: on a hit, return
      the first `limit` cached paths and write nothing; otherwise scan,
      return the paths of the scanned records, and save those records when
      there are some and the cache or the cache-only mode is on. With
      `savesAfterStop` false a save also needs a run without a stop. */
  ghost predicate CachedScan(store: CacheDir, cacheName: Path -> Path, fs: FileSystem, folder: Path, limit: int,
                             useCache: bool, forceRescan: bool, onlyCache: bool, manual: Path, cancel: Cancel,
                             savesAfterStop: bool, paths: seq<Path>, store': CacheDir, records: seq<Song>)
  {
    var hit := CacheHit(store, cacheName, fs, folder, manual, useCache, forceRescan);
    if hit.Some? then paths == LimitTo(PathsOf(hit.value), limit) && store' == store
    else
      && ScanOutcome(fs, folder, limit, cancel, records)
      && paths == PathsOf(records)
      && store' == if records != [] && (useCache || onlyCache) && (savesAfterStop || cancel.Never?)
                   then SaveCache(store, cacheName, fs, folder, records) else store
  }

  /** `list_mp3_files_with_cache` as written: the scan is saved even when
      the user stopped it during the metadata phase. */
  method ListMp3FilesWithCache(store: CacheDir, cacheName: Path -> Path, fs: FileSystem, folder: Path, limit: int,
                               useCache: bool, forceRescan: bool, onlyCache: bool, manual: Path, cancel: Cancel)
    returns (paths: seq<Path>, store': CacheDir, records: seq<Song>)
    ensures CachedScan(store, cacheName, fs, folder, limit, useCache, forceRescan, onlyCache, manual, cancel,
                       true, paths, store', records)
  {
    records := [];
    if useCache && !forceRescan {
      var cached := LoadCache(store, cacheName, fs, folder, manual);
      if cached.Some? && cached.value != [] {
        paths := PathsOf(cached.value);
        if limit != 0 {
          paths := SlicePrefix(paths, limit);
        }
        return paths, store, records;
      }
    }
    records := ListMp3FilesParallel(fs, folder, limit, cancel);
    store' := store;
    if records != [] && (useCache || onlyCache) {
      store' := SaveCache(store, cacheName, fs, folder, records);
    }
    paths := PathsOf(records);
  }

  /** The same function with the save skipped after a stop. `start_process`
      answers a stop with the "Process interrupted by user." exception, so a
      stopped scan is a failed run, and its partial record list should not
      be written where the next run will accept it as the folder's cache. */
  method ListMp3FilesWithCacheCorrected(store: CacheDir, cacheName: Path -> Path, fs: FileSystem, folder: Path, limit: int,
                                        useCache: bool, forceRescan: bool, onlyCache: bool, manual: Path, cancel: Cancel)
    returns (paths: seq<Path>, store': CacheDir, records: seq<Song>)
    ensures CachedScan(store, cacheName, fs, folder, limit, useCache, forceRescan, onlyCache, manual, cancel,
                       false, paths, store', records)
  {
    records := [];
    if useCache && !forceRescan {
      var cached := LoadCache(store, cacheName, fs, folder, manual);
      if cached.Some? && cached.value != [] {
        paths := PathsOf(cached.value);
        if limit != 0 {
          paths := SlicePrefix(paths, limit);
        }
        return paths, store, records;
      }
    }
    records := ListMp3FilesParallel(fs, folder, limit, cancel);
    store' := store;
    if records != [] && (useCache || onlyCache) && cancel.Never? {
      store' := SaveCache(store, cacheName, fs, folder, records);
    }
    paths := PathsOf(records);
  }

  /** With the corrected save, a stopped run leaves the cache directory as
      it was, and whatever is saved holds the record of every collected
      path exactly once. */
  lemma CorrectedSaveIsComplete(store: CacheDir, cacheName: Path -> Path, fs: FileSystem, folder: Path, limit: int,
                                useCache: bool, forceRescan: bool, onlyCache: bool, manual: Path, cancel: Cancel,
                                paths: seq<Path>, store': CacheDir, records: seq<Song>)
    requires CachedScan(store, cacheName, fs, folder, limit, useCache, forceRescan, onlyCache, manual, cancel,
                        false, paths, store', records)
    ensures !cancel.Never? ==> store' == store
    ensures store' != store ==>
      store' == SaveCache(store, cacheName, fs, folder, records) &&
      multiset(records) == multiset(RecordsOf(fs, LimitTo(Mp3Paths(WalkOf(fs, folder), IgnoreCase), limit)))
  {
  }

  /** A music folder with two `.mp3` files, used to show the partial save. */
  function TwoSongs(): FileSystem {
    FileSystem(map["m" := [Dir("m", ["a.mp3", "b.mp3"])]],
               map["m" := 1, Join("m", "a.mp3") := 1, Join("m", "b.mp3") := 1],
               map[], {Join("m", "a.mp3"), Join("m", "b.mp3")}, map[])
  }

  lemma TwoSongsNames()
    ensures IsMp3Name("a.mp3", IgnoreCase) && IsMp3Name("b.mp3", IgnoreCase)
  {
  }

  lemma TwoSongsDir()
    ensures DirMp3s("m", ["a.mp3", "b.mp3"], IgnoreCase) == [Join("m", "a.mp3"), Join("m", "b.mp3")]
  {
    var files := ["a.mp3", "b.mp3"];
    TwoSongsNames();
    assert files[..1] == ["a.mp3"] && files[..1][..0] == [];
    assert DirMp3s("m", files[..1], IgnoreCase) == [Join("m", "a.mp3")];
  }

  lemma TwoSongsCollected()
    ensures Mp3Paths(WalkOf(TwoSongs(), "m"), IgnoreCase) == [Join("m", "a.mp3"), Join("m", "b.mp3")]
  {
    var d := Dir("m", ["a.mp3", "b.mp3"]);
    assert WalkOf(TwoSongs(), "m") == [d];
    TwoSongsDir();
    Mp3PathsSingle(d, IgnoreCase);
  }

  /** Stopping after one record came in leaves one record of an existing
      file. */
  lemma PartialOutcome(records: seq<Song>)
    requires ScanOutcome(TwoSongs(), "m", 0, DuringMetadata(1), records)
    ensures |records| == 1 && AllPresent(TwoSongs().present, records)
  {
    var fs := TwoSongs();
    var collected := [Join("m", "a.mp3"), Join("m", "b.mp3")];
    TwoSongsCollected();
    assert LimitTo(Mp3Paths(WalkOf(fs, "m"), IgnoreCase), 0) == collected;
    assert records[0] in records;
    assert records[0].path in collected;
  }

  /** As written, stopping after one of two records has come in saves a
      one-song cache, and the next automatic run on the unchanged folder
      accepts it although the folder holds two songs. */
  lemma PartialCacheAccepted(store: CacheDir, cacheName: Path -> Path, paths: seq<Path>, store': CacheDir, records: seq<Song>)
    requires CachedScan(store, cacheName, TwoSongs(), "m", 0, true, true, false, "", DuringMetadata(1),
                        true, paths, store', records)
    ensures |records| == 1
    ensures |RecordsOf(TwoSongs(), Mp3Paths(WalkOf(TwoSongs(), "m"), IgnoreCase))| == 2
    ensures store' == SaveCache(store, cacheName, TwoSongs(), "m", records)
    ensures LoadSpec(store', cacheName, TwoSongs(), "m", "") == Some(records)
  {
    TwoSongsCollected();
    PartialOutcome(records);
    CacheRoundTrip(store, cacheName, TwoSongs(), "m", records);
  }

  // ---------------------------------------------------------------- grouping

  /** `EasyID3(file)['artist'][0]`: the raw first artist, or `None` when the
      tags cannot be read, have no artist or an empty artist list. */
  function TagArtist(fs: FileSystem, path: Path): Option<string> {
    if path in fs.tags && fs.tags[path].artist.Some? && fs.tags[path].artist.value != []
    then Some(fs.tags[path].artist.value[0])
    else None
  }

  /** The (artist, path) pairs `group_by_artist` appends, in path order; a
      path without a readable artist adds none. */
  function ArtistPairs(fs: FileSystem, paths: seq<Path>): (r: seq<(string, Path)>)
    ensures |r| <= |paths|
  {
    if paths == [] then []
    else
      var n := |paths| - 1;
      ArtistPairs(fs, paths[..n]) + (if TagArtist(fs, paths[n]).Some? then [(TagArtist(fs, paths[n]).value, paths[n])] else [])
  }

  /** The paths whose artist can be read, in order. */
  function Tagged(fs: FileSystem, paths: seq<Path>): seq<Path> {
    if paths == [] then []
    else
      var n := |paths| - 1;
      Tagged(fs, paths[..n]) + (if TagArtist(fs, paths[n]).Some? then [paths[n]] else [])
  }

  /** The paths of one artist, in order: what its group must hold. */
  function PathsBy(fs: FileSystem, paths: seq<Path>, artist: string): seq<Path> {
    if paths == [] then []
    else
      var n := |paths| - 1;
      PathsBy(fs, paths[..n], artist) + (if TagArtist(fs, paths[n]) == Some(artist) then [paths[n]] else [])
  }

  /** `group_by_artist`: append each path to the list of its raw artist,
      skipping the paths whose artist cannot be read. */
  method GroupByArtist(fs: FileSystem, paths: seq<Path>) returns (g: Groups<Path>)
    ensures g == GroupSpec(ArtistPairs(fs, paths))
  {
    g := Groups([], map[]);
    for i := 0 to |paths|
      invariant g == GroupSpec(ArtistPairs(fs, paths[..i]))
    {
      assert paths[..i + 1][..i] == paths[..i];
      var artist := TagArtist(fs, paths[i]);
      ghost var pre := ArtistPairs(fs, paths[..i]);
      if artist.Some? {
        ghost var pairs := pre + [(artist.value, paths[i])];
        assert ArtistPairs(fs, paths[..i + 1]) == pairs;
        assert pairs[..|pairs| - 1] == pre;
        g := Insert(g, artist.value, paths[i]);
      } else {
        assert ArtistPairs(fs, paths[..i + 1]) == pre;
      }
    }
    assert paths[..|paths|] == paths;
  }

  lemma {:induction false} ValuesArtistPairs(fs: FileSystem, paths: seq<Path>)
    ensures Values(ArtistPairs(fs, paths)) == Tagged(fs, paths)
    decreases |paths|
  {
    if paths != [] {
      var n := |paths| - 1;
      ValuesArtistPairs(fs, paths[..n]);
      var pre := ArtistPairs(fs, paths[..n]);
      if TagArtist(fs, paths[n]).Some? {
        var pairs := pre + [(TagArtist(fs, paths[n]).value, paths[n])];
        assert ArtistPairs(fs, paths) == pairs;
        assert pairs[..|pairs| - 1] == pre;
      } else {
        assert ArtistPairs(fs, paths) == pre;
      }
    }
  }

  lemma {:induction false} ValuesForArtistPairs(fs: FileSystem, paths: seq<Path>, artist: string)
    ensures ValuesFor(ArtistPairs(fs, paths), artist) == PathsBy(fs, paths, artist)
    decreases |paths|
  {
    if paths != [] {
      var n := |paths| - 1;
      ValuesForArtistPairs(fs, paths[..n], artist);
      var pre := ArtistPairs(fs, paths[..n]);
      if TagArtist(fs, paths[n]).Some? {
        var pairs := pre + [(TagArtist(fs, paths[n]).value, paths[n])];
        assert ArtistPairs(fs, paths) == pairs;
        assert pairs[..|pairs| - 1] == pre;
      } else {
        assert ArtistPairs(fs, paths) == pre;
      }
    }
  }

  lemma ArtistPairsSource(fs: FileSystem, paths: seq<Path>, a: string)
    ensures (exists i :: 0 <= i < |ArtistPairs(fs, paths)| && ArtistPairs(fs, paths)[i].0 == a) <==>
      (exists i :: 0 <= i < |paths| && TagArtist(fs, paths[i]) == Some(a))
  {
    var pairs := ArtistPairs(fs, paths);
    if exists i :: 0 <= i < |pairs| && pairs[i].0 == a {
      var i :| 0 <= i < |pairs| && pairs[i].0 == a;
      ArtistPairsFrom(fs, paths, i);
    }
    if exists j :: 0 <= j < |paths| && TagArtist(fs, paths[j]) == Some(a) {
      var j :| 0 <= j < |paths| && TagArtist(fs, paths[j]) == Some(a);
      ArtistPairsCovers(fs, paths, j);
    }
  }

  /** Each pair's artist is the readable artist of some path. */
  lemma {:induction false} ArtistPairsFrom(fs: FileSystem, paths: seq<Path>, i: nat)
    requires i < |ArtistPairs(fs, paths)|
    ensures exists j :: 0 <= j < |paths| && TagArtist(fs, paths[j]) == Some(ArtistPairs(fs, paths)[i].0)
    decreases |paths|
  {
    var n := |paths| - 1;
    var pre := ArtistPairs(fs, paths[..n]);
    var a := ArtistPairs(fs, paths)[i].0;
    if i < |pre| {
      assert ArtistPairs(fs, paths)[i] == pre[i];
      ArtistPairsFrom(fs, paths[..n], i);
      var j :| 0 <= j < n && TagArtist(fs, paths[..n][j]) == Some(a);
      assert paths[..n][j] == paths[j];
    } else {
      assert TagArtist(fs, paths[n]) == Some(a);
    }
  }

  /** Each readable artist of a path is the artist of some pair. */
  lemma {:induction false} ArtistPairsCovers(fs: FileSystem, paths: seq<Path>, j: nat)
    requires j < |paths| && TagArtist(fs, paths[j]).Some?
    ensures exists i :: 0 <= i < |ArtistPairs(fs, paths)| && ArtistPairs(fs, paths)[i].0 == TagArtist(fs, paths[j]).value
    decreases |paths|
  {
    var n := |paths| - 1;
    var pre := ArtistPairs(fs, paths[..n]);
    var pairs := ArtistPairs(fs, paths);
    var a := TagArtist(fs, paths[j]).value;
    assert pairs[..|pre|] == pre;
    if j < n {
      assert paths[..n][j] == paths[j];
      ArtistPairsCovers(fs, paths[..n], j);
      var i :| 0 <= i < |pre| && pre[i].0 == a;
      assert pairs[i] == pre[i];
    } else {
      assert pairs[|pre|].0 == a;
    }
  }

  lemma {:induction false} PathsByMember(fs: FileSystem, paths: seq<Path>, artist: string, p: Path)
    ensures p in PathsBy(fs, paths, artist) <==> p in paths && TagArtist(fs, p) == Some(artist)
    decreases |paths|
  {
    if paths != [] {
      var n := |paths| - 1;
      PathsByMember(fs, paths[..n], artist, p);
      assert paths == paths[..n] + [paths[n]];
    }
  }

  /** The groups form a well-formed dict keyed by the raw artists that can
      be read; each group holds exactly that artist's paths in order; and
      the groups together are a permutation of the paths whose artist can be
      read, so an unreadable file is in no group. */
  lemma GroupByArtistSpec(fs: FileSystem, paths: seq<Path>)
    ensures var g := GroupSpec(ArtistPairs(fs, paths));
      && WellFormed(g)
      && (forall a :: a in g.members <==> exists i :: 0 <= i < |paths| && TagArtist(fs, paths[i]) == Some(a))
      && (forall a :: a in g.members ==> g.members[a] == PathsBy(fs, paths, a))
      && (forall a, p :: a in g.members && p in g.members[a] ==> TagArtist(fs, p) == Some(a))
      && multiset(Items(g)) == multiset(Tagged(fs, paths))
  {
    var pairs := ArtistPairs(fs, paths);
    var g := GroupSpec(pairs);
    GroupSpecWellFormed(pairs);
    forall a ensures a in g.members <==> exists i :: 0 <= i < |paths| && TagArtist(fs, paths[i]) == Some(a) {
      ArtistPairsSource(fs, paths, a);
    }
    forall a | a in g.members ensures g.members[a] == PathsBy(fs, paths, a) {
      GroupSpecMembers(pairs, a);
      ValuesForArtistPairs(fs, paths, a);
    }
    forall a, p | a in g.members && p in g.members[a] ensures TagArtist(fs, p) == Some(a) {
      PathsByMember(fs, paths, a, p);
    }
    GroupSpecItems(pairs);
    ValuesArtistPairs(fs, paths);
  }

  // ---------------------------------------------------------------- selection

  /** `songs[:songs_per_artist]` of each group, in key order. */
  function TakeEach(keys: seq<string>, m: map<string, seq<Path>>, k: int): seq<Path> {
    if keys == [] then []
    else
      var n := |keys| - 1;
      TakeEach(keys[..n], m, k) + (if keys[n] in m then SlicePrefix(m[keys[n]], k) else [])
  }

  /** The sum over the keys of `min(len(group), k)`. */
  function PrefixSizes(keys: seq<string>, m: map<string, seq<Path>>, k: nat): nat {
    if keys == [] then 0
    else
      var n := |keys| - 1;
      PrefixSizes(keys[..n], m, k) + (if keys[n] in m then Min(|m[keys[n]]|, k) else 0)
  }

  /** `select_songs_based_on_artist_count`: extend the selection with the
      first `songs_per_artist` paths of each group, in dict order. */
  method SelectSongsBasedOnArtistCount(g: Groups<Path>, songsPerArtist: int) returns (selected: seq<Path>)
    ensures selected == TakeEach(g.order, g.members, songsPerArtist)
  {
    selected := [];
    for i := 0 to |g.order|
      invariant selected == TakeEach(g.order[..i], g.members, songsPerArtist)
    {
      assert g.order[..i + 1][..i] == g.order[..i];
      var artist := g.order[i];
      if artist in g.members {
        selected := selected + SlicePrefix(g.members[artist], songsPerArtist);
      }
    }
    assert g.order[..|g.order|] == g.order;
  }

  /** The selection has exactly `min(len(group), k)` paths per key. */
  lemma {:induction false} TakeEachLength(keys: seq<string>, m: map<string, seq<Path>>, k: nat)
    ensures |TakeEach(keys, m, k)| == PrefixSizes(keys, m, k)
    decreases |keys|
  {
    if keys != [] {
      TakeEachLength(keys[..|keys| - 1], m, k);
    }
  }

  /** The selection is drawn from the groups' paths. */
  lemma {:induction false} TakeEachFromGroups(keys: seq<string>, m: map<string, seq<Path>>, k: int)
    ensures multiset(TakeEach(keys, m, k)) <= multiset(Flatten(keys, m))
    decreases |keys|
  {
    if keys != [] {
      var n := |keys| - 1;
      var pre := keys[..n];
      TakeEachFromGroups(pre, m, k);
      var part := if keys[n] in m then m[keys[n]] else [];
      var slice := if keys[n] in m then SlicePrefix(m[keys[n]], k) else [];
      assert TakeEach(keys, m, k) == TakeEach(pre, m, k) + slice;
      FlattenLast(keys, m);
      if keys[n] in m {
        PrefixSubMultiset(part, |slice|);
      }
      SubMultisetAppend(TakeEach(pre, m, k), Flatten(pre, m), slice, part);
    }
  }

  /** `Flatten` taken apart at its last key. */
  lemma FlattenLast(keys: seq<string>, m: map<string, seq<Path>>)
    requires keys != []
    ensures var n := |keys| - 1;
      Flatten(keys, m) == Flatten(keys[..n], m) + (if keys[n] in m then m[keys[n]] else [])
  {
    var n := |keys| - 1;
    assert keys == keys[..n] + [keys[n]];
    FlattenAppend(keys[..n], [keys[n]], m);
    assert [keys[n]][1..] == [];
  }

  /** When no group is longer than `k`, every grouped path is selected, in
      group order. */
  lemma {:induction false} TakeEachAll(keys: seq<string>, m: map<string, seq<Path>>, k: int)
    requires forall key :: key in keys && key in m ==> |m[key]| <= k
    ensures TakeEach(keys, m, k) == Flatten(keys, m)
    decreases |keys|
  {
    if keys != [] {
      var n := |keys| - 1;
      TakeEachAll(keys[..n], m, k);
      FlattenLast(keys, m);
    }
  }

  /** A selected path belongs to some group and is among its first `k`. */
  lemma {:induction false} TakeEachMember(keys: seq<string>, m: map<string, seq<Path>>, k: int, p: Path)
    requires p in TakeEach(keys, m, k)
    ensures exists key :: key in keys && key in m && p in SlicePrefix(m[key], k)
    decreases |keys|
  {
    var n := |keys| - 1;
    if p in TakeEach(keys[..n], m, k) {
      TakeEachMember(keys[..n], m, k, p);
      var key :| key in keys[..n] && key in m && p in SlicePrefix(m[key], k);
      assert key in keys;
    } else {
      assert keys[n] in keys;
    }
  }

  // ---------------------------------------------------------------- size limit

  /** The paths the budget keeps: the prefix it measures, or `None` when a
      size read raises first. */
  function WithinBudget(paths: seq<Path>, size: map<Path, nat>, cap: int): Option<seq<Path>> {
    match Budget(paths, size, cap)
    case None => None
    case Some(n) => Some(paths[..n])
  }

  /** `limit_songs_by_size`: in the given order, add each path while the
      running total stays within the cap and stop at the first that would
      not fit. `None` stands for the `getsize` call that raises. */
  method LimitSongsBySize(selected: seq<Path>, size: map<Path, nat>, cap: int) returns (r: Option<seq<Path>>)
    ensures r == WithinBudget(selected, size, cap)
  {
    var limited: seq<Path> := [];
    var total := 0;
    var i := 0;
    while i < |selected|
      invariant 0 <= i <= |selected| && limited == selected[..i]
      invariant Budget(selected, size, cap) == match Kept(selected[i..], size, cap, total)
        case None => None
        case Some(n) => Some(n + i)
    {
      assert selected[i..][0] == selected[i] && selected[i..][1..] == selected[i + 1..];
      if selected[i] !in size {
        return None;
      }
      var songSize := size[selected[i]];
      if total + songSize <= cap {
        assert selected[..i + 1] == limited + [selected[i]];
        limited := limited + [selected[i]];
        total := total + songSize;
        i := i + 1;
      } else {
        break;
      }
    }
    if i == |selected| {
      assert selected[i..] == [];
    }
    return Some(limited);
  }

  /** What the budget keeps is a prefix that fits the cap, and the first
      path that would overflow it, with everything after, is dropped. */
  lemma WithinBudgetIsLongestFit(paths: seq<Path>, size: map<Path, nat>, cap: int)
    requires WithinBudget(paths, size, cap).Some?
    ensures var kept := WithinBudget(paths, size, cap).value;
      && kept == paths[..|kept|]
      && Fits(paths, size, cap, |kept|)
      && (|kept| < |paths| ==> paths[|kept|] in size && !Fits(paths, size, cap, |kept| + 1))
      && (forall m :: |kept| < m <= |paths| ==> !Fits(paths, size, cap, m))
  {
    BudgetIsLongestFit(paths, size, cap);
  }

  // ---------------------------------------------------------------- run

  /** How `start_process` ends: interrupted by the stop flag; in cache-only
      mode, after the cache step; with no `.mp3` file found; with nothing
      left under the size cap; with a `getsize` error; or by handing the
      chosen paths to the copy (`copy`) or shortcut step. */
  datatype Outcome =
    | Interrupted
    | CacheOnly(count: nat)
    | NoFiles
    | NothingFits
    | SizeError
    | Transfer(songs: seq<Path>, copy: bool)

  /** The grouped prefix selection of the scanned paths. */
  function Selection(fs: FileSystem, paths: seq<Path>, songsPerArtist: int): seq<Path> {
    var g := GroupSpec(ArtistPairs(fs, paths));
    TakeEach(g.order, g.members, songsPerArtist)
  }

  /** The copy/link branch: a copy is cut to the size cap, given in GiB; a
      shortcut run keeps the whole selection. */
  function Transferable(selected: seq<Path>, copyMode: bool, size: map<Path, nat>, maxSizeGb: int): Option<seq<Path>> {
    if copyMode then WithinBudget(selected, size, maxSizeGb * GIB) else Some(selected)
  }

  /** The rest of `start_process` once the scan has returned without a
      stop. */
  function AfterScan(fs: FileSystem, paths: seq<Path>, onlyCache: bool, songsPerArtist: int, maxSizeGb: int,
                     copyMode: bool): Outcome
  {
    if onlyCache then (if paths != [] then CacheOnly(|paths|) else NoFiles)
    else if paths == [] then NoFiles
    else match Transferable(Selection(fs, paths, songsPerArtist), copyMode, fs.size, maxSizeGb)
      case None => SizeError
      case Some(chosen) => if chosen == [] then NothingFits else Transfer(chosen, copyMode)
  }

  /** `start_process` up to the copy step, as written: the scan saves the
      records it took in even when the stop flag was seen, and the stop is
      then reported by the "Process interrupted by user." exception. */
  method StartProcess(store: CacheDir, cacheName: Path -> Path, fs: FileSystem, folder: Path, limit: int,
                      useCache: bool, forceRescan: bool, onlyCache: bool, manual: Path, cancel: Cancel,
                      songsPerArtist: int, maxSizeGb: int, copyMode: bool)
    returns (outcome: Outcome, store': CacheDir, songs: seq<Path>)
    ensures exists records :: CachedScan(store, cacheName, fs, folder, limit, useCache, forceRescan, onlyCache,
                                         manual, cancel, true, songs, store', records)
    ensures !cancel.Never? ==> outcome == Interrupted
    ensures cancel.Never? ==> outcome == AfterScan(fs, songs, onlyCache, songsPerArtist, maxSizeGb, copyMode)
  {
    var records;
    songs, store', records := ListMp3FilesWithCache(store, cacheName, fs, folder, limit, useCache,
                                                    forceRescan, onlyCache, manual, cancel);
    if !cancel.Never? {
      return Interrupted, store', songs;
    }
    outcome := FinishProcess(fs, songs, onlyCache, songsPerArtist, maxSizeGb, copyMode);
  }

  /** `start_process` with the stop-aware cache save: a stop anywhere in
      the scan interrupts the run and leaves the cache directory as it was. */
  method StartProcessCorrected(store: CacheDir, cacheName: Path -> Path, fs: FileSystem, folder: Path, limit: int,
                               useCache: bool, forceRescan: bool, onlyCache: bool, manual: Path, cancel: Cancel,
                               songsPerArtist: int, maxSizeGb: int, copyMode: bool)
    returns (outcome: Outcome, store': CacheDir, songs: seq<Path>)
    ensures exists records :: CachedScan(store, cacheName, fs, folder, limit, useCache, forceRescan, onlyCache,
                                         manual, cancel, false, songs, store', records)
    ensures !cancel.Never? ==> outcome == Interrupted && store' == store
    ensures cancel.Never? ==> outcome == AfterScan(fs, songs, onlyCache, songsPerArtist, maxSizeGb, copyMode)
  {
    var records;
    songs, store', records := ListMp3FilesWithCacheCorrected(store, cacheName, fs, folder, limit, useCache,
                                                             forceRescan, onlyCache, manual, cancel);
    CorrectedSaveIsComplete(store, cacheName, fs, folder, limit, useCache, forceRescan, onlyCache, manual, cancel,
                            songs, store', records);
    if !cancel.Never? {
      return Interrupted, store', songs;
    }
    outcome := FinishProcess(fs, songs, onlyCache, songsPerArtist, maxSizeGb, copyMode);
  }

  /** What `start_process` does with the scanned paths when no stop was
      seen: report the cache-only count, or group, select and cut to the
      size cap. */
  method FinishProcess(fs: FileSystem, songs: seq<Path>, onlyCache: bool, songsPerArtist: int, maxSizeGb: int,
                       copyMode: bool)
    returns (outcome: Outcome)
    ensures outcome == AfterScan(fs, songs, onlyCache, songsPerArtist, maxSizeGb, copyMode)
  {
    if onlyCache {
      return if songs != [] then CacheOnly(|songs|) else NoFiles;
    }
    if songs == [] {
      return NoFiles;
    }
    var groups := GroupByArtist(fs, songs);
    var selected := SelectSongsBasedOnArtistCount(groups, songsPerArtist);
    var limited: Option<seq<Path>>;
    if copyMode {
      limited := LimitSongsBySize(selected, fs.size, maxSizeGb * GIB);
    } else {
      limited := Some(selected);
    }
    if limited.None? {
      return SizeError;
    }
    if limited.value == [] {
      return NothingFits;
    }
    return Transfer(limited.value, copyMode);
  }

  /** What reaches the copy or shortcut step is drawn from the scanned
      paths whose artist can be read; a copy fits the cap and is a prefix
      of the selection; a shortcut run gets the whole selection, which, for
      a non-negative `songs_per_artist`, has `min(len(group), k)` paths of
      each artist. */
  lemma TransferGuarantees(fs: FileSystem, paths: seq<Path>, songsPerArtist: int, maxSizeGb: int, copyMode: bool)
    requires AfterScan(fs, paths, false, songsPerArtist, maxSizeGb, copyMode).Transfer?
    ensures var chosen := AfterScan(fs, paths, false, songsPerArtist, maxSizeGb, copyMode).songs;
      var selected := Selection(fs, paths, songsPerArtist);
      var g := GroupSpec(ArtistPairs(fs, paths));
      && chosen != []
      && multiset(chosen) <= multiset(Tagged(fs, paths))
      && chosen == selected[..|chosen|]
      && (copyMode ==> Fits(selected, fs.size, maxSizeGb * GIB, |chosen|))
      && (!copyMode ==> chosen == selected)
      && (!copyMode && songsPerArtist >= 0 ==> |chosen| == PrefixSizes(g.order, g.members, songsPerArtist))
  {
    var chosen := AfterScan(fs, paths, false, songsPerArtist, maxSizeGb, copyMode).songs;
    var selected := Selection(fs, paths, songsPerArtist);
    SelectionFromTagged(fs, paths, songsPerArtist);
    if copyMode {
      TransferCopy(fs, paths, songsPerArtist, maxSizeGb);
    } else {
      TransferLink(fs, paths, songsPerArtist, maxSizeGb);
    }
    PrefixSubMultiset(selected, |chosen|);
  }

  /** The selection is drawn from the paths whose artist can be read. */
  lemma SelectionFromTagged(fs: FileSystem, paths: seq<Path>, songsPerArtist: int)
    ensures multiset(Selection(fs, paths, songsPerArtist)) <= multiset(Tagged(fs, paths))
  {
    var pairs := ArtistPairs(fs, paths);
    var g := GroupSpec(pairs);
    GroupSpecItems(pairs);
    ValuesArtistPairs(fs, paths);
    TakeEachFromGroups(g.order, g.members, songsPerArtist);
  }

  lemma TransferCopy(fs: FileSystem, paths: seq<Path>, songsPerArtist: int, maxSizeGb: int)
    requires AfterScan(fs, paths, false, songsPerArtist, maxSizeGb, true).Transfer?
    ensures var chosen := AfterScan(fs, paths, false, songsPerArtist, maxSizeGb, true).songs;
      var selected := Selection(fs, paths, songsPerArtist);
      && chosen != [] && |chosen| <= |selected|
      && chosen == selected[..|chosen|]
      && Fits(selected, fs.size, maxSizeGb * GIB, |chosen|)
  {
    var selected := Selection(fs, paths, songsPerArtist);
    assert WithinBudget(selected, fs.size, maxSizeGb * GIB).Some?;
    WithinBudgetIsLongestFit(selected, fs.size, maxSizeGb * GIB);
  }

  lemma TransferLink(fs: FileSystem, paths: seq<Path>, songsPerArtist: int, maxSizeGb: int)
    requires AfterScan(fs, paths, false, songsPerArtist, maxSizeGb, false).Transfer?
    ensures var chosen := AfterScan(fs, paths, false, songsPerArtist, maxSizeGb, false).songs;
      var g := GroupSpec(ArtistPairs(fs, paths));
      && chosen != []
      && chosen == Selection(fs, paths, songsPerArtist)
      && (songsPerArtist >= 0 ==> |chosen| == PrefixSizes(g.order, g.members, songsPerArtist))
  {
    var g := GroupSpec(ArtistPairs(fs, paths));
    if songsPerArtist >= 0 {
      TakeEachLength(g.order, g.members, songsPerArtist);
    }
  }
}
