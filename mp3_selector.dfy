/** The command-line script: scan a music folder (through a cache), group the
    songs by artist, pick a selection and cut it to a size budget. The file
    system is a `FileSystem` value, the cache directory a `CacheDir` value
    passed in and handed back, and the cache-file name of a folder the
    parameter `cacheName`. */
module Mp3Selector {
  import opened Common
  import opened Snapshot
  import opened Cache
  import opened Grouping
  import opened Packing
  import opened Random

  /** Artists with at least this many songs are prolific; the others form the pool. */
  const PROLIFIC: int := 6

  // ---------------------------------------------------------------- metadata

  /** `normalize_text`: NFKD folding (the parameter `nfkd`), every non-ASCII
      character dropped, then lower case. */
  function NormalizeText(nfkd: string -> string, text: string): string {
    Lower(AsciiOnly(nfkd(text)))
  }

  /** The normalized text is lower-case ASCII no longer than the folded
      text, and plain lower casing when the folded text is ASCII already. */
  lemma NormalizeTextSpec(nfkd: string -> string, text: string)
    ensures var r := NormalizeText(nfkd, text);
      && IsAscii(r) && NoUpper(r)
      && |r| <= |nfkd(text)|
      && (IsAscii(nfkd(text)) ==> r == Lower(nfkd(text)))
  {
    AsciiOnlyIsAscii(nfkd(text));
    if IsAscii(nfkd(text)) {
      AsciiOnlyKeeps(nfkd(text));
    }
    LowerKeepsAscii(AsciiOnly(nfkd(text)));
  }

  /** Normalizing an already-normalized artist changes nothing, for any
      folding that leaves plain ASCII alone. */
  lemma NormalizeTextIdempotent(nfkd: string -> string, text: string)
    requires nfkd(NormalizeText(nfkd, text)) == NormalizeText(nfkd, text)
    ensures NormalizeText(nfkd, NormalizeText(nfkd, text)) == NormalizeText(nfkd, text)
  {
    NormalizeTextSpec(nfkd, text);
    AsciiOnlyKeeps(NormalizeText(nfkd, text));
    LowerIdempotent(AsciiOnly(nfkd(text)));
  }

  /** `read_metadata`: `None` when the tags cannot be read or a stored field
      is an empty list; otherwise the path, the normalized artist
      ("Unknown" when absent) and the title ("Untitled" when absent). */
  function ReadMetadata(fs: FileSystem, nfkd: string -> string, path: Path): (r: Option<Song>) {
    if path !in fs.tags then None
    else
      var artist := FirstValue(fs.tags[path].artist, "Unknown");
      var title := FirstValue(fs.tags[path].title, "Untitled");
      if artist.None? || title.None? then None
      else Some(Song(path, NormalizeText(nfkd, artist.value), title.value))
  }

  /** A song is read exactly when the tags can be read and neither field is
      an empty list; it then carries its path, the normalized first artist
      (or "Unknown") and the first title (or "Untitled"). */
  lemma ReadMetadataSpec(fs: FileSystem, nfkd: string -> string, path: Path)
    ensures var r := ReadMetadata(fs, nfkd, path);
      && (r.None? <==> path !in fs.tags || fs.tags[path].artist == Some([]) || fs.tags[path].title == Some([]))
      && (r.Some? ==> r.value.path == path && IsAscii(r.value.artist) && NoUpper(r.value.artist))
      && (r.Some? && fs.tags[path].artist.None? ==> r.value.artist == NormalizeText(nfkd, "Unknown"))
      && (r.Some? && fs.tags[path].artist.Some? ==> r.value.artist == NormalizeText(nfkd, fs.tags[path].artist.value[0]))
      && (r.Some? ==> r.value.title == (if fs.tags[path].title.None? then "Untitled" else fs.tags[path].title.value[0]))
  {
    var r := ReadMetadata(fs, nfkd, path);
    if r.Some? {
      NormalizeTextSpec(nfkd, FirstValue(fs.tags[path].artist, "Unknown").value);
    }
  }

  /** A missing artist tag and the artist "unknown" end up the same. */
  lemma UnknownArtist(nfkd: string -> string)
    requires nfkd("Unknown") == "Unknown"
    ensures NormalizeText(nfkd, "Unknown") == "unknown"
  {
    assert IsAscii("Unknown");
    AsciiOnlyKeeps("Unknown");
    LowerUnknown();
  }

  // ---------------------------------------------------------------- watermark

  /** `get_folder_modification_time`: the running maximum over the walk.
      A directory whose mtime cannot be read raises out of the function
      (`None`); an `.mp3` file whose mtime cannot be read is skipped. */
  method FolderModificationTime(fs: FileSystem, folder: Path) returns (t: Option<int>)
    ensures t == Watermark(fs, folder)
  {
    var walk := WalkOf(fs, folder);
    var latest := 0;
    for i := 0 to |walk|
      invariant DirsMax(fs, walk, 0) == DirsMax(fs, walk[i..], latest)
    {
      var d := walk[i];
      assert walk[i..][0] == d && walk[i..][1..] == walk[i + 1..];
      if d.root !in fs.mtime {
        return None;
      }
      var folderTime := fs.mtime[d.root];
      if folderTime > latest {
        latest := folderTime;
      }
      ghost var start := latest;
      for j := 0 to |d.files|
        invariant FilesMax(fs, d.root, d.files, start) == FilesMax(fs, d.root, d.files[j..], latest)
      {
        var file := d.files[j];
        assert d.files[j..][0] == file && d.files[j..][1..] == d.files[j + 1..];
        if IsMp3Name(file, IgnoreCase) {
          var path := Join(d.root, file);
          if path in fs.mtime {
            var fileTime := fs.mtime[path];
            if fileTime > latest {
              latest := fileTime;
            }
          }
        }
      }
      assert d.files[|d.files|..] == [];
    }
    assert walk[|walk|..] == [];
    return Some(latest);
  }

  // ---------------------------------------------------------------- cache

  /** `save_cache`: the folder, its current watermark and the songs, under
      the folder's cache-file name. When the watermark raises, nothing is
      written. */
  function SaveCache(store: CacheDir, cacheName: Path -> Path, fs: FileSystem, folder: Path, songs: seq<Song>): (r: CacheDir)
    ensures Watermark(fs, folder).None? ==> r == store
    ensures Watermark(fs, folder).Some? ==>
      && cacheName(folder) in r
      && r[cacheName(folder)] == Record(folder, Watermark(fs, folder).value, songs)
      && forall p :: p in store && p != cacheName(folder) ==> p in r && r[p] == store[p]
  {
    match Watermark(fs, folder)
    case None => store
    case Some(w) => store[cacheName(folder) := Record(folder, w, songs)]
  }

  /** What `load_cache` returns for the file `file`. */
  function LoadSpec(store: CacheDir, file: Path, fs: FileSystem, folder: Path): Option<seq<Song>> {
    if file !in store then None
    else match store[file]
      case Corrupt => None
      case Stored(f, modTime, songs) =>
        if f != Some(folder) then None
        else match Watermark(fs, folder)
          case None => None
          case Some(current) =>
            if current > modTime.GetOr(0) then None
            else
              var valid := KeepPresent(fs.present, songs.GetOr([]));
              if |valid| != |songs.GetOr([])| then None else Some(valid)
  }

  /** `load_cache`. */
  method LoadCache(store: CacheDir, cacheName: Path -> Path, fs: FileSystem, folder: Path) returns (r: Option<seq<Song>>)
    ensures r == LoadSpec(store, cacheName(folder), fs, folder)
  {
    var file := cacheName(folder);
    if file !in store {
      return None;
    }
    var data := store[file];
    if data.Corrupt? {
      return None;
    }
    if data.folder != Some(folder) {
      return None;
    }
    var current := FolderModificationTime(fs, folder);
    if current.None? {
      return None;
    }
    if current.value > data.folderModTime.GetOr(0) {
      return None;
    }
    var songs := data.songs.GetOr([]);
    var valid := [];
    for i := 0 to |songs|
      invariant valid == KeepPresent(fs.present, songs[..i])
    {
      assert songs[..i + 1][..i] == songs[..i];
      if songs[i].path in fs.present {
        valid := valid + [songs[i]];
      }
    }
    assert songs[..|songs|] == songs;
    if |valid| != |songs| {
      return None;
    }
    return Some(valid);
  }

  /** The cache is accepted exactly when the file exists and parses, names
      the folder, is not older than the folder's watermark, and every stored
      path exists; the songs then come back unchanged and in stored order. */
  lemma LoadSpecAccepts(store: CacheDir, file: Path, fs: FileSystem, folder: Path, songs: seq<Song>)
    ensures LoadSpec(store, file, fs, folder) == Some(songs) <==>
      && file in store
      && store[file].Stored?
      && store[file].folder == Some(folder)
      && Watermark(fs, folder).Some?
      && Watermark(fs, folder).value <= store[file].folderModTime.GetOr(0)
      && AllPresent(fs.present, store[file].songs.GetOr([]))
      && songs == store[file].songs.GetOr([])
  {
    if file in store && store[file].Stored? {
      KeepPresentAll(fs.present, store[file].songs.GetOr([]));
    }
  }

  /** Saving and then loading with nothing changed gives back exactly the
      saved songs, provided their files exist and the watermark can be read. */
  lemma CacheRoundTrip(store: CacheDir, cacheName: Path -> Path, fs: FileSystem, folder: Path, songs: seq<Song>)
    requires Watermark(fs, folder).Some?
    requires AllPresent(fs.present, songs)
    ensures LoadSpec(SaveCache(store, cacheName, fs, folder, songs), cacheName(folder), fs, folder) == Some(songs)
  {
    LoadSpecAccepts(SaveCache(store, cacheName, fs, folder, songs), cacheName(folder), fs, folder, songs);
  }

  /** A cache saved by another folder's run is never accepted. */
  lemma ForeignCacheRejected(store: CacheDir, cacheName: Path -> Path, fs: FileSystem, other: Path, folder: Path, songs: seq<Song>)
    requires other != folder && cacheName(other) == cacheName(folder)
    ensures LoadSpec(SaveCache(store, cacheName, fs, other, songs), cacheName(folder), fs, folder)
         == (if Watermark(fs, other).Some? then None else LoadSpec(store, cacheName(folder), fs, folder))
  {
  }

  /** Touching any `.mp3` file of the folder after the save invalidates the
      cache. */
  lemma TouchInvalidatesCache(store: CacheDir, cacheName: Path -> Path, fs: FileSystem, folder: Path, songs: seq<Song>,
                              i: nat, j: nat, t: int)
    requires i < |WalkOf(fs, folder)| && j < |WalkOf(fs, folder)[i].files|
    requires IsMp3Name(WalkOf(fs, folder)[i].files[j], IgnoreCase)
    requires Watermark(fs, folder).Some? && t > Watermark(fs, folder).value
    ensures var fs' := fs.(mtime := fs.mtime[Join(WalkOf(fs, folder)[i].root, WalkOf(fs, folder)[i].files[j]) := t]);
      LoadSpec(SaveCache(store, cacheName, fs, folder, songs), cacheName(folder), fs', folder) == None
  {
    TouchRaisesWatermark(fs, folder, i, j, t);
  }

  /** Deleting the file of any saved song invalidates the whole cache. */
  lemma DeleteInvalidatesCache(store: CacheDir, cacheName: Path -> Path, fs: FileSystem, folder: Path, songs: seq<Song>, k: nat)
    requires k < |songs|
    ensures var fs' := fs.(present := fs.present - {songs[k].path});
      LoadSpec(SaveCache(store, cacheName, fs, folder, songs), cacheName(folder), fs', folder) == None
  {
    KeepPresentAfterDelete(fs.present, songs, k);
    var fs' := fs.(present := fs.present - {songs[k].path});
    assert Watermark(fs', folder) == Watermark(fs, folder) by {
      WatermarkIgnoresPresence(fs, fs', WalkOf(fs, folder), 0);
    }
  }

  lemma {:induction false} WatermarkIgnoresPresence(fs: FileSystem, fs': FileSystem, walk: seq<Dir>, acc: int)
    requires fs'.mtime == fs.mtime
    ensures DirsMax(fs', walk, acc) == DirsMax(fs, walk, acc)
    decreases |walk|
  {
    if walk != [] && walk[0].root in fs.mtime {
      var d := walk[0];
      var a := if fs.mtime[d.root] > acc then fs.mtime[d.root] else acc;
      FilesMaxIgnoresPresence(fs, fs', d.root, d.files, a);
      WatermarkIgnoresPresence(fs, fs', walk[1..], FilesMax(fs, d.root, d.files, a));
    }
  }

  lemma {:induction false} FilesMaxIgnoresPresence(fs: FileSystem, fs': FileSystem, root: Path, files: seq<string>, acc: int)
    requires fs'.mtime == fs.mtime
    ensures FilesMax(fs', root, files, acc) == FilesMax(fs, root, files, acc)
    decreases |files|
  {
    if files != [] {
      var a := if Stamped(fs, root, files[0]) && fs.mtime[Join(root, files[0])] > acc
               then fs.mtime[Join(root, files[0])] else acc;
      FilesMaxIgnoresPresence(fs, fs', root, files[1..], a);
    }
  }

  // ---------------------------------------------------------------- scan

  /** The song read from one path, as a list of zero or one songs. */
  function Found(o: Option<Song>): (r: seq<Song>)
    ensures |r| <= 1
  {
    if o.Some? then [o.value] else []
  }

  /** `read_metadata` over the paths in order, keeping the successes. */
  function ReadAll(fs: FileSystem, nfkd: string -> string, paths: seq<Path>): (r: seq<Song>)
    ensures |r| <= |paths|
  {
    if paths == [] then []
    else
      var n := |paths| - 1;
      ReadAll(fs, nfkd, paths[..n]) + Found(ReadMetadata(fs, nfkd, paths[n]))
  }

  lemma {:induction false} ReadAllAppend(fs: FileSystem, nfkd: string -> string, a: seq<Path>, b: seq<Path>)
    ensures ReadAll(fs, nfkd, a + b) == ReadAll(fs, nfkd, a) + ReadAll(fs, nfkd, b)
    decreases |b|
  {
    if b == [] {
      assert a + b == a;
    } else {
      var n := |b| - 1;
      var ab := a + b;
      var one := Found(ReadMetadata(fs, nfkd, b[n]));
      assert ReadAll(fs, nfkd, ab) == ReadAll(fs, nfkd, a + b[..n]) + one by {
        assert ab[..|ab| - 1] == a + b[..n] && ab[|ab| - 1] == b[n];
      }
      ReadAllAppend(fs, nfkd, a, b[..n]);
      SeqAssoc(ReadAll(fs, nfkd, a), ReadAll(fs, nfkd, b[..n]), one);
    }
  }

  /** A song is read exactly when one of the paths yields it. */
  lemma ReadAllMember(fs: FileSystem, nfkd: string -> string, paths: seq<Path>, s: Song)
    ensures s in ReadAll(fs, nfkd, paths) <==>
      exists i :: 0 <= i < |paths| && ReadMetadata(fs, nfkd, paths[i]) == Some(s)
  {
    if s in ReadAll(fs, nfkd, paths) {
      ReadAllSource(fs, nfkd, paths, s);
    }
    if exists i :: 0 <= i < |paths| && ReadMetadata(fs, nfkd, paths[i]) == Some(s) {
      var i :| 0 <= i < |paths| && ReadMetadata(fs, nfkd, paths[i]) == Some(s);
      ReadAllKeeps(fs, nfkd, paths, i);
    }
  }

  /** Every song read comes from one of the paths. */
  lemma {:induction false} ReadAllSource(fs: FileSystem, nfkd: string -> string, paths: seq<Path>, s: Song)
    requires s in ReadAll(fs, nfkd, paths)
    ensures exists i :: 0 <= i < |paths| && ReadMetadata(fs, nfkd, paths[i]) == Some(s)
    decreases |paths|
  {
    var n := |paths| - 1;
    if s in ReadAll(fs, nfkd, paths[..n]) {
      ReadAllSource(fs, nfkd, paths[..n], s);
      var i :| 0 <= i < n && ReadMetadata(fs, nfkd, paths[..n][i]) == Some(s);
      assert paths[i] == paths[..n][i];
    } else {
      assert ReadMetadata(fs, nfkd, paths[n]) == Some(s);
    }
  }

  /** Every song that one of the paths yields is read. */
  lemma {:induction false} ReadAllKeeps(fs: FileSystem, nfkd: string -> string, paths: seq<Path>, i: nat)
    requires i < |paths| && ReadMetadata(fs, nfkd, paths[i]).Some?
    ensures ReadMetadata(fs, nfkd, paths[i]).value in ReadAll(fs, nfkd, paths)
    decreases |paths|
  {
    var n := |paths| - 1;
    var v := ReadMetadata(fs, nfkd, paths[i]).value;
    var one := Found(ReadMetadata(fs, nfkd, paths[n]));
    assert ReadAll(fs, nfkd, paths) == ReadAll(fs, nfkd, paths[..n]) + one;
    if i < n {
      assert v in ReadAll(fs, nfkd, paths[..n]) by {
        assert paths[..n][i] == paths[i];
        ReadAllKeeps(fs, nfkd, paths[..n], i);
      }
    } else {
      assert v in one;
    }
  }

  /** What `list_mp3_files` returns. For a positive `limit` it stops as
      soon as `limit` songs are read, so the result is the first `limit`
      songs of the whole scan; for a negative one the limit test passes at
      the first `.mp3` name, whether or not it was read. */
  function ListMp3Spec(fs: FileSystem, nfkd: string -> string, folder: Path, limit: int): seq<Song> {
    var candidates := Mp3Paths(WalkOf(fs, folder), Exact);
    if limit < 0 then ReadAll(fs, nfkd, candidates[..if candidates == [] then 0 else 1])
    else LimitTo(ReadAll(fs, nfkd, candidates), limit)
  }

  /** The loop of `list_mp3_files` from some point on: the files of the
      current directory still to visit, the directories after it and the
      songs collected so far. */
  function Scan(fs: FileSystem, nfkd: string -> string, root: Path, files: seq<string>, walk: seq<Dir>,
                limit: int, songs: seq<Song>): seq<Song>
    decreases |walk|, |files|
  {
    if files != [] then
      if IsMp3Name(files[0], Exact) then
        var more := songs + Found(ReadMetadata(fs, nfkd, Join(root, files[0])));
        if limit != 0 && |more| >= limit then more
        else Scan(fs, nfkd, root, files[1..], walk, limit, more)
      else Scan(fs, nfkd, root, files[1..], walk, limit, songs)
    else if walk == [] then songs
    else Scan(fs, nfkd, walk[0].root, walk[0].files, walk[1..], limit, songs)
  }

  /** What is left of `ListMp3Spec` once `songs` have been collected and
      `cands` are the candidate paths still to visit. */
  function Remaining(fs: FileSystem, nfkd: string -> string, cands: seq<Path>, limit: int, songs: seq<Song>): seq<Song> {
    if limit < 0 then ReadAll(fs, nfkd, cands[..if cands == [] then 0 else 1])
    else LimitTo(songs + ReadAll(fs, nfkd, cands), limit)
  }

  /** The loop computes the closed form: from any point it appends what is
      read from the remaining candidates until the limit is reached. */
  lemma {:induction false} ScanIsLimitedRead(fs: FileSystem, nfkd: string -> string, root: Path, files: seq<string>,
                                              walk: seq<Dir>, limit: int, songs: seq<Song>)
    requires limit > 0 ==> |songs| < limit
    requires limit < 0 ==> songs == []
    ensures Scan(fs, nfkd, root, files, walk, limit, songs) ==
      Remaining(fs, nfkd, DirMp3s(root, files, Exact) + Mp3Paths(walk, Exact), limit, songs)
    decreases |walk|, |files|
  {
    if files != [] {
      var more := songs + Found(ReadMetadata(fs, nfkd, Join(root, files[0])));
      if !IsMp3Name(files[0], Exact) {
        ScanIsLimitedRead(fs, nfkd, root, files[1..], walk, limit, songs);
        ScanSkip(fs, nfkd, root, files, walk, limit, songs);
      } else if limit != 0 && |more| >= limit {
        ScanStop(fs, nfkd, root, files, walk, limit, songs);
      } else {
        ScanIsLimitedRead(fs, nfkd, root, files[1..], walk, limit, more);
        ScanStep(fs, nfkd, root, files, walk, limit, songs, more);
      }
    } else if walk != [] {
      ScanIsLimitedRead(fs, nfkd, walk[0].root, walk[0].files, walk[1..], limit, songs);
      ScanDirStep(fs, nfkd, root, walk, limit, songs);
    } else {
      assert songs + ReadAll(fs, nfkd, []) == songs;
    }
  }

  /** A file whose name is not an exact `.mp3` name is passed over. */
  lemma ScanSkip(fs: FileSystem, nfkd: string -> string, root: Path, files: seq<string>,
                 walk: seq<Dir>, limit: int, songs: seq<Song>)
    requires files != [] && !IsMp3Name(files[0], Exact)
    requires Scan(fs, nfkd, root, files[1..], walk, limit, songs) ==
      Remaining(fs, nfkd, DirMp3s(root, files[1..], Exact) + Mp3Paths(walk, Exact), limit, songs)
    ensures Scan(fs, nfkd, root, files, walk, limit, songs) ==
      Remaining(fs, nfkd, DirMp3s(root, files, Exact) + Mp3Paths(walk, Exact), limit, songs)
  {
    DirMp3sCons(root, files, Exact);
    assert DirMp3s(root, files, Exact) == DirMp3s(root, files[1..], Exact);
    assert Scan(fs, nfkd, root, files, walk, limit, songs) == Scan(fs, nfkd, root, files[1..], walk, limit, songs);
  }

  /** The `.mp3` file that brings the songs to the limit ends the scan. */
  lemma ScanStop(fs: FileSystem, nfkd: string -> string, root: Path, files: seq<string>,
                 walk: seq<Dir>, limit: int, songs: seq<Song>)
    requires files != [] && IsMp3Name(files[0], Exact)
    requires limit > 0 ==> |songs| < limit
    requires limit < 0 ==> songs == []
    requires limit != 0 && |songs + Found(ReadMetadata(fs, nfkd, Join(root, files[0])))| >= limit
    ensures Scan(fs, nfkd, root, files, walk, limit, songs) ==
      Remaining(fs, nfkd, DirMp3s(root, files, Exact) + Mp3Paths(walk, Exact), limit, songs)
  {
    var p := Join(root, files[0]);
    var rest := DirMp3s(root, files[1..], Exact) + Mp3Paths(walk, Exact);
    CandidatesCons(root, files, walk);
    RemainingStop(fs, nfkd, p, rest, limit, songs);
  }

  /** An `.mp3` file below the limit adds what it yields and the scan goes on. */
  lemma ScanStep(fs: FileSystem, nfkd: string -> string, root: Path, files: seq<string>,
                 walk: seq<Dir>, limit: int, songs: seq<Song>, more: seq<Song>)
    requires files != [] && IsMp3Name(files[0], Exact)
    requires more == songs + Found(ReadMetadata(fs, nfkd, Join(root, files[0])))
    requires !(limit != 0 && |more| >= limit)
    requires Scan(fs, nfkd, root, files[1..], walk, limit, more) ==
      Remaining(fs, nfkd, DirMp3s(root, files[1..], Exact) + Mp3Paths(walk, Exact), limit, more)
    ensures Scan(fs, nfkd, root, files, walk, limit, songs) ==
      Remaining(fs, nfkd, DirMp3s(root, files, Exact) + Mp3Paths(walk, Exact), limit, songs)
  {
    var p := Join(root, files[0]);
    var rest := DirMp3s(root, files[1..], Exact) + Mp3Paths(walk, Exact);
    CandidatesCons(root, files, walk);
    ScanUnfoldMp3(fs, nfkd, root, files, walk, limit, songs);
    RemainingStep(fs, nfkd, p, rest, limit, songs);
  }

  /** An exact `.mp3` name heads the candidates of its directory. */
  lemma CandidatesCons(root: Path, files: seq<string>, walk: seq<Dir>)
    requires files != [] && IsMp3Name(files[0], Exact)
    ensures DirMp3s(root, files, Exact) + Mp3Paths(walk, Exact) ==
      [Join(root, files[0])] + (DirMp3s(root, files[1..], Exact) + Mp3Paths(walk, Exact))
  {
    DirMp3sCons(root, files, Exact);
    var head := [Join(root, files[0])];
    assert DirMp3s(root, files, Exact) == head + DirMp3s(root, files[1..], Exact);
    SeqAssoc(head, DirMp3s(root, files[1..], Exact), Mp3Paths(walk, Exact));
  }

  lemma ScanUnfoldMp3(fs: FileSystem, nfkd: string -> string, root: Path, files: seq<string>,
                      walk: seq<Dir>, limit: int, songs: seq<Song>)
    requires files != [] && IsMp3Name(files[0], Exact)
    requires var more := songs + Found(ReadMetadata(fs, nfkd, Join(root, files[0])));
      !(limit != 0 && |more| >= limit)
    ensures Scan(fs, nfkd, root, files, walk, limit, songs) ==
      Scan(fs, nfkd, root, files[1..], walk, limit, songs + Found(ReadMetadata(fs, nfkd, Join(root, files[0]))))
  {
  }

  /** Moving on to the next directory of the walk. */
  lemma ScanDirStep(fs: FileSystem, nfkd: string -> string, root: Path, walk: seq<Dir>, limit: int, songs: seq<Song>)
    requires walk != []
    requires Scan(fs, nfkd, walk[0].root, walk[0].files, walk[1..], limit, songs) ==
      Remaining(fs, nfkd, DirMp3s(walk[0].root, walk[0].files, Exact) + Mp3Paths(walk[1..], Exact), limit, songs)
    ensures Scan(fs, nfkd, root, [], walk, limit, songs) ==
      Remaining(fs, nfkd, DirMp3s(root, [], Exact) + Mp3Paths(walk, Exact), limit, songs)
  {
    Mp3PathsCons(walk, Exact);
    assert DirMp3s(root, [], Exact) + Mp3Paths(walk, Exact) ==
      DirMp3s(walk[0].root, walk[0].files, Exact) + Mp3Paths(walk[1..], Exact);
  }

  /** Reading the first candidate `p` in front of the rest. */
  lemma ReadAllCons(fs: FileSystem, nfkd: string -> string, p: Path, rest: seq<Path>)
    ensures ReadAll(fs, nfkd, [p] + rest) == Found(ReadMetadata(fs, nfkd, p)) + ReadAll(fs, nfkd, rest)
  {
    ReadAllAppend(fs, nfkd, [p], rest);
    ReadAllSingle(fs, nfkd, p);
  }

  lemma ReadAllSingle(fs: FileSystem, nfkd: string -> string, p: Path)
    ensures ReadAll(fs, nfkd, [p]) == Found(ReadMetadata(fs, nfkd, p))
  {
    assert [p][..0] == [];
  }

  /** The candidate that reaches the limit ends the scan. */
  lemma RemainingStop(fs: FileSystem, nfkd: string -> string, p: Path, rest: seq<Path>, limit: int, songs: seq<Song>)
    requires limit > 0 ==> |songs| < limit
    requires limit < 0 ==> songs == []
    requires limit != 0 && |songs + Found(ReadMetadata(fs, nfkd, p))| >= limit
    ensures Remaining(fs, nfkd, [p] + rest, limit, songs) == songs + Found(ReadMetadata(fs, nfkd, p))
  {
    var one := Found(ReadMetadata(fs, nfkd, p));
    if limit < 0 {
      assert Remaining(fs, nfkd, [p] + rest, limit, songs) == ReadAll(fs, nfkd, [p]) by {
        assert ([p] + rest)[..1] == [p];
      }
      ReadAllSingle(fs, nfkd, p);
      assert songs + one == one;
    } else {
      assert Remaining(fs, nfkd, [p] + rest, limit, songs) == LimitTo((songs + one) + ReadAll(fs, nfkd, rest), limit) by {
        ReadAllCons(fs, nfkd, p, rest);
        SeqAssoc(songs, one, ReadAll(fs, nfkd, rest));
      }
      LimitToLong(songs + one, ReadAll(fs, nfkd, rest), limit);
    }
  }

  /** A candidate below the limit is appended and the scan goes on. */
  lemma RemainingStep(fs: FileSystem, nfkd: string -> string, p: Path, rest: seq<Path>, limit: int, songs: seq<Song>)
    requires !(limit != 0 && |songs + Found(ReadMetadata(fs, nfkd, p))| >= limit)
    ensures Remaining(fs, nfkd, [p] + rest, limit, songs) ==
      Remaining(fs, nfkd, rest, limit, songs + Found(ReadMetadata(fs, nfkd, p)))
  {
    var one := Found(ReadMetadata(fs, nfkd, p));
    assert limit >= 0;
    assert songs + ReadAll(fs, nfkd, [p] + rest) == (songs + one) + ReadAll(fs, nfkd, rest) by {
      ReadAllCons(fs, nfkd, p, rest);
      SeqAssoc(songs, one, ReadAll(fs, nfkd, rest));
    }
  }

  /** `LimitTo` of a list that has already reached the limit is the part up
      to the limit. */
  lemma LimitToLong(a: seq<Song>, b: seq<Song>, limit: int)
    requires 0 < limit <= |a| && |a| <= limit
    ensures LimitTo(a + b, limit) == a
  {
    assert (a + b)[..|a|] == a;
  }

  lemma DirMp3sCons(root: Path, files: seq<string>, m: Match)
    requires files != []
    ensures DirMp3s(root, files, m) ==
      (if IsMp3Name(files[0], m) then [Join(root, files[0])] else []) + DirMp3s(root, files[1..], m)
  {
    assert files == [files[0]] + files[1..];
    DirMp3sAppend(root, [files[0]], files[1..], m);
    assert [files[0]][..0] == [];
  }

  lemma Mp3PathsCons(walk: seq<Dir>, m: Match)
    requires walk != []
    ensures Mp3Paths(walk, m) == DirMp3s(walk[0].root, walk[0].files, m) + Mp3Paths(walk[1..], m)
  {
    assert walk == [walk[0]] + walk[1..];
    Mp3PathsAppend([walk[0]], walk[1..], m);
    Mp3PathsSingle(walk[0], m);
  }

  /** The whole loop, begun on the folder's walk with nothing collected,
      returns `ListMp3Spec`. */
  lemma ScanMatchesSpec(fs: FileSystem, nfkd: string -> string, folder: Path, limit: int)
    ensures Scan(fs, nfkd, "", [], WalkOf(fs, folder), limit, []) == ListMp3Spec(fs, nfkd, folder, limit)
  {
    ScanIsLimitedRead(fs, nfkd, "", [], WalkOf(fs, folder), limit, []);
    assert DirMp3s("", [], Exact) + Mp3Paths(WalkOf(fs, folder), Exact) == Mp3Paths(WalkOf(fs, folder), Exact);
    assert [] + ReadAll(fs, nfkd, Mp3Paths(WalkOf(fs, folder), Exact)) == ReadAll(fs, nfkd, Mp3Paths(WalkOf(fs, folder), Exact));
  }

  /** `list_mp3_files`: walk the folder, read every file whose name ends in
      `.mp3` (case-sensitive), keep what was read, and return early once a
      truthy `limit` is reached. */
  method ListMp3Files(fs: FileSystem, nfkd: string -> string, folder: Path, limit: int) returns (songs: seq<Song>)
    ensures songs == ListMp3Spec(fs, nfkd, folder, limit)
  {
    var walk := WalkOf(fs, folder);
    ghost var total := Scan(fs, nfkd, "", [], walk, limit, []);
    ScanMatchesSpec(fs, nfkd, folder, limit);
    songs := [];
    var counter := 0;
    for i := 0 to |walk|
      invariant total == Scan(fs, nfkd, "", [], walk[i..], limit, songs)
      invariant counter == |songs|
    {
      var d := walk[i];
      assert walk[i..][0] == d && walk[i..][1..] == walk[i + 1..];
      for j := 0 to |d.files|
        invariant total == Scan(fs, nfkd, d.root, d.files[j..], walk[i + 1..], limit, songs)
        invariant counter == |songs|
      {
        var file := d.files[j];
        assert d.files[j..][0] == file && d.files[j..][1..] == d.files[j + 1..];
        ghost var previous := songs;
        if IsMp3Name(file, Exact) {
          var path := Join(d.root, file);
          var song := ReadMetadata(fs, nfkd, path);
          if song.Some? {
            songs := songs + [song.value];
            counter := counter + 1;
          }
          if limit != 0 && counter >= limit {
            return;
          }
          assert songs == previous + Found(song);
          assert total == Scan(fs, nfkd, d.root, d.files[j + 1..], walk[i + 1..], limit, previous + Found(song));
        } else {
          assert total == Scan(fs, nfkd, d.root, d.files[j + 1..], walk[i + 1..], limit, songs);
        }
      }
      assert d.files[|d.files|..] == [];
    }
    assert walk[|walk|..] == [];
  }

  /** The scan reads only exact-case `.mp3` names of the walk, keeps each
      song that was read, is bounded by a positive `limit` (at most one song
      for a negative one) and, with no limit, misses no readable file. */
  lemma ListMp3Guarantees(fs: FileSystem, nfkd: string -> string, folder: Path, limit: int)
    ensures var r := ListMp3Spec(fs, nfkd, folder, limit);
      && (limit > 0 ==> |r| <= limit)
      && (limit < 0 ==> |r| <= 1)
      && (forall s :: s in r ==>
            s.path in Mp3Paths(WalkOf(fs, folder), Exact) && ReadMetadata(fs, nfkd, s.path) == Some(s))
      && (limit == 0 ==> forall p :: p in Mp3Paths(WalkOf(fs, folder), Exact) && ReadMetadata(fs, nfkd, p).Some? ==>
            ReadMetadata(fs, nfkd, p).value in r)
  {
    var cands := Mp3Paths(WalkOf(fs, folder), Exact);
    var r := ListMp3Spec(fs, nfkd, folder, limit);
    var whole := if limit < 0 then cands[..if cands == [] then 0 else 1] else cands;
    forall s | s in r
      ensures s.path in cands && ReadMetadata(fs, nfkd, s.path) == Some(s)
    {
      assert s in ReadAll(fs, nfkd, whole);
      ReadAllMember(fs, nfkd, whole, s);
      var i :| 0 <= i < |whole| && ReadMetadata(fs, nfkd, whole[i]) == Some(s);
      assert whole[i] == cands[i];
    }
    if limit == 0 {
      forall p | p in cands && ReadMetadata(fs, nfkd, p).Some?
        ensures ReadMetadata(fs, nfkd, p).value in r
      {
        var i :| 0 <= i < |cands| && cands[i] == p;
        ReadAllMember(fs, nfkd, cands, ReadMetadata(fs, nfkd, p).value);
      }
    }
  }

  /** `list_mp3_files_with_cache`. A non-empty cache hit (tried only when the
      cache is on and no rescan is forced) is returned, cut to a truthy
      `limit`, and nothing is written; otherwise the folder is scanned and
      the scan, exactly as returned, is saved when it is non-empty and the
      cache is on. */
  method ListMp3FilesWithCache(store: CacheDir, cacheName: Path -> Path, fs: FileSystem, nfkd: string -> string,
                               folder: Path, limit: int, useCache: bool, forceRescan: bool)
    returns (songs: seq<Song>, store': CacheDir)
    ensures var cached := LoadSpec(store, cacheName(folder), fs, folder);
      var hit := useCache && !forceRescan && cached.Some? && cached.value != [];
      && (hit ==> songs == LimitTo(cached.value, limit) && store' == store)
      && (!hit ==> songs == ListMp3Spec(fs, nfkd, folder, limit))
      && (!hit ==> store' == if songs != [] && useCache then SaveCache(store, cacheName, fs, folder, songs) else store)
  {
    if useCache && !forceRescan {
      var cached := LoadCache(store, cacheName, fs, folder);
      if cached.Some? && cached.value != [] {
        var result := cached.value;
        if limit != 0 {
          result := SlicePrefix(result, limit);
        }
        return result, store;
      }
    }
    songs := ListMp3Files(fs, nfkd, folder, limit);
    store' := store;
    if songs != [] && useCache {
      store' := SaveCache(store, cacheName, fs, folder, songs);
    }
  }

  // ---------------------------------------------------------------- grouping

  /** The (artist, song) pairs that `group_by_artist` appends, in order. */
  function ArtistPairs(songs: seq<Song>): (r: seq<(string, Song)>)
    ensures |r| == |songs|
  {
    seq(|songs|, i requires 0 <= i < |songs| => (songs[i].artist, songs[i]))
  }

  lemma ArtistPairsPrefix(songs: seq<Song>, n: nat)
    requires n <= |songs|
    ensures ArtistPairs(songs)[..n] == ArtistPairs(songs[..n])
  {
  }

  /** The songs of one artist, in list order: the reference for what a
      group must hold. */
  function SongsBy(songs: seq<Song>, artist: string): (r: seq<Song>)
    ensures |r| <= |songs|
  {
    if songs == [] then []
    else
      var n := |songs| - 1;
      SongsBy(songs[..n], artist) + (if songs[n].artist == artist then [songs[n]] else [])
  }

  /** Every group holds songs of its own artist only. */
  predicate KeyedByArtist(g: Groups<Song>) {
    forall a, s :: a in g.members && s in g.members[a] ==> s.artist == a
  }

  /** `group_by_artist`: append each song to the list of its artist. */
  method GroupByArtist(songs: seq<Song>) returns (g: Groups<Song>)
    ensures g == GroupSpec(ArtistPairs(songs))
  {
    ghost var pairs := ArtistPairs(songs);
    g := Groups([], map[]);
    for i := 0 to |songs|
      invariant g == GroupSpec(pairs[..i])
    {
      assert pairs[..i + 1][..i] == pairs[..i];
      g := Insert(g, songs[i].artist, songs[i]);
    }
    assert pairs[..|songs|] == pairs;
  }

  lemma {:induction false} ValuesArtistPairs(songs: seq<Song>)
    ensures Values(ArtistPairs(songs)) == songs
    decreases |songs|
  {
    if songs != [] {
      var n := |songs| - 1;
      ArtistPairsPrefix(songs, n);
      ValuesArtistPairs(songs[..n]);
      assert songs == songs[..n] + [songs[n]];
    }
  }

  lemma {:induction false} ValuesForArtistPairs(songs: seq<Song>, artist: string)
    ensures ValuesFor(ArtistPairs(songs), artist) == SongsBy(songs, artist)
    decreases |songs|
  {
    if songs != [] {
      var n := |songs| - 1;
      ArtistPairsPrefix(songs, n);
      ValuesForArtistPairs(songs[..n], artist);
    }
  }

  lemma {:induction false} SongsByMember(songs: seq<Song>, artist: string, s: Song)
    ensures s in SongsBy(songs, artist) <==> s in songs && s.artist == artist
    decreases |songs|
  {
    if songs != [] {
      var n := |songs| - 1;
      SongsByMember(songs[..n], artist, s);
      assert songs == songs[..n] + [songs[n]];
    }
  }

  /** The grouping is a well-formed dict keyed by the artists that occur,
      each group holds exactly that artist's songs in list order, and the
      groups together are a permutation of the songs. */
  lemma GroupByArtistSpec(songs: seq<Song>)
    ensures var g := GroupSpec(ArtistPairs(songs));
      && WellFormed(g)
      && (forall a :: a in g.members <==> exists i :: 0 <= i < |songs| && songs[i].artist == a)
      && (forall a :: a in g.members ==> g.members[a] == SongsBy(songs, a))
      && KeyedByArtist(g)
      && multiset(Items(g)) == multiset(songs)
      && |Items(g)| == |songs|
  {
    var pairs := ArtistPairs(songs);
    var g := GroupSpec(pairs);
    GroupSpecWellFormed(pairs);
    forall a ensures a in g.members <==> exists i :: 0 <= i < |songs| && songs[i].artist == a {
      if a in g.members {
        var i :| 0 <= i < |pairs| && pairs[i].0 == a;
      }
      if exists i :: 0 <= i < |songs| && songs[i].artist == a {
        var i :| 0 <= i < |songs| && songs[i].artist == a;
        assert pairs[i].0 == a;
      }
    }
    forall a | a in g.members ensures g.members[a] == SongsBy(songs, a) {
      GroupSpecMembers(pairs, a);
      ValuesForArtistPairs(songs, a);
    }
    forall a, s | a in g.members && s in g.members[a] ensures s.artist == a {
      SongsByMember(songs, a, s);
    }
    GroupSpecItems(pairs);
    ValuesArtistPairs(songs);
  }

  // ---------------------------------------------------------------- selection

  /** The tier test: `len(songs) >= 6` for the prolific artists,
      `len(songs) <= 5` for the others. */
  predicate InTier(count: int, prolific: bool) {
    if prolific then count >= PROLIFIC else count <= PROLIFIC - 1
  }

  /** `group_1` (`prolific`) or `group_2`: the artists of the dict whose song
      count passes the tier test, in dict order. */
  function Tier(keys: seq<string>, m: map<string, seq<Song>>, prolific: bool): (r: seq<string>)
    ensures forall i :: 0 <= i < |r| ==> r[i] in m && InTier(|m[r[i]]|, prolific)
  {
    if keys == [] then []
    else (if keys[0] in m && InTier(|m[keys[0]]|, prolific) then [keys[0]] else []) + Tier(keys[1..], m, prolific)
  }

  /** The lists of a sequence of lists, concatenated: what repeated
      `extend` calls build. */
  function Concat(parts: seq<seq<Song>>): seq<Song> {
    if parts == [] then [] else parts[0] + Concat(parts[1..])
  }

  lemma {:induction false} ConcatSnoc(parts: seq<seq<Song>>, last: seq<Song>)
    ensures Concat(parts + [last]) == Concat(parts) + last
    decreases |parts|
  {
    if parts == [] {
      assert [] + [last] == [last];
    } else {
      assert (parts + [last])[1..] == parts[1..] + [last];
      ConcatSnoc(parts[1..], last);
    }
  }

  /** What one run of `select_songs_based_on_artist_count` returns: one pick
      of `k` songs from each prolific artist's group, in dict order, then a
      pick of `min(max(1, N / 10), |pool|)` songs from the pool of the
      other artists' songs, where `N` is the number of songs picked so
      far. */
  ghost predicate Selection(g: Groups<Song>, k: int, selected: seq<Song>, picks: seq<seq<Song>>) {
    var prolific := Tier(g.order, g.members, true);
    var pool := Flatten(Tier(g.order, g.members, false), g.members);
    var n := |Concat(picks)|;
    && |picks| == |prolific|
    && (forall i :: 0 <= i < |prolific| ==>
          |picks[i]| == k && multiset(picks[i]) <= multiset(g.members[prolific[i]]))
    && n <= |selected| && selected[..n] == Concat(picks)
    && |selected| - n == Min(Max(1, n / 10), |pool|)
    && multiset(selected[n..]) <= multiset(pool)
  }

  /** `select_songs_based_on_artist_count`. `random.sample` raises when the
      count is negative or larger than the group, which is `None` here; the
      pool sample is always in range. `picks` records what each prolific
      artist gave. */
  method SelectSongsBasedOnArtistCount(g: Groups<Song>, songsPerArtist: int, draws: seq<nat>)
    returns (r: Option<seq<Song>>, ghost picks: seq<seq<Song>>)
    ensures var prolific := Tier(g.order, g.members, true);
      r.None? <==> exists i :: 0 <= i < |prolific| &&
                     (songsPerArtist < 0 || songsPerArtist > |g.members[prolific[i]]|)
    ensures r.Some? ==> Selection(g, songsPerArtist, r.value, picks)
  {
    var prolific := Tier(g.order, g.members, true);
    var sparse := Tier(g.order, g.members, false);
    var selected: seq<Song> := [];
    var rest := draws;
    picks := [];
    for i := 0 to |prolific|
      invariant |picks| == i && selected == Concat(picks)
      invariant forall j :: 0 <= j < i ==>
        |picks[j]| == songsPerArtist && multiset(picks[j]) <= multiset(g.members[prolific[j]])
      invariant forall j :: 0 <= j < i ==> 0 <= songsPerArtist <= |g.members[prolific[j]]|
    {
      var songs := g.members[prolific[i]];
      if songsPerArtist < 0 || songsPerArtist > |songs| {
        assert 0 <= i < |prolific| && (songsPerArtist < 0 || songsPerArtist > |g.members[prolific[i]]|);
        assert prolific == Tier(g.order, g.members, true);
        assert var p := Tier(g.order, g.members, true);
          exists j :: 0 <= j < |p| && (songsPerArtist < 0 || songsPerArtist > |g.members[p[j]]|);
        r := None;
        return;
      }
      var chosen;
      chosen, rest := Sample(songs, songsPerArtist, rest);
      ConcatSnoc(picks, chosen);
      selected := selected + chosen;
      picks := picks + [chosen];
    }
    var total := |selected|;
    var count := Max(1, total / 10);
    var pool := Flatten(sparse, g.members);
    var extra;
    extra, rest := Sample(pool, Min(count, |pool|), rest);
    assert (selected + extra)[..total] == selected && (selected + extra)[total..] == extra;
    r := Some(selected + extra);
  }

  lemma {:induction false} TierMember(keys: seq<string>, m: map<string, seq<Song>>, prolific: bool, a: string)
    ensures a in Tier(keys, m, prolific) <==> a in keys && a in m && InTier(|m[a]|, prolific)
    decreases |keys|
  {
    if keys != [] {
      TierMember(keys[1..], m, prolific, a);
      assert keys == [keys[0]] + keys[1..];
    }
  }

  /** Every artist of the dict lands in exactly one tier, and in the
      prolific one exactly when it has at least six songs. */
  lemma TierPartition(g: Groups<Song>, a: string)
    requires WellFormed(g) && a in g.members
    ensures (a in Tier(g.order, g.members, true)) != (a in Tier(g.order, g.members, false))
    ensures a in Tier(g.order, g.members, true) <==> |g.members[a]| >= 6
  {
    TierMember(g.order, g.members, true, a);
    TierMember(g.order, g.members, false, a);
  }

  lemma {:induction false} TierNoDuplicates(keys: seq<string>, m: map<string, seq<Song>>, prolific: bool)
    requires NoDuplicates(keys)
    ensures NoDuplicates(Tier(keys, m, prolific))
    decreases |keys|
  {
    if keys != [] {
      NoDuplicatesTail(keys);
      TierNoDuplicates(keys[1..], m, prolific);
      TierMember(keys[1..], m, prolific, keys[0]);
      if keys[0] in m && InTier(|m[keys[0]]|, prolific) {
        NoDuplicatesCons(keys[0], Tier(keys[1..], m, prolific));
      }
    }
  }

  /** The two tiers split the songs of the dict between them. */
  lemma {:induction false} TierItems(keys: seq<string>, m: map<string, seq<Song>>)
    ensures multiset(Flatten(Tier(keys, m, true), m)) + multiset(Flatten(Tier(keys, m, false), m))
         == multiset(Flatten(keys, m))
    decreases |keys|
  {
    if keys != [] {
      TierItems(keys[1..], m);
      TierItemsStep(keys, m);
    }
  }

  lemma TierItemsStep(keys: seq<string>, m: map<string, seq<Song>>)
    requires keys != []
    requires multiset(Flatten(Tier(keys[1..], m, true), m)) + multiset(Flatten(Tier(keys[1..], m, false), m))
          == multiset(Flatten(keys[1..], m))
    ensures multiset(Flatten(Tier(keys, m, true), m)) + multiset(Flatten(Tier(keys, m, false), m))
         == multiset(Flatten(keys, m))
  {
    var k := keys[0];
    var head := if k in m then m[k] else [];
    var fp := Flatten(Tier(keys[1..], m, true), m);
    var fs := Flatten(Tier(keys[1..], m, false), m);
    var tp := if k in m && InTier(|m[k]|, true) then head else [];
    var ts := if k in m && InTier(|m[k]|, false) then head else [];
    assert multiset(Flatten(keys, m)) == multiset(head) + multiset(Flatten(keys[1..], m)) by {
      assert Flatten(keys, m) == head + Flatten(keys[1..], m);
    }
    assert multiset(Flatten(Tier(keys, m, true), m)) == multiset(tp) + multiset(fp) by {
      TierOne(keys, m, true);
    }
    assert multiset(Flatten(Tier(keys, m, false), m)) == multiset(ts) + multiset(fs) by {
      TierOne(keys, m, false);
    }
    assert multiset(tp) + multiset(ts) == multiset(head);
    MultisetRegroup(multiset(tp), multiset(fp), multiset(ts), multiset(fs));
  }

  /** One step of a tier: the first key's list, if it passes, in front of
      the rest. */
  lemma TierOne(keys: seq<string>, m: map<string, seq<Song>>, prolific: bool)
    requires keys != []
    ensures var pass := keys[0] in m && InTier(|m[keys[0]]|, prolific);
      Flatten(Tier(keys, m, prolific), m) ==
        (if pass then m[keys[0]] else []) + Flatten(Tier(keys[1..], m, prolific), m)
  {
    var rest := Tier(keys[1..], m, prolific);
    var t := Tier(keys, m, prolific);
    if keys[0] in m && InTier(|m[keys[0]]|, prolific) {
      assert t == [keys[0]] + rest;
      assert t[0] == keys[0] && t[1..] == rest;
      assert Flatten(t, m) == m[keys[0]] + Flatten(t[1..], m);
    } else {
      assert t == rest;
    }
  }

  lemma {:induction false} ConcatLength(parts: seq<seq<Song>>, k: int)
    requires forall i :: 0 <= i < |parts| ==> |parts[i]| == k
    ensures |Concat(parts)| == k * |parts|
    decreases |parts|
  {
    if parts != [] {
      ConcatLength(parts[1..], k);
      assert |parts[0]| == k;
    }
  }

  /** The picks, taken together, come from the groups they were taken from. */
  lemma {:induction false} ConcatSub(parts: seq<seq<Song>>, keys: seq<string>, m: map<string, seq<Song>>)
    requires |parts| == |keys|
    requires forall i :: 0 <= i < |keys| ==> keys[i] in m && multiset(parts[i]) <= multiset(m[keys[i]])
    ensures multiset(Concat(parts)) <= multiset(Flatten(keys, m))
    decreases |keys|
  {
    if keys != [] {
      ConcatSub(parts[1..], keys[1..], m);
      assert multiset(parts[0]) <= multiset(m[keys[0]]);
    }
  }

  lemma {:induction false} SongsByAppend(a: seq<Song>, b: seq<Song>, artist: string)
    ensures SongsBy(a + b, artist) == SongsBy(a, artist) + SongsBy(b, artist)
    decreases |b|
  {
    if b == [] {
      assert a + b == a;
    } else {
      var n := |b| - 1;
      var ab := a + b;
      var one := if b[n].artist == artist then [b[n]] else [];
      assert SongsBy(ab, artist) == SongsBy(a + b[..n], artist) + one by {
        assert ab[..|ab| - 1] == a + b[..n] && ab[|ab| - 1] == b[n];
      }
      SongsByAppend(a, b[..n], artist);
      SeqAssoc(SongsBy(a, artist), SongsBy(b[..n], artist), one);
    }
  }

  lemma {:induction false} SongsByOwn(s: seq<Song>, artist: string)
    requires forall i :: 0 <= i < |s| ==> s[i].artist == artist
    ensures SongsBy(s, artist) == s
    decreases |s|
  {
    if s != [] {
      var n := |s| - 1;
      SongsByOwn(s[..n], artist);
      assert s == s[..n] + [s[n]];
    }
  }

  lemma {:induction false} SongsByOther(s: seq<Song>, artist: string)
    requires forall i :: 0 <= i < |s| ==> s[i].artist != artist
    ensures SongsBy(s, artist) == []
    decreases |s|
  {
    if s != [] {
      SongsByOther(s[..|s| - 1], artist);
    }
  }

  /** A pick drawn from the group of `owner` holds only songs of `owner`. */
  lemma PickArtists(g: Groups<Song>, pick: seq<Song>, owner: string)
    requires KeyedByArtist(g) && owner in g.members && multiset(pick) <= multiset(g.members[owner])
    ensures forall i :: 0 <= i < |pick| ==> pick[i].artist == owner
  {
    forall i | 0 <= i < |pick| ensures pick[i].artist == owner {
      SubMultisetMember(pick, g.members[owner], pick[i]);
    }
  }

  /** Counting one artist over the prolific picks gives `k` for a prolific
      artist and nothing for any other. */
  lemma {:induction false} ConcatCount(g: Groups<Song>, parts: seq<seq<Song>>, keys: seq<string>, k: int, a: string)
    requires KeyedByArtist(g) && NoDuplicates(keys) && |parts| == |keys|
    requires forall i :: 0 <= i < |keys| ==>
      keys[i] in g.members && |parts[i]| == k && multiset(parts[i]) <= multiset(g.members[keys[i]])
    ensures |SongsBy(Concat(parts), a)| == if a in keys then k else 0
    decreases |keys|
  {
    if keys != [] {
      NoDuplicatesTail(keys);
      ConcatCount(g, parts[1..], keys[1..], k, a);
      SongsByAppend(parts[0], Concat(parts[1..]), a);
      PickArtists(g, parts[0], keys[0]);
      if keys[0] == a {
        SongsByOwn(parts[0], a);
      } else {
        SongsByOther(parts[0], a);
        assert a in keys <==> a in keys[1..];
      }
    }
  }

  /** The selection has `k` songs per prolific artist followed by
      `min(max(1, N / 10), |pool|)` pool songs, `N` being the former. */
  lemma SelectionLength(g: Groups<Song>, k: int, selected: seq<Song>, picks: seq<seq<Song>>)
    requires Selection(g, k, selected, picks)
    ensures var n := k * |Tier(g.order, g.members, true)|;
      |selected| == n + Min(Max(1, n / 10), |Flatten(Tier(g.order, g.members, false), g.members)|)
  {
    ConcatLength(picks, k);
  }

  /** Everything selected comes from the groups, so a selection from songs
      without repeats has no repeats either. */
  lemma SelectionFromInput(g: Groups<Song>, k: int, selected: seq<Song>, picks: seq<seq<Song>>)
    requires Selection(g, k, selected, picks)
    ensures multiset(selected) <= multiset(Items(g))
    ensures NoDuplicates(Items(g)) ==> NoDuplicates(selected)
  {
    SelectionSub(g, k, selected, picks);
    if NoDuplicates(Items(g)) {
      SubMultisetNoDuplicates(selected, Items(g));
    }
  }

  lemma SelectionSub(g: Groups<Song>, k: int, selected: seq<Song>, picks: seq<seq<Song>>)
    requires Selection(g, k, selected, picks)
    ensures multiset(selected) <= multiset(Items(g))
  {
    var prolific := Tier(g.order, g.members, true);
    var pool := Flatten(Tier(g.order, g.members, false), g.members);
    var n := |Concat(picks)|;
    assert multiset(selected[..n]) <= multiset(Flatten(prolific, g.members)) by {
      assert selected[..n] == Concat(picks);
      ConcatSub(picks, prolific, g.members);
    }
    TierItems(g.order, g.members);
    SubMultisetSplit(selected, n, Flatten(prolific, g.members), pool, Items(g));
  }

  /** The pool part of the selection comes from artists with at most five
      songs. */
  lemma SelectionPool(g: Groups<Song>, k: int, selected: seq<Song>, picks: seq<seq<Song>>)
    requires KeyedByArtist(g) && Selection(g, k, selected, picks)
    ensures var n := k * |Tier(g.order, g.members, true)|;
      forall i :: n <= i < |selected| ==>
        selected[i].artist in g.members && |g.members[selected[i].artist]| <= 5
  {
    var n := |Concat(picks)|;
    var sparse := Tier(g.order, g.members, false);
    ConcatLength(picks, k);
    forall i | n <= i < |selected|
      ensures selected[i].artist in g.members && |g.members[selected[i].artist]| <= 5
    {
      var s := selected[i];
      assert s == selected[n..][i - n];
      SubMultisetMember(selected[n..], Flatten(sparse, g.members), s);
      FlattenMember(sparse, g.members, s);
      var b :| b in sparse && b in g.members && s in g.members[b];
      TierMember(g.order, g.members, false, b);
    }
  }

  /** Each prolific artist contributes exactly `k` songs to the selection. */
  lemma SelectionPerArtist(g: Groups<Song>, k: int, selected: seq<Song>, picks: seq<seq<Song>>, a: string)
    requires WellFormed(g) && KeyedByArtist(g) && Selection(g, k, selected, picks)
    requires a in Tier(g.order, g.members, true)
    ensures |SongsBy(selected, a)| == k
  {
    var prolific := Tier(g.order, g.members, true);
    var n := |Concat(picks)|;
    assert |SongsBy(selected[..n], a)| == k by {
      TierNoDuplicates(g.order, g.members, true);
      ConcatCount(g, picks, prolific, k, a);
      assert selected[..n] == Concat(picks);
    }
    assert SongsBy(selected[n..], a) == [] by {
      PoolAvoids(g, k, selected, picks, a);
      forall i | 0 <= i < |selected[n..]| ensures selected[n..][i].artist != a {
        assert selected[n..][i] == selected[n + i];
      }
      SongsByOther(selected[n..], a);
    }
    assert selected == selected[..n] + selected[n..];
    SongsByAppend(selected[..n], selected[n..], a);
  }

  /** No pool song belongs to a prolific artist. */
  lemma PoolAvoids(g: Groups<Song>, k: int, selected: seq<Song>, picks: seq<seq<Song>>, a: string)
    requires WellFormed(g) && KeyedByArtist(g) && Selection(g, k, selected, picks)
    requires a in Tier(g.order, g.members, true)
    ensures forall i :: |Concat(picks)| <= i < |selected| ==> selected[i].artist != a
  {
    SelectionPool(g, k, selected, picks);
    ConcatLength(picks, k);
    TierPartition(g, a);
  }

  // ---------------------------------------------------------------- size budget

  /** The songs `Budget` keeps: the prefix it measures, or `None` when a
      size read raises first. */
  function WithinBudget(songs: seq<Song>, size: map<Path, nat>, cap: int): Option<seq<Song>> {
    match Budget(PathsOf(songs), size, cap)
    case None => None
    case Some(n) => Some(songs[..n])
  }

  /** The loop of `limit_songs_by_size`: add each song while the running
      total stays within the cap, and stop at the first that would not fit.
      `None` stands for the `getsize` call that raises. */
  method TakeWithinBudget(songs: seq<Song>, size: map<Path, nat>, cap: int) returns (r: Option<seq<Song>>)
    ensures r == WithinBudget(songs, size, cap)
  {
    ghost var paths := PathsOf(songs);
    var limited: seq<Song> := [];
    var current := 0;
    var i := 0;
    while i < |songs|
      invariant 0 <= i <= |songs| && limited == songs[..i]
      invariant Budget(paths, size, cap) == match Kept(paths[i..], size, cap, current)
        case None => None
        case Some(n) => Some(n + i)
    {
      assert paths[i..][0] == songs[i].path && paths[i..][1..] == paths[i + 1..];
      if songs[i].path !in size {
        return None;
      }
      var fileSize := size[songs[i].path];
      if current + fileSize <= cap {
        assert songs[..i + 1] == limited + [songs[i]];
        limited := limited + [songs[i]];
        current := current + fileSize;
        i := i + 1;
      } else {
        break;
      }
    }
    if i == |songs| {
      assert paths[i..] == [];
    }
    return Some(limited);
  }

  /** `limit_songs_by_size`: shuffle the caller's list in place, then keep
      the longest prefix of the shuffled order that fits the cap. */
  method LimitSongsBySize(selected: array<Song>, size: map<Path, nat>, cap: int, draws: seq<nat>)
    returns (r: Option<seq<Song>>)
    modifies selected
    ensures multiset(selected[..]) == old(multiset(selected[..]))
    ensures r == WithinBudget(selected[..], size, cap)
  {
    Shuffle(selected, draws);
    r := TakeWithinBudget(selected[..], size, cap);
  }

  /** What the budget keeps is a prefix of the list that fits the cap, and
      the first song that would overflow it, with everything after, is
      dropped. */
  lemma WithinBudgetIsLongestFit(songs: seq<Song>, size: map<Path, nat>, cap: int)
    requires WithinBudget(songs, size, cap).Some?
    ensures var kept := WithinBudget(songs, size, cap).value;
      var paths := PathsOf(songs);
      && kept == songs[..|kept|]
      && Fits(paths, size, cap, |kept|)
      && (|kept| < |songs| ==> songs[|kept|].path in size && !Fits(paths, size, cap, |kept| + 1))
      && (forall m :: |kept| < m <= |songs| ==> !Fits(paths, size, cap, m))
  {
    BudgetIsLongestFit(PathsOf(songs), size, cap);
  }
}
