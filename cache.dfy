/** The song record and the cache file, as the JSON document both scripts
    write: {music_folder, folder_mod_time, songs, ...}. A field that
    `cache_data.get` may find missing is an Option; `Corrupt` stands for a
    file that `json.load` cannot parse. The cache directory is a map from
    cache-file path to its content. */
module Cache {
  import opened Common
  import opened Snapshot

  datatype Song = Song(path: Path, artist: string, title: string)

  datatype CacheFile =
    | Corrupt
    | Stored(folder: Option<Path>, folderModTime: Option<int>, songs: Option<seq<Song>>)

  type CacheDir = map<Path, CacheFile>

  /** What `save_cache` writes: the folder, the watermark and the songs. */
  function Record(folder: Path, watermark: int, songs: seq<Song>): CacheFile {
    Stored(Some(folder), Some(watermark), Some(songs))
  }

  /** `[song["path"] for song in songs]`. */
  function PathsOf(songs: seq<Song>): (r: seq<Path>)
    ensures |r| == |songs|
    ensures forall i :: 0 <= i < |songs| ==> r[i] == songs[i].path
  {
    if songs == [] then [] else [songs[0].path] + PathsOf(songs[1..])
  }

  /** The stored songs whose path still exists, in stored order. */
  function KeepPresent(present: set<Path>, songs: seq<Song>): (r: seq<Song>)
    ensures |r| <= |songs|
  {
    if songs == [] then []
    else
      var n := |songs| - 1;
      KeepPresent(present, songs[..n]) + (if songs[n].path in present then [songs[n]] else [])
  }

  /** What is kept is a stored song whose path exists. */
  lemma {:induction false} KeepPresentSource(present: set<Path>, songs: seq<Song>, s: Song)
    requires s in KeepPresent(present, songs)
    ensures s in songs && s.path in present
    decreases |songs|
  {
    var n := |songs| - 1;
    if s in KeepPresent(present, songs[..n]) {
      KeepPresentSource(present, songs[..n], s);
      assert songs[..n] <= songs;
    }
  }

  /** Nothing that should be kept is lost: every stored song whose path
      exists is kept. */
  lemma {:induction false} KeepPresentComplete(present: set<Path>, songs: seq<Song>, s: Song)
    requires s in songs && s.path in present
    ensures s in KeepPresent(present, songs)
    decreases |songs|
  {
    var n := |songs| - 1;
    if s != songs[n] {
      assert songs == songs[..n] + [songs[n]];
      assert s in songs[..n];
      KeepPresentComplete(present, songs[..n], s);
    }
  }

  /** The positions, in increasing order, of the stored songs whose path
      exists. */
  function PresentIndices(present: set<Path>, songs: seq<Song>): seq<nat> {
    if songs == [] then []
    else
      var n := |songs| - 1;
      PresentIndices(present, songs[..n]) + (if songs[n].path in present then [n] else [])
  }

  /** `KeepPresent` is the subsequence of the stored songs at exactly the
      positions whose path exists, taken in stored order. */
  lemma {:induction false} KeepPresentOrder(present: set<Path>, songs: seq<Song>)
    ensures var r, idx := KeepPresent(present, songs), PresentIndices(present, songs);
      && |idx| == |r|
      && (forall k :: 0 <= k < |idx| ==> idx[k] < |songs| && r[k] == songs[idx[k]])
      && (forall k, l :: 0 <= k < l < |idx| ==> idx[k] < idx[l])
      && (forall i :: 0 <= i < |songs| ==> (songs[i].path in present <==> i in idx))
    decreases |songs|
  {
    if songs != [] {
      var n := |songs| - 1;
      var pre := songs[..n];
      KeepPresentOrder(present, pre);
      var r0, idx0 := KeepPresent(present, pre), PresentIndices(present, pre);
      var r, idx := KeepPresent(present, songs), PresentIndices(present, songs);
      forall k | 0 <= k < |idx| ensures idx[k] < |songs| && r[k] == songs[idx[k]] {
        if k < |idx0| {
          assert idx[k] == idx0[k] && r[k] == r0[k];
          assert pre[idx0[k]] == songs[idx0[k]];
        }
      }
      forall i | 0 <= i < |songs| ensures songs[i].path in present <==> i in idx {
        if i < n {
          assert pre[i] == songs[i];
          assert i in idx0 <==> i in idx;
        }
      }
    }
  }

  predicate AllPresent(present: set<Path>, songs: seq<Song>) {
    forall i :: 0 <= i < |songs| ==> songs[i].path in present
  }

  /** Nothing is lost exactly when every path exists, and then nothing
      changes. This is why comparing the two lengths, as `load_cache` does,
      is an all-or-nothing existence check. */
  lemma KeepPresentAll(present: set<Path>, songs: seq<Song>)
    ensures |KeepPresent(present, songs)| == |songs| <==> AllPresent(present, songs)
    ensures AllPresent(present, songs) ==> KeepPresent(present, songs) == songs
  {
    KeepPresentLength(present, songs);
    if AllPresent(present, songs) {
      KeepPresentUnchanged(present, songs);
    }
  }

  lemma {:induction false} KeepPresentLength(present: set<Path>, songs: seq<Song>)
    ensures |KeepPresent(present, songs)| == |songs| <==> AllPresent(present, songs)
    decreases |songs|
  {
    if songs != [] {
      KeepPresentLength(present, songs[..|songs| - 1]);
      AllPresentSnoc(present, songs);
    }
  }

  lemma {:induction false} KeepPresentUnchanged(present: set<Path>, songs: seq<Song>)
    requires AllPresent(present, songs)
    ensures KeepPresent(present, songs) == songs
    decreases |songs|
  {
    if songs != [] {
      var n := |songs| - 1;
      assert AllPresent(present, songs[..n]) && songs[n].path in present by {
        AllPresentSnoc(present, songs);
      }
      KeepPresentUnchanged(present, songs[..n]);
      assert KeepPresent(present, songs) == songs[..n] + [songs[n]];
      assert songs == songs[..n] + [songs[n]];
    }
  }

  lemma AllPresentSnoc(present: set<Path>, songs: seq<Song>)
    requires songs != []
    ensures AllPresent(present, songs) <==>
      AllPresent(present, songs[..|songs| - 1]) && songs[|songs| - 1].path in present
  {
    var n := |songs| - 1;
    if AllPresent(present, songs[..n]) && songs[n].path in present {
      forall i | 0 <= i < |songs| ensures songs[i].path in present {
        if i < n {
          assert songs[..n][i] == songs[i];
        }
      }
    }
    if AllPresent(present, songs) {
      forall i | 0 <= i < n ensures songs[..n][i].path in present {
        assert songs[..n][i] == songs[i];
      }
    }
  }

  /** Deleting the file of one stored song makes the check fail. */
  lemma KeepPresentAfterDelete(present: set<Path>, songs: seq<Song>, k: nat)
    requires k < |songs|
    ensures |KeepPresent(present - {songs[k].path}, songs)| < |songs|
  {
    KeepPresentAll(present - {songs[k].path}, songs);
  }
}
