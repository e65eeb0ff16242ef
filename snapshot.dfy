/** An abstract, frozen view of the filesystem as the two scripts observe
    it: what `os.walk` yields for a folder, and the answers of
    `os.path.getmtime`, `os.path.getsize`, `os.path.exists` and the ID3 tag
    reader for each path. A path missing from one of the maps is a path for
    which that call raises. The folder watermark is defined here, once, since
    both scripts compute it with the same loop. */
module Snapshot {
  import opened Common

  type Path = string

  /** One step of `os.walk`: a directory and the names of its files. */
  datatype Dir = Dir(root: Path, files: seq<string>)

  /** What the ID3 reader finds: each field is absent (`None`) or the list of
      values stored under it, which may be empty. */
  datatype Id3 = Id3(artist: Option<seq<string>>, title: Option<seq<string>>)

  /** `tags.get(key, [default])[0]`: the default when the field is absent,
      the first value otherwise, and `None` (an IndexError) when the stored
      list is empty. */
  function FirstValue(field: Option<seq<string>>, default: string): Option<string> {
    match field
    case None => Some(default)
    case Some(vs) => if vs == [] then None else Some(vs[0])
  }

  datatype FileSystem = FileSystem(
    walks: map<Path, seq<Dir>>,  // os.walk(folder); a folder without an entry yields nothing
    mtime: map<Path, int>,       // os.path.getmtime; no entry: it raises
    size: map<Path, nat>,        // os.path.getsize; no entry: it raises
    present: set<Path>,          // os.path.exists
    tags: map<Path, Id3>)        // EasyID3(path); no entry: it raises

  /** `os.path.join(root, name)`. */
  function Join(root: Path, name: string): Path {
    root + "/" + name
  }

  /** A joined path ends with the file name. */
  lemma JoinEndsWith(root: Path, name: string)
    ensures EndsWith(Join(root, name), name)
  {
    var p := Join(root, name);
    assert p[|p| - |name|..] == name;
  }

  function WalkOf(fs: FileSystem, folder: Path): seq<Dir> {
    if folder in fs.walks then fs.walks[folder] else []
  }

  /** How a file name is tested for the `.mp3` extension: `name.endswith`
      as it is, or after `name.lower()`. */
  datatype Match = Exact | IgnoreCase

  /** `name.endswith('.mp3')` (`Exact`) or `name.lower().endswith('.mp3')`
      (`IgnoreCase`), written on the last four characters; `IsMp3NameSpec`
      ties it to `EndsWith` and `Lower`. */
  predicate IsMp3Name(name: string, m: Match) {
    |name| >= 4 && Fold(name[|name| - 4], m) == '.' && Fold(name[|name| - 3], m) == 'm' &&
    Fold(name[|name| - 2], m) == 'p' && Fold(name[|name| - 1], m) == '3'
  }

  /** One character as the test sees it. */
  function Fold(c: char, m: Match): char {
    if m == Exact then c else LowerChar(c)
  }

  lemma IsMp3NameSpec(name: string, m: Match)
    ensures IsMp3Name(name, m) <==> EndsWith(if m == Exact then name else Lower(name), ".mp3")
  {
    var s := if m == Exact then name else Lower(name);
    if |name| >= 4 {
      var k := |name| - 4;
      var t := s[k..];
      assert t[0] == Fold(name[k], m) && t[1] == Fold(name[k + 1], m) &&
             t[2] == Fold(name[k + 2], m) && t[3] == Fold(name[k + 3], m) by {
        LowerAt(name);
      }
      Mp3Suffix(t);
    }
  }

  lemma Mp3Suffix(t: string)
    requires |t| == 4
    ensures t == ".mp3" <==> t[0] == '.' && t[1] == 'm' && t[2] == 'p' && t[3] == '3'
  {
    if t[0] == '.' && t[1] == 'm' && t[2] == 'p' && t[3] == '3' {
      assert t == [t[0], t[1], t[2], t[3]];
    }
  }

  lemma ExactImpliesIgnoreCase(name: string)
    requires IsMp3Name(name, Exact)
    ensures IsMp3Name(name, IgnoreCase)
  {
  }

  /** The two tests differ: an upper-case extension passes only one of them. */
  lemma UpperCaseExtension()
    ensures IsMp3Name("a.MP3", IgnoreCase) && !IsMp3Name("a.MP3", Exact)
  {
  }

  /** The paths of the `.mp3` files of one directory, in listing order. */
  function DirMp3s(root: Path, files: seq<string>, m: Match): (r: seq<Path>)
    ensures |r| <= |files|
  {
    if files == [] then []
    else
      var last := files[|files| - 1];
      DirMp3s(root, files[..|files| - 1], m) + (if IsMp3Name(last, m) then [Join(root, last)] else [])
  }

  /** The paths of every `.mp3` file met by the walk, in walk order. */
  function Mp3Paths(walk: seq<Dir>, m: Match): seq<Path> {
    if walk == [] then []
    else
      var last := walk[|walk| - 1];
      Mp3Paths(walk[..|walk| - 1], m) + DirMp3s(last.root, last.files, m)
  }

  lemma {:induction false} DirMp3sAppend(root: Path, a: seq<string>, b: seq<string>, m: Match)
    ensures DirMp3s(root, a + b, m) == DirMp3s(root, a, m) + DirMp3s(root, b, m)
    decreases |b|
  {
    if b == [] {
      assert a + b == a;
    } else {
      var n := |b| - 1;
      var ab := a + b;
      var one := if IsMp3Name(b[n], m) then [Join(root, b[n])] else [];
      assert DirMp3s(root, ab, m) == DirMp3s(root, a + b[..n], m) + one by {
        assert ab[..|ab| - 1] == a + b[..n] && ab[|ab| - 1] == b[n];
      }
      DirMp3sAppend(root, a, b[..n], m);
      SeqAssoc(DirMp3s(root, a, m), DirMp3s(root, b[..n], m), one);
    }
  }

  lemma {:induction false} Mp3PathsAppend(a: seq<Dir>, b: seq<Dir>, m: Match)
    ensures Mp3Paths(a + b, m) == Mp3Paths(a, m) + Mp3Paths(b, m)
    decreases |b|
  {
    if b == [] {
      assert a + b == a;
    } else {
      var n := |b| - 1;
      var ab := a + b;
      var last := DirMp3s(b[n].root, b[n].files, m);
      assert Mp3Paths(ab, m) == Mp3Paths(a + b[..n], m) + last by {
        assert ab[..|ab| - 1] == a + b[..n] && ab[|ab| - 1] == b[n];
      }
      Mp3PathsAppend(a, b[..n], m);
      SeqAssoc(Mp3Paths(a, m), Mp3Paths(b[..n], m), last);
    }
  }

  /** Cutting the walk inside directory `i`, after its first `j` files. */
  lemma Mp3PathsSplit(walk: seq<Dir>, i: nat, j: nat, m: Match)
    requires i < |walk| && j <= |walk[i].files|
    ensures Mp3Paths(walk, m)
         == Mp3Paths(walk[..i], m) + DirMp3s(walk[i].root, walk[i].files[..j], m)
          + DirMp3s(walk[i].root, walk[i].files[j..], m) + Mp3Paths(walk[i + 1..], m)
  {
    var d := walk[i];
    var before, after := Mp3Paths(walk[..i], m), Mp3Paths(walk[i + 1..], m);
    assert Mp3Paths(walk, m) == before + DirMp3s(d.root, d.files, m) + after by {
      SplitAround(walk, i);
      Mp3PathsAppend(walk[..i] + [d], walk[i + 1..], m);
      Mp3PathsAppend(walk[..i], [d], m);
      Mp3PathsSingle(d, m);
    }
    var x, y := DirMp3s(d.root, d.files[..j], m), DirMp3s(d.root, d.files[j..], m);
    assert DirMp3s(d.root, d.files, m) == x + y by {
      SplitAround(d.files, j);
      DirMp3sAppend(d.root, d.files[..j], d.files[j..], m);
    }
    SeqAssoc(before, x, y);
  }

  lemma SplitAround<T>(s: seq<T>, i: nat)
    requires i <= |s|
    ensures i < |s| ==> s == (s[..i] + [s[i]]) + s[i + 1..]
    ensures s == s[..i] + s[i..]
  {
  }

  lemma Mp3PathsSingle(d: Dir, m: Match)
    ensures Mp3Paths([d], m) == DirMp3s(d.root, d.files, m)
  {
    assert [d][..0] == [];
  }

  /** A path is collected exactly when some directory of the walk lists a
      file with the extension whose joined path it is. */
  lemma Mp3PathsMember(walk: seq<Dir>, m: Match, p: Path)
    ensures p in Mp3Paths(walk, m) <==>
      exists i, j :: 0 <= i < |walk| && 0 <= j < |walk[i].files| &&
        IsMp3Name(walk[i].files[j], m) && p == Join(walk[i].root, walk[i].files[j])
  {
    if p in Mp3Paths(walk, m) {
      Mp3PathsSource(walk, m, p);
    }
    if exists i, j :: 0 <= i < |walk| && 0 <= j < |walk[i].files| &&
        IsMp3Name(walk[i].files[j], m) && p == Join(walk[i].root, walk[i].files[j]) {
      var i, j :| 0 <= i < |walk| && 0 <= j < |walk[i].files| &&
        IsMp3Name(walk[i].files[j], m) && p == Join(walk[i].root, walk[i].files[j]);
      Mp3PathsCollects(walk, m, i, j);
    }
  }

  /** Every collected path comes from a file of the walk with the extension. */
  lemma {:induction false} Mp3PathsSource(walk: seq<Dir>, m: Match, p: Path)
    requires p in Mp3Paths(walk, m)
    ensures exists i, j :: 0 <= i < |walk| && 0 <= j < |walk[i].files| &&
                           IsMp3Name(walk[i].files[j], m) && p == Join(walk[i].root, walk[i].files[j])
    decreases |walk|
  {
    var n := |walk| - 1;
    DirMp3sMember(walk[n].root, walk[n].files, m, p);
    if p in Mp3Paths(walk[..n], m) {
      Mp3PathsSource(walk[..n], m, p);
      var i, j :| 0 <= i < n && 0 <= j < |walk[..n][i].files| &&
        IsMp3Name(walk[..n][i].files[j], m) && p == Join(walk[..n][i].root, walk[..n][i].files[j]);
      assert walk[..n][i] == walk[i];
    } else {
      var j :| 0 <= j < |walk[n].files| && IsMp3Name(walk[n].files[j], m) && p == Join(walk[n].root, walk[n].files[j]);
    }
  }

  /** Every file of the walk with the extension is collected. */
  lemma {:induction false} Mp3PathsCollects(walk: seq<Dir>, m: Match, i: nat, j: nat)
    requires i < |walk| && j < |walk[i].files| && IsMp3Name(walk[i].files[j], m)
    ensures Join(walk[i].root, walk[i].files[j]) in Mp3Paths(walk, m)
    decreases |walk|
  {
    var n := |walk| - 1;
    var p := Join(walk[i].root, walk[i].files[j]);
    var last := DirMp3s(walk[n].root, walk[n].files, m);
    assert Mp3Paths(walk, m) == Mp3Paths(walk[..n], m) + last;
    if i < n {
      var d := walk[..n][i];
      assert d == walk[i];
      Mp3PathsCollects(walk[..n], m, i, j);
      assert p in Mp3Paths(walk[..n], m);
    } else {
      DirMp3sCollects(walk[n].root, walk[n].files, m, j);
      assert p in last;
    }
  }

  /** Every file of a directory with the extension is collected. */
  lemma {:induction false} DirMp3sCollects(root: Path, files: seq<string>, m: Match, j: nat)
    requires j < |files| && IsMp3Name(files[j], m)
    ensures Join(root, files[j]) in DirMp3s(root, files, m)
    decreases |files|
  {
    var n := |files| - 1;
    var p := Join(root, files[j]);
    DirMp3sLast(root, files, m);
    if j < n {
      assert files[..n][j] == files[j];
      DirMp3sCollects(root, files[..n], m, j);
      assert p in DirMp3s(root, files[..n], m);
    } else {
      assert files[n] == files[j];
    }
  }

  /** `DirMp3s` taken apart at its last file. */
  lemma DirMp3sLast(root: Path, files: seq<string>, m: Match)
    requires files != []
    ensures var n := |files| - 1;
      && DirMp3s(root, files, m) == DirMp3s(root, files[..n], m) + (if IsMp3Name(files[n], m) then [Join(root, files[n])] else [])
      && (IsMp3Name(files[n], m) ==> Join(root, files[n]) in DirMp3s(root, files, m))
      && (forall p :: p in DirMp3s(root, files[..n], m) ==> p in DirMp3s(root, files, m))
  {
  }

  lemma {:induction false} DirMp3sMember(root: Path, files: seq<string>, m: Match, p: Path)
    ensures p in DirMp3s(root, files, m) <==>
      exists j :: 0 <= j < |files| && IsMp3Name(files[j], m) && p == Join(root, files[j])
    decreases |files|
  {
    if files != [] {
      var n := |files| - 1;
      DirMp3sMember(root, files[..n], m, p);
      if p in DirMp3s(root, files, m) {
        if p in DirMp3s(root, files[..n], m) {
          var j :| 0 <= j < n && IsMp3Name(files[..n][j], m) && p == Join(root, files[..n][j]);
          assert files[..n][j] == files[j];
        }
      } else {
        forall j | 0 <= j < |files| && IsMp3Name(files[j], m) ensures p != Join(root, files[j]) {
          if j < n {
            assert files[..n][j] == files[j];
          }
        }
      }
    }
  }

  // ---- The folder watermark -------------------------------------------

  /** Whether the file `name` of directory `root` takes part in the
      watermark: it has the extension in any case and its mtime can be read. */
  predicate Stamped(fs: FileSystem, root: Path, name: string) {
    IsMp3Name(name, IgnoreCase) && Join(root, name) in fs.mtime
  }

  /** The running maximum over the `.mp3` files of one directory; files whose
      mtime cannot be read are skipped. */
  function FilesMax(fs: FileSystem, root: Path, files: seq<string>, acc: int): int
    decreases |files|
  {
    if files == [] then acc
    else
      var a := if Stamped(fs, root, files[0]) && fs.mtime[Join(root, files[0])] > acc
               then fs.mtime[Join(root, files[0])] else acc;
      FilesMax(fs, root, files[1..], a)
  }

  /** The running maximum over the walk; `None` when the mtime of a walked
      directory cannot be read, which in the command-line script escapes as
      an exception. */
  function DirsMax(fs: FileSystem, walk: seq<Dir>, acc: int): Option<int>
    decreases |walk|
  {
    if walk == [] then Some(acc)
    else if walk[0].root !in fs.mtime then None
    else
      var d := walk[0];
      var a := if fs.mtime[d.root] > acc then fs.mtime[d.root] else acc;
      DirsMax(fs, walk[1..], FilesMax(fs, d.root, d.files, a))
  }

  /** The watermark of a folder, starting from 0. */
  function Watermark(fs: FileSystem, folder: Path): Option<int> {
    DirsMax(fs, WalkOf(fs, folder), 0)
  }

  lemma {:induction false} FilesMaxIsMax(fs: FileSystem, root: Path, files: seq<string>, acc: int)
    ensures FilesMax(fs, root, files, acc) >= acc
    ensures forall j :: 0 <= j < |files| && Stamped(fs, root, files[j]) ==>
      fs.mtime[Join(root, files[j])] <= FilesMax(fs, root, files, acc)
    ensures FilesMax(fs, root, files, acc) == acc ||
      exists j :: 0 <= j < |files| && Stamped(fs, root, files[j]) &&
        FilesMax(fs, root, files, acc) == fs.mtime[Join(root, files[j])]
    decreases |files|
  {
    if files != [] {
      var a := if Stamped(fs, root, files[0]) && fs.mtime[Join(root, files[0])] > acc
               then fs.mtime[Join(root, files[0])] else acc;
      FilesMaxIsMax(fs, root, files[1..], a);
      var r := FilesMax(fs, root, files, acc);
      forall j | 0 <= j < |files| && Stamped(fs, root, files[j])
        ensures fs.mtime[Join(root, files[j])] <= r
      {
        if j > 0 {
          assert files[j] == files[1..][j - 1];
        }
      }
      if r != acc && r != a {
        var j :| 0 <= j < |files[1..]| && Stamped(fs, root, files[1..][j]) &&
          r == fs.mtime[Join(root, files[1..][j])];
        assert files[1..][j] == files[j + 1];
      }
    }
  }

  /** The watermark as a maximum: it is `None` exactly when a walked
      directory has no readable mtime; otherwise it is at least 0, at least
      the mtime of every walked directory and of every stamped `.mp3` file,
      and it is 0 or one of those mtimes. */
  lemma {:induction false} DirsMaxIsMax(fs: FileSystem, walk: seq<Dir>, acc: int)
    ensures DirsMax(fs, walk, acc).Some? <==> forall i :: 0 <= i < |walk| ==> walk[i].root in fs.mtime
    ensures DirsMax(fs, walk, acc).Some? ==>
      var w := DirsMax(fs, walk, acc).value;
      && w >= acc
      && (forall i :: 0 <= i < |walk| ==> fs.mtime[walk[i].root] <= w)
      && (forall i, j :: 0 <= i < |walk| && 0 <= j < |walk[i].files| && Stamped(fs, walk[i].root, walk[i].files[j]) ==>
            fs.mtime[Join(walk[i].root, walk[i].files[j])] <= w)
      && (w == acc
          || (exists i :: 0 <= i < |walk| && w == fs.mtime[walk[i].root])
          || (exists i, j :: 0 <= i < |walk| && 0 <= j < |walk[i].files| && Stamped(fs, walk[i].root, walk[i].files[j]) &&
                w == fs.mtime[Join(walk[i].root, walk[i].files[j])]))
  {
    DirsMaxDefined(fs, walk, acc);
    if DirsMax(fs, walk, acc).Some? {
      DirsMaxBounds(fs, walk, acc);
      DirsMaxAttained(fs, walk, acc);
    }
  }

  /** The walk has a watermark exactly when every directory has an mtime. */
  lemma {:induction false} DirsMaxDefined(fs: FileSystem, walk: seq<Dir>, acc: int)
    ensures DirsMax(fs, walk, acc).Some? <==> forall i :: 0 <= i < |walk| ==> walk[i].root in fs.mtime
    decreases |walk|
  {
    if walk != [] && walk[0].root in fs.mtime {
      var d := walk[0];
      var a := if fs.mtime[d.root] > acc then fs.mtime[d.root] else acc;
      DirsMaxDefined(fs, walk[1..], FilesMax(fs, d.root, d.files, a));
      if DirsMax(fs, walk, acc).None? {
        var i :| 0 <= i < |walk[1..]| && walk[1..][i].root !in fs.mtime;
        assert walk[i + 1].root !in fs.mtime;
      } else {
        forall i | 0 < i < |walk| ensures walk[i].root in fs.mtime {
          assert walk[i] == walk[1..][i - 1];
        }
      }
    }
  }

  /** The watermark is at least the start value and every mtime met. */
  lemma {:induction false} DirsMaxBounds(fs: FileSystem, walk: seq<Dir>, acc: int)
    requires forall i :: 0 <= i < |walk| ==> walk[i].root in fs.mtime
    ensures DirsMax(fs, walk, acc).Some?
    ensures var w := DirsMax(fs, walk, acc).value;
      && w >= acc
      && (forall i :: 0 <= i < |walk| ==> fs.mtime[walk[i].root] <= w)
      && (forall i, j :: 0 <= i < |walk| && 0 <= j < |walk[i].files| && Stamped(fs, walk[i].root, walk[i].files[j]) ==>
            fs.mtime[Join(walk[i].root, walk[i].files[j])] <= w)
    decreases |walk|
  {
    DirsMaxDefined(fs, walk, acc);
    if walk != [] {
      var d := walk[0];
      var a := if fs.mtime[d.root] > acc then fs.mtime[d.root] else acc;
      var b := FilesMax(fs, d.root, d.files, a);
      FilesMaxIsMax(fs, d.root, d.files, a);
      forall i | 0 <= i < |walk[1..]| ensures walk[1..][i].root in fs.mtime {
        assert walk[1..][i] == walk[i + 1];
      }
      DirsMaxBounds(fs, walk[1..], b);
      var w := DirsMax(fs, walk, acc).value;
      assert DirsMax(fs, walk, acc) == DirsMax(fs, walk[1..], b);
      forall i | 0 < i < |walk| ensures walk[i] == walk[1..][i - 1] { }
    }
  }

  /** The watermark is the start value or one of the mtimes met. */
  lemma {:induction false} DirsMaxAttained(fs: FileSystem, walk: seq<Dir>, acc: int)
    requires forall i :: 0 <= i < |walk| ==> walk[i].root in fs.mtime
    ensures DirsMax(fs, walk, acc).Some?
    ensures var w := DirsMax(fs, walk, acc).value;
      || w == acc
      || (exists i :: 0 <= i < |walk| && w == fs.mtime[walk[i].root])
      || (exists i, j :: 0 <= i < |walk| && 0 <= j < |walk[i].files| && Stamped(fs, walk[i].root, walk[i].files[j]) &&
            w == fs.mtime[Join(walk[i].root, walk[i].files[j])])
    decreases |walk|
  {
    if walk != [] {
      var d := walk[0];
      var a := if fs.mtime[d.root] > acc then fs.mtime[d.root] else acc;
      var b := FilesMax(fs, d.root, d.files, a);
      FilesMaxIsMax(fs, d.root, d.files, a);
      assert DirsMax(fs, walk, acc) == DirsMax(fs, walk[1..], b);
      forall i | 0 <= i < |walk[1..]| ensures walk[1..][i].root in fs.mtime {
        assert walk[1..][i] == walk[i + 1];
      }
      DirsMaxAttained(fs, walk[1..], b);
      var w := DirsMax(fs, walk, acc).value;
      if w != acc {
        if w == b {
          if b != a {
            var j :| 0 <= j < |d.files| && Stamped(fs, d.root, d.files[j]) && b == fs.mtime[Join(d.root, d.files[j])];
            assert walk[0].files[j] == d.files[j];
          } else {
            assert w == fs.mtime[walk[0].root];
          }
        } else if exists i :: 0 <= i < |walk[1..]| && w == fs.mtime[walk[1..][i].root] {
          var i :| 0 <= i < |walk[1..]| && w == fs.mtime[walk[1..][i].root];
          assert walk[1..][i] == walk[i + 1];
        } else {
          var i, j :| 0 <= i < |walk[1..]| && 0 <= j < |walk[1..][i].files| && Stamped(fs, walk[1..][i].root, walk[1..][i].files[j]) &&
            w == fs.mtime[Join(walk[1..][i].root, walk[1..][i].files[j])];
          assert walk[1..][i] == walk[i + 1];
        }
      }
    }
  }


  /** Raising one `.mp3` file's mtime above the old watermark raises the
      watermark above it too: the watermark notices every touched file. */
  lemma TouchRaisesWatermark(fs: FileSystem, folder: Path, i: nat, j: nat, t: int)
    requires i < |WalkOf(fs, folder)| && j < |WalkOf(fs, folder)[i].files|
    requires IsMp3Name(WalkOf(fs, folder)[i].files[j], IgnoreCase)
    requires Watermark(fs, folder).Some? && t > Watermark(fs, folder).value
    ensures var fs' := fs.(mtime := fs.mtime[Join(WalkOf(fs, folder)[i].root, WalkOf(fs, folder)[i].files[j]) := t]);
      Watermark(fs', folder).Some? && Watermark(fs', folder).value >= t
  {
    var walk := WalkOf(fs, folder);
    var p := Join(walk[i].root, walk[i].files[j]);
    var fs' := fs.(mtime := fs.mtime[p := t]);
    assert WalkOf(fs', folder) == walk;
    DirsMaxIsMax(fs, walk, 0);
    DirsMaxIsMax(fs', walk, 0);
    assert Stamped(fs', walk[i].root, walk[i].files[j]);
  }
}
