/** The size budget of `limit_songs_by_size`, shared by both scripts: walk
    the list in order, accept each file while the running total stays at or
    under the cap, and stop at the first file that would exceed it. There is
    no backtracking: a later, smaller file is never tried. */
module Packing {
  import opened Common
  import opened Snapshot

  /** `1024 ** 3`: the caps are given in GiB. */
  const GIB: int := 1024 * 1024 * 1024

  /** Whether every path of `paths` has a readable size. */
  predicate AllSized(paths: seq<Path>, size: map<Path, nat>) {
    forall i :: 0 <= i < |paths| ==> paths[i] in size
  }

  function Total(paths: seq<Path>, size: map<Path, nat>): nat
    requires AllSized(paths, size)
  {
    if paths == [] then 0
    else
      var n := |paths| - 1;
      Total(paths[..n], size) + size[paths[n]]
  }

  /** The first `m` paths are accepted without an overflow: every size was
      read and, if any was accepted, their total is within the cap. */
  predicate Fits(paths: seq<Path>, size: map<Path, nat>, cap: int, m: nat)
    requires m <= |paths|
  {
    AllSized(paths[..m], size) && (m == 0 || Total(paths[..m], size) <= cap)
  }

  /** The number of paths the loop accepts after `used` bytes, or `None`
      when `os.path.getsize` raises on a file the loop reaches. */
  function Kept(paths: seq<Path>, size: map<Path, nat>, cap: int, used: int): (r: Option<nat>)
    ensures r.Some? ==> r.value <= |paths|
    decreases |paths|
  {
    if paths == [] then Some(0)
    else if paths[0] !in size then None
    else if used + size[paths[0]] <= cap then
      match Kept(paths[1..], size, cap, used + size[paths[0]])
      case None => None
      case Some(n) => Some(n + 1)
    else Some(0)
  }

  /** What `limit_songs_by_size` keeps of `paths`: a prefix length. */
  function Budget(paths: seq<Path>, size: map<Path, nat>, cap: int): (r: Option<nat>)
    ensures r.Some? ==> r.value <= |paths|
  {
    Kept(paths, size, cap, 0)
  }

  lemma TotalSnoc(paths: seq<Path>, size: map<Path, nat>, i: nat)
    requires i < |paths| && AllSized(paths[..i + 1], size)
    ensures AllSized(paths[..i], size)
    ensures Total(paths[..i + 1], size) == Total(paths[..i], size) + size[paths[i]]
  {
    assert paths[..i + 1][..i] == paths[..i];
  }

  lemma {:induction false} TotalMonotone(paths: seq<Path>, size: map<Path, nat>, i: nat, j: nat)
    requires i <= j <= |paths| && AllSized(paths[..j], size)
    ensures AllSized(paths[..i], size) && Total(paths[..i], size) <= Total(paths[..j], size)
    decreases j - i
  {
    if i < j {
      TotalSnoc(paths, size, j - 1);
      TotalMonotone(paths, size, i, j - 1);
    }
  }

  /** `Budget` is the longest prefix that fits: the first `n` paths fit and,
      if some path is left, adding it overflows the cap. No longer prefix
      fits. The first overflow and everything after it are dropped. */
  lemma {:induction false} BudgetIsLongestFit(paths: seq<Path>, size: map<Path, nat>, cap: int)
    requires Budget(paths, size, cap).Some?
    ensures var n := Budget(paths, size, cap).value;
      && n <= |paths|
      && Fits(paths, size, cap, n)
      && (n < |paths| ==> paths[n] in size && !Fits(paths, size, cap, n + 1))
      && (forall m :: n < m <= |paths| ==> !Fits(paths, size, cap, m))
  {
    KeptIsLongestFit(paths, size, cap, 0);
    var n := Budget(paths, size, cap).value;
    forall m | n < m <= |paths| ensures !Fits(paths, size, cap, m) {
      if Fits(paths, size, cap, m) {
        TotalMonotone(paths, size, n + 1, m);
        assert false;
      }
    }
  }

  lemma KeptIsLongestFit(paths: seq<Path>, size: map<Path, nat>, cap: int, i: nat)
    requires i <= |paths| && Fits(paths, size, cap, i)
    requires Kept(paths[i..], size, cap, Total(paths[..i], size)).Some?
    ensures var n := i + Kept(paths[i..], size, cap, Total(paths[..i], size)).value;
      && n <= |paths|
      && Fits(paths, size, cap, n)
      && (n < |paths| ==> paths[n] in size && !Fits(paths, size, cap, n + 1))
  {
    KeptFits(paths, size, cap, i);
    KeptOverflows(paths, size, cap, i);
  }

  /** The accepted prefix fits. */
  lemma {:induction false} KeptFits(paths: seq<Path>, size: map<Path, nat>, cap: int, i: nat)
    requires i <= |paths| && Fits(paths, size, cap, i)
    requires Kept(paths[i..], size, cap, Total(paths[..i], size)).Some?
    ensures var n := i + Kept(paths[i..], size, cap, Total(paths[..i], size)).value;
      n <= |paths| && Fits(paths, size, cap, n)
    decreases |paths| - i
  {
    if i < |paths| {
      KeptStep(paths, size, cap, i);
      if Total(paths[..i + 1], size) <= cap {
        KeptFits(paths, size, cap, i + 1);
      }
    } else {
      assert paths[i..] == [];
    }
  }

  /** The path after the accepted prefix, if any, has a size and overflows. */
  lemma {:induction false} KeptOverflows(paths: seq<Path>, size: map<Path, nat>, cap: int, i: nat)
    requires i <= |paths| && Fits(paths, size, cap, i)
    requires Kept(paths[i..], size, cap, Total(paths[..i], size)).Some?
    ensures var n := i + Kept(paths[i..], size, cap, Total(paths[..i], size)).value;
      n < |paths| ==> paths[n] in size && !Fits(paths, size, cap, n + 1)
    decreases |paths| - i
  {
    if i < |paths| {
      KeptStep(paths, size, cap, i);
      if Total(paths[..i + 1], size) <= cap {
        KeptOverflows(paths, size, cap, i + 1);
      }
    } else {
      assert paths[i..] == [];
    }
  }

  /** One step of the loop: the next size is read and either accepted, the
      count growing by one, or it overflows and the count is zero. */
  lemma KeptStep(paths: seq<Path>, size: map<Path, nat>, cap: int, i: nat)
    requires i < |paths| && Fits(paths, size, cap, i)
    requires Kept(paths[i..], size, cap, Total(paths[..i], size)).Some?
    ensures paths[i] in size && AllSized(paths[..i + 1], size)
    ensures Total(paths[..i + 1], size) == Total(paths[..i], size) + size[paths[i]]
    ensures var now := Kept(paths[i..], size, cap, Total(paths[..i], size));
      var next := Total(paths[..i + 1], size);
      && (next <= cap ==> Kept(paths[i + 1..], size, cap, next).Some? &&
                          now.value == Kept(paths[i + 1..], size, cap, next).value + 1)
      && (next > cap ==> now.value == 0)
  {
    var rest := paths[i..];
    assert rest[0] == paths[i] && rest[1..] == paths[i + 1..];
    assert AllSized(paths[..i + 1], size) by {
      assert forall k :: 0 <= k < i ==> paths[..i + 1][k] == paths[..i][k];
    }
    TotalSnoc(paths, size, i);
  }

  /** `Budget` is `None` only when the loop reaches a file whose size cannot
      be read while everything before it still fits. */
  lemma {:induction false} BudgetError(paths: seq<Path>, size: map<Path, nat>, cap: int)
    requires Budget(paths, size, cap).None?
    ensures exists j :: 0 <= j < |paths| && paths[j] !in size && Fits(paths, size, cap, j)
  {
    KeptError(paths, size, cap, 0);
  }

  lemma {:induction false} KeptError(paths: seq<Path>, size: map<Path, nat>, cap: int, i: nat)
    requires i <= |paths| && Fits(paths, size, cap, i)
    requires Kept(paths[i..], size, cap, Total(paths[..i], size)).None?
    ensures exists j :: i <= j < |paths| && paths[j] !in size && Fits(paths, size, cap, j)
    decreases |paths| - i
  {
    assert paths[i..][0] == paths[i] && paths[i..][1..] == paths[i + 1..];
    if paths[i] in size {
      assert AllSized(paths[..i + 1], size) by {
        assert forall k :: 0 <= k < i ==> paths[..i + 1][k] == paths[..i][k];
      }
      TotalSnoc(paths, size, i);
      KeptError(paths, size, cap, i + 1);
    }
  }

  /** A worked example: sizes 3, 4, 5 and 1 GiB under an
      8 GiB cap keep the first two, 7 GiB in all. */
  lemma BudgetExample()
    ensures var g := 1024 * 1024 * 1024;
      var size := map["a" := 3 * g, "b" := 4 * g, "c" := 5 * g, "d" := 1 * g];
      Budget(["a", "b", "c", "d"], size, 8 * g) == Some(2)
      && Total(["a", "b"], size) == 7 * g
  {
    var g := 1024 * 1024 * 1024;
    var size := map["a" := 3 * g, "b" := 4 * g, "c" := 5 * g, "d" := 1 * g];
    var p := ["a", "b", "c", "d"];
    assert p[1..] == ["b", "c", "d"] && p[1..][1..] == ["c", "d"];
    assert Kept(["c", "d"], size, 8 * g, 7 * g) == Some(0);
    assert ["a", "b"][..1] == ["a"] && ["a"][..0] == [];
  }
}
