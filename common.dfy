/** Small value-level helpers shared by both scripts: an Option type, the
    Python slice `s[:n]` and the "truthy limit" idiom, ASCII case folding,
    suffix tests, counting and duplicate-freedom on sequences. */
module Common {

  datatype Option<+T> = None | Some(value: T) {
    /** `dict.get(key, default)` once the lookup has produced an Option. */
    function GetOr(default: T): T {
      match this
      case Some(v) => v
      case None => default
    }
  }

  /** Python's `s[:n]` for an integer `n`: a non-negative `n` keeps the first
      `n` items (all of them when `n` is too large), a negative `n` drops the
      last `-n` items. */
  function SlicePrefix<T>(s: seq<T>, n: int): (r: seq<T>)
    ensures n >= 0 ==> |r| == if n < |s| then n else |s|
    ensures n < 0 ==> |r| == if |s| + n > 0 then |s| + n else 0
    ensures |r| <= |s| && r == s[..|r|]
  {
    if n >= 0 then (if n < |s| then s[..n] else s)
    else if |s| + n > 0 then s[..|s| + n] else []
  }

  /** `if limit: s = s[:limit]`: a zero (or absent) limit keeps everything. */
  function LimitTo<T>(s: seq<T>, limit: int): (r: seq<T>)
    ensures |r| <= |s| && r == s[..|r|]
    ensures limit == 0 ==> r == s
    ensures limit > 0 ==> |r| <= limit
    ensures limit > 0 && limit <= |s| ==> |r| == limit
  {
    if limit == 0 then s else SlicePrefix(s, limit)
  }

  predicate IsUpper(c: char) { 'A' <= c <= 'Z' }

  function LowerChar(c: char): (r: char)
    ensures !IsUpper(r)
    ensures !IsUpper(c) ==> r == c
  {
    if IsUpper(c) then (c as int - 'A' as int + 'a' as int) as char else c
  }

  /** Case folding of the ASCII letters, which is what `str.lower` does on
      ASCII text. */
  function Lower(s: string): (r: string)
    ensures |r| == |s|
  {
    if s == [] then [] else [LowerChar(s[0])] + Lower(s[1..])
  }

  /** Each character of `Lower(s)` is the folded character of `s`. */
  lemma {:induction false} LowerAt(s: string)
    ensures forall i :: 0 <= i < |s| ==> Lower(s)[i] == LowerChar(s[i])
  {
    if s != [] {
      LowerAt(s[1..]);
      forall i | 0 < i < |s| ensures Lower(s)[i] == LowerChar(s[i]) {
        assert Lower(s)[i] == Lower(s[1..])[i - 1];
      }
    }
  }

  /** A lower-cased string has no upper-case letter, and a string without
      one is its own lower case. */
  lemma LowerNoUpper(s: string)
    ensures NoUpper(Lower(s))
    ensures NoUpper(s) ==> Lower(s) == s
  {
    LowerAt(s);
  }

  /** The default artist, lower-cased. */
  lemma LowerUnknown()
    ensures Lower("Unknown") == "unknown" && NoUpper("unknown")
  {
    var s, u := "Unknown", "unknown";
    LowerAt(s);
    var r := Lower(s);
    assert r[0] == LowerChar('U') == 'u';
    assert r == u;
    assert forall i :: 0 <= i < |u| ==> !IsUpper(u[i]);
  }

  predicate NoUpper(s: string) {
    forall i :: 0 <= i < |s| ==> !IsUpper(s[i])
  }

  predicate IsAscii(s: string) {
    forall i :: 0 <= i < |s| ==> s[i] as int < 128
  }

  /** `.encode('ASCII', 'ignore').decode('ASCII')`: drop every non-ASCII
      character, keep the others in order. */
  function AsciiOnly(s: string): string {
    if s == [] then []
    else (if s[0] as int < 128 then [s[0]] else []) + AsciiOnly(s[1..])
  }

  /** What is left is ASCII and no longer than the input. */
  lemma {:induction false} AsciiOnlyIsAscii(s: string)
    ensures IsAscii(AsciiOnly(s)) && |AsciiOnly(s)| <= |s|
  {
    if s != [] {
      AsciiOnlyIsAscii(s[1..]);
      var head := if s[0] as int < 128 then [s[0]] else [];
      var t := AsciiOnly(s[1..]);
      assert AsciiOnly(s) == head + t;
      forall i | 0 <= i < |head + t| ensures (head + t)[i] as int < 128 {
        if i >= |head| {
          assert (head + t)[i] == t[i - |head|];
        }
      }
    }
  }

  /** An ASCII string is kept whole. */
  lemma {:induction false} AsciiOnlyKeeps(s: string)
    requires IsAscii(s)
    ensures AsciiOnly(s) == s
  {
    if s != [] {
      assert IsAscii(s[1..]) by {
        forall i | 0 <= i < |s| - 1 ensures s[1..][i] as int < 128 {
          assert s[1..][i] == s[i + 1];
        }
      }
      AsciiOnlyKeeps(s[1..]);
      assert s == [s[0]] + s[1..];
    }
  }

  lemma LowerKeepsAscii(s: string)
    requires IsAscii(s)
    ensures IsAscii(Lower(s)) && NoUpper(Lower(s))
  {
    var r := Lower(s);
    LowerAt(s);
    forall i | 0 <= i < |r| ensures r[i] as int < 128 {
      assert r[i] == LowerChar(s[i]);
    }
  }

  lemma {:induction false} LowerIdempotent(s: string)
    ensures Lower(Lower(s)) == Lower(s)
  {
    if s != [] {
      LowerIdempotent(s[1..]);
    }
  }

  /** `s.endswith(suffix)`. */
  predicate EndsWith(s: string, suffix: string) {
    |suffix| <= |s| && s[|s| - |suffix|..] == suffix
  }

  lemma EndsWithAppend(prefix: string, s: string, suffix: string)
    requires EndsWith(s, suffix)
    ensures EndsWith(prefix + s, suffix)
  {
    var t := prefix + s;
    assert t[|t| - |suffix|..] == s[|s| - |suffix|..];
  }

  predicate NoDuplicates<T(==)>(s: seq<T>) {
    forall i, j :: 0 <= i < j < |s| ==> s[i] != s[j]
  }

  lemma {:induction false} SubMultisetNoDuplicates<T>(a: seq<T>, b: seq<T>)
    requires multiset(a) <= multiset(b)
    requires NoDuplicates(b)
    ensures NoDuplicates(a)
  {
    forall x | x in multiset(b) ensures multiset(b)[x] == 1 {
      NoDuplicatesCount(b, x);
    }
    forall i, j | 0 <= i < j < |a| ensures a[i] != a[j] {
      RepeatedCount(a, i, j);
    }
  }

  /** Two equal items at distinct positions occur at least twice. */
  lemma RepeatedCount<T>(a: seq<T>, i: nat, j: nat)
    requires i < j < |a|
    ensures a[i] == a[j] ==> multiset(a)[a[i]] >= 2
  {
    var x := a[i];
    var rest := a[..i] + a[i + 1..];
    assert a == a[..i] + [x] + a[i + 1..];
    assert a[j] == rest[j - 1];
    assert multiset(a)[x] == multiset(rest)[x] + 1;
  }

  lemma {:induction false} NoDuplicatesCount<T>(s: seq<T>, x: T)
    requires NoDuplicates(s)
    ensures multiset(s)[x] <= 1
  {
    if s != [] {
      assert s == [s[0]] + s[1..];
      assert NoDuplicates(s[1..]) by {
        forall i, j | 0 <= i < j < |s[1..]| ensures s[1..][i] != s[1..][j] {
          assert s[1..][i] == s[i + 1] && s[1..][j] == s[j + 1];
        }
      }
      NoDuplicatesCount(s[1..], x);
      if s[0] == x {
        assert x !in s[1..] by {
          forall k | 0 <= k < |s[1..]| ensures s[1..][k] != x {
            assert s[1..][k] == s[k + 1];
          }
        }
        assert multiset(s[1..])[x] == 0;
      }
    }
  }

  /** Every element of a sub-multiset is an element of the whole. */
  lemma SubMultisetMember<T>(a: seq<T>, b: seq<T>, x: T)
    requires multiset(a) <= multiset(b) && x in a
    ensures x in b
  {
    assert x in multiset(a);
  }

  lemma SubMultisetAppend<T>(a: seq<T>, b: seq<T>, c: seq<T>, d: seq<T>)
    requires multiset(a) <= multiset(b) && multiset(c) <= multiset(d)
    ensures multiset(a + c) <= multiset(b + d)
  {
  }

  /** A sequence whose two parts come from two pools comes from their union. */
  lemma SubMultisetSplit<T>(s: seq<T>, n: nat, x: seq<T>, y: seq<T>, z: seq<T>)
    requires n <= |s| && multiset(s[..n]) <= multiset(x) && multiset(s[n..]) <= multiset(y)
    requires multiset(x) + multiset(y) == multiset(z)
    ensures multiset(s) <= multiset(z)
  {
    assert s == s[..n] + s[n..];
  }

  lemma MultisetInsert<T>(a: seq<T>, b: seq<T>, x: T)
    ensures multiset((a + [x]) + b) == multiset(a + b) + multiset{x}
  {
  }

  lemma MultisetGrowTail<T>(h: seq<T>, a: seq<T>, b: seq<T>, x: T)
    requires multiset(b) == multiset(a) + multiset{x}
    ensures multiset(h + b) == multiset(h + a) + multiset{x}
  {
  }

  lemma MultisetRegroup<T>(a: multiset<T>, b: multiset<T>, c: multiset<T>, d: multiset<T>)
    ensures (a + b) + (c + d) == (a + c) + (b + d)
  {
  }

  lemma SeqAssoc<T>(a: seq<T>, b: seq<T>, c: seq<T>)
    ensures (a + b) + c == a + (b + c)
  {
  }

  function Min(a: int, b: int): int { if a <= b then a else b }

  function Max(a: int, b: int): int { if a >= b then a else b }

  lemma NoDuplicatesTail<T>(s: seq<T>)
    requires s != [] && NoDuplicates(s)
    ensures NoDuplicates(s[1..]) && s[0] !in s[1..]
  {
    forall i, j | 0 <= i < j < |s[1..]| ensures s[1..][i] != s[1..][j] {
      assert s[1..][i] == s[i + 1] && s[1..][j] == s[j + 1];
    }
    forall i | 0 <= i < |s[1..]| ensures s[1..][i] != s[0] {
      assert s[1..][i] == s[i + 1];
    }
  }

  lemma NoDuplicatesCons<T>(x: T, s: seq<T>)
    requires x !in s && NoDuplicates(s)
    ensures NoDuplicates([x] + s)
  {
    var t := [x] + s;
    forall i, j | 0 <= i < j < |t| ensures t[i] != t[j] {
      assert t[j] == s[j - 1];
      if i > 0 {
        assert t[i] == s[i - 1];
      }
    }
  }
}
