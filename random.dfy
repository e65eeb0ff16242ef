/** `random.sample` and `random.shuffle`. The random source is a parameter:
    `draws` are the numbers the generator hands out, each reduced below the
    current bound as `randbelow` does. The contracts hold for every possible
    source, so they say what the calls promise whatever the generator picks;
    the distribution is not modelled. */
module Random {

  /** `random.sample(population, k)`: `k` items taken from distinct positions
      of the population (so a sub-multiset of it). It raises ValueError when
      `k` is negative or larger than the population; callers check that. The
      unused draws are handed back. */
  method Sample<T>(population: seq<T>, k: nat, draws: seq<nat>) returns (s: seq<T>, rest: seq<nat>)
    requires k <= |population|
    ensures |s| == k
    ensures multiset(s) <= multiset(population)
    ensures |draws| >= k ==> rest == draws[k..]
  {
    var pool := population;
    s := [];
    var i := 0;
    while i < k
      invariant 0 <= i <= k
      invariant |s| == i && |pool| == |population| - i
      invariant multiset(s) + multiset(pool) == multiset(population)
    {
      var d := if i < |draws| then draws[i] else 0;
      var j := d % |pool|;
      assert pool == pool[..j] + [pool[j]] + pool[j + 1..];
      s := s + [pool[j]];
      pool := pool[..j] + pool[j + 1..];
      i := i + 1;
    }
    rest := if k <= |draws| then draws[k..] else [];
  }

  /** `random.shuffle(a)`: the Fisher-Yates loop, in place. The array ends as
      a permutation of what it held. */
  method Shuffle<T>(a: array<T>, draws: seq<nat>)
    modifies a
    ensures multiset(a[..]) == old(multiset(a[..]))
  {
    var i := a.Length - 1;
    var used := 0;
    while i >= 1
      invariant -1 <= i < a.Length
      invariant multiset(a[..]) == old(multiset(a[..]))
    {
      var d := if used < |draws| then draws[used] else 0;
      var j := d % (i + 1);
      a[i], a[j] := a[j], a[i];
      used := used + 1;
      i := i - 1;
    }
  }
}
