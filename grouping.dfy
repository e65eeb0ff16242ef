/** `groups = defaultdict(list); groups[key].append(x)` over a sequence,
    with the insertion order of the keys that a Python dict keeps. Both
    scripts group this way; they differ in what they use as the key. */
module Grouping {
  import opened Common

  /** A dict from key to list: `order` lists the keys in insertion order. */
  datatype Groups<T> = Groups(order: seq<string>, members: map<string, seq<T>>)

  /** `groups[key].append(x)` on a defaultdict. */
  function Insert<T>(g: Groups<T>, key: string, x: T): Groups<T> {
    if key in g.members then Groups(g.order, g.members[key := g.members[key] + [x]])
    else Groups(g.order + [key], g.members[key := [x]])
  }

  /** The groups built from (key, item) pairs appended in sequence order. */
  function GroupSpec<T>(pairs: seq<(string, T)>): Groups<T> {
    if pairs == [] then Groups([], map[])
    else
      var n := |pairs| - 1;
      Insert(GroupSpec(pairs[..n]), pairs[n].0, pairs[n].1)
  }

  /** The items of the pairs with the given key, in sequence order. */
  function ValuesFor<T>(pairs: seq<(string, T)>, key: string): seq<T> {
    if pairs == [] then []
    else
      var n := |pairs| - 1;
      ValuesFor(pairs[..n], key) + (if pairs[n].0 == key then [pairs[n].1] else [])
  }

  function Values<T>(pairs: seq<(string, T)>): (r: seq<T>)
    ensures |r| == |pairs|
  {
    if pairs == [] then [] else Values(pairs[..|pairs| - 1]) + [pairs[|pairs| - 1].1]
  }

  /** A dict's invariant: each key once, the listed keys are the keys, and
      (for a defaultdict filled by appends) no list is empty. */
  predicate WellFormed<T>(g: Groups<T>) {
    && NoDuplicates(g.order)
    && (forall k :: k in g.members ==> k in g.order)
    && (forall k :: k in g.order ==> k in g.members)
    && (forall k :: k in g.members ==> g.members[k] != [])
  }

  /** The lists of the given keys, concatenated in key order. */
  function Flatten<T>(keys: seq<string>, members: map<string, seq<T>>): seq<T> {
    if keys == [] then []
    else (if keys[0] in members then members[keys[0]] else []) + Flatten(keys[1..], members)
  }

  /** Every grouped item, group by group. */
  function Items<T>(g: Groups<T>): seq<T> {
    Flatten(g.order, g.members)
  }

  lemma {:induction false} FlattenAppend<T>(a: seq<string>, b: seq<string>, m: map<string, seq<T>>)
    ensures Flatten(a + b, m) == Flatten(a, m) + Flatten(b, m)
    decreases |a|
  {
    if a == [] {
      assert a + b == b;
    } else {
      assert (a + b)[1..] == a[1..] + b;
      FlattenAppend(a[1..], b, m);
    }
  }

  lemma {:induction false} FlattenUnchanged<T>(keys: seq<string>, m: map<string, seq<T>>, k: string, v: seq<T>)
    requires k !in keys
    ensures Flatten(keys, m[k := v]) == Flatten(keys, m)
    decreases |keys|
  {
    if keys != [] {
      FlattenUnchanged(keys[1..], m, k, v);
    }
  }

  lemma {:induction false} FlattenAppendToMember<T>(keys: seq<string>, m: map<string, seq<T>>, k: string, x: T)
    requires NoDuplicates(keys) && k in keys && k in m
    ensures multiset(Flatten(keys, m[k := m[k] + [x]])) == multiset(Flatten(keys, m)) + multiset{x}
    decreases |keys|
  {
    var rest := keys[1..];
    var m' := m[k := m[k] + [x]];
    NoDuplicatesTail(keys);
    if keys[0] == k {
      FlattenUnchanged(rest, m, k, m[k] + [x]);
      assert Flatten(keys, m) == m[k] + Flatten(rest, m);
      assert Flatten(keys, m') == (m[k] + [x]) + Flatten(rest, m');
      MultisetInsert(m[k], Flatten(rest, m), x);
    } else {
      assert k in rest;
      FlattenAppendToMember(rest, m, k, x);
      var h := if keys[0] in m then m[keys[0]] else [];
      assert Flatten(keys, m) == h + Flatten(rest, m);
      assert Flatten(keys, m') == h + Flatten(rest, m');
      MultisetGrowTail(h, Flatten(rest, m), Flatten(rest, m'), x);
    }
  }

  lemma FlattenNewKey<T>(keys: seq<string>, m: map<string, seq<T>>, k: string, x: T)
    requires k !in keys
    ensures Flatten(keys + [k], m[k := [x]]) == Flatten(keys, m) + [x]
  {
    FlattenAppend(keys, [k], m[k := [x]]);
    FlattenUnchanged(keys, m, k, [x]);
    assert Flatten([k], m[k := [x]]) == [x] + Flatten([], m[k := [x]]);
  }

  /** Grouping yields a well-formed dict whose keys are exactly the keys
      that occur. */
  lemma {:induction false} GroupSpecWellFormed<T>(pairs: seq<(string, T)>)
    ensures WellFormed(GroupSpec(pairs))
    ensures forall k :: k in GroupSpec(pairs).members <==> exists i :: 0 <= i < |pairs| && pairs[i].0 == k
    decreases |pairs|
  {
    if pairs != [] {
      var n := |pairs| - 1;
      var init := pairs[..n];
      GroupSpecWellFormed(init);
      var g := GroupSpec(init);
      var k := pairs[n].0;
      if k !in g.members {
        assert NoDuplicates(g.order + [k]) by {
          var o := g.order + [k];
          forall i, j | 0 <= i < j < |o| ensures o[i] != o[j] {
            if j == |o| - 1 {
              assert o[i] == g.order[i];
            } else {
              assert o[i] == g.order[i] && o[j] == g.order[j];
            }
          }
        }
      }
      forall k' ensures k' in GroupSpec(pairs).members <==> exists i :: 0 <= i < |pairs| && pairs[i].0 == k' {
        if k' in g.members {
          var i :| 0 <= i < |init| && init[i].0 == k';
          assert pairs[i] == init[i];
        }
        if exists i :: 0 <= i < |pairs| && pairs[i].0 == k' {
          var i :| 0 <= i < |pairs| && pairs[i].0 == k';
          if i < n {
            assert init[i] == pairs[i];
          }
        }
      }
    }
  }

  /** Every item lands in exactly the group of its key, and each group keeps
      the relative order of its items. */
  lemma {:induction false} GroupSpecMembers<T>(pairs: seq<(string, T)>, key: string)
    ensures key in GroupSpec(pairs).members ==> GroupSpec(pairs).members[key] == ValuesFor(pairs, key)
    ensures key !in GroupSpec(pairs).members ==> ValuesFor(pairs, key) == []
    decreases |pairs|
  {
    if pairs != [] {
      GroupSpecMembers(pairs[..|pairs| - 1], key);
    }
  }

  /** Grouping loses and invents nothing: the concatenated groups are a
      permutation of the grouped items, so the total count is preserved. */
  lemma {:induction false} GroupSpecItems<T>(pairs: seq<(string, T)>)
    ensures multiset(Items(GroupSpec(pairs))) == multiset(Values(pairs))
    ensures |Items(GroupSpec(pairs))| == |pairs|
    decreases |pairs|
  {
    if pairs != [] {
      var n := |pairs| - 1;
      var init := pairs[..n];
      GroupSpecItems(init);
      GroupSpecWellFormed(init);
      var g := GroupSpec(init);
      var (k, x) := pairs[n];
      if k in g.members {
        FlattenAppendToMember(g.order, g.members, k, x);
      } else {
        FlattenNewKey(g.order, g.members, k, x);
      }
      assert multiset(Values(pairs)) == multiset(Values(init)) + multiset{x};
      assert |Items(GroupSpec(pairs))| == |multiset(Items(GroupSpec(pairs)))|;
      assert |Values(pairs)| == |multiset(Values(pairs))|;
    }
  }

  /** Every flattened item comes from the list of one of the keys. */
  lemma {:induction false} FlattenMember<T>(keys: seq<string>, m: map<string, seq<T>>, x: T)
    requires x in Flatten(keys, m)
    ensures exists k :: k in keys && k in m && x in m[k]
    decreases |keys|
  {
    if keys[0] in m && x in m[keys[0]] {
    } else {
      FlattenMember(keys[1..], m, x);
      var k :| k in keys[1..] && k in m && x in m[k];
    }
  }
}
