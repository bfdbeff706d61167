/** Lists read as maps: the last element with a key stands for it. */
module Keyed {
  import opened Common
  import opened Sorting

  /** The position of the last element with the key. */
  function LastOf<T, K(==)>(key: T -> K, s: seq<T>, k: K): (r: Option<nat>)
    ensures r.Some? ==> r.value < |s| && key(s[r.value]) == k
    ensures r.None? ==> forall i :: 0 <= i < |s| ==> key(s[i]) != k
  {
    if s == [] then None
    else if key(s[|s| - 1]) == k then Some(|s| - 1)
    else LastOf(key, s[..|s| - 1], k)
  }

  function Find<T, K(==)>(key: T -> K, s: seq<T>, k: K): Option<T> {
    var i := LastOf(key, s, k);
    if i.Some? then Some(s[i.value]) else None
  }

  /** Replaces the element with the same key, or appends. */
  function Place<T, K(==)>(key: T -> K, s: seq<T>, x: T): seq<T> {
    var i := LastOf(key, s, key(x));
    if i.Some? then s[i.value := x] else s + [x]
  }

  lemma {:induction false} LastOfReplaced<T, K>(key: T -> K, s: seq<T>, i: nat, x: T, k: K)
    requires i < |s| && key(s[i]) == key(x)
    ensures LastOf(key, s[i := x], k) == LastOf(key, s, k)
  {
    var n := |s| - 1;
    if i < n {
      assert s[i := x][..n] == s[..n][i := x];
      LastOfReplaced(key, s[..n], i, x, k);
    } else {
      assert s[i := x][..n] == s[..n];
    }
  }

  lemma LastOfAppended<T, K>(key: T -> K, s: seq<T>, x: T, k: K)
    ensures LastOf(key, s + [x], k) == if k == key(x) then Some(|s|) else LastOf(key, s, k)
  {
    assert (s + [x])[..|s|] == s;
  }

  lemma FindNothing<T, K>(key: T -> K, k: K)
    ensures Find(key, [], k) == None
  {
  }

  lemma FindAppended<T, K>(key: T -> K, s: seq<T>, x: T, k: K)
    ensures Find(key, s + [x], k) == if k == key(x) then Some(x) else Find(key, s, k)
  {
    LastOfAppended(key, s, x, k);
  }

  lemma FindPlaced<T, K>(key: T -> K, s: seq<T>, x: T, k: K)
    ensures Find(key, Place(key, s, x), k) == if k == key(x) then Some(x) else Find(key, s, k)
  {
    var i := LastOf(key, s, key(x));
    if i.Some? {
      LastOfReplaced(key, s, i.value, x, k);
    } else {
      LastOfAppended(key, s, x, k);
    }
  }

  lemma PlacedDistinct<T, K>(key: T -> K, s: seq<T>, x: T)
    requires DistinctBy(key, s)
    ensures DistinctBy(key, Place(key, s, x))
  {
  }

  /** With distinct keys, finding and being in the list are the same. */
  lemma FindIsMember<T, K>(key: T -> K, s: seq<T>, x: T)
    requires DistinctBy(key, s)
    ensures x in s <==> Find(key, s, key(x)) == Some(x)
  {
  }

  /** The element is in the list, and none with its key comes after it. */
  ghost predicate StandsLast<T, K>(key: T -> K, s: seq<T>, x: T) {
    exists i :: 0 <= i < |s| && s[i] == x && forall j :: i < j < |s| ==> key(s[j]) != key(x)
  }

  lemma FindIsLast<T, K>(key: T -> K, s: seq<T>, x: T)
    ensures Find(key, s, key(x)) == Some(x) <==> StandsLast(key, s, x)
  {
    LastOfIsLast(key, s, key(x));
    if StandsLast(key, s, x) {
      var i :| 0 <= i < |s| && s[i] == x && forall j :: i < j < |s| ==> key(s[j]) != key(x);
      assert LastOf(key, s, key(x)) == Some(i);
    }
  }

  lemma {:induction false} LastOfIsLast<T, K>(key: T -> K, s: seq<T>, k: K)
    ensures var at := LastOf(key, s, k); at.Some? ==> forall j :: at.value < j < |s| ==> key(s[j]) != k
  {
    if s != [] && key(s[|s| - 1]) != k {
      LastOfIsLast(key, s[..|s| - 1], k);
    }
  }

  /** Lists with distinct keys that read alike are rearrangements of each other. */
  lemma ReadAlike<T, K>(key: T -> K, a: seq<T>, b: seq<T>)
    requires DistinctBy(key, a) && DistinctBy(key, b)
    requires forall x :: Find(key, a, key(x)) == Find(key, b, key(x))
    ensures multiset(a) == multiset(b)
  {
    forall x ensures multiset(a)[x] == multiset(b)[x] {
      DistinctOnce(key, a, x);
      DistinctOnce(key, b, x);
      FindIsMember(key, a, x);
      FindIsMember(key, b, x);
      assert x in a <==> x in multiset(a);
      assert x in b <==> x in multiset(b);
      assert Find(key, a, key(x)) == Find(key, b, key(x));
    }
  }

  /** Rearranging a list with distinct keys does not change how it reads. */
  lemma Rearranged<T, K>(key: T -> K, a: seq<T>, b: seq<T>, k: K)
    requires DistinctBy(key, a) && multiset(a) == multiset(b)
    ensures DistinctBy(key, b) && Find(key, a, k) == Find(key, b, k)
  {
    DistinctStays(key, a, b);
    SameElements(a, b);
    var i, j := LastOf(key, a, k), LastOf(key, b, k);
    if i.Some? {
      assert a[i.value] in b;
      FindIsMember(key, b, a[i.value]);
    }
    if j.Some? {
      assert b[j.value] in a;
      FindIsMember(key, a, b[j.value]);
    }
  }
}
