/** Sorting by a comparison, and when the sorted list is the only one possible. */
module Sorting {
  ghost predicate StrictTotal<T(!new)>(less: (T, T) -> bool) {
    && (forall x :: !less(x, x))
    && (forall x, y :: x != y ==> less(x, y) || less(y, x))
    && (forall x, y, z :: less(x, y) && less(y, z) ==> less(x, z))
  }

  /** The comparison is a strict total order on the elements of s. */
  ghost predicate TotalOn<T>(less: (T, T) -> bool, s: seq<T>) {
    && (forall x :: x in s ==> !less(x, x))
    && (forall x, y :: x in s && y in s && x != y ==> less(x, y) || less(y, x))
    && (forall x, y, z :: x in s && y in s && z in s && less(x, y) && less(y, z) ==> less(x, z))
  }

  ghost predicate Ordered<T>(less: (T, T) -> bool, s: seq<T>) {
    forall i, j :: 0 <= i < j < |s| ==> !less(s[j], s[i])
  }

  function Insert<T>(less: (T, T) -> bool, x: T, s: seq<T>): (r: seq<T>)
    ensures multiset(r) == multiset([x]) + multiset(s)
  {
    if s == [] then [x]
    else if less(s[0], x) then
      assert s == [s[0]] + s[1..];
      [s[0]] + Insert(less, x, s[1..])
    else [x] + s
  }

  function Sort<T>(less: (T, T) -> bool, s: seq<T>): (r: seq<T>)
    ensures multiset(r) == multiset(s)
    ensures |r| == |s|
  {
    if s == [] then []
    else
      assert s == [s[0]] + s[1..];
      var r := Insert(less, s[0], Sort(less, s[1..]));
      assert |r| == |multiset(r)| == |multiset(s)| == |s|;
      r
  }

  lemma SameElements<T>(a: seq<T>, b: seq<T>)
    requires multiset(a) == multiset(b)
    ensures forall x :: x in a ==> x in b
    ensures forall x :: x in b ==> x in a
    ensures |a| == |b|
  {
    forall x ensures x in a <==> x in b {
      assert x in a <==> x in multiset(a);
      assert x in b <==> x in multiset(b);
    }
    assert |a| == |multiset(a)| == |multiset(b)| == |b|;
  }

  lemma IndexOf<T>(s: seq<T>, x: T) returns (i: nat)
    requires x in s
    ensures i < |s| && s[i] == x
  {
    i :| 0 <= i < |s| && s[i] == x;
  }

  lemma TotalOnPart<T>(less: (T, T) -> bool, s: seq<T>, t: seq<T>)
    requires TotalOn(less, s) && forall x :: x in t ==> x in s
    ensures TotalOn(less, t)
  {
  }

  lemma PrependOrdered<T>(less: (T, T) -> bool, x: T, s: seq<T>)
    requires Ordered(less, s) && forall y :: y in s ==> !less(y, x)
    ensures Ordered(less, [x] + s)
  {
  }

  lemma HeadIsLeast<T>(less: (T, T) -> bool, s: seq<T>, y: T)
    requires s != [] && Ordered(less, s) && TotalOn(less, s) && y in s
    ensures !less(y, s[0])
  {
    var i := IndexOf(s, y);
    assert i > 0 ==> !less(s[i], s[0]);
  }

  lemma OrderedTail<T>(less: (T, T) -> bool, s: seq<T>)
    requires s != [] && Ordered(less, s)
    ensures Ordered(less, s[1..])
  {
  }

  lemma {:induction false} InsertOrdered<T>(less: (T, T) -> bool, x: T, s: seq<T>)
    requires Ordered(less, s) && TotalOn(less, [x] + s)
    ensures Ordered(less, Insert(less, x, s))
  {
    if s == [] {
      return;
    }
    hide Ordered;
    var all := [x] + s;
    assert x in all && s[0] in all;
    TotalOnPart(less, all, s);
    if less(s[0], x) {
      var rest := s[1..];
      assert forall y :: y in rest ==> y in s && y in all;
      TotalOnPart(less, all, [x] + rest);
      OrderedTail(less, s);
      InsertOrdered(less, x, rest);
      var t := Insert(less, x, rest);
      SameElements(t, [x] + rest);
      forall y | y in t ensures !less(y, s[0]) {
        if y == x {
          assert less(s[0], y);
        } else {
          HeadIsLeast(less, s, y);
        }
      }
      PrependOrdered(less, s[0], t);
    } else {
      forall y | y in s ensures !less(y, x) {
        HeadIsLeast(less, s, y);
        assert y in all;
      }
      PrependOrdered(less, x, s);
    }
  }

  lemma {:induction false} SortOrdered<T>(less: (T, T) -> bool, s: seq<T>)
    requires TotalOn(less, s)
    ensures Ordered(less, Sort(less, s))
  {
    if s != [] {
      var t := Sort(less, s[1..]);
      SameElements(t, s[1..]);
      TotalOnPart(less, s, s[1..]);
      SortOrdered(less, s[1..]);
      forall y | y in [s[0]] + t ensures y in s {
        assert y == s[0] || y in t;
      }
      TotalOnPart(less, s, [s[0]] + t);
      InsertOrdered(less, s[0], t);
    }
  }

  lemma SameFirst<T>(less: (T, T) -> bool, a: seq<T>, b: seq<T>)
    requires a != [] && b != [] && (forall x :: x in a <==> x in b) && TotalOn(less, a)
    requires Ordered(less, a) && Ordered(less, b)
    ensures a[0] == b[0]
  {
    assert a[0] in a && b[0] in b;
    var i := IndexOf(b, a[0]);
    var j := IndexOf(a, b[0]);
    assert j > 0 ==> !less(a[j], a[0]);
    assert i > 0 ==> !less(b[i], b[0]);
  }

  /** Two ordered arrangements of the same elements under a strict total order are equal. */
  lemma {:induction false} OrderedUnique<T>(less: (T, T) -> bool, a: seq<T>, b: seq<T>)
    requires multiset(a) == multiset(b) && TotalOn(less, a)
    requires Ordered(less, a) && Ordered(less, b)
    ensures a == b
  {
    hide TotalOn, Ordered;
    SameElements(a, b);
    if a != [] {
      OrderedTail(less, a);
      OrderedTail(less, b);
      SameFirst(less, a, b);
      assert a == [a[0]] + a[1..] && b == [b[0]] + b[1..];
      assert multiset(a[1..]) == multiset(a) - multiset{a[0]};
      assert multiset(b[1..]) == multiset(b) - multiset{b[0]};
      TotalOnPart(less, a, a[1..]);
      OrderedUnique(less, a[1..], b[1..]);
    }
  }

  /** Sorting gives the same list whatever order the elements arrive in. */
  lemma SortIgnoresOrder<T>(less: (T, T) -> bool, a: seq<T>, b: seq<T>)
    requires multiset(a) == multiset(b) && TotalOn(less, a)
    ensures Sort(less, a) == Sort(less, b)
  {
    SameElements(a, b);
    TotalOnPart(less, a, b);
    SortOrdered(less, a);
    SortOrdered(less, b);
    SameElements(a, Sort(less, a));
    TotalOnPart(less, a, Sort(less, a));
    OrderedUnique(less, Sort(less, a), Sort(less, b));
  }

  // ---- Keys that tell the elements apart ----------------------------------------------

  ghost predicate DistinctBy<T, K>(key: T -> K, s: seq<T>) {
    forall i, j :: 0 <= i < j < |s| ==> key(s[i]) != key(s[j])
  }

  lemma {:induction false} DistinctOnce<T, K>(key: T -> K, s: seq<T>, x: T)
    requires DistinctBy(key, s)
    ensures multiset(s)[x] <= 1
  {
    if s != [] {
      var front, last := s[..|s| - 1], s[|s| - 1];
      DistinctOnce(key, front, x);
      assert s == front + [last];
      if x == last {
        assert last !in front;
      }
    }
  }

  lemma Twice<T>(s: seq<T>, i: int, j: int)
    requires 0 <= i < j < |s| && s[i] == s[j]
    ensures multiset(s)[s[i]] >= 2
  {
    assert s == s[..i] + [s[i]] + s[i + 1..j] + [s[j]] + s[j + 1..];
  }

  /** Reordering keeps keys distinct. */
  lemma DistinctStays<T, K>(key: T -> K, a: seq<T>, b: seq<T>)
    requires multiset(a) == multiset(b) && DistinctBy(key, a)
    ensures DistinctBy(key, b)
  {
    SameElements(a, b);
    forall i, j | 0 <= i < j < |b| ensures key(b[i]) != key(b[j]) {
      if key(b[i]) == key(b[j]) {
        assert b[i] in a && b[j] in a;
        var m := IndexOf(a, b[i]);
        var n := IndexOf(a, b[j]);
        assert m == n;
        Twice(b, i, j);
        DistinctOnce(key, a, b[i]);
      }
    }
  }

  ghost predicate Descending<T>(rank: T -> int, s: seq<T>) {
    forall i, j :: 0 <= i < j < |s| ==> rank(s[i]) >= rank(s[j])
  }

  lemma {:induction false} InsertDescending<T(!new)>(less: (T, T) -> bool, rank: T -> int, x: T, s: seq<T>)
    requires (forall a, b :: less(a, b) <==> rank(a) > rank(b)) && Descending(rank, s)
    ensures Descending(rank, Insert(less, x, s))
  {
    if s != [] && less(s[0], x) {
      InsertDescending(less, rank, x, s[1..]);
      var rest := Insert(less, x, s[1..]);
      forall j | 0 <= j < |rest| ensures rank(s[0]) >= rank(rest[j]) {
        assert rest[j] in multiset(rest);
        assert rest[j] == x || rest[j] in s[1..];
      }
    }
  }

  /** Sorting by falling rank, ties allowed, leaves the ranks falling. */
  lemma {:induction false} SortDescending<T(!new)>(less: (T, T) -> bool, rank: T -> int, s: seq<T>)
    requires forall a, b :: less(a, b) <==> rank(a) > rank(b)
    ensures Descending(rank, Sort(less, s))
  {
    if s != [] {
      SortDescending(less, rank, s[1..]);
      InsertDescending(less, rank, s[0], Sort(less, s[1..]));
    }
  }
}
