/** Rows in the order of their ids, a page at a time. */
module Paging {
  import opened Common

  ghost predicate IsLeast(ids: set<int>, m: int) {
    m in ids && forall x :: x in ids ==> m <= x
  }

  lemma {:induction false} LeastExists(ids: set<int>)
    requires ids != {}
    ensures exists m :: IsLeast(ids, m)
    decreases |ids|
  {
    var m := AnyOf(ids);
    if !IsLeast(ids, m) {
      var rest := ids - {m};
      assert rest != {} by {
        var y :| y in ids && y < m;
        assert y in rest;
      }
      LeastExists(rest);
      var r :| IsLeast(rest, r);
      var l := if r < m then r else m;
      forall x | x in ids ensures l <= x {
        assert x == m || x in rest;
      }
      assert IsLeast(ids, l);
    }
  }

  ghost function Least(ids: set<int>): (m: int)
    requires ids != {}
    ensures IsLeast(ids, m)
  {
    LeastExists(ids);
    var m :| IsLeast(ids, m);
    m
  }

  /** The ids in ascending order. */
  ghost function Ascending(ids: set<int>): seq<int>
    decreases |ids|
  {
    if ids == {} then [] else [Least(ids)] + Ascending(ids - {Least(ids)})
  }

  ghost function Above(ids: set<int>, last: int): set<int> {
    set x | x in ids && x > last
  }

  ghost function Take(s: seq<int>, limit: nat): seq<int> {
    if |s| <= limit then s else s[..limit]
  }

  /** SELECT ... WHERE id > last ORDER BY id LIMIT limit. */
  ghost function PageAfter(ids: set<int>, last: int, limit: nat): seq<int> {
    Take(Ascending(Above(ids, last)), limit)
  }

  ghost predicate StrictlyAscending(s: seq<int>) {
    forall i, j :: 0 <= i < j < |s| ==> s[i] < s[j]
  }

  lemma {:induction false} AscendingExact(ids: set<int>)
    ensures StrictlyAscending(Ascending(ids))
    ensures forall x :: x in Ascending(ids) ==> x in ids
    ensures forall x :: x in ids ==> x in Ascending(ids)
    ensures |Ascending(ids)| == |ids|
    decreases |ids|
  {
    if ids != {} {
      var rest := Ascending(ids - {Least(ids)});
      AscendingExact(ids - {Least(ids)});
      forall j | 0 <= j < |rest| ensures Least(ids) < rest[j] {
        assert rest[j] in rest;
      }
    }
  }

  /** What lies beyond the first n ids is what lies above the n-th. */
  lemma {:induction false} AscendingSplits(ids: set<int>, n: nat)
    requires 0 < n <= |Ascending(ids)|
    ensures Ascending(ids)[n..] == Ascending(Above(ids, Ascending(ids)[n - 1]))
    decreases n
  {
    var m := Least(ids);
    var rest := ids - {m};
    if n == 1 {
      assert Above(ids, m) == rest;
    } else {
      AscendingSplits(rest, n - 1);
      AscendingExact(rest);
      var x := Ascending(ids)[n - 1];
      assert x == Ascending(rest)[n - 2];
      assert x in Ascending(rest);
      assert Above(ids, x) == Above(rest, x);
    }
  }

  lemma EmptyPage(ids: set<int>, last: int, limit: nat)
    requires limit > 0 && PageAfter(ids, last, limit) == []
    ensures Ascending(Above(ids, last)) == []
  {
  }

  lemma PageClimbs(ids: set<int>, from: int, limit: nat, i: nat)
    requires i < |PageAfter(ids, from, limit)|
    ensures var page := PageAfter(ids, from, limit);
      page[i] > from && page[i] in ids && (i > 0 ==> page[i - 1] < page[i])
  {
    AscendingExact(Above(ids, from));
    assert Ascending(Above(ids, from))[i] in Above(ids, from);
  }

  lemma PageMovesOn(ids: set<int>, before: seq<int>, from: int, limit: nat)
    requires before + Ascending(Above(ids, from)) == Ascending(ids)
    requires PageAfter(ids, from, limit) != []
    ensures var page := PageAfter(ids, from, limit); var last := page[|page| - 1];
      before + page + Ascending(Above(ids, last)) == Ascending(ids)
    ensures var page := PageAfter(ids, from, limit); var last := page[|page| - 1];
      |Ascending(Above(ids, last))| < |Ascending(Above(ids, from))|
  {
    var all, page := Ascending(Above(ids, from)), PageAfter(ids, from, limit);
    var n, last := |page|, page[|page| - 1];
    AscendingSplits(Above(ids, from), n);
    PageClimbs(ids, from, limit, n - 1);
    assert Above(Above(ids, from), last) == Above(ids, last);
    assert all == page + all[n..];
    assert before + page + all[n..] == before + (page + all[n..]);
  }

  lemma VisitedBelow(ids: set<int>, before: seq<int>, from: int, limit: nat)
    requires (forall id :: id in before ==> id <= from) && PageAfter(ids, from, limit) != []
    ensures var page := PageAfter(ids, from, limit); forall id :: id in before + page ==> id <= page[|page| - 1]
  {
    var page := PageAfter(ids, from, limit);
    AscendingExact(Above(ids, from));
    PageClimbs(ids, from, limit, |page| - 1);
    forall id | id in page ensures id <= page[|page| - 1] {
      var i :| 0 <= i < |page| && page[i] == id;
    }
  }

  /** A page is full or holds all that lies above the cursor, and nothing above it comes before its end. */
  lemma PageIsExact(ids: set<int>, last: int, limit: nat, x: int)
    ensures var page := PageAfter(ids, last, limit);
      && |page| <= limit
      && (x in page ==> x in ids && x > last)
      && (x in ids && x > last && x !in page ==> |page| == limit && forall y :: y in page ==> y < x)
  {
    var all := Ascending(Above(ids, last));
    AscendingExact(Above(ids, last));
    if x in PageAfter(ids, last, limit) {
      assert x in all;
    } else if x in ids && x > last {
      assert x in Above(ids, last) && x in all;
      var i :| 0 <= i < |all| && all[i] == x;
      assert i >= |PageAfter(ids, last, limit)|;
    }
  }

  method FindLeast(ids: set<int>) returns (m: int)
    requires ids != {}
    ensures IsLeast(ids, m)
  {
    ghost var some := AnyOf(ids);
    m :| m in ids;
    var todo := ids - {m};
    while todo != {}
      invariant todo <= ids && m in ids
      invariant forall x :: x in ids && x !in todo ==> m <= x
      decreases todo
    {
      ghost var other := AnyOf(todo);
      var x :| x in todo;
      todo := todo - {x};
      if x < m {
        m := x;
      }
    }
  }

  /** The first ids in ascending order. */
  method FirstOf(ids: set<int>, limit: nat) returns (page: seq<int>)
    ensures page == Take(Ascending(ids), limit)
  {
    var rest := ids;
    page := [];
    while rest != {} && |page| < limit
      invariant page + Ascending(rest) == Ascending(ids) && |page| <= limit
      decreases rest
    {
      var m := FindLeast(rest);
      assert m == Least(rest);
      assert page + Ascending(rest) == page + [m] + Ascending(rest - {m});
      page := page + [m];
      rest := rest - {m};
    }
    assert rest == {} ==> page + Ascending(rest) == page;
  }

  method ListAfter(ids: set<int>, last: int, limit: nat) returns (page: seq<int>)
    ensures page == PageAfter(ids, last, limit)
  {
    var above := set x | x in ids && x > last;
    page := FirstOf(above, limit);
  }
}
