/** The listing of the creators that a full rebuild goes through. */
module Exporter {
  import opened Paging

  /** ListForLibraryAfter: a limit that is not positive stands for fifty. */
  method ListForLibraryAfter(qualifying: set<int>, last: int, limit: int) returns (page: seq<int>)
    ensures page == PageAfter(qualifying, last, if limit <= 0 then 50 else limit)
  {
    page := ListAfter(qualifying, last, if limit <= 0 then 50 else limit);
  }

  /** Every qualifying creator once, in ascending order, whatever the page size. */
  method ListCreatorsForRebuild(qualifying: set<int>, pageSize: int) returns (out: seq<int>)
    requires forall id :: id in qualifying ==> id > 0
    ensures out == Ascending(qualifying)
  {
    hide PageAfter, Above;
    var size := if pageSize <= 0 then 100 else pageSize;
    out := [];
    var last := 0;
    AboveZero(qualifying);
    while true
      invariant out + Ascending(Above(qualifying, last)) == Ascending(qualifying)
      decreases |Ascending(Above(qualifying, last))|
    {
      var items := ListForLibraryAfter(qualifying, last, size);
      if |items| == 0 {
        EmptyPage(qualifying, last, size);
        assert out + [] == out;
        return;
      }
      PageMovesOn(qualifying, out, last, size);
      out := out + items;
      last := items[|items| - 1];
    }
  }

  lemma AboveZero(ids: set<int>)
    requires forall id :: id in ids ==> id > 0
    ensures Above(ids, 0) == ids
  {
  }
}
