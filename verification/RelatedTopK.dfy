/**
 The best hits of one tracked creator: which search hits are kept, one for each candidate, and
 the ranked list that is cut to the configured length. A hit's other fields are one number.
 */
module RelatedTopK {
  import opened Common
  import opened Sorting
  import Text

  datatype Hit = Hit(uid: string, similarity: string, published: int, views: int, other: int)

  function SimilarityRank(level: string): nat {
    if Text.Trim(level) == "strong" then 0
    else if Text.Trim(level) == "medium" then 1
    else 2
  }

  function CompareText(a: string, b: string): int {
    if a == b then 0 else if Text.Less(a, b) then -1 else 1
  }

  /** Closer titles first, then the newer, then the more watched, then by uid. */
  function Compare(l: Hit, r: Hit): int {
    if SimilarityRank(l.similarity) != SimilarityRank(r.similarity) then
      SimilarityRank(l.similarity) - SimilarityRank(r.similarity)
    else if l.published != r.published then
      if l.published > r.published then -1 else 1
    else if l.views != r.views then
      if l.views > r.views then -1 else 1
    else CompareText(l.uid, r.uid)
  }

  predicate Before(l: Hit, r: Hit) {
    Compare(l, r) < 0
  }

  lemma TextOrder(a: string, b: string, c: string)
    ensures CompareText(a, b) < 0 <==> CompareText(b, a) > 0
    ensures CompareText(a, b) == 0 <==> a == b
    ensures CompareText(a, b) <= 0 && CompareText(b, c) <= 0 ==> CompareText(a, c) <= 0
    ensures CompareText(a, b) < 0 && CompareText(b, c) <= 0 ==> CompareText(a, c) < 0
  {
    hide Text.Less;
    OneWay(a, b);
    OneWay(a, c);
    if Text.Less(a, b) && Text.Less(b, c) {
      Text.LessTransitive(a, b, c);
    }
  }

  lemma OneWay(a: string, b: string)
    ensures !(Text.Less(a, b) && Text.Less(b, a))
    ensures a == b || Text.Less(a, b) || Text.Less(b, a)
    ensures !Text.Less(a, a)
  {
    hide Text.Less;
    Text.LessIrreflexive(a);
    if a != b {
      Text.LessTotal(a, b);
    }
    if Text.Less(a, b) && Text.Less(b, a) {
      Text.LessTransitive(a, b, a);
    }
  }

  /** The comparison is a total preorder, and no two hits with different uids tie. */
  lemma CompareIsTotalPreorder(a: Hit, b: Hit, c: Hit)
    ensures Compare(a, a) == 0
    ensures Compare(a, b) < 0 <==> Compare(b, a) > 0
    ensures Compare(a, b) <= 0 && Compare(b, c) <= 0 ==> Compare(a, c) <= 0
    ensures Compare(a, b) < 0 && Compare(b, c) <= 0 ==> Compare(a, c) < 0
    ensures a.uid != b.uid ==> Compare(a, b) != 0
  {
    hide SimilarityRank, CompareText;
    TextOrder(a.uid, b.uid, c.uid);
    TextOrder(a.uid, a.uid, a.uid);
  }

  /** a comes ahead of b: a strong match ahead of a medium one and both ahead of the rest, then the
      later published, then the more watched, then the lesser uid. */
  predicate Ahead(a: Hit, b: Hit) {
    var s, t := Text.Trim(a.similarity), Text.Trim(b.similarity);
    || (s == "strong" && t != "strong")
    || (s == "medium" && t != "strong" && t != "medium")
    || (&& (s == "strong" <==> t == "strong") && (s == "medium" <==> t == "medium")
        && (|| a.published > b.published
            || (a.published == b.published && a.views > b.views)
            || (a.published == b.published && a.views == b.views && Text.Less(a.uid, b.uid))))
  }

  /** The comparison is negative exactly when the first hit comes ahead. */
  lemma CompareIsAhead(a: Hit, b: Hit)
    ensures Compare(a, b) < 0 <==> Ahead(a, b)
  {
    Text.LessIrreflexive(a.uid);
  }

  // ---- One hit for each candidate ------------------------------------------------------------

  /** What the database says about a candidate. */
  datatype Lookup = Missing | Found(status: string) | Failed

  datatype Search = Hits(hits: seq<Hit>) | RiskError | OtherError

  /** The tracked creator, the uids of all tracked creators, and the candidate table. */
  datatype Context = Context(creator: string, tracked: set<string>, candidates: string -> Lookup)

  datatype Fate = Nameless | Tracked | Blocked | Unreadable | Eligible

  function FateOf(c: Context, h: Hit): Fate {
    var uid := Text.Trim(h.uid);
    if uid == "" then Nameless
    else if uid == c.creator || uid in c.tracked then Tracked
    else match c.candidates(uid)
      case Failed => Unreadable
      case Found(status) => if status == "blocked" then Blocked else Eligible
      case Missing => Eligible
  }

  /** The hits kept so far and the uids that were skipped. */
  datatype Kept = Kept(best: map<string, Hit>, tracked: set<string>, blocked: set<string>)

  const NOTHING := Kept(map[], {}, {})

  function Keep(c: Context, k: Kept, h: Hit): Kept {
    var uid := Text.Trim(h.uid);
    match FateOf(c, h)
    case Tracked => k.(tracked := k.tracked + {uid})
    case Blocked => k.(blocked := k.blocked + {uid})
    case Eligible =>
      if uid !in k.best || Compare(h, k.best[uid]) < 0 then k.(best := k.best[uid := h]) else k
    case _ => k
  }

  function KeepAll(c: Context, k: Kept, hits: seq<Hit>): Kept {
    if hits == [] then k else Keep(c, KeepAll(c, k, hits[..|hits| - 1]), hits[|hits| - 1])
  }

  /** The hits of all searches that were answered, in order. */
  function Answers(searches: seq<Search>): seq<Hit> {
    if searches == [] then []
    else
      var last := searches[|searches| - 1];
      Answers(searches[..|searches| - 1]) + (if last.Hits? then last.hits else [])
  }

  /** Nothing stops the collection: a failure that is not a risk error, or an unreadable row. */
  predicate Clean(c: Context, searches: seq<Search>) {
    && (forall i :: 0 <= i < |searches| ==> !searches[i].OtherError?)
    && (forall h :: h in Answers(searches) ==> !FateOf(c, h).Unreadable?)
  }

  /** The collecting loops; the searches are those of every video and keyword, in order. */
  method Collect(c: Context, searches: seq<Search>) returns (k: Kept, failed: bool)
    ensures failed <==> !Clean(c, searches)
    ensures !failed ==> k == KeepAll(c, NOTHING, Answers(searches))
  {
    hide KeepAll, FateOf, Keep;
    k, failed := NOTHING, false;
    KeepNone(c, NOTHING);
    for i := 0 to |searches|
      invariant !failed && Clean(c, searches[..i])
      invariant k == KeepAll(c, NOTHING, Answers(searches[..i]))
    {
      AnswersNext(searches, i);
      if searches[i].OtherError? {
        assert searches[i] in searches;
        return k, true;
      }
      if searches[i].Hits? {
        var hits := searches[i].hits;
        ghost var before := Answers(searches[..i]);
        assert before + hits[..0] == before;
        for j := 0 to |hits|
          invariant !failed && forall h :: h in hits[..j] ==> !FateOf(c, h).Unreadable?
          invariant k == KeepAll(c, NOTHING, before + hits[..j])
        {
          if FateOf(c, hits[j]).Unreadable? {
            AnswersOf(searches, i, hits[j]);
            return k, true;
          }
          KeepNext(c, NOTHING, before, hits, j);
          k := Keep(c, k, hits[j]);
        }
        assert hits[..|hits|] == hits;
      } else {
        assert Answers(searches[..i]) + [] == Answers(searches[..i]);
      }
      CleanNext(c, searches, i);
    }
    assert searches[..|searches|] == searches;
  }

  lemma KeepNone(c: Context, k: Kept)
    ensures KeepAll(c, k, []) == k
  {
  }

  lemma AnswersNext(searches: seq<Search>, i: nat)
    requires i < |searches|
    ensures Answers(searches[..i + 1]) == Answers(searches[..i]) + (if searches[i].Hits? then searches[i].hits else [])
  {
    assert searches[..i + 1][..i] == searches[..i];
  }

  lemma CleanNext(c: Context, searches: seq<Search>, i: nat)
    requires i < |searches| && Clean(c, searches[..i]) && !searches[i].OtherError?
    requires searches[i].Hits? ==> forall h :: h in searches[i].hits ==> !FateOf(c, h).Unreadable?
    ensures Clean(c, searches[..i + 1])
  {
    AnswersNext(searches, i);
  }

  lemma {:induction false} AnswersOf(searches: seq<Search>, i: nat, h: Hit)
    requires i < |searches| && searches[i].Hits? && h in searches[i].hits
    ensures h in Answers(searches)
  {
    if i < |searches| - 1 {
      AnswersOf(searches[..|searches| - 1], i, h);
    }
  }

  lemma KeepNext(c: Context, k: Kept, before: seq<Hit>, hits: seq<Hit>, j: nat)
    requires j < |hits|
    ensures KeepAll(c, k, before + hits[..j + 1]) == Keep(c, KeepAll(c, k, before + hits[..j]), hits[j])
  {
    var all := before + hits[..j + 1];
    assert all[..|all| - 1] == before + hits[..j] && all[|all| - 1] == hits[j];
  }

  /** m is the index of the first best hit for the uid. */
  ghost predicate FirstBest(c: Context, hits: seq<Hit>, uid: string, m: int) {
    && 0 <= m < |hits| && Competes(c, hits[m], uid)
    && (forall i :: 0 <= i < |hits| && Competes(c, hits[i], uid) ==> Compare(hits[m], hits[i]) <= 0)
    && (forall i :: 0 <= i < m && Competes(c, hits[i], uid) ==> Compare(hits[m], hits[i]) < 0)
  }

  predicate Competes(c: Context, h: Hit, uid: string) {
    Text.Trim(h.uid) == uid && FateOf(c, h).Eligible?
  }

  lemma FirstBestStays(c: Context, hits: seq<Hit>, uid: string, m: int)
    requires hits != [] && FirstBest(c, hits[..|hits| - 1], uid, m)
    requires Competes(c, hits[|hits| - 1], uid) ==> Compare(hits[|hits| - 1], hits[m]) >= 0
    ensures FirstBest(c, hits, uid, m)
  {
    hide FateOf, Compare, Competes;
    var n := |hits| - 1;
    CompareIsTotalPreorder(hits[n], hits[m], hits[m]);
    CompareIsTotalPreorder(hits[m], hits[n], hits[n]);
    assert forall i :: 0 <= i < n ==> hits[..n][i] == hits[i];
  }

  lemma FirstBestMoves(c: Context, hits: seq<Hit>, uid: string, m: int)
    requires hits != [] && FirstBest(c, hits[..|hits| - 1], uid, m)
    requires Competes(c, hits[|hits| - 1], uid) && Compare(hits[|hits| - 1], hits[m]) < 0
    ensures FirstBest(c, hits, uid, |hits| - 1)
  {
    hide FateOf, Compare, Competes;
    var n := |hits| - 1;
    forall i | 0 <= i < |hits| && Competes(c, hits[i], uid)
      ensures Compare(hits[n], hits[i]) <= 0
      ensures i < n ==> Compare(hits[n], hits[i]) < 0
    {
      CompareIsTotalPreorder(hits[n], hits[n], hits[n]);
      if i < n {
        assert hits[..n][i] == hits[i];
        CompareIsTotalPreorder(hits[n], hits[m], hits[i]);
      }
    }
  }

  lemma FirstBestStarts(c: Context, hits: seq<Hit>, uid: string)
    requires hits != [] && Competes(c, hits[|hits| - 1], uid)
    requires forall i :: 0 <= i < |hits| - 1 ==> !Competes(c, hits[i], uid)
    ensures FirstBest(c, hits, uid, |hits| - 1)
  {
    hide FateOf, Compare, Competes;
    var n := |hits| - 1;
    CompareIsTotalPreorder(hits[n], hits[n], hits[n]);
    assert forall i :: 0 <= i < n ==> hits[..n][i] == hits[i];
  }

  lemma KeepOne(c: Context, k: Kept, h: Hit, uid: string)
    requires uid in k.best ==> Text.Trim(k.best[uid].uid) == uid
    ensures var after := Keep(c, k, h).best;
      Look(after, uid) ==
        if Competes(c, h, uid) && (uid !in k.best || Compare(h, k.best[uid]) < 0) then Some(h) else Look(k.best, uid)
  {
    hide FateOf, Compare;
  }

  /** A candidate is listed exactly when it has an eligible hit, and then with its first best. */
  lemma {:induction false} KeptIsFirstBest(c: Context, hits: seq<Hit>, uid: string) returns (m: nat)
    ensures uid in KeepAll(c, NOTHING, hits).best ==>
      FirstBest(c, hits, uid, m) && KeepAll(c, NOTHING, hits).best[uid] == hits[m]
    ensures uid !in KeepAll(c, NOTHING, hits).best ==> forall i :: 0 <= i < |hits| ==> !Competes(c, hits[i], uid)
  {
    hide FateOf, Compare, Competes, FirstBest, Keep;
    m := 0;
    if hits != [] {
      var n := |hits| - 1;
      m := KeptIsFirstBest(c, hits[..n], uid);
      var k := KeepAll(c, NOTHING, hits[..n]);
      KeptIsFiled(c, hits[..n]);
      KeepOne(c, k, hits[n], uid);
      assert Look(Keep(c, k, hits[n]).best, uid) == Look(KeepAll(c, NOTHING, hits).best, uid);
      assert forall i :: 0 <= i < n ==> hits[..n][i] == hits[i];
      if uid in k.best {
        FirstBestInRange(c, hits[..n], uid, m);
        if Competes(c, hits[n], uid) && Compare(hits[n], hits[m]) < 0 {
          FirstBestMoves(c, hits, uid, m);
          m := n;
        } else {
          FirstBestStays(c, hits, uid, m);
        }
      } else if Competes(c, hits[n], uid) {
        FirstBestStarts(c, hits, uid);
        m := n;
      }
    }
  }

  lemma FirstBestInRange(c: Context, hits: seq<Hit>, uid: string, m: int)
    requires FirstBest(c, hits, uid, m)
    ensures 0 <= m < |hits|
  {
  }

  /** Some hit with that uid meets that fate. */
  ghost predicate Meets(c: Context, hits: seq<Hit>, uid: string, fate: Fate) {
    exists i :: 0 <= i < |hits| && FateOf(c, hits[i]) == fate && Text.Trim(hits[i].uid) == uid
  }

  /** The skipped uids are those of the tracked and of the blocked hits. */
  lemma {:induction false} SkippedExactly(c: Context, hits: seq<Hit>, uid: string)
    ensures uid in KeepAll(c, NOTHING, hits).tracked <==> Meets(c, hits, uid, Tracked)
    ensures uid in KeepAll(c, NOTHING, hits).blocked <==> Meets(c, hits, uid, Blocked)
  {
    hide FateOf, Compare;
    if hits != [] {
      var n := |hits| - 1;
      SkippedExactly(c, hits[..n], uid);
      assert forall i :: 0 <= i < n ==> hits[..n][i] == hits[i];
    }
  }

  /** Some hit has that uid, spaces aside. */
  ghost predicate Occurs(hits: seq<Hit>, uid: string) {
    exists i :: 0 <= i < |hits| && Text.Trim(hits[i].uid) == uid
  }

  /** Who is listed: whoever was found and has a uid, is not tracked and is not blocked. Tracked and
      blocked ones that were found are counted as skipped. */
  lemma ListedExactly(c: Context, hits: seq<Hit>, uid: string)
    ensures var k := KeepAll(c, NOTHING, hits);
      var tracked := uid == c.creator || uid in c.tracked;
      && (uid in k.best <==> (&& Occurs(hits, uid) && uid != "" && !tracked
                              && c.candidates(uid) != Failed && c.candidates(uid) != Found("blocked")))
      && (uid in k.tracked <==> Occurs(hits, uid) && uid != "" && tracked)
      && (uid in k.blocked <==> Occurs(hits, uid) && uid != "" && !tracked && c.candidates(uid) == Found("blocked"))
  {
    hide KeepAll;
    var m := KeptIsFirstBest(c, hits, uid);
    SkippedExactly(c, hits, uid);
  }

  /** The collection fails exactly on an error that is no risk error, or on a hit that was returned, has
      a uid, is not tracked, and whose row cannot be read. */
  lemma FailsExactly(c: Context, searches: seq<Search>)
    ensures Clean(c, searches) <==>
      && OtherError !in searches
      && forall s, h :: s in searches && s.Hits? && h in s.hits ==> !Unread(c, Text.Trim(h.uid))
  {
    hide Answers;
    AnsweredExactly(searches);
    forall h ensures FateOf(c, h).Unreadable? <==> Unread(c, Text.Trim(h.uid)) {
    }
    hide FateOf, Unread;
    if OtherError in searches {
      var i := IndexOf(searches, OtherError);
    }
    if Clean(c, searches) {
      forall s, h | s in searches && s.Hits? && h in s.hits ensures !Unread(c, Text.Trim(h.uid)) {
        assert h in Answers(searches);
      }
    }
  }

  predicate Unread(c: Context, uid: string) {
    uid != "" && uid != c.creator && uid !in c.tracked && c.candidates(uid) == Failed
  }

  lemma {:induction false} AnsweredExactly(searches: seq<Search>)
    ensures forall h :: h in Answers(searches) <==> exists s :: s in searches && s.Hits? && h in s.hits
  {
    if searches != [] {
      var front, last := searches[..|searches| - 1], searches[|searches| - 1];
      AnsweredExactly(front);
      assert searches == front + [last];
    }
  }

  // ---- The ranked list -----------------------------------------------------------------------

  function Limited(sorted: seq<Hit>, limit: int): seq<Hit> {
    if limit > 0 && |sorted| > limit then sorted[..limit] else sorted
  }

  /** The values of the map in some order. */
  ghost predicate Lists(hits: seq<Hit>, best: map<string, Hit>) {
    && DistinctBy((h: Hit) => h.uid, hits)
    && (forall uid :: uid in best ==> best[uid] in hits)
    && (forall h :: h in hits ==> Text.Trim(h.uid) in best && best[Text.Trim(h.uid)] == h)
  }

  ghost predicate Filed(best: map<string, Hit>) {
    forall uid :: uid in best ==> Text.Trim(best[uid].uid) == uid
  }

  lemma {:induction false} KeptIsFiled(c: Context, hits: seq<Hit>)
    ensures Filed(KeepAll(c, NOTHING, hits).best)
  {
    hide FateOf, Compare;
    if hits != [] {
      KeptIsFiled(c, hits[..|hits| - 1]);
    }
  }

  lemma ListsAreTotal(hits: seq<Hit>, best: map<string, Hit>)
    requires Lists(hits, best)
    ensures TotalOn(Before, hits)
  {
    hide Compare;
    forall x, y | x in hits && y in hits && x != y ensures Before(x, y) || Before(y, x) {
      CompareIsTotalPreorder(x, y, y);
      CompareIsTotalPreorder(y, x, x);
      assert best[Text.Trim(x.uid)] == x && best[Text.Trim(y.uid)] == y;
    }
    forall x ensures !Before(x, x) {
      CompareIsTotalPreorder(x, x, x);
    }
    forall x, y, z | Before(x, y) && Before(y, z) ensures Before(x, z) {
      CompareIsTotalPreorder(x, y, z);
    }
  }

  lemma ListsAreAlike(a: seq<Hit>, b: seq<Hit>, best: map<string, Hit>)
    requires Lists(a, best) && Lists(b, best)
    ensures multiset(a) == multiset(b)
  {
    var uidOf := (h: Hit) => h.uid;
    forall h ensures multiset(a)[h] == multiset(b)[h] {
      DistinctOnce(uidOf, a, h);
      DistinctOnce(uidOf, b, h);
      assert h in a <==> h in multiset(a);
      assert h in b <==> h in multiset(b);
      assert h in a <==> h in b;
    }
  }

  /**
     The ranked list is the only one there is: whatever order the map is iterated in and
     whatever sort is used, an ordered arrangement of the kept hits cut to the limit is the same.
   */
  lemma TopKIsUnique(a: seq<Hit>, b: seq<Hit>, best: map<string, Hit>, sorted: seq<Hit>, limit: int)
    requires Lists(a, best) && Lists(b, best)
    requires multiset(sorted) == multiset(b) && Ordered(Before, sorted)
    ensures Limited(sorted, limit) == Limited(Sort(Before, a), limit)
  {
    ListsAreAlike(a, b, best);
    ListsAreTotal(a, best);
    SortOrdered(Before, a);
    SameElements(a, Sort(Before, a));
    TotalOnPart(Before, a, Sort(Before, a));
    OrderedUnique(Before, Sort(Before, a), sorted);
  }

  /** It holds the best `limit` hits, all of them if there are no more or no limit is set. */
  lemma TopKIsBest(hits: seq<Hit>, best: map<string, Hit>, limit: int, h: Hit)
    requires Lists(hits, best)
    ensures var top := Limited(Sort(Before, hits), limit);
      Ordered(Ahead, top) && |top| == if 0 < limit < |hits| then limit else |hits|
    ensures forall x :: x in Limited(Sort(Before, hits), limit) ==> x in hits
    ensures h in hits && h !in Limited(Sort(Before, hits), limit) ==>
      forall x :: x in Limited(Sort(Before, hits), limit) ==> Ahead(x, h)
  {
    forall a, b ensures Before(a, b) <==> Ahead(a, b) {
      CompareIsAhead(a, b);
    }
    hide Before, Ahead;
    ListsAreTotal(hits, best);
    SortOrdered(Before, hits);
    var sorted := Sort(Before, hits);
    SameElements(hits, sorted);
    var top := Limited(sorted, limit);
    if h in hits && h !in top {
      var j := IndexOf(sorted, h);
      forall x | x in top ensures Ahead(x, h) {
        var i := IndexOf(top, x);
        assert sorted[i] == x && j >= |top|;
        assert !Before(sorted[j], sorted[i]);
      }
    }
  }

  /** The map comes out in any order and is sorted and cut. */
  method RankedHits(best: map<string, Hit>, limit: int) returns (top: seq<Hit>, ghost listed: seq<Hit>)
    requires Filed(best)
    ensures Lists(listed, best) && top == Limited(Sort(Before, listed), limit)
  {
    var hits := [];
    var todo := best.Keys;
    while todo != {}
      invariant todo <= best.Keys
      invariant DistinctBy((h: Hit) => h.uid, hits)
      invariant forall uid :: uid in best && uid !in todo ==> best[uid] in hits
      invariant forall h :: h in hits ==> Text.Trim(h.uid) in best && best[Text.Trim(h.uid)] == h
      invariant forall h :: h in hits ==> Text.Trim(h.uid) !in todo
      decreases todo
    {
      ghost var some := AnyOf(todo);
      var uid :| uid in todo;
      hits := hits + [best[uid]];
      todo := todo - {uid};
    }
    listed := hits;
    top := Limited(Sort(Before, hits), limit);
  }
}
