/** The score of a candidate: six factors, each with at most one detail row. Labels are left out. */
module Scorer {
  import opened Common
  import opened Sorting
  import Text

  const SMALL_ACCOUNT: int := 500_000
  const OVERSIZE_ACCOUNT: int := 5_000_000

  datatype Weights = Weights(
    keywordMax: int,
    activityHigh: int, activityMedium: int, activityLow: int,
    similarWeak: int, similarMedium: int, similarStrong: int,
    traceSingle: int, traceMax: int,
    smallBonus: int, oversizePenalty: int,
    ignorePenalty: int)

  datatype KeywordHit = KeywordHit(keyword: string, score: int)

  datatype Input = Input(
    keywordHits: seq<KeywordHit>, activity: int, similarity: string,
    traces: seq<string>, followers: int, ignores: int)

  datatype Evidence = Words(words: seq<string>) | Number(n: int) | Level(level: string)

  datatype Detail = Detail(factor: string, delta: int, evidence: Evidence)

  const FACTORS := ["keyword_risk", "activity_30d", "similarity", "deletion_trace", "account_size", "feedback"]

  function FactorOf(d: Detail): string {
    d.factor
  }

  function Sum(details: seq<Detail>): int {
    if details == [] then 0 else Sum(details[..|details| - 1]) + details[|details| - 1].delta
  }

  // ---- What each factor is worth -------------------------------------------------------------

  function Capped(total: int, max: int): int {
    if max > 0 && total > max then max else total
  }

  /** The points of the keywords, of which only positive ones count. */
  function Points(hits: seq<KeywordHit>): nat {
    if hits == [] then 0
    else
      var last := hits[|hits| - 1];
      Points(hits[..|hits| - 1]) + (if last.score <= 0 then 0 else last.score)
  }

  function Keywords(hits: seq<KeywordHit>): seq<string> {
    if hits == [] then []
    else
      var last := hits[|hits| - 1];
      var keyword := Text.Trim(last.keyword);
      Keywords(hits[..|hits| - 1]) + (if last.score <= 0 || keyword == "" then [] else [keyword])
  }

  /** The trimmed values, each once, in order of first appearance. */
  function Unique(values: seq<string>): seq<string> {
    if values == [] then []
    else
      var front, t := Unique(values[..|values| - 1]), Text.Trim(values[|values| - 1]);
      if t == "" || t in front then front else front + [t]
  }

  function KeywordDelta(w: Weights, hits: seq<KeywordHit>): int {
    Capped(Points(hits), w.keywordMax)
  }

  function ActivityDelta(w: Weights, videos: int): int {
    if videos >= 6 then w.activityHigh
    else if videos >= 3 then w.activityMedium
    else if videos >= 1 then w.activityLow
    else 0
  }

  function SimilarityDelta(w: Weights, level: string): int {
    var l := Text.Trim(level);
    if l == "weak" then w.similarWeak
    else if l == "medium" then w.similarMedium
    else if l == "strong" then w.similarStrong
    else 0
  }

  function TraceDelta(w: Weights, traces: seq<string>): int {
    Capped(|Unique(traces)| * w.traceSingle, w.traceMax)
  }

  function AccountDelta(w: Weights, followers: int): int {
    if 0 < followers <= SMALL_ACCOUNT then w.smallBonus
    else if followers >= OVERSIZE_ACCOUNT then w.oversizePenalty
    else 0
  }

  function FeedbackDelta(w: Weights, ignores: int): int {
    if ignores <= 0 then 0 else ignores * w.ignorePenalty
  }

  function Deltas(w: Weights, input: Input): seq<int> {
    [KeywordDelta(w, input.keywordHits), ActivityDelta(w, input.activity), SimilarityDelta(w, input.similarity),
     TraceDelta(w, input.traces), AccountDelta(w, input.followers), FeedbackDelta(w, input.ignores)]
  }

  function Evidences(input: Input): seq<Evidence> {
    [Words(Keywords(input.keywordHits)), Number(input.activity), Level(input.similarity),
     Words(Unique(input.traces)), Number(input.followers), Number(input.ignores)]
  }

  /** The detail rows of the first n factors: one for each factor that is worth something. */
  function DetailsOf(w: Weights, input: Input, n: nat): (details: seq<Detail>)
    requires n <= 6
    ensures |details| <= n
  {
    if n == 0 then []
    else
      var front, delta := DetailsOf(w, input, n - 1), Deltas(w, input)[n - 1];
      if delta == 0 then front else front + [Detail(FACTORS[n - 1], delta, Evidences(input)[n - 1])]
  }

  function Details(w: Weights, input: Input): seq<Detail> {
    DetailsOf(w, input, 6)
  }

  // ---- The scorer ----------------------------------------------------------------------------

  method UniqueStrings(values: seq<string>) returns (out: seq<string>)
    ensures out == Unique(values)
  {
    var seen: set<string> := {};
    out := [];
    for i := 0 to |values|
      invariant out == Unique(values[..i])
      invariant seen == set x | x in out
    {
      assert values[..i + 1][..i] == values[..i];
      var trimmed := Text.Trim(values[i]);
      if trimmed == "" || trimmed in seen {
        continue;
      }
      seen := seen + {trimmed};
      out := out + [trimmed];
    }
    assert values[..|values|] == values;
  }

  method ScoreKeywordRisk(w: Weights, hits: seq<KeywordHit>) returns (found: Option<Detail>)
    ensures found == FactorDetail("keyword_risk", KeywordDelta(w, hits), Words(Keywords(hits)))
  {
    if |hits| == 0 {
      return None;
    }
    var total, keywords := 0, [];
    for i := 0 to |hits|
      invariant total == Points(hits[..i]) && keywords == Keywords(hits[..i])
    {
      assert hits[..i + 1][..i] == hits[..i];
      if hits[i].score <= 0 {
        continue;
      }
      total := total + hits[i].score;
      var keyword := Text.Trim(hits[i].keyword);
      if keyword != "" {
        keywords := keywords + [keyword];
      }
    }
    assert hits[..|hits|] == hits;
    if total <= 0 {
      return None;
    }
    if w.keywordMax > 0 && total > w.keywordMax {
      total := w.keywordMax;
    }
    return Some(Detail("keyword_risk", total, Words(keywords)));
  }

  method ScoreDeletionTrace(w: Weights, traces: seq<string>) returns (found: Option<Detail>)
    ensures found == FactorDetail("deletion_trace", TraceDelta(w, traces), Words(Unique(traces)))
  {
    var hits := UniqueStrings(traces);
    if |hits| == 0 {
      return None;
    }
    var score := |hits| * w.traceSingle;
    if w.traceMax > 0 && score > w.traceMax {
      score := w.traceMax;
    }
    if score == 0 {
      return None;
    }
    return Some(Detail("deletion_trace", score, Words(hits)));
  }

  /** A factor that is worth nothing has no detail row. */
  function FactorDetail(factor: string, delta: int, evidence: Evidence): Option<Detail> {
    if delta == 0 then None else Some(Detail(factor, delta, evidence))
  }

  method Add(total: int, details: seq<Detail>, found: Option<Detail>) returns (newTotal: int, newDetails: seq<Detail>)
    requires total == Sum(details)
    ensures newTotal == Sum(newDetails) && newDetails == details + (if found.Some? then [found.value] else [])
  {
    newTotal, newDetails := total, details;
    if found.Some? {
      newTotal := newTotal + found.value.delta;
      newDetails := newDetails + [found.value];
      assert newDetails[..|details|] == details;
    }
  }

  /** The total is the sum of the rows, and the rows are those of the six factors in order. */
  method Score(w: Weights, input: Input) returns (total: int, details: seq<Detail>)
    ensures details == Details(w, input) && total == Sum(details)
  {
    hide KeywordDelta, ActivityDelta, SimilarityDelta, TraceDelta, AccountDelta, FeedbackDelta, Sum, Unique, Keywords;
    SumOfNothing();
    var found := ScoreKeywordRisk(w, input.keywordHits);
    total, details := Add(0, [], found);
    assert details == DetailsOf(w, input, 1);
    found := FactorDetail("activity_30d", ActivityDelta(w, input.activity), Number(input.activity));
    total, details := Add(total, details, found);
    assert details == DetailsOf(w, input, 2);
    found := FactorDetail("similarity", SimilarityDelta(w, input.similarity), Level(input.similarity));
    total, details := Add(total, details, found);
    assert details == DetailsOf(w, input, 3);
    found := ScoreDeletionTrace(w, input.traces);
    total, details := Add(total, details, found);
    assert details == DetailsOf(w, input, 4);
    found := FactorDetail("account_size", AccountDelta(w, input.followers), Number(input.followers));
    total, details := Add(total, details, found);
    assert details == DetailsOf(w, input, 5);
    found := FactorDetail("feedback", FeedbackDelta(w, input.ignores), Number(input.ignores));
    total, details := Add(total, details, found);
  }

  lemma SumOfNothing()
    ensures Sum([]) == 0
  {
  }

  // ---- What the rows promise -----------------------------------------------------------------

  predicate IsFactor(k: string) {
    k in FACTORS
  }

  lemma FactorsDiffer(i: nat, j: nat)
    requires i < j < 6
    ensures FACTORS[i] != FACTORS[j]
  {
    assert "keyword_risk"[0] == 'k' && "activity_30d"[1] == 'c' && "similarity"[0] == 's';
    assert "deletion_trace"[0] == 'd' && "account_size"[3] == 'o' && "feedback"[0] == 'f';
    assert |"activity_30d"| == |"account_size"| && "activity_30d"[2] == 't' && "account_size"[2] == 'c';
  }

  /** Each row is a different factor, and none is worth nothing. */
  lemma {:induction false} RowsAreDistinct(w: Weights, input: Input, n: nat)
    requires n <= 6
    ensures DistinctBy(FactorOf, DetailsOf(w, input, n))
    ensures forall d :: d in DetailsOf(w, input, n) ==> d.delta != 0 && exists i :: 0 <= i < n && d.factor == FACTORS[i]
  {
    hide Deltas, Evidences;
    if n > 0 {
      RowsAreDistinct(w, input, n - 1);
      forall i: nat | i < n - 1 ensures FACTORS[i] != FACTORS[n - 1] {
        FactorsDiffer(i, n - 1);
      }
    }
  }

  lemma ScoreRows(w: Weights, input: Input)
    ensures DistinctBy(FactorOf, Details(w, input))
    ensures forall d :: d in Details(w, input) ==> d.delta != 0 && IsFactor(d.factor)
  {
    hide DetailsOf;
    RowsAreDistinct(w, input, 6);
  }

  ghost predicate RowAt(w: Weights, input: Input, d: Detail, i: nat)
    requires i < 6
  {
    d.delta != 0 && d == Detail(FACTORS[i], Deltas(w, input)[i], Evidences(input)[i])
  }

  lemma {:induction false} RowsAre(w: Weights, input: Input, n: nat, d: Detail)
    requires n <= 6
    ensures d in DetailsOf(w, input, n) <==> exists i :: 0 <= i < n && RowAt(w, input, d, i)
  {
    hide Deltas, Evidences;
    if n > 0 {
      RowsAre(w, input, n - 1, d);
      assert RowAt(w, input, d, n - 1) ==> d in DetailsOf(w, input, n);
    }
  }

  /** One video in thirty days is a little activity, three are more and six are a lot. */
  predicate TellsActivity(w: Weights, videos: int, d: Detail) {
    && d.factor == "activity_30d" && d.evidence == Number(videos) && videos >= 1
    && (videos <= 2 ==> d.delta == w.activityLow)
    && (3 <= videos <= 5 ==> d.delta == w.activityMedium)
    && (videos >= 6 ==> d.delta == w.activityHigh)
  }

  predicate TellsSimilarity(w: Weights, level: string, d: Detail) {
    && d.factor == "similarity" && d.evidence == Level(level)
    && (|| (Text.Trim(level) == "weak" && d.delta == w.similarWeak)
        || (Text.Trim(level) == "medium" && d.delta == w.similarMedium)
        || (Text.Trim(level) == "strong" && d.delta == w.similarStrong))
  }

  /** Up to half a million followers, if any, is small, and from five million on is oversize. */
  predicate TellsAccount(w: Weights, followers: int, d: Detail) {
    && d.factor == "account_size" && d.evidence == Number(followers)
    && (|| (1 <= followers <= 500_000 && d.delta == w.smallBonus)
        || (followers >= 5_000_000 && d.delta == w.oversizePenalty))
  }

  predicate TellsFeedback(w: Weights, ignores: int, d: Detail) {
    && d.factor == "feedback" && d.evidence == Number(ignores)
    && ignores > 0 && d.delta == w.ignorePenalty * ignores
  }

  /** As much as is due, but no more than a positive limit. */
  predicate Due(due: int, limit: int, delta: int) {
    delta == if 0 < limit < due then limit else due
  }

  predicate TellsKeywords(w: Weights, hits: seq<KeywordHit>, d: Detail) {
    d.factor == "keyword_risk" && d.evidence == Words(Keywords(hits)) && Due(Points(hits), w.keywordMax, d.delta)
  }

  predicate TellsTraces(w: Weights, traces: seq<string>, d: Detail) {
    && d.factor == "deletion_trace" && d.evidence == Words(Unique(traces))
    && Due(w.traceSingle * |Unique(traces)|, w.traceMax, d.delta)
  }

  /** The rows are exactly those that the six factors call for, without the ones worth nothing. */
  lemma RowsTell(w: Weights, input: Input, d: Detail)
    ensures d in Details(w, input) <==>
      (&& d.delta != 0
       && (|| TellsKeywords(w, input.keywordHits, d) || TellsActivity(w, input.activity, d)
           || TellsSimilarity(w, input.similarity, d) || TellsTraces(w, input.traces, d)
           || TellsAccount(w, input.followers, d) || TellsFeedback(w, input.ignores, d)))
  {
    hide DetailsOf, Points, Keywords, Unique;
    RowsAre(w, input, 6, d);
    assert RowAt(w, input, d, 0) <==> d.delta != 0 && TellsKeywords(w, input.keywordHits, d);
    assert RowAt(w, input, d, 1) <==> d.delta != 0 && TellsActivity(w, input.activity, d);
    assert RowAt(w, input, d, 2) <==> d.delta != 0 && TellsSimilarity(w, input.similarity, d);
    assert RowAt(w, input, d, 3) <==> d.delta != 0 && TellsTraces(w, input.traces, d);
    assert RowAt(w, input, d, 4) <==> d.delta != 0 && TellsAccount(w, input.followers, d);
    assert RowAt(w, input, d, 5) <==> d.delta != 0 && TellsFeedback(w, input.ignores, d);
  }

  /** Points add up hit by hit, and only positive scores count. */
  lemma {:induction false} PointsAddUp(a: seq<KeywordHit>, b: seq<KeywordHit>)
    ensures Points(a + b) == Points(a) + Points(b)
    ensures |b| == 1 && b[0].score > 0 ==> Points(b) == b[0].score
    ensures (forall i :: 0 <= i < |b| ==> b[i].score <= 0) ==> Points(b) == 0
  {
    if b == [] {
      assert a + b == a;
    } else {
      var n := |b| - 1;
      PointsAddUp(a, b[..n]);
      assert (a + b)[..|a + b| - 1] == a + b[..n];
      assert b[..n] == [] ==> Points(b[..n]) == 0;
    }
  }

  /** The keywords shown are the trimmed ones of positive score. */
  lemma {:induction false} KeywordsExactly(hits: seq<KeywordHit>, x: string)
    ensures x in Keywords(hits) <==>
      x != "" && exists i :: 0 <= i < |hits| && Counts(hits[i], x)
  {
    if hits != [] {
      var n := |hits| - 1;
      KeywordsExactly(hits[..n], x);
      assert forall i :: 0 <= i < n ==> hits[..n][i] == hits[i];
      assert Counts(hits[n], x) ==> x == "" || x in Keywords(hits);
    }
  }

  /** The hit has that keyword and a positive score. */
  predicate Counts(h: KeywordHit, keyword: string) {
    h.score > 0 && Text.Trim(h.keyword) == keyword
  }

  ghost predicate Shows(values: seq<string>, x: string) {
    exists i :: 0 <= i < |values| && Text.Trim(values[i]) == x
  }

  /** Deduplicated values are distinct, trimmed and not empty, and none is lost. */
  lemma {:induction false} UniqueExactly(values: seq<string>, x: string)
    ensures forall i, j :: 0 <= i < j < |Unique(values)| ==> Unique(values)[i] != Unique(values)[j]
    ensures x in Unique(values) <==> x != "" && Shows(values, x)
  {
    if values != [] {
      var n := |values| - 1;
      UniqueExactly(values[..n], x);
      assert forall i :: 0 <= i < n ==> values[..n][i] == values[i];
    }
  }

  /** The trace factor counts different markers, however often and in whatever order they come. */
  lemma TraceCountsMarkers(w: Weights, a: seq<string>, b: seq<string>)
    requires forall x :: Shows(a, x) <==> Shows(b, x)
    ensures TraceDelta(w, a) == TraceDelta(w, b)
  {
    hide Shows, Unique;
    var ua, ub := Unique(a), Unique(b);
    forall x ensures x in ua <==> x in ub {
      UniqueExactly(a, x);
      UniqueExactly(b, x);
      assert Shows(a, x) <==> Shows(b, x);
    }
    UniqueExactly(a, "");
    UniqueExactly(b, "");
    CountsAlike(ua, ub);
  }

  lemma CountsAlike(a: seq<string>, b: seq<string>)
    requires forall x :: x in a <==> x in b
    requires forall i, j :: 0 <= i < j < |a| ==> a[i] != a[j]
    requires forall i, j :: 0 <= i < j < |b| ==> b[i] != b[j]
    ensures |a| == |b|
  {
    var same := (s: string) => s;
    forall x ensures multiset(a)[x] == multiset(b)[x] {
      DistinctOnce(same, a, x);
      DistinctOnce(same, b, x);
      assert x in a <==> x in multiset(a);
      assert x in b <==> x in multiset(b);
    }
    assert multiset(a) == multiset(b);
    SameElements(a, b);
  }
}
