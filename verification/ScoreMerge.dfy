/**
 The candidate tables over any sequence of error-free discovery runs. A keyword run replaces a
 candidate's score rows and sources; a related run merges with what is stored. A step is one
 candidate written by a run; uids are trimmed.
 */
module ScoreMerge {
  import opened Common
  import opened Sorting
  import opened Scorer
  import K = Keyed
  import Text

  datatype Source = Source(kind: string, value: string, weight: int, detail: int)

  datatype Row = Row(score: int, details: seq<Detail>, sources: seq<Source>)

  // ---- Merging the score rows ----------------------------------------------------------------

  predicate Replaced(factor: string) {
    Text.Trim(factor) == "similarity" || Text.Trim(factor) == "account_size" || Text.Trim(factor) == "feedback"
  }

  /** The stored rows that a related run starts from. */
  function Kept(stored: seq<Detail>): seq<Detail> {
    if stored == [] then []
    else
      var last := stored[|stored| - 1];
      Kept(stored[..|stored| - 1]) + (if Replaced(last.factor) then [] else [last])
  }

  /** A row with a new factor is added; of two rows with one factor the greater stays. */
  function MergeOne(details: seq<Detail>, d: Detail): seq<Detail> {
    var held := K.Find(FactorOf, details, d.factor);
    if held.None? || d.delta > held.value.delta then K.Place(FactorOf, details, d) else details
  }

  function MergeAll(details: seq<Detail>, incoming: seq<Detail>): seq<Detail> {
    if incoming == [] then details
    else MergeOne(MergeAll(details, incoming[..|incoming| - 1]), incoming[|incoming| - 1])
  }

  function MergeDetails(stored: seq<Detail>, incoming: seq<Detail>): seq<Detail> {
    MergeAll(Kept(stored), incoming)
  }

  /** The two loops of buildScoreDetails, with the index that the program keeps. */
  method BuildScoreDetails(stored: seq<Detail>, incoming: seq<Detail>) returns (details: seq<Detail>)
    ensures details == MergeDetails(stored, incoming)
  {
    hide K.LastOf;
    details := [];
    var index: map<string, nat> := map[];
    NothingIndexed();
    for i := 0 to |stored|
      invariant details == Kept(stored[..i]) && Indexes(index, details)
    {
      assert stored[..i + 1][..i] == stored[..i];
      if Replaced(stored[i].factor) {
        continue;
      }
      IndexAppended(index, details, stored[i]);
      index := index[stored[i].factor := |details|];
      details := details + [stored[i]];
    }
    assert stored[..|stored|] == stored;
    for i := 0 to |incoming|
      invariant details == MergeAll(Kept(stored), incoming[..i]) && Indexes(index, details)
    {
      assert incoming[..i + 1][..i] == incoming[..i];
      var item := incoming[i];
      assert Look(index, item.factor) == K.LastOf(FactorOf, details, item.factor);
      if item.factor in index {
        var at := index[item.factor];
        if item.delta > details[at].delta {
          IndexReplaced(index, details, at, item);
          details := details[at := item];
        }
        continue;
      }
      IndexAppended(index, details, item);
      index := index[item.factor := |details|];
      details := details + [item];
    }
    assert incoming[..|incoming|] == incoming;
  }

  ghost predicate Indexes(index: map<string, nat>, details: seq<Detail>) {
    forall f :: Look(index, f) == K.LastOf(FactorOf, details, f)
  }

  lemma NothingIndexed()
    ensures Indexes(map[], [])
  {
  }

  lemma IndexAppended(index: map<string, nat>, details: seq<Detail>, d: Detail)
    requires Indexes(index, details)
    ensures Indexes(index[d.factor := |details|], details + [d])
  {
    forall f ensures Look(index[d.factor := |details|], f) == K.LastOf(FactorOf, details + [d], f) {
      K.LastOfAppended(FactorOf, details, d, f);
      assert Look(index, f) == K.LastOf(FactorOf, details, f);
    }
  }

  lemma IndexReplaced(index: map<string, nat>, details: seq<Detail>, at: nat, d: Detail)
    requires Indexes(index, details) && at < |details| && details[at].factor == d.factor
    ensures Indexes(index, details[at := d])
  {
    forall f ensures Look(index, f) == K.LastOf(FactorOf, details[at := d], f) {
      K.LastOfReplaced(FactorOf, details, at, d, f);
      assert Look(index, f) == K.LastOf(FactorOf, details, f);
    }
  }

  // ---- What merging means for each factor ----------------------------------------------------

  function Greater(a: Option<Detail>, b: Option<Detail>): Option<Detail> {
    if a.None? then b
    else if b.None? || b.value.delta <= a.value.delta then a
    else b
  }

  lemma {:induction false} KeptReads(stored: seq<Detail>, f: string)
    requires DistinctBy(FactorOf, stored)
    ensures DistinctBy(FactorOf, Kept(stored))
    ensures K.Find(FactorOf, Kept(stored), f) == if Replaced(f) then None else K.Find(FactorOf, stored, f)
    ensures forall d :: d in Kept(stored) ==> d in stored
  {
    hide Replaced, K.LastOf, K.Find;
    if stored == [] {
      K.FindNothing<Detail, string>(FactorOf, f);
    } else {
      var front, last := stored[..|stored| - 1], stored[|stored| - 1];
      assert stored == front + [last] && Kept(front) + [] == Kept(front);
      KeptReads(front, f);
      K.FindAppended(FactorOf, front, last, f);
      K.FindAppended(FactorOf, Kept(front), last, f);
      forall d | d in Kept(front) ensures FactorOf(d) != FactorOf(last) && d in stored {
        var i := IndexOf(front, d);
        assert stored[i] == d;
      }
    }
  }

  lemma MergeOneReads(details: seq<Detail>, d: Detail, f: string)
    requires DistinctBy(FactorOf, details)
    ensures DistinctBy(FactorOf, MergeOne(details, d))
    ensures K.Find(FactorOf, MergeOne(details, d), f)
      == if f == d.factor then Greater(K.Find(FactorOf, details, f), Some(d)) else K.Find(FactorOf, details, f)
  {
    hide K.LastOf;
    K.FindPlaced(FactorOf, details, d, f);
    K.PlacedDistinct(FactorOf, details, d);
  }

  lemma {:induction false} MergeAllReads(details: seq<Detail>, incoming: seq<Detail>, f: string)
    requires DistinctBy(FactorOf, details) && DistinctBy(FactorOf, incoming)
    ensures DistinctBy(FactorOf, MergeAll(details, incoming))
    ensures K.Find(FactorOf, MergeAll(details, incoming), f)
      == Greater(K.Find(FactorOf, details, f), K.Find(FactorOf, incoming, f))
  {
    hide MergeOne, K.LastOf;
    if incoming == [] {
      assert K.LastOf(FactorOf, incoming, f).None?;
    } else {
      var n := |incoming| - 1;
      MergeAllReads(details, incoming[..n], f);
      MergeOneReads(MergeAll(details, incoming[..n]), incoming[n], f);
      assert incoming == incoming[..n] + [incoming[n]];
      K.LastOfAppended(FactorOf, incoming[..n], incoming[n], f);
      assert f == incoming[n].factor ==> K.Find(FactorOf, incoming[..n], f).None?;
    }
  }

  /** Factor by factor: similarity, account size and feedback are what the new score says, of the rest
      the greater stays, and of two equal ones the stored one. */
  lemma MergeReplaces(stored: seq<Detail>, incoming: seq<Detail>, f: string)
    requires DistinctBy(FactorOf, stored) && DistinctBy(FactorOf, incoming)
    ensures var was, scored, after := K.Find(FactorOf, stored, f), K.Find(FactorOf, incoming, f),
        K.Find(FactorOf, MergeDetails(stored, incoming), f);
      var k := Text.Trim(f);
      if k == "similarity" || k == "account_size" || k == "feedback" then after == scored
      else
        && (after == was || after == scored)
        && (was.Some? && (scored.None? || was.value.delta >= scored.value.delta) ==> after == was)
        && (scored.Some? && (was.None? || scored.value.delta > was.value.delta) ==> after == scored)
  {
    hide K.LastOf, MergeDetails;
    MergeReads(stored, incoming, f);
  }

  /** The three factors that are taken from the new score, and of the rest the greater. */
  lemma MergeReads(stored: seq<Detail>, incoming: seq<Detail>, f: string)
    requires DistinctBy(FactorOf, stored) && DistinctBy(FactorOf, incoming)
    ensures DistinctBy(FactorOf, MergeDetails(stored, incoming))
    ensures K.Find(FactorOf, MergeDetails(stored, incoming), f)
      == Greater(if Replaced(f) then None else K.Find(FactorOf, stored, f), K.Find(FactorOf, incoming, f))
  {
    KeptReads(stored, f);
    MergeAllReads(Kept(stored), incoming, f);
  }

  /** Rows with distinct factors that read alike have the same sum. */
  lemma SumReads(a: seq<Detail>, b: seq<Detail>)
    requires DistinctBy(FactorOf, a) && DistinctBy(FactorOf, b)
    requires forall f :: K.Find(FactorOf, a, f) == K.Find(FactorOf, b, f)
    ensures Sum(a) == Sum(b)
  {
    K.ReadAlike(FactorOf, a, b);
    SumIgnoresOrder(a, b);
  }

  lemma {:induction false} SumOfBoth(a: seq<Detail>, b: seq<Detail>)
    ensures Sum(a + b) == Sum(a) + Sum(b)
    decreases |b|
  {
    if b == [] {
      assert a + b == a;
    } else {
      var front := b[..|b| - 1];
      SumOfBoth(a, front);
      assert (a + b)[..|a + b| - 1] == a + front;
    }
  }

  lemma SumWithout(s: seq<Detail>, i: nat)
    requires i < |s|
    ensures Sum(s) == Sum(s[..i] + s[i + 1..]) + s[i].delta
    ensures multiset(s[..i] + s[i + 1..]) == multiset(s) - multiset{s[i]}
  {
    hide Sum;
    var before, after := s[..i], s[i + 1..];
    assert s == before + ([s[i]] + after);
    SumOfBoth(before, [s[i]] + after);
    SumOfBoth([s[i]], after);
    SumOfBoth(before, after);
    SumOfOne(s[i]);
  }

  lemma SumOfOne(d: Detail)
    ensures Sum([d]) == d.delta
  {
    assert [d][..0] == [];
  }

  lemma {:induction false} SumIgnoresOrder(a: seq<Detail>, b: seq<Detail>)
    requires multiset(a) == multiset(b)
    ensures Sum(a) == Sum(b)
    decreases |a|
  {
    SameElements(a, b);
    if a != [] {
      var n := |a| - 1;
      var i := IndexOf(b, a[n]);
      SumWithout(b, i);
      SumWithout(a, n);
      assert a[..n] + a[n + 1..] == a[..n];
      SumIgnoresOrder(a[..n], b[..i] + b[i + 1..]);
    } else {
      assert b == [];
    }
  }

  // ---- Merging the sources -------------------------------------------------------------------

  /** What tells sources apart when runs are merged. */
  function SourceKey(s: Source): (string, string) {
    (Text.Trim(s.kind), Text.Trim(s.value))
  }

  /** What tells rows apart in the table. */
  function RowKey(s: Source): (string, string) {
    (s.kind, s.value)
  }

  type Key = Source -> (string, string)

  /** Each source once, the last one with its key, in the order in which the keys first appear. */
  function Placed(key: Key, items: seq<Source>): seq<Source> {
    if items == [] then []
    else K.Place(key, Placed(key, items[..|items| - 1]), items[|items| - 1])
  }

  function MergeSources(stored: seq<Source>, incoming: seq<Source>): seq<Source> {
    Placed(SourceKey, stored + incoming)
  }

  /** The map and the list of keys of mergeCandidateSources and of dedupeCandidateSources. */
  method PlaceEach(key: Key, items: seq<Source>) returns (result: seq<Source>)
    ensures result == Placed(key, items)
  {
    hide K.LastOf;
    var merged: map<(string, string), Source> := map[];
    var order: seq<(string, string)> := [];
    for i := 0 to |items|
      invariant forall k :: k in order ==> k in merged
      invariant Mirrors(key, merged, order, Placed(key, items[..i]))
    {
      assert items[..i + 1][..i] == items[..i];
      var k := key(items[i]);
      MirrorsPlaced(key, merged, order, Placed(key, items[..i]), items[i]);
      if k !in merged {
        order := order + [k];
      }
      merged := merged[k := items[i]];
    }
    assert items[..|items|] == items;
    result := [];
    for i := 0 to |order|
      invariant result == Placed(key, items)[..i]
    {
      result := result + [merged[order[i]]];
    }
  }

  ghost predicate Mirrors(key: Key, merged: map<(string, string), Source>, order: seq<(string, string)>,
      s: seq<Source>) {
    && |order| == |s|
    && DistinctBy(key, s)
    && (forall i :: 0 <= i < |s| ==> order[i] == key(s[i]) && order[i] in merged && merged[order[i]] == s[i])
    && (forall k :: k in merged ==> k in order)
  }

  lemma MirrorsPlaced(key: Key, merged: map<(string, string), Source>, order: seq<(string, string)>,
      s: seq<Source>, x: Source)
    requires Mirrors(key, merged, order, s)
    ensures Mirrors(key, merged[key(x) := x], if key(x) in merged then order else order + [key(x)], K.Place(key, s, x))
  {
    K.PlacedDistinct(key, s, x);
    var at := K.LastOf(key, s, key(x));
    if key(x) in merged {
      var i := IndexOf(order, key(x));
      assert key(s[i]) == key(x);
      assert at.Some?;
    } else {
      assert forall i :: 0 <= i < |s| ==> order[i] in merged;
      assert at.None?;
    }
  }

  /** Keys are unique, and each reads as the last source with that key. */
  lemma {:induction false} PlacedReads(key: Key, items: seq<Source>, k: (string, string))
    ensures DistinctBy(key, Placed(key, items))
    ensures K.Find(key, Placed(key, items), k) == K.Find(key, items, k)
    ensures forall x :: x in Placed(key, items) ==> x in items
  {
    if items != [] {
      var n := |items| - 1;
      PlacedReads(key, items[..n], k);
      K.PlacedDistinct(key, Placed(key, items[..n]), items[n]);
      K.FindPlaced(key, Placed(key, items[..n]), items[n], k);
    }
  }

  lemma {:induction false} PlacedFixes(key: Key, items: seq<Source>)
    requires DistinctBy(key, items)
    ensures Placed(key, items) == items
  {
    if items != [] {
      PlacedFixes(key, items[..|items| - 1]);
    }
  }

  /** Sources with distinct trimmed keys are distinct rows, so the table stores all of them. */
  lemma MergedAreRows(stored: seq<Source>, incoming: seq<Source>)
    ensures Placed(RowKey, MergeSources(stored, incoming)) == MergeSources(stored, incoming)
  {
    hide K.Place;
    PlacedReads(SourceKey, stored + incoming, ("", ""));
    PlacedFixes(RowKey, MergeSources(stored, incoming));
  }

  lemma {:induction false} FindInBoth(a: seq<Source>, b: seq<Source>, k: (string, string))
    ensures K.Find(SourceKey, a + b, k)
      == if K.Find(SourceKey, b, k).Some? then K.Find(SourceKey, b, k) else K.Find(SourceKey, a, k)
    decreases |b|
  {
    hide SourceKey;
    if b == [] {
      assert a + b == a;
    } else {
      var n := |b| - 1;
      FindInBoth(a, b[..n], k);
      assert (a + b)[..|a + b| - 1] == a + b[..n];
    }
  }

  /** New sources win, and every stored key stays. */
  lemma MergedSourcesRead(stored: seq<Source>, incoming: seq<Source>, k: (string, string))
    ensures DistinctBy(SourceKey, MergeSources(stored, incoming))
    ensures K.Find(SourceKey, MergeSources(stored, incoming), k)
      == if K.Find(SourceKey, incoming, k).Some? then K.Find(SourceKey, incoming, k) else K.Find(SourceKey, stored, k)
  {
    PlacedReads(SourceKey, stored + incoming, k);
    FindInBoth(stored, incoming, k);
  }

  // ---- Runs ----------------------------------------------------------------------------------

  predicate Heavier(a: Source, b: Source) {
    a.weight > b.weight
  }

  /** The stored sources as they are read back: by weight, then in the order they were written. */
  function ListSources(stored: seq<Source>): seq<Source> {
    Sort(Heavier, stored)
  }

  type Tables = map<string, Row>

  datatype Step = Step(uid: string, related: bool, input: Input, sources: seq<Source>)

  /** The sources of a keyword run are the keywords, which are trimmed when they are read. */
  ghost predicate Trimmed(s: Step) {
    !s.related ==> forall x :: x in s.sources ==> SourceKey(x) == RowKey(x)
  }

  /** A related run scores no keywords. */
  function Incoming(w: Weights, s: Step): seq<Detail> {
    Details(w, if s.related then s.input.(keywordHits := []) else s.input)
  }

  const ABSENT := Row(0, [], [])

  function RowAfter(w: Weights, row: Row, s: Step): Row {
    if s.related then
      var details := MergeDetails(row.details, Incoming(w, s));
      Row(Sum(details), details, Placed(RowKey, MergeSources(ListSources(row.sources), s.sources)))
    else
      Row(Sum(Incoming(w, s)), Incoming(w, s), Placed(RowKey, s.sources))
  }

  function Apply(w: Weights, t: Tables, s: Step): Tables {
    t[s.uid := RowAfter(w, if s.uid in t then t[s.uid] else ABSENT, s)]
  }

  function Exec(w: Weights, t: Tables, run: seq<Step>): Tables {
    if run == [] then t else Apply(w, Exec(w, t, run[..|run| - 1]), run[|run| - 1])
  }

  class Candidates {
    const weights: Weights
    var rows: Tables

    constructor (weights: Weights)
      ensures this.weights == weights && rows == map[]
    {
      this.weights := weights;
      rows := map[];
    }

    /** One candidate of a keyword run: score, sources and rows are written one after another. */
    method WriteKeyword(uid: string, input: Input, sources: seq<Source>)
      modifies this
      ensures rows == Apply(weights, old(rows), Step(uid, false, input, sources))
    {
      hide Details, Sum, Placed;
      var row := if uid in rows then rows[uid] else ABSENT;
      var total, details := Score(weights, input);
      rows := rows[uid := row.(score := total)];
      var unique := PlaceEach(RowKey, sources);
      rows := rows[uid := rows[uid].(sources := unique)];
      rows := rows[uid := rows[uid].(details := details)];
    }

    /** One candidate of a related run. */
    method WriteRelated(uid: string, input: Input, sources: seq<Source>)
      modifies this
      ensures rows == Apply(weights, old(rows), Step(uid, true, input, sources))
    {
      hide Details, Sum, Placed, MergeAll, Kept, RowKey, SourceKey;
      var row := if uid in rows then rows[uid] else ABSENT;
      var _, incoming := Score(weights, input.(keywordHits := []));
      var details := BuildScoreDetails(row.details, incoming);
      var total := SumScoreDetails(details);
      rows := rows[uid := row.(score := total)];
      var merged := PlaceEach(SourceKey, ListSources(row.sources) + sources);
      merged := PlaceEach(RowKey, merged);
      rows := rows[uid := rows[uid].(sources := merged)];
      rows := rows[uid := rows[uid].(details := details)];
    }
  }

  method SumScoreDetails(details: seq<Detail>) returns (total: int)
    ensures total == Sum(details)
  {
    total := 0;
    for i := 0 to |details|
      invariant total == Sum(details[..i])
    {
      assert details[..i + 1][..i] == details[..i];
      total := total + details[i].delta;
    }
    assert details[..|details|] == details;
  }

  /** The stored score is the sum of the stored rows, and no factor is stored twice. */
  ghost predicate Sound(row: Row) {
    && row.score == Sum(row.details)
    && DistinctBy(FactorOf, row.details)
    && (forall d :: d in row.details ==> IsFactor(d.factor) && d.delta != 0)
    && DistinctBy(SourceKey, row.sources)
  }

  lemma {:induction false} MergedFrom(details: seq<Detail>, incoming: seq<Detail>)
    ensures forall d :: d in MergeAll(details, incoming) ==> d in details || d in incoming
  {
    if incoming != [] {
      MergedFrom(details, incoming[..|incoming| - 1]);
    }
  }

  lemma StepKeepsSound(w: Weights, row: Row, s: Step)
    requires Sound(row) && Trimmed(s)
    ensures Sound(RowAfter(w, row, s))
  {
    hide Details, SourceKey, MergeAll, Kept, Placed, IsFactor;
    var incoming := Incoming(w, s);
    ScoreRows(w, if s.related then s.input.(keywordHits := []) else s.input);
    if s.related {
      MergeReads(row.details, incoming, "");
      KeptReads(row.details, "");
      MergedFrom(Kept(row.details), incoming);
      MergedSourcesRead(ListSources(row.sources), s.sources, ("", ""));
      MergedAreRows(ListSources(row.sources), s.sources);
    } else {
      PlacedReads(RowKey, s.sources, ("", ""));
      assert forall x :: x in Placed(RowKey, s.sources) ==> SourceKey(x) == RowKey(x);
    }
  }

  /** From empty tables, over any sequence of runs, every stored candidate is sound. */
  lemma {:induction false} RunsKeepScores(w: Weights, run: seq<Step>)
    requires forall i :: 0 <= i < |run| ==> Trimmed(run[i])
    ensures forall uid :: uid in Exec(w, map[], run) ==> Sound(Exec(w, map[], run)[uid])
  {
    hide RowAfter, Sound, Trimmed;
    if run != [] {
      RunsKeepScores(w, run[..|run| - 1]);
      var t, s := Exec(w, map[], run[..|run| - 1]), run[|run| - 1];
      AbsentIsSound();
      StepKeepsSound(w, if s.uid in t then t[s.uid] else ABSENT, s);
    }
  }

  lemma AbsentIsSound()
    ensures Sound(ABSENT)
  {
  }

  /** A related run never lowers a factor that it keeps. */
  lemma RelatedNeverLowers(w: Weights, row: Row, s: Step, d: Detail)
    requires Sound(row) && s.related && d in row.details
    requires var f := Text.Trim(d.factor); f != "similarity" && f != "account_size" && f != "feedback"
    ensures var after := K.Find(FactorOf, RowAfter(w, row, s).details, d.factor);
      after.Some? && after.value.delta >= d.delta
  {
    hide Details;
    ScoreRows(w, s.input.(keywordHits := []));
    MergeReads(row.details, Incoming(w, s), d.factor);
    K.FindIsMember(FactorOf, row.details, d);
  }

  /** A related run scores no keywords, so the stored keyword row stays as it is. */
  lemma RelatedKeepsKeywords(w: Weights, row: Row, s: Step)
    requires Sound(row) && s.related
    ensures K.Find(FactorOf, RowAfter(w, row, s).details, "keyword_risk")
      == K.Find(FactorOf, row.details, "keyword_risk")
  {
    hide Details, K.LastOf;
    var input := s.input.(keywordHits := []);
    ScoreRows(w, input);
    MergeReplaces(row.details, Incoming(w, s), "keyword_risk");
    var found := K.Find(FactorOf, Incoming(w, s), "keyword_risk");
    if found.Some? {
      RowsTell(w, input, found.value);
      assert Points([]) == 0;
    }
    assert Text.Trim("keyword_risk") == "keyword_risk";
    assert |"keyword_risk"| != |"similarity"| && |"keyword_risk"| != |"feedback"| && "keyword_risk"[0] == 'k';
  }

  /** A keyword run forgets what was stored: the rows are those of the new score, and of the sources
      each kind and value is stored once, as it was listed last. */
  lemma KeywordForgets(w: Weights, row: Row, s: Step, d: Detail, x: Source)
    requires !s.related
    ensures var after := RowAfter(w, row, s);
      && (d in after.details <==> d in Details(w, s.input))
      && (x in after.sources <==>
            exists i :: 0 <= i < |s.sources| && s.sources[i] == x
              && forall j :: i < j < |s.sources| ==> s.sources[j].kind != x.kind || s.sources[j].value != x.value)
  {
    hide Details, Sum;
    LastStands(RowKey, s.sources, x);
    assert forall y: Source :: RowKey(y) == RowKey(x) <==> y.kind == x.kind && y.value == x.value;
  }

  /** Of the sources with one key exactly the last is placed. */
  lemma LastStands(key: Key, items: seq<Source>, x: Source)
    ensures x in Placed(key, items) <==> K.StandsLast(key, items, x)
  {
    hide K.LastOf, K.StandsLast;
    PlacedReads(key, items, key(x));
    K.FindIsMember(key, Placed(key, items), x);
    K.FindIsLast(key, items, x);
  }

  /** A related run stores each source once for its trimmed kind and value: the last new one if there
      is any, and otherwise the stored one. */
  lemma RelatedSources(w: Weights, row: Row, s: Step, x: Source)
    requires Sound(row) && s.related
    ensures var all := row.sources + s.sources;
      x in RowAfter(w, row, s).sources <==>
        exists i :: 0 <= i < |all| && all[i] == x
          && forall j :: i < j < |all| ==>
               Text.Trim(all[j].kind) != Text.Trim(x.kind) || Text.Trim(all[j].value) != Text.Trim(x.value)
  {
    hide Details, MergeDetails, Sum, Placed, K.LastOf;
    var listed := ListSources(row.sources);
    MergedAreRows(listed, s.sources);
    MergedSourcesRead(listed, s.sources, SourceKey(x));
    K.FindIsMember(SourceKey, MergeSources(listed, s.sources), x);
    K.Rearranged(SourceKey, row.sources, listed, SourceKey(x));
    FindInBoth(row.sources, s.sources, SourceKey(x));
    K.FindIsLast(SourceKey, row.sources + s.sources, x);
  }

  /** The stored sources are read back the heaviest first. */
  lemma ListedByWeight(stored: seq<Source>, i: nat, j: nat)
    requires i < j < |stored|
    ensures ListSources(stored)[i].weight >= ListSources(stored)[j].weight
    ensures multiset(ListSources(stored)) == multiset(stored)
  {
    SortDescending(Heavier, (x: Source) => x.weight, stored);
  }

  lemma FactorsRepeat(w: Weights, row: Row, s: Step, f: string)
    requires Sound(row) && s.related
    ensures var once := RowAfter(w, row, s);
      K.Find(FactorOf, RowAfter(w, once, s).details, f) == K.Find(FactorOf, once.details, f)
  {
    hide Details, Replaced, Sound, MergeAll, Kept;
    var once := RowAfter(w, row, s);
    var incoming := Incoming(w, s);
    StepKeepsSound(w, row, s);
    SoundFactors(row);
    SoundFactors(once);
    ScoreRows(w, s.input.(keywordHits := []));
    MergeReads(row.details, incoming, f);
    MergeReads(once.details, incoming, f);
  }

  lemma SoundFactors(row: Row)
    requires Sound(row)
    ensures DistinctBy(FactorOf, row.details) && DistinctBy(SourceKey, row.sources) && row.score == Sum(row.details)
  {
  }

  lemma SourcesRepeat(w: Weights, row: Row, s: Step, k: (string, string))
    requires Sound(row) && s.related
    ensures var once := RowAfter(w, row, s);
      K.Find(SourceKey, RowAfter(w, once, s).sources, k) == K.Find(SourceKey, once.sources, k)
  {
    hide Details, MergeDetails, Sound, MergeSources, SourceKey, RowKey, Placed;
    var once := RowAfter(w, row, s);
    StepKeepsSound(w, row, s);
    SoundFactors(once);
    K.Rearranged(SourceKey, once.sources, ListSources(once.sources), k);
    MergedAreRows(ListSources(row.sources), s.sources);
    MergedAreRows(ListSources(once.sources), s.sources);
    MergedSourcesRead(ListSources(row.sources), s.sources, k);
    MergedSourcesRead(ListSources(once.sources), s.sources, k);
  }

  /** Repeating a related run on the same inputs changes no factor, no total and no source. */
  lemma RelatedRepeats(w: Weights, row: Row, s: Step)
    requires Sound(row) && s.related
    ensures var once, twice := RowAfter(w, row, s), RowAfter(w, RowAfter(w, row, s), s); twice.score == once.score
    ensures var once, twice := RowAfter(w, row, s), RowAfter(w, RowAfter(w, row, s), s);
      multiset(twice.details) == multiset(once.details)
    ensures var once, twice := RowAfter(w, row, s), RowAfter(w, RowAfter(w, row, s), s);
      multiset(twice.sources) == multiset(once.sources)
  {
    hide RowAfter, Sound, Sum, SourceKey, FactorOf;
    var once := RowAfter(w, row, s);
    var twice := RowAfter(w, once, s);
    StepKeepsSound(w, row, s);
    StepKeepsSound(w, once, s);
    SoundFactors(once);
    SoundFactors(twice);
    forall f ensures K.Find(FactorOf, twice.details, f) == K.Find(FactorOf, once.details, f) {
      FactorsRepeat(w, row, s, f);
    }
    SumReads(twice.details, once.details);
    K.ReadAlike(FactorOf, twice.details, once.details);
    forall k ensures K.Find(SourceKey, twice.sources, k) == K.Find(SourceKey, once.sources, k) {
      SourcesRepeat(w, row, s, k);
    }
    K.ReadAlike(SourceKey, twice.sources, once.sources);
  }
}
