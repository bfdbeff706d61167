/** A rebuild shows exactly the source, touches only its creator, and can be done in any order. */
module ProjectionProofs {
  import opened Common
  import opened Sorting
  import opened Naming
  import opened Projection
  import Text

  // ---- One directory -------------------------------------------------------------------

  lemma LinkNamesDiffer(a: Item, b: Item)
    requires LinkName(a) == LinkName(b)
    ensures a.video.id == b.video.id
  {
    assert LinkName(a)[..|LinkName(a)| - 4] == a.video.id;
    assert LinkName(b)[..|LinkName(b)| - 4] == b.video.id;
  }

  lemma LastNameIsNew(items: seq<Item>, it: Item)
    requires items != [] && DistinctIds(items) && it in items[..|items| - 1]
    ensures LinkName(it) != LinkName(items[|items| - 1])
  {
    var i := IndexOf(items[..|items| - 1], it);
    assert items[i].video.id != items[|items| - 1].video.id;
    if LinkName(it) == LinkName(items[|items| - 1]) {
      LinkNamesDiffer(it, items[|items| - 1]);
    }
  }

  lemma {:induction false} LinkHasItem(items: seq<Item>, b: Bucket, n: string)
    requires n in Links(items, b)
    ensures exists it :: it in items && it.bucket == b && n == LinkName(it)
  {
    var front, last := items[..|items| - 1], items[|items| - 1];
    if n in Links(front, b) {
      LinkHasItem(front, b, n);
      var it :| it in front && it.bucket == b && n == LinkName(it);
      assert it in items;
    } else {
      assert last in items && n == LinkName(last);
    }
  }

  lemma {:induction false} ItemHasLink(items: seq<Item>, b: Bucket, it: Item)
    requires DistinctIds(items) && it in items && it.bucket == b
    ensures LinkName(it) in Links(items, b) && Links(items, b)[LinkName(it)] == it.video.filePath
  {
    var front, last := items[..|items| - 1], items[|items| - 1];
    if it != last {
      assert items == front + [last] && it in front;
      ItemHasLink(front, b, it);
      LastNameIsNew(items, it);
    }
  }

  lemma {:induction false} AsManyLinks(items: seq<Item>, b: Bucket)
    requires DistinctIds(items)
    ensures |Links(items, b)| == Count(items, b)
  {
    if items != [] {
      var front, last := items[..|items| - 1], items[|items| - 1];
      AsManyLinks(front, b);
      if last.bucket == b {
        var m := Links(front, b);
        if LinkName(last) in m {
          LinkHasItem(front, b, LinkName(last));
          var it :| it in front && it.bucket == b && LinkName(last) == LinkName(it);
          LastNameIsNew(items, it);
        }
        assert Links(items, b).Keys == m.Keys + {LinkName(last)};
      }
    }
  }

  lemma {:induction false} CountsCover(items: seq<Item>)
    ensures Count(items, Videos) + Count(items, Rare) == |items|
  {
    if items != [] {
      CountsCover(items[..|items| - 1]);
    }
  }

  lemma {:induction false} BytesOfEntries(items: seq<Item>)
    ensures EntryBytes(Entries(items)) == Bytes(items)
  {
    if items != [] {
      var front := items[..|items| - 1];
      BytesOfEntries(front);
      assert Entries(items)[..|items| - 1] == Entries(front);
    }
  }

  lemma SortedStaysDistinct(items: seq<Item>)
    requires DistinctIds(items)
    ensures DistinctIds(Sort(Before, items))
  {
    var id := (it: Item) => it.video.id;
    assert forall it :: id(it) == it.video.id;
    DistinctStays(id, items, Sort(Before, items));
    var s := Sort(Before, items);
    forall i, j | 0 <= i < j < |s| ensures s[i].video.id != s[j].video.id {
      assert id(s[i]) != id(s[j]);
    }
  }

  lemma ProjectedFacts(w: World, s: Snapshot)
    requires UniqueIds(s)
    ensures var items := Projected(w, s);
      && DistinctIds(items)
      && Ordered(Before, items)
      && (forall v :: v in s.videos && Shown(w, v) ==> ItemOf(w, v) in items)
      && (forall it :: it in items ==> it.video in s.videos && Shown(w, it.video) && it == ItemOf(w, it.video))
  {
    var c := Collect(w, s.videos);
    CollectExact(w, s.videos);
    CollectDistinct(w, s.videos);
    SameElements(c, Sort(Before, c));
    SortedStaysDistinct(c);
    DistinctAsPairs(c);
    BeforeIsTotal(c);
    SortOrdered(Before, c);
  }

  /** The links are exactly those of the shown videos of that bucket. */
  ghost predicate LinksExact(w: World, s: Snapshot, b: Bucket, links: map<string, string>) {
    && (forall v :: v in s.videos && Shown(w, v) && ProjectionBucket(v.state) == Some(b) ==>
          v.id + ".mp4" in links && links[v.id + ".mp4"] == v.filePath)
    && (forall n :: n in links ==>
          exists v :: v in s.videos && Shown(w, v) && ProjectionBucket(v.state) == Some(b) && n == v.id + ".mp4")
  }

  lemma LinksAreExact(w: World, s: Snapshot, b: Bucket)
    requires UniqueIds(s)
    ensures LinksExact(w, s, b, Links(Projected(w, s), b))
  {
    var items := Projected(w, s);
    ProjectedFacts(w, s);
    var links := Links(items, b);
    forall v | v in s.videos && Shown(w, v) && ProjectionBucket(v.state) == Some(b)
      ensures v.id + ".mp4" in links && links[v.id + ".mp4"] == v.filePath
    {
      var it := ItemOf(w, v);
      ItemHasLink(items, b, it);
    }
    forall n | n in links
      ensures exists v :: v in s.videos && Shown(w, v) && ProjectionBucket(v.state) == Some(b) && n == v.id + ".mp4"
    {
      LinkHasItem(items, b, n);
      var it :| it in items && it.bucket == b && n == LinkName(it);
      var v := it.video;
      assert v in s.videos && Shown(w, v) && it == ItemOf(w, v);
    }
  }

  lemma ShownByState(w: World, v: Video)
    ensures Shown(w, v) <==> Available(w, v) && (Offered(v) || OutOfPrint(v))
    ensures Shown(w, v) ==> ProjectionBucket(v.state) == Some(if OutOfPrint(v) then Rare else Videos)
    ensures Shown(w, v) ==> Describes(w, EntryOf(ItemOf(w, v)), v)
  {
    if Shown(w, v) {
      var b := if OutOfPrint(v) then "rare/" else "videos/";
      assert b + v.id + ".mp4" == b + (v.id + ".mp4");
    }
  }

  lemma ItemsIndexed(w: World, s: Snapshot)
    requires UniqueIds(s)
    ensures Indexed(w, s, Entries(Projected(w, s)))
  {
    hide Projected, Shown, UniqueIds;
    var items := Projected(w, s);
    ProjectedFacts(w, s);
    var entries := Entries(items);
    forall v | v in s.videos && Available(w, v) && (Offered(v) || OutOfPrint(v))
      ensures exists e :: e in entries && Describes(w, e, v)
    {
      ShownByState(w, v);
      var i := IndexOf(items, ItemOf(w, v));
      assert entries[i] in entries;
    }
    forall e | e in entries
      ensures exists v :: v in s.videos && (Offered(v) || OutOfPrint(v)) && Describes(w, e, v)
    {
      var i := IndexOf(entries, e);
      assert items[i] in items;
      ShownByState(w, items[i].video);
    }
    forall i, j | 0 <= i < j < |entries|
      ensures entries[i].publishTime > entries[j].publishTime
        || (entries[i].publishTime == entries[j].publishTime && Text.Less(entries[i].id, entries[j].id))
    {
      assert items[i].video.id != items[j].video.id && !Before(items[j], items[i]);
      Text.LessTotal(items[i].video.id, items[j].video.id);
    }
  }

  lemma SameVideo(s: Snapshot, a: Video, b: Video)
    requires UniqueIds(s) && a in s.videos && b in s.videos && a.id + ".mp4" == b.id + ".mp4"
    ensures a == b
  {
    hide UniqueIds;
    LinkNamesDiffer(Item(a, Videos, 0), Item(b, Videos, 0));
    var i := IndexOf(s.videos, a);
    var j := IndexOf(s.videos, b);
    SamePlace(s, i, j);
  }

  lemma SamePlace(s: Snapshot, i: nat, j: nat)
    requires UniqueIds(s) && i < |s.videos| && j < |s.videos| && s.videos[i].id == s.videos[j].id
    ensures i == j
  {
  }

  /** Links that are exact by bucket are exact by state. */
  lemma ExactIsByState(w: World, s: Snapshot, d: Dir)
    requires UniqueIds(s) && LinksExact(w, s, Videos, d.videos) && LinksExact(w, s, Rare, d.rare)
    ensures LinkedByState(w, s, d)
  {
    hide Shown, ProjectionBucket, UniqueIds;
    forall v ensures Shown(w, v) <==> Available(w, v) && (Offered(v) || OutOfPrint(v))
             ensures Shown(w, v) ==> ProjectionBucket(v.state) == Some(if OutOfPrint(v) then Rare else Videos) {
      ShownByState(w, v);
    }
    forall v, u | v in s.videos && u in s.videos && v.id + ".mp4" == u.id + ".mp4" ensures v == u {
      SameVideo(s, v, u);
    }
  }

  lemma ProjectionIsNonempty(w: World, s: Snapshot)
    ensures Projected(w, s) != [] <==> HasProjection(w, s)
  {
    var c := Collect(w, s.videos);
    CollectExact(w, s.videos);
    if c != [] {
      assert c[0] in c;
      assert c[0].video in s.videos && Shown(w, c[0].video);
      ShownByState(w, c[0].video);
    }
    forall v | v in s.videos && Available(w, v) && (Offered(v) || OutOfPrint(v)) ensures Shown(w, v) {
      ShownByState(w, v);
    }
  }

  /** What the rebuild puts into the directory, if anything. */
  lemma DirectoryShows(w: World, now: int, s: Snapshot, rest: set<string>)
    requires UniqueIds(s)
    ensures var d := DirOf(w, now, s, Projected(w, s), rest);
      Faithful(w, now, s, d) && d.rest == rest
  {
    hide Projected, Indexed, LinksExact, Links, Count, Bytes, Entries, UniqueIds, SanitizeName, LinkedByState,
      EntryBytes, DistinctIds;
    var items := Projected(w, s);
    var d := DirOf(w, now, s, items, rest);
    ProjectedFacts(w, s);
    LinksAreExact(w, s, Videos);
    LinksAreExact(w, s, Rare);
    ExactIsByState(w, s, d);
    AsManyLinks(items, Videos);
    AsManyLinks(items, Rare);
    CountsCover(items);
    BytesOfEntries(items);
    ItemsIndexed(w, s);
    assert |Entries(items)| == |items| by {
      EntriesAsMany(items);
    }
  }

  lemma EntriesAsMany(items: seq<Item>)
    ensures |Entries(items)| == |items|
  {
  }

  /** After a rebuild the creator has a directory if and only if some stored video is DOWNLOADED,
      STABLE or OUT_OF_PRINT. It links the first two kinds under `videos`, the third under `rare`
      and nothing else, its manifests tell just that, and whatever else lay in it is still there. */
  lemma RebuildIsFaithful(w: World, now: int, t: Tree, s: Snapshot)
    requires UniqueIds(s)
    ensures Home(w, s) in Rebuilt(w, now, t, s) <==> HasProjection(w, s)
    ensures HasProjection(w, s) ==>
      var d := Rebuilt(w, now, t, s)[Home(w, s)];
      Faithful(w, now, s, d) && d.rest == if Home(w, s) in t then t[Home(w, s)].rest else {}
  {
    hide Projected, UniqueIds, SanitizeName, HasProjection, Faithful, DirOf;
    ProjectionIsNonempty(w, s);
    assert Place(w, s) == Home(w, s);
    DirectoryShows(w, now, s, Rest(t, Home(w, s)));
  }

  /** The index is the same whatever order the database lists the videos in. */
  lemma IndexIgnoresOrder(w: World, a: Snapshot, b: Snapshot)
    requires UniqueIds(a) && multiset(a.videos) == multiset(b.videos)
    ensures Projected(w, a) == Projected(w, b)
  {
    CollectMultiset(w, a.videos, b.videos);
    var c := Collect(w, a.videos);
    CollectDistinct(w, a.videos);
    DistinctAsPairs(c);
    BeforeIsTotal(c);
    SortIgnoresOrder(Before, c, Collect(w, b.videos));
  }

  lemma {:induction false} CollectSplit(w: World, a: seq<Video>, b: seq<Video>)
    ensures Collect(w, a + b) == Collect(w, a) + Collect(w, b)
  {
    if a == [] {
      assert a + b == b;
    } else {
      assert (a + b)[0] == a[0] && (a + b)[1..] == a[1..] + b;
      CollectSplit(w, a[1..], b);
    }
  }

  lemma {:induction false} CollectMultiset(w: World, a: seq<Video>, b: seq<Video>)
    requires multiset(a) == multiset(b)
    ensures multiset(Collect(w, a)) == multiset(Collect(w, b))
    decreases |a|
  {
    SameElements(a, b);
    if a != [] {
      assert a[0] in b;
      var i := IndexOf(b, a[0]);
      var b' := b[..i] + b[i + 1..];
      assert b == b[..i] + ([b[i]] + b[i + 1..]);
      assert a == [a[0]] + a[1..];
      assert multiset(a[1..]) == multiset(a) - multiset{a[0]};
      assert multiset(b') == multiset(b) - multiset{b[i]};
      CollectMultiset(w, a[1..], b');
      CollectSplit(w, b[..i], b[i + 1..]);
      CollectSplit(w, b[..i], [b[i]] + b[i + 1..]);
      CollectSplit(w, [b[i]], b[i + 1..]);
      CollectSplit(w, [a[0]], a[1..]);
    }
  }

  // ---- Several creators ----------------------------------------------------------------

  lemma PlaceIsOwned(w: World, s: Snapshot)
    ensures Owns(s, Place(w, s))
  {
    OwnName(w.alphabet, s.uid, s.name);
  }

  lemma OwnersDiffer(a: Snapshot, b: Snapshot, k: Key)
    requires '_' !in a.uid && '_' !in b.uid && Apart(a, b) && Owns(a, k)
    ensures !Owns(b, k)
  {
    if Owns(b, k) {
      OneOwner(k.name, a.uid, b.uid);
    }
  }

  /** The directories of one creator. */
  function Slice(t: Tree, s: Snapshot): Tree {
    map k | k in t && Owns(s, k) :: t[k]
  }

  /** A rebuild leaves every directory that is not its creator's as it was. */
  lemma RebuildTouchesOnlyOwn(w: World, now: int, t: Tree, s: Snapshot, k: Key)
    requires !Owns(s, k)
    ensures Look(Rebuilt(w, now, t, s), k) == Look(t, k)
  {
    PlaceIsOwned(w, s);
  }

  /** A rebuild leaves its creator one directory or none, and all it takes over from before is
      what else lay in that directory. */
  lemma RebuiltSlice(w: World, now: int, t: Tree, s: Snapshot)
    ensures Slice(Rebuilt(w, now, t, s), s) ==
      if Projected(w, s) == [] then map[]
      else map[Place(w, s) := DirOf(w, now, s, Projected(w, s), Rest(t, Place(w, s)))]
  {
    hide Projected, DirOf;
    PlaceIsOwned(w, s);
  }

  lemma RestOfSlice(w: World, t: Tree, s: Snapshot)
    ensures Rest(t, Place(w, s)) == Rest(Slice(t, s), Place(w, s))
  {
    PlaceIsOwned(w, s);
  }

  /** What a rebuild makes of its creator's directories depends on those alone. */
  lemma RebuildReadsOnlyOwn(w: World, now: int, t: Tree, u: Tree, s: Snapshot)
    requires Slice(t, s) == Slice(u, s)
    ensures Slice(Rebuilt(w, now, t, s), s) == Slice(Rebuilt(w, now, u, s), s)
  {
    hide Slice, Rebuilt, DirOf, Projected;
    RebuiltSlice(w, now, t, s);
    RebuiltSlice(w, now, u, s);
    RestOfSlice(w, t, s);
    RestOfSlice(w, u, s);
  }

  /** Of two rebuilds of one creator only the clock of the later one matters. */
  lemma LaterRebuildReplaces(w: World, first: int, later: int, t: Tree, s: Snapshot)
    ensures Slice(Rebuilt(w, later, Rebuilt(w, first, t, s), s), s) == Slice(Rebuilt(w, later, t, s), s)
  {
    hide Slice, Rebuilt, Projected;
    var u := Rebuilt(w, first, t, s);
    RebuiltSlice(w, first, t, s);
    RebuiltSlice(w, later, t, s);
    RebuiltSlice(w, later, u, s);
    RestOfSlice(w, u, s);
  }

  lemma RebuildKeepsOthersSlice(w: World, now: int, t: Tree, a: Snapshot, b: Snapshot)
    requires '_' !in a.uid && '_' !in b.uid && Apart(a, b)
    ensures Slice(Rebuilt(w, now, t, a), b) == Slice(t, b)
  {
    hide Rebuilt;
    var u := Rebuilt(w, now, t, a);
    forall k | Owns(b, k) ensures Look(u, k) == Look(t, k) {
      if Owns(a, k) {
        OwnersDiffer(a, b, k);
      }
      RebuildTouchesOnlyOwn(w, now, t, a, k);
    }
    var x, y := Slice(u, b), Slice(t, b);
    forall k ensures (k in x <==> k in y) && (k in x ==> x[k] == y[k]) {
      assert Owns(b, k) ==> Look(u, k) == Look(t, k);
    }
  }

  lemma SameEverywhere(t: Tree, u: Tree, a: Snapshot, b: Snapshot)
    requires Slice(t, a) == Slice(u, a) && Slice(t, b) == Slice(u, b)
    requires forall k :: !Owns(a, k) && !Owns(b, k) ==> Look(t, k) == Look(u, k)
    ensures t == u
  {
    forall k ensures (k in t <==> k in u) && (k in t ==> t[k] == u[k]) {
      if Owns(a, k) {
        assert k in Slice(t, a) <==> k in t;
        assert k in Slice(u, a) <==> k in u;
        assert k in t ==> Slice(t, a)[k] == t[k];
        assert k in u ==> Slice(u, a)[k] == u[k];
      } else if Owns(b, k) {
        assert k in Slice(t, b) <==> k in t;
        assert k in Slice(u, b) <==> k in u;
        assert k in t ==> Slice(t, b)[k] == t[k];
        assert k in u ==> Slice(u, b)[k] == u[k];
      } else {
        assert Look(t, k) == Look(u, k);
      }
    }
  }

  /** Rebuilds of two creators, each at its own time, give the same tree in either order. */
  lemma RebuildsCommute(w: World, t: Tree, a: Snapshot, atA: int, b: Snapshot, atB: int)
    requires '_' !in a.uid && '_' !in b.uid && Apart(a, b)
    ensures Rebuilt(w, atB, Rebuilt(w, atA, t, a), b) == Rebuilt(w, atA, Rebuilt(w, atB, t, b), a)
  {
    hide Rebuilt, Slice, Owns;
    var ta, tb := Rebuilt(w, atA, t, a), Rebuilt(w, atB, t, b);
    var ab, ba := Rebuilt(w, atB, ta, b), Rebuilt(w, atA, tb, a);
    RebuildKeepsOthersSlice(w, atA, t, a, b);
    RebuildKeepsOthersSlice(w, atB, t, b, a);
    RebuildReadsOnlyOwn(w, atB, ta, t, b);
    RebuildReadsOnlyOwn(w, atA, tb, t, a);
    RebuildKeepsOthersSlice(w, atB, ta, b, a);
    RebuildKeepsOthersSlice(w, atA, tb, a, b);
    forall k | !Owns(a, k) && !Owns(b, k) ensures Look(ab, k) == Look(ba, k) {
      RebuildTouchesOnlyOwn(w, atA, t, a, k);
      RebuildTouchesOnlyOwn(w, atB, t, b, k);
      RebuildTouchesOnlyOwn(w, atB, ta, b, k);
      RebuildTouchesOnlyOwn(w, atA, tb, a, k);
    }
    SameEverywhere(ab, ba, a, b);
  }

  // ---- The time stamps -------------------------------------------------------------------

  function Unstamped(d: Dir): Dir {
    d.(card := if d.card.Some? then Some(d.card.value.(generatedAt := 0)) else None,
       index := if d.index.Some? then Some(d.index.value.(generatedAt := 0)) else None)
  }

  /** The tree without the time stamps of its manifests. */
  function Bare(t: Tree): Tree {
    map k | k in t :: Unstamped(t[k])
  }

  lemma RestOfBare(t: Tree, k: Key)
    ensures Rest(Bare(t), k) == Rest(t, k)
  {
  }

  /** But for the stamps, what a rebuild makes of its creator's directories depends neither on
      when it is done nor on earlier stamps. */
  lemma RebuildIgnoresClock(w: World, atT: int, atU: int, t: Tree, u: Tree, s: Snapshot)
    requires Bare(Slice(t, s)) == Bare(Slice(u, s))
    ensures Bare(Slice(Rebuilt(w, atT, t, s), s)) == Bare(Slice(Rebuilt(w, atU, u, s), s))
  {
    hide Slice, Rebuilt, Projected;
    var place := Place(w, s);
    RebuiltSlice(w, atT, t, s);
    RebuiltSlice(w, atU, u, s);
    RestOfSlice(w, t, s);
    RestOfSlice(w, u, s);
    RestOfBare(Slice(t, s), place);
    RestOfBare(Slice(u, s), place);
  }

  /** Repeating a rebuild later changes nothing but the two time stamps. */
  lemma RepeatChangesOnlyStamps(w: World, first: int, later: int, t: Tree, s: Snapshot)
    ensures Bare(Rebuilt(w, later, Rebuilt(w, first, t, s), s)) == Bare(Rebuilt(w, first, t, s))
    ensures later == first ==> Rebuilt(w, later, Rebuilt(w, first, t, s), s) == Rebuilt(w, first, t, s)
  {
    hide Projected;
    PlaceIsOwned(w, s);
  }

  // ---- Runs of rebuilds ------------------------------------------------------------------

  /** The snapshots of the run are all of s or apart from s. */
  ghost predicate ApartOrSame(run: seq<Turn>, s: Snapshot) {
    forall turn :: turn in run ==> turn.snap == s || (Apart(turn.snap, s) && '_' !in turn.snap.uid)
  }

  /** When the run last rebuilds the creator. */
  function LastAt(run: seq<Turn>, s: Snapshot): (at: Option<int>)
    ensures at.None? ==> forall turn :: turn in run ==> turn.snap != s
    ensures at.Some? ==> Turn(s, at.value) in run
  {
    if run == [] then None
    else
      var front, last := run[..|run| - 1], run[|run| - 1];
      assert run == front + [last];
      if last.snap == s then Some(last.at) else LastAt(front, s)
  }

  /** After any run of rebuilds a creator's directories are those of one rebuild from the start,
      at the time of its last turn, or untouched when the run skipped it. */
  lemma {:induction false} RunOnSlice(w: World, t: Tree, run: seq<Turn>, s: Snapshot)
    requires '_' !in s.uid && ApartOrSame(run, s)
    ensures Slice(RebuiltEach(w, t, run), s) ==
      if LastAt(run, s).Some? then Slice(Rebuilt(w, LastAt(run, s).value, t, s), s) else Slice(t, s)
  {
    hide Slice, Rebuilt;
    if run != [] {
      var front, last := run[..|run| - 1], run[|run| - 1];
      assert run == front + [last] && last in run;
      assert forall turn :: turn in front ==> turn in run;
      RunOnSlice(w, t, front, s);
      var u := RebuiltEach(w, t, front);
      if last.snap != s {
        RebuildKeepsOthersSlice(w, last.at, u, last.snap, s);
      } else if LastAt(front, s).Some? {
        var at := LastAt(front, s).value;
        RebuildReadsOnlyOwn(w, last.at, u, Rebuilt(w, at, t, s), s);
        LaterRebuildReplaces(w, at, last.at, t, s);
      } else {
        RebuildReadsOnlyOwn(w, last.at, u, t, s);
      }
    }
  }

  /** The run rebuilds listed creators only. */
  ghost predicate Within(run: seq<Turn>, listed: seq<Turn>) {
    forall turn :: turn in run ==> Includes(listed, turn.snap)
  }

  lemma SeparateRun(listed: seq<Turn>, run: seq<Turn>, s: Snapshot)
    requires Separate(listed) && Includes(listed, s) && Within(run, listed)
    ensures '_' !in s.uid && ApartOrSame(run, s)
  {
    var mine :| mine in listed && mine.snap == s;
    var j := IndexOf(listed, mine);
    forall turn | turn in run ensures turn.snap == s || (Apart(turn.snap, s) && '_' !in turn.snap.uid) {
      var other :| other in listed && other.snap == turn.snap;
      var i := IndexOf(listed, other);
      assert i < j ==> Apart(listed[i].snap, listed[j].snap);
      assert j < i ==> Apart(listed[j].snap, listed[i].snap);
    }
  }

  lemma ListedRun(listed: seq<Turn>)
    ensures Within(listed, listed)
  {
  }

  lemma OnlyPlaceRemains(w: World, now: int, t: Tree, s: Snapshot, k: Key)
    requires k in Slice(Rebuilt(w, now, t, s), s)
    ensures k == Place(w, s)
  {
  }

  /** A full rebuild leaves a listed creator exactly what one rebuild of it would. */
  lemma FullOnSlice(w: World, t: Tree, listed: seq<Turn>, s: Snapshot)
    requires Separate(listed) && Includes(listed, s)
    ensures LastAt(listed, s).Some?
    ensures Slice(RebuiltAll(w, t, listed), s) == Slice(Rebuilt(w, LastAt(listed, s).value, t, s), s)
  {
    hide Slice, Rebuilt;
    var at := LastAt(listed, s).value;
    ListedRun(listed);
    SeparateRun(listed, listed, s);
    RunOnSlice(w, t, listed, s);
    var each := RebuiltEach(w, t, listed);
    forall k | k in Slice(each, s) ensures k in Places(w, listed) {
      OnlyPlaceRemains(w, at, t, s, k);
      assert Turn(s, at) in listed;
    }
    StaleSparesSlice(each, Places(w, listed), s);
  }

  lemma StaleSparesSlice(t: Tree, seen: set<Key>, s: Snapshot)
    requires forall k :: k in Slice(t, s) ==> k in seen
    ensures Slice(WithoutStale(t, seen), s) == Slice(t, s)
  {
    var a, b := Slice(WithoutStale(t, seen), s), Slice(t, s);
    assert forall k :: k in b ==> k in a;
  }

  /** But for time stamps the creator's directories are what a rebuild at any moment would leave. */
  ghost predicate UpToDate(w: World, t: Tree, s: Snapshot) {
    forall at :: Bare(Slice(Rebuilt(w, at, t, s), s)) == Bare(Slice(t, s))
  }

  /** A creator that was rebuilt is up to date, and stays so whatever is rebuilt besides. */
  lemma RebuiltIsUpToDate(w: World, t: Tree, run: seq<Turn>, s: Snapshot)
    requires '_' !in s.uid && ApartOrSame(run, s) && LastAt(run, s).Some?
    ensures UpToDate(w, RebuiltEach(w, t, run), s)
  {
    hide Slice, Rebuilt, Bare, RebuiltEach;
    var u, at := RebuiltEach(w, t, run), LastAt(run, s).value;
    RunOnSlice(w, t, run, s);
    forall later ensures Bare(Slice(Rebuilt(w, later, u, s), s)) == Bare(Slice(u, s)) {
      RebuildReadsOnlyOwn(w, later, u, Rebuilt(w, at, t, s), s);
      LaterRebuildReplaces(w, at, later, t, s);
      RebuildIgnoresClock(w, later, at, t, t, s);
    }
  }

  // ---- While the archive changes -------------------------------------------------------------

  /** The two moments of the archive agree on the creator's own files. */
  ghost predicate SameFiles(w: World, u: World, s: Snapshot) {
    w.alphabet == u.alphabet && forall v :: v in s.videos ==> Look(w.files, v.filePath) == Look(u.files, v.filePath)
  }

  lemma {:induction false} CollectReadsOwnFiles(w: World, u: World, videos: seq<Video>)
    requires forall v :: v in videos ==> Look(w.files, v.filePath) == Look(u.files, v.filePath)
    ensures Collect(w, videos) == Collect(u, videos)
  {
    if videos != [] {
      assert videos[0] in videos && forall v :: v in videos[1..] ==> v in videos;
      CollectReadsOwnFiles(w, u, videos[1..]);
    }
  }

  /** A rebuild reads no files but the creator's own. */
  lemma RebuildReadsOwnFiles(w: World, u: World, now: int, t: Tree, s: Snapshot)
    requires SameFiles(w, u, s)
    ensures Rebuilt(w, now, t, s) == Rebuilt(u, now, t, s)
  {
    CollectReadsOwnFiles(w, u, s.videos);
  }

  /** Whether a creator is up to date depends on its own files and directories alone. */
  lemma UpToDateReadsOwn(w: World, u: World, t: Tree, v: Tree, s: Snapshot)
    requires SameFiles(w, u, s) && Slice(t, s) == Slice(v, s) && UpToDate(w, t, s)
    ensures UpToDate(u, v, s)
  {
    hide Slice, Rebuilt, Bare, SameFiles;
    forall at ensures Bare(Slice(Rebuilt(u, at, v, s), s)) == Bare(Slice(v, s)) {
      RebuildReadsOwnFiles(w, u, at, t, s);
      RebuildReadsOnlyOwn(u, at, t, v, s);
      assert Bare(Slice(Rebuilt(w, at, t, s), s)) == Bare(Slice(t, s));
    }
  }

  /** A rebuild in the archive as it was at that moment. */
  datatype Past = Past(world: World, turn: Turn)

  function RebuiltIn(t: Tree, past: seq<Past>): Tree {
    if past == [] then t
    else
      var last := past[|past| - 1];
      Rebuilt(last.world, last.turn.at, RebuiltIn(t, past[..|past| - 1]), last.turn.snap)
  }

  /** The last rebuild of the creator was of the snapshot s, when its files were as in w, and
      only other creators were rebuilt since. */
  ghost predicate LastBuilt(past: seq<Past>, w: World, s: Snapshot) {
    past != [] &&
    var last := past[|past| - 1];
    if last.turn.snap == s then SameFiles(last.world, w, s)
    else Apart(last.turn.snap, s) && '_' !in last.turn.snap.uid && LastBuilt(past[..|past| - 1], w, s)
  }

  /** A creator is up to date once it has been rebuilt and its own videos and files have not
      changed since, whatever its directories were before and whatever else changes. */
  lemma {:induction false} LastBuiltIsUpToDate(t: Tree, past: seq<Past>, w: World, s: Snapshot)
    requires '_' !in s.uid && LastBuilt(past, w, s)
    ensures UpToDate(w, RebuiltIn(t, past), s)
  {
    hide Slice, Rebuilt, UpToDate, SameFiles;
    var front, last := past[..|past| - 1], past[|past| - 1];
    var u := RebuiltIn(t, front);
    if last.turn.snap == s {
      RebuildReadsOwnFiles(last.world, w, last.turn.at, u, s);
      var run := [last.turn];
      assert run[..0] == [] && RebuiltEach(w, u, run) == Rebuilt(w, last.turn.at, u, s);
      RebuiltIsUpToDate(w, u, run, s);
    } else {
      LastBuiltIsUpToDate(t, front, w, s);
      RebuildKeepsOthersSlice(last.world, last.turn.at, u, last.turn.snap, s);
      OwnFilesAgree(w, s);
      UpToDateReadsOwn(w, w, u, RebuiltIn(t, past), s);
    }
  }

  lemma OwnFilesAgree(w: World, s: Snapshot)
    ensures SameFiles(w, w, s)
  {
  }

  /**
     Incremental rebuilds of listed creators in any order, with repetitions and each at its own
     time, leave every creator what a full rebuild at any other time leaves, but for the stamps,
     if and only if the run rebuilds every creator that is not up to date.
   */
  lemma IncrementalEqualsFull(w: World, t: Tree, listed: seq<Turn>, run: seq<Turn>)
    requires Separate(listed) && Within(run, listed)
    ensures (forall s :: Includes(listed, s) ==>
      Bare(Slice(RebuiltEach(w, t, run), s)) == Bare(Slice(RebuiltAll(w, t, listed), s)))
      <==> (forall s :: Includes(listed, s) ==> Includes(run, s) || UpToDate(w, t, s))
  {
    hide Slice, Rebuilt, RebuiltEach, RebuiltAll, Bare;
    forall s | Includes(listed, s)
      ensures Bare(Slice(RebuiltEach(w, t, run), s)) == Bare(Slice(RebuiltAll(w, t, listed), s))
        <==> Includes(run, s) || UpToDate(w, t, s)
    {
      IncrementalOnSlice(w, t, listed, run, s);
    }
  }

  lemma IncrementalOnSlice(w: World, t: Tree, listed: seq<Turn>, run: seq<Turn>, s: Snapshot)
    requires Separate(listed) && Within(run, listed) && Includes(listed, s)
    ensures Bare(Slice(RebuiltEach(w, t, run), s)) == Bare(Slice(RebuiltAll(w, t, listed), s))
      <==> Includes(run, s) || UpToDate(w, t, s)
  {
    hide Slice, Rebuilt, RebuiltEach, RebuiltAll, Bare;
    SeparateRun(listed, run, s);
    RunOnSlice(w, t, run, s);
    FullOnSlice(w, t, listed, s);
    var at := LastAt(listed, s).value;
    if LastAt(run, s).Some? {
      RebuildIgnoresClock(w, LastAt(run, s).value, at, t, t, s);
    } else {
      assert !Includes(run, s);
      forall other ensures Bare(Slice(Rebuilt(w, other, t, s), s)) == Bare(Slice(Rebuilt(w, at, t, s), s)) {
        RebuildIgnoresClock(w, other, at, t, t, s);
      }
    }
  }

  /** From any tree, a full rebuild leaves exactly one directory for each listed creator that
      has something to show, no other directory, and each of them faithful to the source and
      stamped with the time of a turn of that creator. */
  lemma FullRebuildIsExact(w: World, t: Tree, listed: seq<Turn>)
    requires Separate(listed) && forall turn :: turn in listed ==> UniqueIds(turn.snap)
    ensures forall k :: k in RebuiltAll(w, t, listed) <==>
      exists turn :: turn in listed && HasProjection(w, turn.snap) && k == Home(w, turn.snap)
    ensures forall turn :: turn in listed && HasProjection(w, turn.snap) ==>
      exists at :: Turn(turn.snap, at) in listed
        && Faithful(w, at, turn.snap, RebuiltAll(w, t, listed)[Home(w, turn.snap)])
  {
    hide HasProjection, Faithful, Rebuilt, RebuiltEach, UniqueIds, Place, Home;
    var full := RebuiltAll(w, t, listed);
    forall turn | turn in listed
      ensures Home(w, turn.snap) == Place(w, turn.snap)
      ensures Home(w, turn.snap) in full <==> HasProjection(w, turn.snap)
      ensures HasProjection(w, turn.snap) ==>
        exists at :: Turn(turn.snap, at) in listed && Faithful(w, at, turn.snap, full[Home(w, turn.snap)])
    {
      FullIsFaithful(w, t, listed, turn.snap);
      HomeIsPlace(w, turn.snap);
    }
    forall k | k in full
      ensures exists turn :: turn in listed && HasProjection(w, turn.snap) && k == Home(w, turn.snap)
    {
      assert k in Places(w, listed);
      var turn :| turn in listed && k == Place(w, turn.snap);
    }
  }

  lemma HomeIsPlace(w: World, s: Snapshot)
    ensures Home(w, s) == Place(w, s)
  {
  }

  lemma FullIsFaithful(w: World, t: Tree, listed: seq<Turn>, s: Snapshot)
    requires Separate(listed) && Includes(listed, s) && UniqueIds(s)
    ensures Home(w, s) in RebuiltAll(w, t, listed) <==> HasProjection(w, s)
    ensures HasProjection(w, s) ==>
      exists at :: Turn(s, at) in listed && Faithful(w, at, s, RebuiltAll(w, t, listed)[Home(w, s)])
  {
    hide HasProjection, Faithful, Rebuilt, RebuiltAll, UniqueIds, Home;
    PlaceIsOwned(w, s);
    HomeIsPlace(w, s);
    FullOnSlice(w, t, listed, s);
    var at := LastAt(listed, s).value;
    RebuildIsFaithful(w, at, t, s);
    var full, one, home := RebuiltAll(w, t, listed), Rebuilt(w, at, t, s), Home(w, s);
    assert home in Slice(full, s) <==> home in full;
    assert home in Slice(one, s) <==> home in one;
    assert home in full ==> Slice(full, s)[home] == full[home];
    assert home in one ==> Slice(one, s)[home] == one[home];
  }
}
