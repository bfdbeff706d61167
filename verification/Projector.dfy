/** The projector as it works on the disk, step by step. */
module Projector {
  import opened Common
  import opened Sorting
  import opened Projection
  import opened ProjectionProofs

  /** Each link finds its name free when its turn comes. */
  predicate NoClash(items: seq<Item>) {
    items == [] ||
    (var front, last := items[..|items| - 1], items[|items| - 1];
     NoClash(front) && LinkName(last) !in Links(front, last.bucket))
  }

  /** Distinct video ids are enough for a rebuild to go through. */
  lemma UniqueIdsBuild(w: World, s: Snapshot)
    requires s.uid != "" && UniqueIds(s)
    ensures Buildable(w, s)
  {
    ProjectedFacts(w, s);
    DistinctIdsDoNotClash(Projected(w, s));
  }

  lemma {:induction false} DistinctIdsDoNotClash(items: seq<Item>)
    requires DistinctIds(items)
    ensures NoClash(items)
  {
    if items != [] {
      var front, last := items[..|items| - 1], items[|items| - 1];
      DistinctIdsDoNotClash(front);
      if LinkName(last) in Links(front, last.bucket) {
        LinkHasItem(front, last.bucket, LinkName(last));
        var it :| it in front && it.bucket == last.bucket && LinkName(last) == LinkName(it);
        LastNameIsNew(items, it);
      }
    }
  }

  ghost predicate OthersKept(s: Snapshot, before: Tree, after: Tree) {
    forall k :: !Owns(s, k) ==> Look(after, k) == Look(before, k)
  }

  predicate Buildable(w: World, s: Snapshot) {
    s.uid != "" && NoClash(Projected(w, s))
  }

  lemma {:induction false} ClashStays(items: seq<Item>, n: nat)
    requires n <= |items| && !NoClash(items[..n])
    ensures !NoClash(items)
    decreases |items|
  {
    if n < |items| {
      var front := items[..|items| - 1];
      assert front[..n] == items[..n];
      ClashStays(front, n);
    } else {
      assert items[..n] == items;
    }
  }

  method CollectProjected(w: World, s: Snapshot) returns (items: seq<Item>)
    ensures items == Projected(w, s)
  {
    items := [];
    for i := 0 to |s.videos|
      invariant items + Collect(w, s.videos[i..]) == Collect(w, s.videos)
    {
      var v := s.videos[i];
      assert s.videos[i..][0] == v && s.videos[i..][1..] == s.videos[i + 1..];
      if Shown(w, v) {
        assert items + ([ItemOf(w, v)] + Collect(w, s.videos[i + 1..]))
            == items + [ItemOf(w, v)] + Collect(w, s.videos[i + 1..]);
        items := items + [ItemOf(w, v)];
      }
    }
    assert s.videos[|s.videos|..] == [];
    assert items + [] == items;
    items := Sort(Before, items);
  }

  /** The first n creators of the run all rebuild without error. */
  predicate AllBuildable(w: World, run: seq<Turn>, n: nat)
    requires n <= |run|
  {
    n == 0 || (AllBuildable(w, run, n - 1) && Buildable(w, run[n - 1].snap))
  }

  lemma {:induction false} FailureStays(w: World, run: seq<Turn>, m: nat, n: nat)
    requires m <= n <= |run| && !AllBuildable(w, run, m)
    ensures !AllBuildable(w, run, n)
    decreases n
  {
    if m < n {
      FailureStays(w, run, m, n - 1);
    }
  }

  lemma BeforeEach(w: World, t: Tree, run: seq<Turn>)
    ensures RebuiltEach(w, t, run[..0]) == t && Places(w, run[..0]) == {}
  {
  }

  lemma EachStep(w: World, t: Tree, run: seq<Turn>, i: nat)
    requires i < |run|
    ensures RebuiltEach(w, t, run[..i + 1]) == Rebuilt(w, run[i].at, RebuiltEach(w, t, run[..i]), run[i].snap)
  {
    hide Rebuilt;
    var p := run[..i + 1];
    assert p[..|p| - 1] == run[..i];
  }

  lemma PlacesStep(w: World, run: seq<Turn>, i: nat)
    requires i < |run|
    ensures Places(w, run[..i + 1]) == Places(w, run[..i]) + {Place(w, run[i].snap)}
  {
    assert run[..i + 1] == run[..i] + [run[i]];
  }

  /** No directory is touched but those of the creators of the run. */
  ghost predicate StrangersKept(run: seq<Turn>, before: Tree, after: Tree) {
    forall k :: (forall turn :: turn in run ==> !Owns(turn.snap, k)) ==> Look(after, k) == Look(before, k)
  }

  lemma StrangersStep(run: seq<Turn>, i: nat, start: Tree, before: Tree, after: Tree)
    requires i < |run| && StrangersKept(run, start, before) && OthersKept(run[i].snap, before, after)
    ensures StrangersKept(run, start, after)
  {
    hide Owns;
    assert run[i] in run;
  }

  class Projector {
    var tree: Tree

    constructor (tree: Tree)
      ensures this.tree == tree
    {
      this.tree := tree;
    }

    /** Removes the creator's directories under other names. */
    method RemoveLegacy(s: Snapshot, keep: Key)
      modifies this
      ensures tree == map k | k in old(tree) && (Owns(s, k) ==> k == keep) :: old(tree)[k]
    {
      var todo := tree.Keys;
      while todo != {}
        invariant todo <= old(tree).Keys
        invariant forall k :: k in tree <==> k in old(tree) && (k in todo || !Owns(s, k) || k == keep)
        invariant forall k :: k in tree ==> tree[k] == old(tree)[k]
        decreases todo
      {
        var k :| k in todo;
        todo := todo - {k};
        if Owns(s, k) && k != keep {
          tree := tree - {k};
        }
      }
    }

    /** Makes the links one by one and counts them; stops at a name already taken. */
    method MakeLinks(place: Key, items: seq<Item>)
      returns (ok: bool, videoCount: nat, rareCount: nat, bytes: int)
      requires place in tree && tree[place].videos == map[] && tree[place].rare == map[]
      modifies this
      ensures ok <==> NoClash(items)
      ensures tree.Keys == old(tree).Keys && forall k :: k in tree && k != place ==> tree[k] == old(tree)[k]
      ensures ok ==> tree[place] == old(tree)[place].(videos := Links(items, Videos), rare := Links(items, Rare))
      ensures ok ==> videoCount == Count(items, Videos) && rareCount == Count(items, Rare) && bytes == Bytes(items)
    {
      ok, videoCount, rareCount, bytes := true, 0, 0, 0;
      for i := 0 to |items|
        invariant tree.Keys == old(tree).Keys && forall k :: k in tree && k != place ==> tree[k] == old(tree)[k]
        invariant tree[place] == old(tree)[place].(videos := Links(items[..i], Videos), rare := Links(items[..i], Rare))
        invariant videoCount == Count(items[..i], Videos) && rareCount == Count(items[..i], Rare)
        invariant bytes == Bytes(items[..i]) && NoClash(items[..i])
      {
        var it := items[i];
        assert items[..i + 1][..i] == items[..i] && items[..i + 1][i] == it;
        var d := tree[place];
        var bucket := if it.bucket.Rare? then d.rare else d.videos;
        if LinkName(it) in bucket {
          ClashStays(items, i + 1);
          ok := false;
          return;
        }
        if it.bucket.Rare? {
          d := d.(rare := d.rare[LinkName(it) := it.video.filePath]);
          rareCount := rareCount + 1;
        } else {
          d := d.(videos := d.videos[LinkName(it) := it.video.filePath]);
          videoCount := videoCount + 1;
        }
        tree := tree[place := d];
        bytes := bytes + it.size;
      }
      assert items[..|items|] == items;
    }

    /** The directory itself: both buckets anew, then the two manifests. */
    method FillDirectory(w: World, now: int, s: Snapshot, items: seq<Item>) returns (ok: bool)
      modifies this
      ensures ok <==> NoClash(items)
      ensures tree.Keys == old(tree).Keys + {Place(w, s)}
      ensures forall k :: k in old(tree) && k != Place(w, s) ==> tree[k] == old(tree)[k]
      ensures ok ==> tree[Place(w, s)] == DirOf(w, now, s, items, Rest(old(tree), Place(w, s)))
    {
      var place := Place(w, s);
      var d := if place in tree then tree[place] else Dir(map[], map[], None, None, {});
      tree := tree[place := d.(videos := map[], rare := map[])];
      var videoCount, rareCount, bytes;
      ok, videoCount, rareCount, bytes := MakeLinks(place, items);
      if ok {
        var card := Card(now, NormalizePlatform(s.platform), s.uid, s.name, s.status, s.followers,
                         place.name, videoCount, rareCount, bytes);
        tree := tree[place := tree[place].(card := Some(card), index := Some(IndexOfItems(w, now, s, items)))];
      }
    }

    /** One creator. It fails without a uid or when two links clash, and even then it touches
        no directory of another creator. */
    method RebuildCreator(w: World, now: int, s: Snapshot) returns (ok: bool)
      modifies this
      ensures ok <==> Buildable(w, s)
      ensures ok ==> tree == Rebuilt(w, now, old(tree), s)
      ensures OthersKept(s, old(tree), tree)
    {
      if s.uid == "" {
        return false;
      }
      var place := Place(w, s);
      PlaceIsOwned(w, s);
      var items := CollectProjected(w, s);
      RemoveLegacy(s, place);
      if items == [] {
        tree := tree - {place};
        ok := true;
      } else {
        ghost var kept := tree;
        ok := FillDirectory(w, now, s, items);
        assert tree == kept[place := tree[place]];
      }
    }

    method RemoveStale(seen: set<Key>)
      modifies this
      ensures tree == WithoutStale(old(tree), seen)
    {
      var todo := tree.Keys;
      while todo != {}
        invariant todo <= old(tree).Keys
        invariant forall k :: k in tree <==> k in old(tree) && (k in todo || k in seen)
        invariant forall k :: k in tree ==> tree[k] == old(tree)[k]
        decreases todo
      {
        var k :| k in todo;
        todo := todo - {k};
        if k !in seen {
          tree := tree - {k};
        }
      }
    }

    /** The creators of the run one after the other, up to the first failure. */
    method RebuildEach(w: World, run: seq<Turn>) returns (ok: bool, seen: set<Key>)
      modifies this
      ensures ok <==> AllBuildable(w, run, |run|)
      ensures ok ==> tree == RebuiltEach(w, old(tree), run) && seen == Places(w, run)
      ensures StrangersKept(run, old(tree), tree)
    {
      hide Buildable, Rebuilt, RebuiltEach, Place, Places, OthersKept, Owns;
      seen := {};
      ghost var start := tree;
      BeforeEach(w, tree, run);
      for i := 0 to |run|
        invariant tree == RebuiltEach(w, start, run[..i])
        invariant seen == Places(w, run[..i])
        invariant AllBuildable(w, run, i)
        invariant StrangersKept(run, start, tree)
      {
        EachStep(w, start, run, i);
        PlacesStep(w, run, i);
        seen := seen + {Place(w, run[i].snap)};
        ghost var before := tree;
        ok := RebuildCreator(w, run[i].at, run[i].snap);
        StrangersStep(run, i, start, before, tree);
        if !ok {
          FailureStays(w, run, i + 1, |run|);
          return;
        }
      }
      assert run[..|run|] == run;
      ok := true;
    }

    /** Every listed creator, then, if all went well, the directories of nobody. */
    method RebuildAll(w: World, run: seq<Turn>) returns (ok: bool)
      modifies this
      ensures ok <==> AllBuildable(w, run, |run|)
      ensures ok ==> tree == RebuiltAll(w, old(tree), run)
      ensures !ok ==> StrangersKept(run, old(tree), tree)
    {
      hide Rebuilt, RebuiltEach, StrangersKept;
      var seen;
      ok, seen := RebuildEach(w, run);
      if ok {
        RemoveStale(seen);
      }
    }
  }
}
