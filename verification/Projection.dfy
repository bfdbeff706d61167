/**
 The browsing tree of the library: what a rebuild of one creator and a full rebuild leave on
 disk. A tree maps a platform and a directory name to the directory's content; a link is the
 file it leads to.
 */
module Projection {
  import opened Common
  import opened Sorting
  import opened Naming
  import Text

  datatype Video = Video(id: string, title: string, state: string, publishTime: int,
                         filePath: string, sizeBytes: int)

  datatype Snapshot = Snapshot(platform: string, uid: string, name: string, status: string,
                               followers: int, videos: seq<Video>)

  datatype Bucket = Videos | Rare

  datatype Item = Item(video: Video, bucket: Bucket, size: int)

  datatype Card = Card(generatedAt: int, platform: string, uid: string, name: string, status: string,
                       followers: int, directory: string, videoCount: nat, rareCount: nat, bytes: int)

  datatype Entry = Entry(id: string, title: string, state: string, publishTime: int, path: string, size: int)

  datatype Index = Index(generatedAt: int, platform: string, uid: string, entries: seq<Entry>)

  /** rest stands for whatever else lies in the directory. */
  datatype Dir = Dir(videos: map<string, string>, rare: map<string, string>,
                     card: Option<Card>, index: Option<Index>, rest: set<string>)

  datatype Key = Key(platform: string, name: string)

  type Tree = map<Key, Dir>

  /** What a rebuild reads besides the snapshot and the clock: the sizes of the stored files. */
  datatype World = World(files: map<string, nat>, alphabet: Alphabet)

  /** One rebuild of a run: of which snapshot, and when its manifests are stamped. */
  datatype Turn = Turn(snap: Snapshot, at: int)

  function NormalizePlatform(platform: string): string {
    if platform == "" then "bilibili" else platform
  }

  function ProjectionBucket(state: string): Option<Bucket> {
    if state == "DOWNLOADED" || state == "STABLE" then Some(Videos)
    else if state == "OUT_OF_PRINT" then Some(Rare)
    else None
  }

  /** The video shows in the tree. */
  predicate Shown(w: World, v: Video) {
    ProjectionBucket(v.state).Some? && v.filePath != "" && v.filePath in w.files
  }

  function ItemOf(w: World, v: Video): Item
    requires Shown(w, v)
  {
    Item(v, ProjectionBucket(v.state).value, if v.sizeBytes <= 0 then w.files[v.filePath] else v.sizeBytes)
  }

  function Collect(w: World, videos: seq<Video>): seq<Item> {
    if videos == [] then []
    else if Shown(w, videos[0]) then [ItemOf(w, videos[0])] + Collect(w, videos[1..])
    else Collect(w, videos[1..])
  }

  /** Newest first, then by video id. */
  predicate Before(a: Item, b: Item) {
    if a.video.publishTime != b.video.publishTime then a.video.publishTime > b.video.publishTime
    else Text.Less(a.video.id, b.video.id)
  }

  function Projected(w: World, s: Snapshot): seq<Item> {
    Sort(Before, Collect(w, s.videos))
  }

  function LinkName(it: Item): string {
    it.video.id + ".mp4"
  }

  function Links(items: seq<Item>, b: Bucket): map<string, string> {
    if items == [] then map[]
    else
      var it := items[|items| - 1];
      var m := Links(items[..|items| - 1], b);
      if it.bucket == b then m[LinkName(it) := it.video.filePath] else m
  }

  function Count(items: seq<Item>, b: Bucket): nat {
    if items == [] then 0
    else Count(items[..|items| - 1], b) + (if items[|items| - 1].bucket == b then 1 else 0)
  }

  function Bytes(items: seq<Item>): int {
    if items == [] then 0 else Bytes(items[..|items| - 1]) + items[|items| - 1].size
  }

  function EntryOf(it: Item): Entry {
    Entry(it.video.id, it.video.title, it.video.state, it.video.publishTime,
          (if it.bucket.Rare? then "rare/" else "videos/") + LinkName(it), it.size)
  }

  function Entries(items: seq<Item>): seq<Entry> {
    seq(|items|, i requires 0 <= i < |items| => EntryOf(items[i]))
  }

  /** Where the directory of the creator goes. */
  function Place(w: World, s: Snapshot): Key {
    Key(NormalizePlatform(s.platform), DirectoryName(w.alphabet, s.uid, s.name))
  }

  /** A directory that the creator's rebuild takes for its own, under whatever name. */
  predicate Owns(s: Snapshot, k: Key) {
    k.platform == NormalizePlatform(s.platform) && OwnedBy(k.name, s.uid)
  }

  function Rest(t: Tree, k: Key): set<string> {
    if k in t then t[k].rest else {}
  }

  function CardOf(w: World, now: int, s: Snapshot, items: seq<Item>): Card {
    Card(now, NormalizePlatform(s.platform), s.uid, s.name, s.status, s.followers,
         Place(w, s).name, Count(items, Videos), Count(items, Rare), Bytes(items))
  }

  function IndexOfItems(w: World, now: int, s: Snapshot, items: seq<Item>): Index {
    Index(now, NormalizePlatform(s.platform), s.uid, Entries(items))
  }

  function DirOf(w: World, now: int, s: Snapshot, items: seq<Item>, rest: set<string>): Dir {
    Dir(Links(items, Videos), Links(items, Rare),
        Some(CardOf(w, now, s, items)), Some(IndexOfItems(w, now, s, items)), rest)
  }

  /** The tree after a rebuild of one creator that met no error. */
  function Rebuilt(w: World, now: int, t: Tree, s: Snapshot): Tree {
    var place := Place(w, s);
    var items := Projected(w, s);
    var kept := map k | k in t && (Owns(s, k) ==> k == place) :: t[k];
    if items == [] then kept - {place}
    else
      kept[place := DirOf(w, now, s, items, Rest(t, place))]
  }

  function RebuiltEach(w: World, t: Tree, run: seq<Turn>): Tree {
    if run == [] then t
    else
      var last := run[|run| - 1];
      Rebuilt(w, last.at, RebuiltEach(w, t, run[..|run| - 1]), last.snap)
  }

  function Places(w: World, run: seq<Turn>): set<Key> {
    set turn | turn in run :: Place(w, turn.snap)
  }

  function WithoutStale(t: Tree, seen: set<Key>): Tree {
    map k | k in t && k in seen :: t[k]
  }

  /** The tree after a full rebuild that met no error. */
  function RebuiltAll(w: World, t: Tree, run: seq<Turn>): Tree {
    WithoutStale(RebuiltEach(w, t, run), Places(w, run))
  }

  // ---- What one directory must show, stated without the rebuild ----------------------

  /** The video's file is in the store. */
  predicate Available(w: World, v: Video) {
    v.filePath != "" && v.filePath in w.files
  }

  predicate Offered(v: Video) {
    v.state == "DOWNLOADED" || v.state == "STABLE"
  }

  predicate OutOfPrint(v: Video) {
    v.state == "OUT_OF_PRINT"
  }

  ghost predicate HasProjection(w: World, s: Snapshot) {
    exists v :: v in s.videos && Available(w, v) && (Offered(v) || OutOfPrint(v))
  }

  /** A video is linked under `videos` or `rare` by its state and its file, and nothing else is linked. */
  ghost predicate LinkedByState(w: World, s: Snapshot, d: Dir) {
    && (forall v :: v in s.videos ==>
          && (v.id + ".mp4" in d.videos <==> Available(w, v) && Offered(v))
          && (v.id + ".mp4" in d.rare <==> Available(w, v) && OutOfPrint(v)))
    && (forall n :: n in d.videos ==>
          exists v :: v in s.videos && Available(w, v) && Offered(v) && n == v.id + ".mp4"
                      && d.videos[n] == v.filePath)
    && (forall n :: n in d.rare ==>
          exists v :: v in s.videos && Available(w, v) && OutOfPrint(v) && n == v.id + ".mp4"
                      && d.rare[n] == v.filePath)
  }

  /** The recorded size, unless none is recorded. */
  function SizeOf(w: World, v: Video): int
    requires Available(w, v)
  {
    if v.sizeBytes > 0 then v.sizeBytes else w.files[v.filePath]
  }

  predicate Describes(w: World, e: Entry, v: Video) {
    && Available(w, v)
    && e == Entry(v.id, v.title, v.state, v.publishTime,
                  (if OutOfPrint(v) then "rare/" + v.id else "videos/" + v.id) + ".mp4", SizeOf(w, v))
  }

  /** The index has one entry for each linked video, the newest first, of one moment by id. */
  ghost predicate Indexed(w: World, s: Snapshot, entries: seq<Entry>) {
    && (forall v :: v in s.videos && Available(w, v) && (Offered(v) || OutOfPrint(v)) ==>
          exists e :: e in entries && Describes(w, e, v))
    && (forall e :: e in entries ==>
          exists v :: v in s.videos && (Offered(v) || OutOfPrint(v)) && Describes(w, e, v))
    && (forall i, j :: 0 <= i < j < |entries| ==>
          || entries[i].publishTime > entries[j].publishTime
          || (entries[i].publishTime == entries[j].publishTime && Text.Less(entries[i].id, entries[j].id)))
  }

  /** Platform and name of the creator's directory. */
  function Home(w: World, s: Snapshot): Key {
    Key(if s.platform == "" then "bilibili" else s.platform, s.uid + "_" + SanitizeName(w.alphabet, s.name))
  }

  ghost predicate ManifestsTell(w: World, at: int, s: Snapshot, d: Dir) {
    && d.card.Some? && d.index.Some?
    && d.card.value == Card(at, Home(w, s).platform, s.uid, s.name, s.status, s.followers, Home(w, s).name,
                            |d.videos|, |d.rare|, EntryBytes(d.index.value.entries))
    && d.index.value == Index(at, Home(w, s).platform, s.uid, d.index.value.entries)
    && |d.index.value.entries| == |d.videos| + |d.rare|
    && Indexed(w, s, d.index.value.entries)
  }

  function EntryBytes(entries: seq<Entry>): int {
    if entries == [] then 0 else EntryBytes(entries[..|entries| - 1]) + entries[|entries| - 1].size
  }

  /** The directory agrees with the snapshot in links, counts, bytes and index. */
  ghost predicate Faithful(w: World, at: int, s: Snapshot, d: Dir) {
    LinkedByState(w, s, d) && ManifestsTell(w, at, s, d)
  }

  ghost predicate UniqueIds(s: Snapshot) {
    forall i, j :: 0 <= i < j < |s.videos| ==> s.videos[i].id != s.videos[j].id
  }

  /** The creators can be told apart by platform and uid, and no uid holds an underscore. */
  ghost predicate Separate(run: seq<Turn>) {
    && (forall turn :: turn in run ==> '_' !in turn.snap.uid)
    && (forall i, j :: 0 <= i < j < |run| ==> Apart(run[i].snap, run[j].snap))
  }

  /** The run rebuilds the creator. */
  ghost predicate Includes(run: seq<Turn>, s: Snapshot) {
    exists turn :: turn in run && turn.snap == s
  }

  predicate Apart(a: Snapshot, b: Snapshot) {
    NormalizePlatform(a.platform) != NormalizePlatform(b.platform) || a.uid != b.uid
  }

  // ---- Facts about the projected items ------------------------------------------------

  lemma {:induction false} CollectExact(w: World, videos: seq<Video>)
    ensures forall v :: v in videos && Shown(w, v) ==> ItemOf(w, v) in Collect(w, videos)
    ensures forall it :: it in Collect(w, videos) ==>
      it.video in videos && Shown(w, it.video) && it == ItemOf(w, it.video)
  {
    if videos != [] {
      CollectExact(w, videos[1..]);
      assert videos == [videos[0]] + videos[1..];
    }
  }

  ghost predicate DistinctIds(items: seq<Item>) {
    forall i, j :: 0 <= i < j < |items| ==> items[i].video.id != items[j].video.id
  }

  lemma {:induction false} CollectDistinct(w: World, videos: seq<Video>)
    requires forall i, j :: 0 <= i < j < |videos| ==> videos[i].id != videos[j].id
    ensures DistinctIds(Collect(w, videos))
  {
    if videos != [] {
      CollectDistinct(w, videos[1..]);
      CollectExact(w, videos[1..]);
      var rest := Collect(w, videos[1..]);
      forall j | 0 <= j < |rest| ensures rest[j].video.id != videos[0].id {
        assert rest[j] in rest;
        var k := IndexOf(videos[1..], rest[j].video);
        assert videos[k + 1] == rest[j].video;
      }
    }
  }

  /** The index order is a strict total order as long as video ids differ. */
  lemma BeforeIsTotal(items: seq<Item>)
    requires forall a, b :: a in items && b in items && a.video.id == b.video.id ==> a == b
    ensures TotalOn(Before, items)
  {
    Text.LessIsStrictTotal();
  }

  lemma DistinctAsPairs(items: seq<Item>)
    requires DistinctIds(items)
    ensures forall a, b :: a in items && b in items && a.video.id == b.video.id ==> a == b
  {
  }
}
