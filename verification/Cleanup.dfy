/** The cleanup job: which files it deletes, and what that leaves on disk and in the database. */
module Cleanup {
  import opened Common
  import opened Sorting
  import opened StorageCache
  import Text

  datatype Candidate = Candidate(videoID: int, title: string, state: string, followers: int, views: int,
                                 favorites: int, fileID: int, path: string, recordedBytes: int,
                                 createdAt: Option<int>)

  /** The files of the store, the file records with their videos, the videos with their states. */
  datatype Store = Store(disk: map<string, nat>, files: map<int, int>, videos: map<int, string>)

  /** lessCleanupCandidate: what goes first. */
  predicate Less(a: Candidate, b: Candidate) {
    var aRare := a.state == "OUT_OF_PRINT";
    var bRare := b.state == "OUT_OF_PRINT";
    if aRare != bRare then !aRare && bRare
    else if a.followers != b.followers then a.followers < b.followers
    else if a.views != b.views then a.views < b.views
    else if a.favorites != b.favorites then a.favorites < b.favorites
    else if a.recordedBytes != b.recordedBytes then a.recordedBytes > b.recordedBytes
    else if a.title != b.title then Text.Less(a.title, b.title)
    else a.fileID < b.fileID
  }

  /** Old enough to go. */
  predicate Expired(c: Candidate, retention: int, now: int) {
    retention <= 0 || c.createdAt.None? || c.createdAt.value + retention <= now
  }

  function Filter(cs: seq<Candidate>, retention: int, now: int): seq<Candidate> {
    if cs == [] then []
    else if Expired(cs[0], retention, now) then [cs[0]] + Filter(cs[1..], retention, now)
    else Filter(cs[1..], retention, now)
  }

  /** What the program goes through, in order. */
  function Victims(listing: seq<Candidate>, retention: int, now: int): seq<Candidate> {
    Sort(Less, Filter(listing, retention, now))
  }

  datatype Outcome = Failed | Deleted(freed: nat, rareGone: nat)

  predicate HasRecord(files: map<int, int>, video: int) {
    exists f :: f in files && files[f] == video
  }

  /** deleteCleanupCandidate. The file goes first; a missing record or video is an error that
      the file does not survive. */
  function DeleteOne(st: Store, c: Candidate): (Store, Outcome) {
    var freed := if c.path in st.disk then st.disk[c.path] else 0;
    var st1 := st.(disk := st.disk - {c.path});
    if c.fileID !in st.files then (st1, Failed)
    else
      var st2 := st1.(files := st1.files - {c.fileID});
      if HasRecord(st2.files, c.videoID) then (st2, Deleted(freed, 0))
      else if c.videoID !in st.videos then (st2, Failed)
      else (st2.(videos := st2.videos[c.videoID := "DELETED"]),
            Deleted(freed, if c.state == "OUT_OF_PRINT" then 1 else 0))
  }

  datatype Tally = Tally(freed: nat, deleted: nat, rareGone: nat)

  /** The loop: one candidate after the other until enough is freed; failures are skipped. */
  function Sweep(st: Store, cs: seq<Candidate>, target: nat, tally: Tally): (Store, Tally)
    decreases |cs|
  {
    if cs == [] || tally.freed >= target then (st, tally)
    else
      var (next, outcome) := DeleteOne(st, cs[0]);
      var t := if outcome.Failed? then tally
               else Tally(tally.freed + outcome.freed, tally.deleted + 1, tally.rareGone + outcome.rareGone);
      Sweep(next, cs[1..], target, t)
  }

  datatype Result = Skipped | Reached(tally: Tally) | Missed(tally: Tally)

  class Cleaner {
    var disk: map<string, nat>
    var files: map<int, int>
    var videos: map<int, string>

    function Now(): Store
      reads this
    {
      Store(disk, files, videos)
    }

    method DeleteCandidate(c: Candidate) returns (outcome: Outcome)
      modifies this
      ensures (Now(), outcome) == DeleteOne(old(Now()), c)
      ensures disk == old(disk) - {c.path} && files == old(files) - {c.fileID}
      ensures outcome.Failed? <==>
        c.fileID !in old(files) || (!HasRecord(files, c.videoID) && c.videoID !in old(videos))
      ensures videos == if !HasRecord(files, c.videoID) && outcome.Deleted? then old(videos)[c.videoID := "DELETED"]
                        else old(videos)
      ensures outcome.Deleted? ==> outcome.freed == if c.path in old(disk) then old(disk)[c.path] else 0
      ensures outcome.Deleted? ==>
        outcome.rareGone == if !HasRecord(files, c.videoID) && c.state == "OUT_OF_PRINT" then 1 else 0
    {
      var freed := 0;
      if c.path in disk {
        freed := disk[c.path];
      }
      disk := disk - {c.path};
      if c.fileID !in files {
        return Failed;
      }
      files := files - {c.fileID};
      if HasRecord(files, c.videoID) {
        return Deleted(freed, 0);
      }
      if c.videoID !in videos {
        return Failed;
      }
      videos := videos[c.videoID := "DELETED"];
      return Deleted(freed, if c.state == "OUT_OF_PRINT" then 1 else 0);
    }

    /** used is what the scan of the store found, listing what the database lists. */
    method HandleCleanup(used: nat, listing: seq<Candidate>, safe: int, max: int, retention: int, now: int)
      returns (result: Result)
      modifies this
      ensures result.Skipped? <==> (safe <= 0 && max <= 0) || used <= if safe > 0 then safe else max
      ensures result.Skipped? ==> Now() == old(Now())
      ensures !result.Skipped? ==>
        (Now(), result.tally) == Sweep(old(Now()), Victims(listing, retention, now),
                                       CleanupTarget(safe, max, used), Tally(0, 0, 0))
      ensures !result.Skipped? ==>
        (result.Reached? <==> used - result.tally.freed <= if safe > 0 then safe else max)
    {
      var target := CleanupTarget(safe, max, used);
      TargetIs(safe, max, used);
      hide CleanupTarget;
      if target == 0 {
        return Skipped;
      }
      hide Sweep, DeleteOne, Victims;
      var todo := Victims(listing, retention, now);
      var tally := Tally(0, 0, 0);
      var i := 0;
      assert todo[0..] == todo;
      while i < |todo| && tally.freed < target
        invariant 0 <= i <= |todo|
        invariant Sweep(Now(), todo[i..], target, tally) == Sweep(old(Now()), todo, target, Tally(0, 0, 0))
      {
        SweepNext(Now(), todo, i, target, tally);
        var outcome := DeleteCandidate(todo[i]);
        if outcome.Deleted? {
          tally := Tally(tally.freed + outcome.freed, tally.deleted + 1, tally.rareGone + outcome.rareGone);
        }
        i := i + 1;
      }
      SweepDone(Now(), todo[i..], target, tally);
      return if tally.freed < target then Missed(tally) else Reached(tally);
    }
  }

  lemma TargetIs(safe: int, max: int, used: nat)
    ensures var limit := if safe > 0 then safe else max;
      CleanupTarget(safe, max, used) == if limit <= 0 || used <= limit then 0 else used - limit
  {
  }

  lemma SweepNext(st: Store, cs: seq<Candidate>, i: nat, target: nat, tally: Tally)
    requires i < |cs| && tally.freed < target
    ensures var (next, outcome) := DeleteOne(st, cs[i]);
      Sweep(st, cs[i..], target, tally) == Sweep(next, cs[i + 1..], target,
        if outcome.Failed? then tally
        else Tally(tally.freed + outcome.freed, tally.deleted + 1, tally.rareGone + outcome.rareGone))
  {
    hide DeleteOne;
    assert cs[i..][0] == cs[i] && cs[i..][1..] == cs[i + 1..];
  }

  lemma SweepDone(st: Store, cs: seq<Candidate>, target: nat, tally: Tally)
    requires cs == [] || tally.freed >= target
    ensures Sweep(st, cs, target, tally) == (st, tally)
  {
  }

  // ---- The order -------------------------------------------------------------------------

  /** File ids tell the candidates apart. */
  ghost predicate DistinctFiles(cs: seq<Candidate>) {
    forall i, j :: 0 <= i < j < |cs| ==> cs[i].fileID != cs[j].fileID
  }

  /** Among candidates with different file ids the order is strict and total. */
  lemma LessIsTotal(cs: seq<Candidate>)
    requires DistinctFiles(cs)
    ensures TotalOn(Less, cs)
  {
    hide Less;
    forall a | a in cs ensures !Less(a, a) {
      LessIrreflexive(a);
    }
    forall a, b | a in cs && b in cs && a != b ensures Less(a, b) || Less(b, a) {
      assert a.fileID != b.fileID;
      LessDecides(a, b);
    }
    forall a, b, c | Less(a, b) && Less(b, c) ensures Less(a, c) {
      LessTransitive(a, b, c);
    }
  }

  lemma LessIrreflexive(a: Candidate)
    ensures !Less(a, a)
  {
  }

  lemma LessTransitive(a: Candidate, b: Candidate, c: Candidate)
    requires Less(a, b) && Less(b, c)
    ensures Less(a, c)
  {
    hide Text.Less;
    if Text.Less(a.title, b.title) && Text.Less(b.title, c.title) {
      Text.LessTransitive(a.title, b.title, c.title);
    }
    Text.LessIrreflexive(a.title);
    if Text.Less(a.title, b.title) && Text.Less(b.title, a.title) {
      Text.LessTransitive(a.title, b.title, a.title);
    }
  }

  lemma LessDecides(a: Candidate, b: Candidate)
    requires a.fileID != b.fileID
    ensures Less(a, b) <==> !Less(b, a)
  {
    if a.title != b.title {
      Text.LessTotal(a.title, b.title);
      if Text.Less(a.title, b.title) && Text.Less(b.title, a.title) {
        Text.LessTransitive(a.title, b.title, a.title);
        Text.LessIrreflexive(a.title);
      }
    }
  }

  /**
     What the cleanup order spares: rare videos go last; of two that are both rare or both not,
     first the one of the smaller creator, then the less viewed, the less liked, the larger file,
     the title that comes first and at last the older record.
   */
  lemma VictimsSpare(st: Store, listing: seq<Candidate>, retention: int, now: int, i: nat, j: nat)
    requires Current(st, listing) && i < j < |Victims(listing, retention, now)|
    ensures var a, b := Victims(listing, retention, now)[i], Victims(listing, retention, now)[j];
      && (a.state == "OUT_OF_PRINT" ==> b.state == "OUT_OF_PRINT")
      && ((a.state == "OUT_OF_PRINT" <==> b.state == "OUT_OF_PRINT") ==>
        && a.followers <= b.followers
        && (a.followers == b.followers ==> a.views <= b.views)
        && (a.followers == b.followers && a.views == b.views ==> a.favorites <= b.favorites)
        && (a.followers == b.followers && a.views == b.views && a.favorites == b.favorites ==>
              && a.recordedBytes >= b.recordedBytes
              && (a.recordedBytes == b.recordedBytes ==>
                    a.title == b.title || (Text.Less(a.title, b.title) && !Text.Less(b.title, a.title)))
              && (a.recordedBytes == b.recordedBytes && a.title == b.title ==> a.fileID < b.fileID)))
  {
    hide Victims, Current;
    VictimsExact(st, listing, retention, now);
    var todo := Victims(listing, retention, now);
    VictimsDiffer(st, todo, i, j);
    LessDecides(todo[i], todo[j]);
    if Text.Less(todo[i].title, todo[j].title) && Text.Less(todo[j].title, todo[i].title) {
      Text.LessTransitive(todo[i].title, todo[j].title, todo[i].title);
      Text.LessIrreflexive(todo[i].title);
    }
  }

  lemma VictimsDiffer(st: Store, cs: seq<Candidate>, i: nat, j: nat)
    requires Current(st, cs) && i < j < |cs|
    ensures cs[i].fileID != cs[j].fileID
  {
  }

  // ---- What is gone, stated without the loop ----------------------------------------------

  function Paths(cs: seq<Candidate>): set<string> {
    set c | c in cs :: c.path
  }

  function FileIDs(cs: seq<Candidate>): set<int> {
    set c | c in cs :: c.fileID
  }

  function VideoIDs(cs: seq<Candidate>): set<int> {
    set c | c in cs :: c.videoID
  }

  /** The store without these candidates: their files and records are gone, and a video is
      DELETED exactly when one of its records went and none is left. */
  function Gone(st: Store, cs: seq<Candidate>): Store {
    var files := st.files - FileIDs(cs);
    Store(st.disk - Paths(cs), files,
          map v | v in st.videos :: StateAfter(st, files, VideoIDs(cs), v))
  }

  function StateAfter(st: Store, left: map<int, int>, touched: set<int>, v: int): string
    requires v in st.videos
  {
    if v in touched && !HasRecord(left, v) then "DELETED" else st.videos[v]
  }

  ghost function FreedBy(disk: map<string, nat>, cs: seq<Candidate>): int {
    Total(disk) - Total(disk - Paths(cs))
  }

  /** The rare videos that these candidates take with them. */
  function RareLost(st: Store, cs: seq<Candidate>): set<int> {
    set v | v in st.videos && st.videos[v] == "OUT_OF_PRINT" && Gone(st, cs).videos[v] == "DELETED"
  }

  /** The listing still describes the store: every candidate has its record, its video and its state. */
  ghost predicate Current(st: Store, cs: seq<Candidate>) {
    && DistinctFiles(cs)
    && (forall c :: c in cs ==>
          && c.fileID in st.files && st.files[c.fileID] == c.videoID
          && c.videoID in st.videos && st.videos[c.videoID] == c.state)
  }

  lemma FirstGone(st: Store, cs: seq<Candidate>)
    requires cs != [] && Current(st, cs)
    ensures var (next, outcome) := DeleteOne(st, cs[0]);
      && outcome.Deleted?
      && Current(next, cs[1..])
      && next.files == st.files - {cs[0].fileID}
      && next.disk == st.disk - {cs[0].path}
      && next.videos.Keys == st.videos.Keys
  {
    var (next, outcome) := DeleteOne(st, cs[0]);
    forall c | c in cs[1..]
      ensures c.fileID in next.files && next.files[c.fileID] == c.videoID
      ensures c.videoID in next.videos && next.videos[c.videoID] == c.state
    {
      var i := IndexOf(cs[1..], c);
      assert cs[i + 1] == c && c.fileID != cs[0].fileID;
      assert c.fileID in next.files && next.files[c.fileID] == c.videoID;
      assert HasRecord(next.files, c.videoID);
    }
    forall i, j | 0 <= i < j < |cs[1..]| ensures cs[1..][i].fileID != cs[1..][j].fileID {
      assert cs[i + 1].fileID != cs[j + 1].fileID;
    }
  }

  lemma KeysOfCons(cs: seq<Candidate>)
    requires cs != []
    ensures Paths(cs) == {cs[0].path} + Paths(cs[1..])
    ensures FileIDs(cs) == {cs[0].fileID} + FileIDs(cs[1..])
    ensures VideoIDs(cs) == {cs[0].videoID} + VideoIDs(cs[1..])
  {
    assert cs == [cs[0]] + cs[1..];
  }

  /** If a record of v is left now but none at the end, a later candidate takes it. */
  lemma LaterTaker(files: map<int, int>, cs: seq<Candidate>, v: int)
    requires HasRecord(files, v) && !HasRecord(files - FileIDs(cs), v)
    requires forall c :: c in cs ==> c.fileID in files && files[c.fileID] == c.videoID
    ensures v in VideoIDs(cs)
  {
    var f :| f in files && files[f] == v;
    assert f in FileIDs(cs) by {
      assert f !in files - FileIDs(cs);
    }
    var c :| c in cs && c.fileID == f;
    assert c.videoID == v;
  }

  lemma RecordStays(files: map<int, int>, ids: set<int>, v: int)
    requires HasRecord(files - ids, v)
    ensures HasRecord(files, v)
  {
    var f :| f in files - ids && (files - ids)[f] == v;
    assert f in files && files[f] == v;
  }

  lemma GoneStepVideo(st: Store, cs: seq<Candidate>, v: int)
    requires cs != [] && Current(st, cs) && v in st.videos
    ensures var next := DeleteOne(st, cs[0]).0;
      v in next.videos && Gone(next, cs[1..]).videos[v] == Gone(st, cs).videos[v]
  {
    var next := DeleteOne(st, cs[0]).0;
    FirstGone(st, cs);
    KeysOfCons(cs);
    var left := st.files - FileIDs(cs);
    assert next.files - FileIDs(cs[1..]) == left;
    if HasRecord(left, v) {
      RecordStays(next.files, FileIDs(cs[1..]), v);
    } else if HasRecord(next.files, v) {
      LaterTaker(next.files, cs[1..], v);
    }
  }

  lemma GoneStep(st: Store, cs: seq<Candidate>)
    requires cs != [] && Current(st, cs)
    ensures Gone(DeleteOne(st, cs[0]).0, cs[1..]) == Gone(st, cs)
  {
    hide DeleteOne;
    var next := DeleteOne(st, cs[0]).0;
    FirstGone(st, cs);
    KeysOfCons(cs);
    assert next.files - FileIDs(cs[1..]) == st.files - FileIDs(cs);
    assert next.disk - Paths(cs[1..]) == st.disk - Paths(cs);
    var a, b := Gone(next, cs[1..]).videos, Gone(st, cs).videos;
    forall v | v in st.videos ensures a[v] == b[v] {
      GoneStepVideo(st, cs, v);
    }
    assert a == b;
  }

  lemma FreedStep(disk: map<string, nat>, cs: seq<Candidate>)
    requires cs != []
    ensures FreedBy(disk, cs) ==
      (if cs[0].path in disk then disk[cs[0].path] else 0) + FreedBy(disk - {cs[0].path}, cs[1..])
  {
    KeysOfCons(cs);
    assert disk - {cs[0].path} - Paths(cs[1..]) == disk - Paths(cs);
    if cs[0].path in disk {
      TotalWithout(disk, cs[0].path);
    } else {
      assert disk - {cs[0].path} == disk;
    }
  }

  lemma RareStep(st: Store, cs: seq<Candidate>)
    requires cs != [] && Current(st, cs)
    ensures |RareLost(st, cs)| == DeleteOne(st, cs[0]).1.rareGone + |RareLost(DeleteOne(st, cs[0]).0, cs[1..])|
  {
    var (next, outcome) := DeleteOne(st, cs[0]);
    FirstGone(st, cs);
    GoneStep(st, cs);
    var v0 := cs[0].videoID;
    var before, after := RareLost(st, cs), RareLost(next, cs[1..]);
    assert next.videos.Keys == st.videos.Keys;
    if outcome.rareGone == 1 {
      assert v0 in VideoIDs(cs);
      assert before == after + {v0};
      assert v0 !in after;
    } else {
      assert before == after;
    }
  }

  // ---- What a sweep does ------------------------------------------------------------------

  /** The sweep stops after the first k candidates: the shortest beginning that frees enough,
      or all of them. */
  ghost predicate StopsAt(disk: map<string, nat>, cs: seq<Candidate>, need: int, k: nat) {
    && k <= |cs|
    && (forall j :: 0 <= j < k ==> FreedBy(disk, cs[..j]) < need)
    && (k < |cs| ==> FreedBy(disk, cs[..k]) >= need)
  }

  lemma FreedPrefix(st: Store, cs: seq<Candidate>, j: nat)
    requires cs != [] && j < |cs| && Current(st, cs)
    ensures var next := DeleteOne(st, cs[0]);
      next.1.Deleted? && FreedBy(st.disk, cs[..j + 1]) == next.1.freed + FreedBy(next.0.disk, cs[1..][..j])
  {
    FirstGone(st, cs);
    assert cs[..j + 1][0] == cs[0] && cs[..j + 1][1..] == cs[1..][..j];
    FreedStep(st.disk, cs[..j + 1]);
  }

  lemma StopsOneLater(st: Store, cs: seq<Candidate>, need: int, m: nat)
    requires cs != [] && Current(st, cs) && need > 0
    requires DeleteOne(st, cs[0]).1.Deleted?
    requires StopsAt(DeleteOne(st, cs[0]).0.disk, cs[1..], need - DeleteOne(st, cs[0]).1.freed, m)
    ensures StopsAt(st.disk, cs, need, m + 1)
  {
    forall j | 0 <= j < m + 1 ensures FreedBy(st.disk, cs[..j]) < need {
      if j == 0 {
        NothingGone(st);
        assert cs[..0] == [];
      } else {
        FreedPrefix(st, cs, j - 1);
      }
    }
    FreedPrefix(st, cs, m);
  }

  lemma GonePrefix(st: Store, cs: seq<Candidate>, m: nat)
    requires cs != [] && Current(st, cs) && m < |cs|
    ensures var next := DeleteOne(st, cs[0]);
      && next.1.Deleted?
      && Gone(next.0, cs[1..][..m]) == Gone(st, cs[..m + 1])
      && |RareLost(st, cs[..m + 1])| == next.1.rareGone + |RareLost(next.0, cs[1..][..m])|
  {
    FirstGone(st, cs);
    PrefixCurrent(st, cs, m + 1);
    assert cs[..m + 1][0] == cs[0] && cs[..m + 1][1..] == cs[1..][..m];
    GoneStep(st, cs[..m + 1]);
    RareStep(st, cs[..m + 1]);
  }

  ghost predicate SweptAt(st: Store, cs: seq<Candidate>, tally: Tally, k: nat, result: (Store, Tally))
    requires k <= |cs|
  {
    && result.0 == Gone(st, cs[..k])
    && result.1.freed == tally.freed + FreedBy(st.disk, cs[..k])
    && result.1.deleted == tally.deleted + k
    && result.1.rareGone == tally.rareGone + |RareLost(st, cs[..k])|
  }

  function Added(tally: Tally, outcome: Outcome): Tally
    requires outcome.Deleted?
  {
    Tally(tally.freed + outcome.freed, tally.deleted + 1, tally.rareGone + outcome.rareGone)
  }

  lemma SweptOneMore(st: Store, cs: seq<Candidate>, tally: Tally, m: nat, result: (Store, Tally))
    requires cs != [] && Current(st, cs) && m < |cs|
    requires DeleteOne(st, cs[0]).1.Deleted?
    requires SweptAt(DeleteOne(st, cs[0]).0, cs[1..], Added(tally, DeleteOne(st, cs[0]).1), m, result)
    ensures SweptAt(st, cs, tally, m + 1, result)
  {
    hide DeleteOne, Gone, RareLost, FreedBy;
    GonePrefix(st, cs, m);
    FreedPrefix(st, cs, m);
  }

  lemma SweepUnfolds(st: Store, cs: seq<Candidate>, target: nat, tally: Tally)
    requires cs != [] && tally.freed < target && DeleteOne(st, cs[0]).1.Deleted?
    ensures Sweep(st, cs, target, tally) ==
      Sweep(DeleteOne(st, cs[0]).0, cs[1..], target, Added(tally, DeleteOne(st, cs[0]).1))
  {
    hide DeleteOne;
  }

  lemma {:induction false} SweepStops(st: Store, cs: seq<Candidate>, target: nat, tally: Tally) returns (k: nat)
    requires Current(st, cs)
    ensures StopsAt(st.disk, cs, target - tally.freed, k)
    ensures SweptAt(st, cs, tally, k, Sweep(st, cs, target, tally))
    decreases |cs|
  {
    hide DeleteOne, Gone, RareLost, FreedBy, SweptAt, Current;
    if cs == [] || tally.freed >= target {
      k := 0;
      SweptNone(st, cs, tally);
      assert Sweep(st, cs, target, tally) == (st, tally);
      StopsAtOnce(st.disk, cs, target - tally.freed);
    } else {
      var m := SweepLater(st, cs, target, tally);
      k := m + 1;
    }
  }

  lemma {:induction false} SweepLater(st: Store, cs: seq<Candidate>, target: nat, tally: Tally) returns (m: nat)
    requires cs != [] && tally.freed < target && Current(st, cs)
    ensures m < |cs| && StopsAt(st.disk, cs, target - tally.freed, m + 1)
    ensures SweptAt(st, cs, tally, m + 1, Sweep(st, cs, target, tally))
    decreases |cs|, 0
  {
    hide DeleteOne, Gone, RareLost, FreedBy, SweptAt, Sweep;
    var (next, outcome) := DeleteOne(st, cs[0]);
    FirstGone(st, cs);
    m := SweepStops(next, cs[1..], target, Added(tally, outcome));
    StopsOneLater(st, cs, target - tally.freed, m);
    SweepUnfolds(st, cs, target, tally);
    SweptOneMore(st, cs, tally, m, Sweep(next, cs[1..], target, Added(tally, outcome)));
  }

  lemma SweptNone(st: Store, cs: seq<Candidate>, tally: Tally)
    ensures SweptAt(st, cs, tally, 0, (st, tally))
  {
    assert cs[..0] == [];
    NothingGone(st);
  }

  lemma StopsAtOnce(disk: map<string, nat>, cs: seq<Candidate>, target: int)
    requires cs == [] || target <= 0
    ensures StopsAt(disk, cs, target, 0)
  {
    assert cs[..0] == [] && disk - Paths([]) == disk;
  }

  lemma NothingGone(st: Store)
    ensures Gone(st, []) == st && FreedBy(st.disk, []) == 0 && RareLost(st, []) == {}
  {
    assert st.disk - Paths([]) == st.disk;
    assert st.files - FileIDs([]) == st.files;
    assert Gone(st, []).videos == st.videos;
  }

  lemma PrefixCurrent(st: Store, cs: seq<Candidate>, k: nat)
    requires Current(st, cs) && k <= |cs|
    ensures Current(st, cs[..k])
  {
    forall c | c in cs[..k] ensures c in cs {
      var i := IndexOf(cs[..k], c);
      assert cs[i] == c;
    }
  }

  // ---- The whole job ------------------------------------------------------------------------

  lemma {:induction false} FilterExact(cs: seq<Candidate>, retention: int, now: int)
    requires DistinctFiles(cs)
    ensures DistinctFiles(Filter(cs, retention, now))
    ensures forall c :: c in Filter(cs, retention, now) ==> c in cs && Expired(c, retention, now)
    ensures forall c :: c in cs && Expired(c, retention, now) ==> c in Filter(cs, retention, now)
  {
    if cs != [] {
      forall i, j | 0 <= i < j < |cs[1..]| ensures cs[1..][i].fileID != cs[1..][j].fileID {
        assert cs[i + 1].fileID != cs[j + 1].fileID;
      }
      FilterExact(cs[1..], retention, now);
      var rest := Filter(cs[1..], retention, now);
      forall j | 0 <= j < |rest| ensures rest[j].fileID != cs[0].fileID {
        assert rest[j] in cs[1..];
        var k := IndexOf(cs[1..], rest[j]);
        assert cs[k + 1] == rest[j];
      }
      assert cs == [cs[0]] + cs[1..];
    }
  }

  /** No retention is set, the file has no date, or it is at least as old as the retention. */
  predicate OldEnough(c: Candidate, retention: int, now: int) {
    retention <= 0 || c.createdAt.None? || now - c.createdAt.value >= retention
  }

  /** The victims are the candidates that are old enough, each once, in the cleanup order. */
  lemma VictimsExact(st: Store, listing: seq<Candidate>, retention: int, now: int)
    requires Current(st, listing)
    ensures var todo := Victims(listing, retention, now);
      && Current(st, todo) && Ordered(Less, todo)
      && (forall c :: c in todo <==> c in listing && OldEnough(c, retention, now))
  {
    var kept := Filter(listing, retention, now);
    FilterExact(listing, retention, now);
    SameElements(kept, Sort(Less, kept));
    DistinctStays((c: Candidate) => c.fileID, kept, Sort(Less, kept));
    assert DistinctFiles(Sort(Less, kept)) by {
      assert forall c: Candidate :: ((x: Candidate) => x.fileID)(c) == c.fileID;
    }
    LessIsTotal(kept);
    SortOrdered(Less, kept);
  }

  lemma PathsGrow(cs: seq<Candidate>, k: nat)
    requires k < |cs|
    ensures Paths(cs[..k + 1]) == Paths(cs[..k]) + {cs[k].path}
  {
    assert cs[..k + 1] == cs[..k] + [cs[k]];
  }

  lemma FreedGrows(disk: map<string, nat>, cs: seq<Candidate>, k: nat)
    requires k < |cs|
    ensures var left := disk - Paths(cs[..k]);
      FreedBy(disk, cs[..k + 1]) == FreedBy(disk, cs[..k]) + if cs[k].path in left then left[cs[k].path] else 0
  {
    PathsGrow(cs, k);
    var left := disk - Paths(cs[..k]);
    assert disk - Paths(cs[..k + 1]) == left - {cs[k].path};
    if cs[k].path in left {
      TotalWithout(left, cs[k].path);
    } else {
      assert left - {cs[k].path} == left;
    }
  }

  lemma {:induction false} FreedMonotone(disk: map<string, nat>, cs: seq<Candidate>, j: nat, k: nat)
    requires j <= k <= |cs|
    ensures FreedBy(disk, cs[..j]) <= FreedBy(disk, cs[..k])
    decreases k
  {
    if j < k {
      FreedMonotone(disk, cs, j, k - 1);
      FreedGrows(disk, cs, k - 1);
    }
  }

  /**
     An error-free cleanup over the limit, the safe size or else the maximum, deletes exactly the
     shortest beginning of the ordered victims that brings the disk down to the limit, or all of
     them if none does. So it succeeds if and only if all victims together would have been enough,
     and then what is left and the last victim's file together exceed the limit.
   */
  lemma CleanupIsShortestPrefix(st: Store, listing: seq<Candidate>, safe: int, max: int, retention: int, now: int,
      limit: int)
    returns (k: nat)
    requires limit == (if safe > 0 then safe else max) && 0 < limit < Total(st.disk) && Current(st, listing)
    ensures var todo := Victims(listing, retention, now);
      var (after, tally) := Sweep(st, todo, CleanupTarget(safe, max, Total(st.disk)), Tally(0, 0, 0));
      && k <= |todo|
      && after == Gone(st, todo[..k])
      && tally.freed == Total(st.disk) - Total(after.disk)
      && tally.deleted == k && tally.rareGone == |RareLost(st, todo[..k])|
      && (forall j :: 0 <= j < k ==> Total(Gone(st, todo[..j]).disk) > limit)
      && (k < |todo| ==> Total(after.disk) <= limit)
      && (Total(after.disk) <= limit <==> Total(Gone(st, todo).disk) <= limit)
      && (Total(after.disk) <= limit ==>
            && 0 < k && todo[k - 1].path in st.disk
            && Total(after.disk) + st.disk[todo[k - 1].path] > limit)
  {
    hide Sweep, Gone, RareLost, FreedBy, StopsAt, Victims, Current, Ordered;
    var todo := Victims(listing, retention, now);
    var target := CleanupTarget(safe, max, Total(st.disk));
    VictimsExact(st, listing, retention, now);
    k := SweepStops(st, todo, target, Tally(0, 0, 0));
    StopReaches(st.disk, todo, target, k);
    GoneDisk(st, todo[..k]);
    GoneDisk(st, todo);
    StopIsFirst(st.disk, todo, target, k);
    forall j | 0 <= j < k ensures Total(Gone(st, todo[..j]).disk) > limit {
      GoneDisk(st, todo[..j]);
      assert FreedBy(st.disk, todo[..j]) < target;
    }
    if FreedBy(st.disk, todo[..k]) >= target {
      StopOvershoots(st.disk, todo, target, k);
    }
  }

  lemma StopIsFirst(disk: map<string, nat>, cs: seq<Candidate>, need: int, k: nat)
    requires StopsAt(disk, cs, need, k)
    ensures k <= |cs| && (k < |cs| ==> FreedBy(disk, cs[..k]) >= need)
    ensures forall j :: 0 <= j < k ==> FreedBy(disk, cs[..j]) < need
  {
  }

  /** Where the sweep stops decides whether all victims would have been enough. */
  lemma StopReaches(disk: map<string, nat>, cs: seq<Candidate>, need: int, k: nat)
    requires StopsAt(disk, cs, need, k)
    ensures k <= |cs| && (FreedBy(disk, cs[..k]) >= need <==> FreedBy(disk, cs) >= need)
  {
    hide FreedBy;
    assert cs[..|cs|] == cs;
    FreedMonotone(disk, cs, k, |cs|);
  }

  /** A sweep that reaches what it needs overshoots by less than its last file. */
  lemma StopOvershoots(disk: map<string, nat>, cs: seq<Candidate>, need: int, k: nat)
    requires StopsAt(disk, cs, need, k) && need > 0 && FreedBy(disk, cs[..k]) >= need
    ensures 0 < k && cs[k - 1].path in disk && FreedBy(disk, cs[..k]) - need < disk[cs[k - 1].path]
  {
    NothingFreed(disk);
    hide FreedBy;
    assert cs[..0] == [];
    assert FreedBy(disk, cs[..k - 1]) < need;
    FreedGrows(disk, cs, k - 1);
  }

  lemma NothingFreed(disk: map<string, nat>)
    ensures FreedBy(disk, []) == 0
  {
    assert disk - Paths([]) == disk;
  }

  lemma GoneDisk(st: Store, cs: seq<Candidate>)
    ensures FreedBy(st.disk, cs) == Total(st.disk) - Total(Gone(st, cs).disk)
  {
  }

  /** The order of the listing does not matter. */
  lemma VictimsIgnoreListingOrder(a: seq<Candidate>, b: seq<Candidate>, retention: int, now: int)
    requires DistinctFiles(a) && multiset(a) == multiset(b)
    ensures Victims(a, retention, now) == Victims(b, retention, now)
  {
    FilterMultiset(a, b, retention, now);
    FilterExact(a, retention, now);
    LessIsTotal(Filter(a, retention, now));
    SortIgnoresOrder(Less, Filter(a, retention, now), Filter(b, retention, now));
  }

  lemma {:induction false} FilterSplit(a: seq<Candidate>, b: seq<Candidate>, retention: int, now: int)
    ensures Filter(a + b, retention, now) == Filter(a, retention, now) + Filter(b, retention, now)
  {
    if a == [] {
      assert a + b == b;
    } else {
      assert (a + b)[0] == a[0] && (a + b)[1..] == a[1..] + b;
      FilterSplit(a[1..], b, retention, now);
    }
  }

  lemma {:induction false} FilterMultiset(a: seq<Candidate>, b: seq<Candidate>, retention: int, now: int)
    requires multiset(a) == multiset(b)
    ensures multiset(Filter(a, retention, now)) == multiset(Filter(b, retention, now))
    decreases |a|
  {
    SameElements(a, b);
    if a != [] {
      assert a[0] in b;
      var i := IndexOf(b, a[0]);
      var b' := b[..i] + b[i + 1..];
      assert b == b[..i] + ([b[i]] + b[i + 1..]);
      assert a == [a[0]] + a[1..];
      assert multiset(a[1..]) == multiset(a) - multiset{a[0]};
      assert multiset(b') == multiset(b) - multiset{b[i]};
      FilterMultiset(a[1..], b', retention, now);
      FilterSplit(b[..i], b[i + 1..], retention, now);
      FilterSplit(b[..i], [b[i]] + b[i + 1..], retention, now);
      FilterSplit([b[i]], b[i + 1..], retention, now);
      FilterSplit([a[0]], a[1..], retention, now);
    }
  }

  // ---- What a cleanup that reaches its target reports to the cache ---------------------------

  function PathOf(c: Candidate): string {
    c.path
  }

  /** Every candidate has a file of its own on the disk. */
  ghost predicate OwnFiles(disk: map<string, nat>, cs: seq<Candidate>) {
    DistinctBy(PathOf, cs) && forall c :: c in cs ==> c.path in disk
  }

  lemma {:induction false} FilterKeepsFiles(disk: map<string, nat>, cs: seq<Candidate>, retention: int, now: int)
    requires OwnFiles(disk, cs)
    ensures OwnFiles(disk, Filter(cs, retention, now))
    ensures forall c :: c in Filter(cs, retention, now) ==> c in cs
  {
    if cs != [] {
      var rest := cs[1..];
      forall i, j | 0 <= i < j < |rest| ensures PathOf(rest[i]) != PathOf(rest[j]) {
        assert PathOf(cs[i + 1]) != PathOf(cs[j + 1]);
      }
      FilterKeepsFiles(disk, rest, retention, now);
      forall c | c in Filter(rest, retention, now) ensures PathOf(c) != PathOf(cs[0]) {
        var i := IndexOf(rest, c);
        assert PathOf(cs[i + 1]) != PathOf(cs[0]);
      }
    }
  }

  lemma VictimsOwnFiles(disk: map<string, nat>, listing: seq<Candidate>, retention: int, now: int)
    requires OwnFiles(disk, listing)
    ensures OwnFiles(disk, Victims(listing, retention, now))
  {
    hide Filter;
    var kept := Filter(listing, retention, now);
    FilterKeepsFiles(disk, listing, retention, now);
    SameElements(kept, Sort(Less, kept));
    DistinctStays(PathOf, kept, Sort(Less, kept));
  }

  lemma OwnFileLeft(disk: map<string, nat>, cs: seq<Candidate>, k: nat)
    requires OwnFiles(disk, cs) && k < |cs|
    ensures cs[k].path in disk && cs[k].path !in Paths(cs[..k])
  {
    forall c | c in cs[..k] ensures c.path != cs[k].path {
      var i := IndexOf(cs[..k], c);
      assert PathOf(cs[i]) != PathOf(cs[k]);
    }
  }

  lemma NoneGone(disk: map<string, nat>)
    ensures |disk - Paths([])| == |disk|
  {
    assert disk - Paths([]) == disk;
  }

  lemma OneMoreGone(disk: map<string, nat>, gone: set<string>, path: string, after: set<string>)
    requires path in disk && path !in gone && after == gone + {path}
    ensures |disk - after| == |disk - gone| - 1
  {
    SizeWithout(disk - gone, path);
    assert disk - (gone + {path}) == disk - gone - {path};
  }

  lemma NextFileGone(disk: map<string, nat>, cs: seq<Candidate>, k: nat)
    requires OwnFiles(disk, cs) && k < |cs|
    ensures |disk - Paths(cs[..k + 1])| == |disk - Paths(cs[..k])| - 1
  {
    hide Paths, OwnFiles;
    PathsGrow(cs, k);
    OwnFileLeft(disk, cs, k);
    OneMoreGone(disk, Paths(cs[..k]), cs[k].path, Paths(cs[..k + 1]));
  }

  lemma {:induction false} FilesGone(disk: map<string, nat>, cs: seq<Candidate>, k: nat)
    requires OwnFiles(disk, cs) && k <= |cs|
    ensures |disk - Paths(cs[..k])| == |disk| - k
    decreases k
  {
    hide Paths, OwnFiles;
    if k == 0 {
      NoneGone(disk);
      assert cs[..0] == [];
    } else {
      FilesGone(disk, cs, k - 1);
      NextFileGone(disk, cs, k - 1);
    }
  }

  /** When each candidate has a file of its own, a cleanup that reaches its target keeps totals
      that agree with the disk. */
  lemma ReachedCleanupKeepsTotals(st: Store, listing: seq<Candidate>, safe: int, max: int, retention: int,
      now: int, cache: Snapshot, rare: nat)
    requires Current(st, listing) && OwnFiles(st.disk, listing)
    requires 0 < (if safe > 0 then safe else max) < Total(st.disk)
    requires cache.initialized && cache.usedBytes == Total(st.disk) && cache.fileCount == |st.disk|
    ensures var target := CleanupTarget(safe, max, Total(st.disk));
      var (after, tally) := Sweep(st, Victims(listing, retention, now), target, Tally(0, 0, 0));
      var c := ApplyDelta(cache, Delta(0 - tally.freed, 0 - tally.deleted, 0 - tally.rareGone), 0, 0, rare);
      c.usedBytes == Total(after.disk) && c.fileCount == |after.disk|
  {
    hide Victims, Sweep, Current, OwnFiles, FreedBy, RareLost;
    var k := CleanupIsShortestPrefix(st, listing, safe, max, retention, now, if safe > 0 then safe else max);
    var todo := Victims(listing, retention, now);
    VictimsOwnFiles(st.disk, listing, retention, now);
    FilesGone(st.disk, todo, k);
  }
}
