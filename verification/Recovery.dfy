/** Startup recovery: the three passes over jobs, videos and disk before any worker starts. */
module Recovery {
  import opened Common
  import J = JobTable

  const JOB_SCAN := 500
  const VIDEO_SCAN := 500
  const DOWNLOAD_SCAN := 1000

  datatype Video = Video(state: string, path: string)

  /** files maps a file record to its video. */
  datatype World = World(jobs: J.Table, videos: map<int, Video>, files: map<int, int>, disk: map<string, nat>)

  predicate Stored(disk: map<string, nat>, path: string) {
    path in disk && disk[path] > 0
  }

  function RunningJobs(jobs: J.Table): set<int> {
    set id | id in jobs && jobs[id].status.Running?
  }

  function Downloads(jobs: J.Table): set<int> {
    set id | id in jobs && jobs[id].kind.Download?
  }

  function InState(videos: map<int, Video>, state: string): set<int> {
    set v | v in videos && videos[v].state == state
  }

  /** What a listing may return: distinct rows that match, as many as the limit allows. */
  ghost predicate Listing(rows: seq<int>, matching: set<int>, limit: nat) {
    && (forall i, j :: 0 <= i < j < |rows| ==> rows[i] != rows[j])
    && (forall r :: r in rows ==> r in matching)
    && |rows| == if |matching| <= limit then |matching| else limit
  }

  /** A listing that the limit does not cut holds every row. */
  lemma FullListing(rows: seq<int>, matching: set<int>, limit: nat)
    requires Listing(rows, matching, limit) && |matching| <= limit
    ensures forall r :: r in matching ==> r in rows
  {
    var seen := set r | r in rows;
    DistinctCount(rows);
    assert seen <= matching;
    SameSizeSubset(seen, matching);
  }

  lemma SameSizeSubset(a: set<int>, b: set<int>)
    requires a <= b && |a| == |b|
    ensures a == b
  {
    assert b == a + (b - a);
    assert |b - a| == 0;
  }

  lemma {:induction false} DistinctCount(rows: seq<int>)
    requires forall i, j :: 0 <= i < j < |rows| ==> rows[i] != rows[j]
    ensures |set r | r in rows| == |rows|
  {
    if rows != [] {
      var front, last := rows[..|rows| - 1], rows[|rows| - 1];
      DistinctCount(front);
      assert (set r | r in rows) == (set r | r in front) + {last};
    }
  }

  /** Some listing of the matching rows; the order is left open. */
  method List(matching: set<int>, limit: nat) returns (rows: seq<int>)
    ensures Listing(rows, matching, limit)
  {
    rows := [];
    var rest := matching;
    while rest != {} && |rows| < limit
      invariant rest <= matching && |rows| + |rest| == |matching| && |rows| <= limit
      invariant forall i, j :: 0 <= i < j < |rows| ==> rows[i] != rows[j]
      invariant forall r :: r in rows ==> r in matching && r !in rest
      decreases rest
    {
      ghost var some := AnyOf(rest);
      var r :| r in rest;
      rows := rows + [r];
      rest := rest - {r};
    }
  }

  // ---- The passes on values, for the rows their listings returned --------------------------

  function Requeue(w: World, rows: seq<int>, now: int): World {
    w.(jobs := map id | id in w.jobs :: if id in rows then J.Updated(w.jobs[id], J.Queued, now) else w.jobs[id])
  }

  predicate Missing(w: World, rows: seq<int>, v: int) {
    v in rows && v in w.videos && !Stored(w.disk, w.videos[v].path)
  }

  /** A DOWNLOADED video without a non-empty file loses its file records and becomes NEW. */
  function RepairMissing(w: World, rows: seq<int>): World {
    w.(videos := map v | v in w.videos :: if Missing(w, rows, v) then w.videos[v].(state := "NEW") else w.videos[v],
       files := map f | f in w.files && !Missing(w, rows, w.files[f]) :: w.files[f])
  }

  lemma MissingNothing(w: World)
    ensures RepairMissing(w, []) == w
  {
    var t := RepairMissing(w, []);
    assert forall v :: !Missing(w, [], v);
    assert t.videos == w.videos && t.files == w.files;
  }

  lemma MissingOneMore(w: World, rows: seq<int>, v: int)
    requires v in w.videos && v !in rows
    ensures var t := RepairMissing(w, rows);
      RepairMissing(w, rows + [v]) ==
        if Stored(w.disk, w.videos[v].path) then t
        else t.(videos := t.videos[v := t.videos[v].(state := "NEW")],
                files := map f | f in t.files && t.files[f] != v :: t.files[f])
  {
    var t, u := RepairMissing(w, rows), RepairMissing(w, rows + [v]);
    forall x | x != v ensures Missing(w, rows + [v], x) == Missing(w, rows, x) {
      assert x in rows + [v] <==> x in rows;
    }
    assert Missing(w, rows + [v], v) == !Stored(w.disk, w.videos[v].path);
    var stored := Stored(w.disk, w.videos[v].path);
    assert u.videos == if stored then t.videos else t.videos[v := t.videos[v].(state := "NEW")];
    assert u.files == if stored then t.files else map f | f in t.files && t.files[f] != v :: t.files[f];
  }

  /** An active job among the rows names the video. */
  predicate Claimed(jobs: J.Table, rows: seq<int>, v: int) {
    v > 0 && exists id :: id in rows && id in jobs && J.Active(jobs[id]) && jobs[id].video == Some(v)
  }

  function StateByFile(w: World, v: Video): string {
    if Stored(w.disk, v.path) then "DOWNLOADED" else "NEW"
  }

  /** A DOWNLOADING video with no listed active job gets the state its file speaks for. */
  function RepairDownloading(w: World, rows: seq<int>, jobRows: seq<int>): World {
    w.(videos := map v | v in w.videos ::
      if v in rows && !Claimed(w.jobs, jobRows, v) then w.videos[v].(state := StateByFile(w, w.videos[v]))
      else w.videos[v])
  }

  lemma DownloadingNothing(w: World, jobRows: seq<int>)
    ensures RepairDownloading(w, [], jobRows) == w
  {
    assert RepairDownloading(w, [], jobRows).videos == w.videos;
  }

  lemma DownloadingOneMore(w: World, rows: seq<int>, jobRows: seq<int>, v: int)
    requires v in w.videos && v !in rows
    ensures var t := RepairDownloading(w, rows, jobRows);
      RepairDownloading(w, rows + [v], jobRows) ==
        if Claimed(w.jobs, jobRows, v) then t
        else t.(videos := t.videos[v := t.videos[v].(state := StateByFile(w, t.videos[v]))])
  {
    hide Claimed;
    var t, u := RepairDownloading(w, rows, jobRows), RepairDownloading(w, rows + [v], jobRows);
    assert u.videos == if Claimed(w.jobs, jobRows, v) then t.videos
                       else t.videos[v := t.videos[v].(state := StateByFile(w, t.videos[v]))];
  }

  /** The rows of the four listings. */
  datatype Rows = Rows(running: seq<int>, downloaded: seq<int>, downloading: seq<int>, downloads: seq<int>)

  function Recovered(w: World, r: Rows, now: int): World {
    RepairDownloading(RepairMissing(Requeue(w, r.running, now), r.downloaded), r.downloading, r.downloads)
  }

  ghost predicate Listed(w: World, r: Rows, now: int) {
    var w1 := Requeue(w, r.running, now);
    var w2 := RepairMissing(w1, r.downloaded);
    && Listing(r.running, RunningJobs(w.jobs), JOB_SCAN)
    && Listing(r.downloaded, InState(w1.videos, "DOWNLOADED"), VIDEO_SCAN)
    && Listing(r.downloading, InState(w2.videos, "DOWNLOADING"), VIDEO_SCAN)
    && Listing(r.downloads, Downloads(w2.jobs), DOWNLOAD_SCAN)
  }

  class App {
    var jobs: J.Table
    var videos: map<int, Video>
    var files: map<int, int>
    const disk: map<string, nat>

    function Now(): World
      reads this
    {
      World(jobs, videos, files, disk)
    }

    constructor (w: World)
      ensures Now() == w
    {
      jobs, videos, files, disk := w.jobs, w.videos, w.files, w.disk;
    }

    method RequeueRunningJobs(now: int) returns (ghost rows: seq<int>)
      modifies this`jobs
      ensures Listing(rows, RunningJobs(old(jobs)), 500)
      ensures Now() == Requeue(old(Now()), rows, now)
    {
      var list := List(RunningJobs(jobs), JOB_SCAN);
      rows := list;
      for i := 0 to |list|
        invariant Now() == Requeue(old(Now()), list[..i], now)
      {
        var id := list[i];
        assert id in list && id !in list[..i];
        assert list[..i + 1] == list[..i] + [id];
        jobs := jobs[id := J.Updated(jobs[id], J.Queued, now)];
      }
      assert list[..|list|] == list;
    }

    method RecoverMissingDownloaded() returns (ghost rows: seq<int>)
      modifies this`videos, this`files
      ensures Listing(rows, InState(old(videos), "DOWNLOADED"), 500)
      ensures Now() == RepairMissing(old(Now()), rows)
    {
      var list := List(InState(videos, "DOWNLOADED"), VIDEO_SCAN);
      rows := list;
      ghost var start := Now();
      MissingNothing(start);
      hide RepairMissing;
      for i := 0 to |list|
        invariant Now() == RepairMissing(start, list[..i])
      {
        var v := list[i];
        assert v in list && v !in list[..i];
        assert list[..i + 1] == list[..i] + [v];
        MissingOneMore(start, list[..i], v);
        if !Stored(disk, videos[v].path) {
          files := map f | f in files && files[f] != v :: files[f];
          videos := videos[v := videos[v].(state := "NEW")];
        }
      }
      assert list[..|list|] == list;
    }

    /** The videos that a listed active download job names. */
    method ActiveDownloads() returns (active: set<int>, ghost rows: seq<int>)
      ensures Listing(rows, Downloads(jobs), 1000)
      ensures forall v :: v in active <==> Claimed(jobs, rows, v)
    {
      var list := List(Downloads(jobs), DOWNLOAD_SCAN);
      rows := list;
      active := {};
      for i := 0 to |list|
        invariant forall v :: v in active <==> Claimed(jobs, list[..i], v)
      {
        var id := list[i];
        assert id in list;
        assert list[..i + 1] == list[..i] + [id];
        if J.Active(jobs[id]) && J.Names(jobs[id].video) {
          active := active + {jobs[id].video.value};
        }
      }
      assert list[..|list|] == list;
    }

    method RecoverDownloading() returns (ghost rows: seq<int>, ghost jobRows: seq<int>)
      modifies this`videos
      ensures Listing(rows, InState(old(videos), "DOWNLOADING"), 500)
      ensures Listing(jobRows, Downloads(jobs), 1000)
      ensures Now() == RepairDownloading(old(Now()), rows, jobRows)
    {
      var list := List(InState(videos, "DOWNLOADING"), VIDEO_SCAN);
      rows := list;
      var active;
      active, jobRows := ActiveDownloads();
      ghost var start := Now();
      DownloadingNothing(start, jobRows);
      hide RepairDownloading, Claimed;
      for i := 0 to |list|
        invariant Now() == RepairDownloading(start, list[..i], jobRows)
      {
        var v := list[i];
        assert v in list && v !in list[..i];
        assert list[..i + 1] == list[..i] + [v];
        DownloadingOneMore(start, list[..i], jobRows, v);
        if v !in active {
          videos := videos[v := videos[v].(state := if Stored(disk, videos[v].path) then "DOWNLOADED" else "NEW")];
        }
      }
      assert list[..|list|] == list;
    }

    method RecoverRuntimeState(now: int) returns (ghost rows: Rows)
      modifies this
      ensures Listed(old(Now()), rows, now) && Now() == Recovered(old(Now()), rows, now)
    {
      var running := RequeueRunningJobs(now);
      var downloaded := RecoverMissingDownloaded();
      var downloading, downloads := RecoverDownloading();
      rows := Rows(running, downloaded, downloading, downloads);
    }
  }

  // ---- What recovery achieves -----------------------------------------------------------------

  /** The scan limits do not cut the first three listings. */
  ghost predicate WithinScans(w: World) {
    && |RunningJobs(w.jobs)| <= JOB_SCAN
    && |InState(w.videos, "DOWNLOADED")| <= VIDEO_SCAN
    && |InState(w.videos, "DOWNLOADING")| <= VIDEO_SCAN
  }

  /** Some queued download job names the video. */
  ghost predicate Awaited(jobs: J.Table, v: int) {
    exists id :: id in jobs && jobs[id].kind.Download? && jobs[id].status.Queued? && jobs[id].video == Some(v)
  }

  /** Nothing runs, every DOWNLOADED video is stored, every DOWNLOADING video waits for a job. */
  ghost predicate Sound(w: World) {
    && (forall id :: id in w.jobs ==> !w.jobs[id].status.Running?)
    && (forall v :: v in w.videos && w.videos[v].state == "DOWNLOADED" ==> Stored(w.disk, w.videos[v].path))
    && (forall v :: v in w.videos && w.videos[v].state == "DOWNLOADING" ==> v > 0 && Awaited(w.jobs, v))
  }

  lemma AllRunningRequeued(w: World, r: Rows, now: int)
    requires WithinScans(w) && Listing(r.running, RunningJobs(w.jobs), JOB_SCAN)
    ensures forall id :: id in w.jobs ==> !Requeue(w, r.running, now).jobs[id].status.Running?
  {
    FullListing(r.running, RunningJobs(w.jobs), JOB_SCAN);
  }

  lemma ClaimedIsAwaited(jobs: J.Table, rows: seq<int>, v: int)
    requires Claimed(jobs, rows, v) && (forall id :: id in rows ==> id in Downloads(jobs))
    requires forall id :: id in jobs ==> !jobs[id].status.Running?
    ensures Awaited(jobs, v)
  {
  }

  /** From any database and disk, when the scans reach all rows, recovery leaves the world sound. */
  lemma RecoveryRepairs(w: World, r: Rows, now: int)
    requires Listed(w, r, now) && WithinScans(w)
    ensures Sound(Recovered(w, r, now))
  {
    var w1 := Requeue(w, r.running, now);
    var w2 := RepairMissing(w1, r.downloaded);
    var w3 := Recovered(w, r, now);
    AllRunningRequeued(w, r, now);
    FullListing(r.downloaded, InState(w1.videos, "DOWNLOADED"), VIDEO_SCAN);
    assert InState(w2.videos, "DOWNLOADING") == InState(w.videos, "DOWNLOADING");
    FullListing(r.downloading, InState(w2.videos, "DOWNLOADING"), VIDEO_SCAN);
    forall v | v in w3.videos && w3.videos[v].state == "DOWNLOADED" ensures Stored(w3.disk, w3.videos[v].path) {
      if w2.videos[v].state == "DOWNLOADED" {
        assert v in InState(w1.videos, "DOWNLOADED");
      }
    }
    forall v | v in w3.videos && w3.videos[v].state == "DOWNLOADING" ensures v > 0 && Awaited(w3.jobs, v) {
      assert v in InState(w2.videos, "DOWNLOADING");
      ClaimedIsAwaited(w2.jobs, r.downloads, v);
    }
  }

  predicate NeedsRepair(w: World, v: int)
    requires v in w.videos
  {
    || w.videos[v].state == "DOWNLOADING"
    || (w.videos[v].state == "DOWNLOADED" && !Stored(w.disk, w.videos[v].path))
  }

  /** The video claims a file that is not there; only such videos lose their file records. */
  predicate FileLost(w: World, v: int) {
    v in w.videos && w.videos[v].state == "DOWNLOADED" && !Stored(w.disk, w.videos[v].path)
  }

  lemma RequeueKeepsDownloads(w: World, rows: seq<int>, now: int)
    ensures Downloads(Requeue(w, rows, now).jobs) == Downloads(w.jobs)
  {
    var a, b := Downloads(Requeue(w, rows, now).jobs), Downloads(w.jobs);
    forall id ensures id in a <==> id in b {
    }
  }

  /** Recovery touches only running jobs, DOWNLOADED videos without a file and DOWNLOADING
      videos; and when all download jobs are scanned, no video that a job still awaits. */
  lemma RecoverySparesTheRest(w: World, r: Rows, now: int)
    requires Listed(w, r, now)
    ensures var t := Recovered(w, r, now);
      && t.disk == w.disk && t.jobs.Keys == w.jobs.Keys && t.videos.Keys == w.videos.Keys
      && (forall id :: id in w.jobs && !w.jobs[id].status.Running? ==> t.jobs[id] == w.jobs[id])
      && (forall v :: v in w.videos && !NeedsRepair(w, v) ==> t.videos[v] == w.videos[v])
      && (forall f :: f in t.files ==> f in w.files && t.files[f] == w.files[f])
      && (forall f :: f in w.files && !FileLost(w, w.files[f]) ==> f in t.files)
    ensures |Downloads(w.jobs)| <= DOWNLOAD_SCAN ==>
      forall v, id :: v in w.videos && w.videos[v].state == "DOWNLOADING" && v > 0
        && id in w.jobs && w.jobs[id].kind.Download? && J.Active(w.jobs[id]) && w.jobs[id].video == Some(v)
        ==> Recovered(w, r, now).videos[v] == w.videos[v]
  {
    var w1 := Requeue(w, r.running, now);
    var w2 := RepairMissing(w1, r.downloaded);
    if |Downloads(w.jobs)| <= DOWNLOAD_SCAN {
      RequeueKeepsDownloads(w, r.running, now);
      FullListing(r.downloads, Downloads(w2.jobs), DOWNLOAD_SCAN);
      forall v, id | v in w.videos && w.videos[v].state == "DOWNLOADING" && v > 0
        && id in w.jobs && w.jobs[id].kind.Download? && J.Active(w.jobs[id]) && w.jobs[id].video == Some(v)
        ensures Recovered(w, r, now).videos[v] == w.videos[v]
      {
        assert id in Downloads(w2.jobs) && id in r.downloads;
        assert J.Active(w2.jobs[id]) && w2.jobs[id].video == Some(v);
        assert Claimed(w2.jobs, r.downloads, v);
      }
    }
  }

  /** A queued or running job among the rows names the video. */
  predicate NamedBy(jobs: J.Table, rows: seq<int>, v: int) {
    v > 0 && exists id :: id in rows && id in jobs && jobs[id].video == Some(v)
                && (jobs[id].status == J.Queued || jobs[id].status == J.Running)
  }

  lemma RequeueKeepsNamed(w: World, r: Rows, now: int, v: int)
    requires Listing(r.running, RunningJobs(w.jobs), JOB_SCAN)
    ensures Claimed(Requeue(w, r.running, now).jobs, r.downloads, v) <==> NamedBy(w.jobs, r.downloads, v)
  {
    var jobs := Requeue(w, r.running, now).jobs;
    forall id | id in w.jobs
      ensures J.Active(jobs[id]) <==> w.jobs[id].status == J.Queued || w.jobs[id].status == J.Running
      ensures jobs[id].video == w.jobs[id].video
    {
      assert id in r.running ==> id in RunningJobs(w.jobs);
    }
  }

  /**
     Exactly what becomes of each video: a DOWNLOADED one that is listed and whose file is missing or
     empty is NEW; a DOWNLOADING one that is listed and that no listed active job names is DOWNLOADED
     if its file is there and not empty, and NEW if not; the rest stay. No path changes.
   */
  lemma RecoveredVideo(w: World, r: Rows, now: int, v: int)
    requires Listed(w, r, now) && v in w.videos
    ensures v in Recovered(w, r, now).videos
    ensures var was, after := w.videos[v], Recovered(w, r, now).videos[v];
      var stored := was.path in w.disk && w.disk[was.path] > 0;
      && after.path == was.path
      && (if was.state == "DOWNLOADED" && v in r.downloaded && !stored then after.state == "NEW"
          else if was.state == "DOWNLOADING" && v in r.downloading && !NamedBy(w.jobs, r.downloads, v) then
            after.state == if stored then "DOWNLOADED" else "NEW"
          else after.state == was.state)
  {
    RequeueKeepsNamed(w, r, now, v);
    hide Claimed, NamedBy;
    var w2 := RepairMissing(Requeue(w, r.running, now), r.downloaded);
    assert v in r.downloaded ==> v in InState(w.videos, "DOWNLOADED");
    assert v in r.downloading ==> v in InState(w2.videos, "DOWNLOADING");
  }

  /** A queued or running download job for the video. */
  predicate Names(jobs: J.Table, id: int, v: int) {
    && v > 0 && id in jobs && jobs[id].kind == J.Download && jobs[id].video == Some(v)
    && (jobs[id].status == J.Queued || jobs[id].status == J.Running)
  }

  lemma NamedByAll(jobs: J.Table, rows: seq<int>, v: int)
    requires forall id :: id in rows <==> id in Downloads(jobs)
    ensures NamedBy(jobs, rows, v) <==> exists id :: Names(jobs, id, v)
  {
    if NamedBy(jobs, rows, v) {
      var id :| id in rows && id in jobs && jobs[id].video == Some(v)
        && (jobs[id].status == J.Queued || jobs[id].status == J.Running);
      assert Names(jobs, id, v);
    }
    if id :| Names(jobs, id, v) {
      assert id in rows;
    }
  }

  /** When the scans cover the rows this holds of every DOWNLOADED video and of every DOWNLOADING
      video that no queued or running download job names. */
  lemma RecoveredVideoOfAll(w: World, r: Rows, now: int, v: int)
    requires Listed(w, r, now) && WithinScans(w) && |Downloads(w.jobs)| <= DOWNLOAD_SCAN && v in w.videos
    ensures v in Recovered(w, r, now).videos
    ensures var was, after := w.videos[v].state, Recovered(w, r, now).videos[v].state;
      var stored := w.videos[v].path in w.disk && w.disk[w.videos[v].path] > 0;
      var named := exists id :: Names(w.jobs, id, v);
      && (was == "DOWNLOADED" ==> after == if stored then "DOWNLOADED" else "NEW")
      && (was == "DOWNLOADING" && !named ==> after == if stored then "DOWNLOADED" else "NEW")
      && (was == "DOWNLOADING" && named ==> after == "DOWNLOADING")
      && (was != "DOWNLOADED" && was != "DOWNLOADING" ==> after == was)
  {
    RecoveredVideo(w, r, now, v);
    var w1 := Requeue(w, r.running, now);
    var w2 := RepairMissing(w1, r.downloaded);
    FullListing(r.downloaded, InState(w1.videos, "DOWNLOADED"), VIDEO_SCAN);
    assert InState(w2.videos, "DOWNLOADING") == InState(w.videos, "DOWNLOADING");
    FullListing(r.downloading, InState(w2.videos, "DOWNLOADING"), VIDEO_SCAN);
    RequeueKeepsDownloads(w, r.running, now);
    FullListing(r.downloads, Downloads(w2.jobs), DOWNLOAD_SCAN);
    assert forall id :: id in r.downloads ==> id in Downloads(w.jobs);
    assert forall id :: id in Downloads(w.jobs) ==> id in r.downloads;
    NamedByAll(w.jobs, r.downloads, v);
  }

  /** Exactly the file records of listed DOWNLOADED videos without their file are gone, and exactly
      the listed running jobs are queued again, without their time stamps. */
  lemma RecoveredRows(w: World, r: Rows, now: int, f: int, id: int)
    requires Listed(w, r, now)
    ensures var t := Recovered(w, r, now);
      f in t.files <==> f in w.files && !(w.files[f] in r.downloaded && FileLost(w, w.files[f]))
    ensures f in Recovered(w, r, now).files ==> Recovered(w, r, now).files[f] == w.files[f]
    ensures id in w.jobs ==>
      id in Recovered(w, r, now).jobs
      && Recovered(w, r, now).jobs[id] == if id in r.running
           then w.jobs[id].(status := J.Queued, started := None, finished := None) else w.jobs[id]
  {
    if f in w.files {
      assert w.files[f] in r.downloaded ==> w.files[f] in InState(w.videos, "DOWNLOADED");
    }
  }

  /** Recovery of a sound world changes nothing, as long as all download jobs are scanned. */
  lemma RecoveryOfSoundChangesNothing(w: World, r: Rows, now: int)
    requires Listed(w, r, now) && Sound(w) && |Downloads(w.jobs)| <= DOWNLOAD_SCAN
    ensures Recovered(w, r, now) == w
  {
    var w1 := Requeue(w, r.running, now);
    forall id | id in w.jobs ensures w1.jobs[id] == w.jobs[id] {
      assert id in r.running ==> id in RunningJobs(w.jobs);
    }
    assert w1.jobs == w.jobs;
    var w2 := RepairMissing(w1, r.downloaded);
    forall v ensures !Missing(w1, r.downloaded, v) {
      assert v in r.downloaded ==> v in InState(w1.videos, "DOWNLOADED");
    }
    assert w2.videos == w.videos && w2.files == w.files;
    FullListing(r.downloads, Downloads(w2.jobs), DOWNLOAD_SCAN);
    forall v | v in r.downloading ensures Claimed(w2.jobs, r.downloads, v) {
      assert v in InState(w2.videos, "DOWNLOADING");
      var id :| id in w.jobs && w.jobs[id].kind.Download? && w.jobs[id].status.Queued? && w.jobs[id].video == Some(v);
      assert id in Downloads(w2.jobs);
    }
    assert Recovered(w, r, now).videos == w.videos;
  }

  /** A second recovery changes nothing. */
  lemma RecoveryIsIdempotent(w: World, r: Rows, now: int, again: Rows, later: int)
    requires Listed(w, r, now) && WithinScans(w) && |Downloads(w.jobs)| <= DOWNLOAD_SCAN
    requires Listed(Recovered(w, r, now), again, later)
    ensures Recovered(Recovered(w, r, now), again, later) == Recovered(w, r, now)
  {
    RecoveryRepairs(w, r, now);
    RequeueKeepsDownloads(w, r.running, now);
    RecoveryOfSoundChangesNothing(Recovered(w, r, now), again, later);
  }
}
