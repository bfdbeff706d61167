/**
 The job table, the workers that claim from it and the restarts of the process. Each query is
 one step. Enqueue's look-up and insert are taken as one step, which the program does not
 enforce.
 */
module JobTable {
  import opened Common
  import opened Paging

  datatype Kind = Fetch | Download | Check | Cleanup | Discover

  datatype Status = Queued | Running | Success | Failed

  /** video is the payload's video_id, if there is a readable one. */
  datatype Job = Job(kind: Kind, status: Status, video: Option<int>, notBefore: Option<int>,
                     started: Option<int>, finished: Option<int>)

  type Table = map<int, Job>

  predicate Active(j: Job) {
    j.status.Queued? || j.status.Running?
  }

  predicate Names(video: Option<int>) {
    video.Some? && video.value > 0
  }

  /** hasActiveJob: an active job of the kind; for a download that names a video, of that video. */
  predicate HasActive(t: Table, kind: Kind, video: Option<int>) {
    exists id :: id in t && Active(t[id]) && t[id].kind == kind
      && (kind.Download? && Names(video) ==> t[id].video == video)
  }

  function NewJob(kind: Kind, status: Status, video: Option<int>, notBefore: Option<int>): Job {
    Job(kind, status, video, notBefore, None, None)
  }

  /** FetchQueued on one row. */
  function Claimed(j: Job, now: int): Job {
    j.(status := Running, started := Some(now))
  }

  /** UpdateStatus on one row. */
  function Updated(j: Job, status: Status, now: int): Job {
    j.(status := status,
       started := if status.Queued? then None else j.started,
       finished := if status.Queued? then None
                   else if status.Success? || status.Failed? then Some(now) else j.finished)
  }

  predicate Claimable(j: Job, now: int) {
    j.status.Queued? && (j.notBefore.None? || j.notBefore.value <= now)
  }

  function ClaimableIds(t: Table, now: int): set<int> {
    set id | id in t && Claimable(t[id], now)
  }

  /** The job is queued and its time has come. */
  predicate Waits(t: Table, id: int, now: int) {
    && id in t && t[id].status == Queued
    && (t[id].notBefore == None || t[id].notBefore.value <= now)
  }

  lemma HasActiveRow(t: Table, kind: Kind, video: Option<int>)
    ensures HasActive(t, kind, video) <==>
      (exists j :: j in t && t[j].kind == kind && (t[j].status == Queued || t[j].status == Running)
         && (kind == Download && video.Some? && video.value > 0 ==> t[j].video == video))
  {
  }

  /** The first claimable jobs: all of them, or as many as the limit, none with a later id. */
  lemma FirstClaimable(t: Table, now: int, limit: nat)
    ensures var ids := Take(Ascending(ClaimableIds(t, now)), limit);
      && (forall id :: id in ids ==> Waits(t, id, now))
      && forall id :: Waits(t, id, now) ==>
           id in ids || (|ids| == limit && forall earlier :: earlier in ids ==> earlier < id)
  {
    var all := Ascending(ClaimableIds(t, now));
    AscendingExact(ClaimableIds(t, now));
    forall id | id in Take(all, limit) ensures Waits(t, id, now) {
      assert id in all;
    }
    forall id | Waits(t, id, now)
      ensures id in Take(all, limit) || (|all| > limit && forall earlier :: earlier in all[..limit] ==> earlier < id)
    {
      assert id in all;
      var i :| 0 <= i < |all| && all[i] == id;
    }
  }

  // ---- The repository ---------------------------------------------------------------------

  class Repo {
    var jobs: Table
    var nextID: int

    constructor ()
      ensures jobs == map[] && nextID == 1
    {
      jobs, nextID := map[], 1;
    }

    /** None is ErrJobAlreadyActive. */
    method Enqueue(kind: Kind, status: Status, video: Option<int>, notBefore: Option<int>) returns (id: Option<int>)
      modifies this
      ensures id.None? <==>
        (&& (status == Queued || status == Running)
         && exists j :: j in old(jobs) && old(jobs)[j].kind == kind
              && (old(jobs)[j].status == Queued || old(jobs)[j].status == Running)
              && (kind == Download && video.Some? && video.value > 0 ==> old(jobs)[j].video == video))
      ensures id.None? ==> jobs == old(jobs) && nextID == old(nextID)
      ensures id.Some? ==> id.value == old(nextID) && nextID == old(nextID) + 1
      ensures id.Some? ==> jobs == old(jobs)[id.value := Job(kind, status, video, notBefore, None, None)]
    {
      HasActiveRow(jobs, kind, video);
      if (status.Queued? || status.Running?) && HasActive(jobs, kind, video) {
        return None;
      }
      jobs := jobs[nextID := NewJob(kind, status, video, notBefore)];
      id := Some(nextID);
      nextID := nextID + 1;
    }

    /** Claims the first claimable jobs in the order of their ids. */
    method FetchQueued(limit: int, now: int) returns (ids: seq<int>)
      modifies this`jobs
      ensures ids == Take(Ascending(ClaimableIds(old(jobs), now)), if limit <= 0 then 10 else limit)
      ensures forall id :: id in ids ==> Waits(old(jobs), id, now)
      ensures forall id :: Waits(old(jobs), id, now) ==>
        id in ids || (|ids| == (if limit <= 0 then 10 else limit) && forall earlier :: earlier in ids ==> earlier < id)
      ensures jobs.Keys == old(jobs).Keys
      ensures forall id :: id in jobs ==>
        jobs[id] == if id in ids then old(jobs)[id].(status := Running, started := Some(now)) else old(jobs)[id]
    {
      FirstClaimable(jobs, now, if limit <= 0 then 10 else limit);
      var eligible := ClaimableIds(jobs, now);
      ids := FirstOf(eligible, if limit <= 0 then 10 else limit);
      AscendingExact(eligible);
      forall id | id in ids ensures id in jobs {
        assert id in Ascending(eligible);
      }
      jobs := map id | id in jobs :: if id in ids then Claimed(jobs[id], now) else jobs[id];
    }

    /** An unknown id updates nothing. */
    method UpdateStatus(id: int, status: Status, now: int)
      modifies this`jobs
      ensures id !in old(jobs) ==> jobs == old(jobs)
      ensures id in old(jobs) && status == Queued ==>
        jobs == old(jobs)[id := old(jobs)[id].(status := Queued, started := None, finished := None)]
      ensures id in old(jobs) && status == Running ==> jobs == old(jobs)[id := old(jobs)[id].(status := Running)]
      ensures id in old(jobs) && (status == Success || status == Failed) ==>
        jobs == old(jobs)[id := old(jobs)[id].(status := status, finished := Some(now))]
    {
      if id in jobs {
        jobs := jobs[id := Updated(jobs[id], status, now)];
      }
    }
  }

  // ---- Runs of the system --------------------------------------------------------------------

  datatype State = State(
    jobs: Table,
    nextID: int,
    now: int,
    up: bool,                  // workers may run; otherwise startup recovery may
    workers: map<int, int>)    // the job each busy worker is handling

  datatype Action =
    | Tick(now: int)
    | Enqueue(kind: Kind, video: Option<int>, notBefore: Option<int>)
    | Claim(worker: int, id: int)      // any claimable job: rows locked by others are skipped
    | Finish(worker: int, ok: bool)
    | LoseFinish(worker: int)          // the final update fails and is only logged
    | Restart                          // the process ends, its workers with it
    | Requeue(id: int)                 // startup recovery, one running job
    | StartWorkers

  predicate Enabled(s: State, a: Action) {
    match a
    case Tick(now) => now >= s.now
    case Enqueue(kind, video, _) => !HasActive(s.jobs, kind, video)
    case Claim(w, id) => s.up && w !in s.workers && id in s.jobs && Claimable(s.jobs[id], s.now)
    case Finish(w, _) => w in s.workers && s.workers[w] in s.jobs
    case LoseFinish(w) => w in s.workers
    case Restart => true
    case Requeue(id) => !s.up && id in s.jobs && s.jobs[id].status.Running?
    case StartWorkers => !s.up
  }

  function Apply(s: State, a: Action): State
    requires Enabled(s, a)
  {
    match a
    case Tick(now) => s.(now := now)
    case Enqueue(kind, video, notBefore) =>
      s.(jobs := s.jobs[s.nextID := NewJob(kind, Queued, video, notBefore)], nextID := s.nextID + 1)
    case Claim(w, id) =>
      s.(jobs := s.jobs[id := Claimed(s.jobs[id], s.now)], workers := s.workers[w := id])
    case Finish(w, ok) =>
      var id := s.workers[w];
      s.(jobs := s.jobs[id := Updated(s.jobs[id], if ok then Success else Failed, s.now)], workers := s.workers - {w})
    case LoseFinish(w) => s.(workers := s.workers - {w})
    case Restart => s.(up := false, workers := map[])
    case Requeue(id) => s.(jobs := s.jobs[id := Updated(s.jobs[id], Queued, s.now)])
    case StartWorkers => s.(up := true)
  }

  predicate Ok(s: State, run: seq<Action>)
    decreases |run|
  {
    run == [] || (Enabled(s, run[0]) && Ok(Apply(s, run[0]), run[1..]))
  }

  function Exec(s: State, run: seq<Action>): State
    requires Ok(s, run)
    decreases |run|
  {
    if run == [] then s else Exec(Apply(s, run[0]), run[1..])
  }

  predicate Init(s: State) {
    s.jobs == map[] && s.workers == map[] && !s.up
  }

  // ---- Invariants ------------------------------------------------------------------------------

  /** queued: never started; running: started, not finished; ended: started and finished. */
  predicate TimesMatch(j: Job) {
    && (j.started.Some? <==> !j.status.Queued?)
    && (j.finished.Some? <==> j.status.Success? || j.status.Failed?)
  }

  /** The two may not be active together: the same kind and, for downloads, the same video or
      both without one. */
  predicate Rivals(a: Job, b: Job) {
    && a.kind == b.kind
    && (a.kind.Download? ==> (a.video == b.video && Names(a.video)) || (!Names(a.video) && !Names(b.video)))
  }

  ghost predicate NoRivals(t: Table) {
    forall i, j :: i in t && j in t && i != j && Active(t[i]) && Active(t[j]) ==> !Rivals(t[i], t[j])
  }

  /** Each busy worker has a running job of its own. */
  ghost predicate OwnJobs(s: State) {
    && (forall w :: w in s.workers ==> s.workers[w] in s.jobs && s.jobs[s.workers[w]].status.Running?)
    && (forall v, w :: v in s.workers && w in s.workers && v != w ==> s.workers[v] != s.workers[w])
    && (!s.up ==> s.workers == map[])
  }

  ghost predicate Inv(s: State) {
    && (forall id :: id in s.jobs ==> id < s.nextID && TimesMatch(s.jobs[id]))
    && NoRivals(s.jobs)
    && OwnJobs(s)
  }

  lemma EnqueueKeepsInv(s: State, a: Action)
    requires Inv(s) && a.Enqueue? && Enabled(s, a)
    ensures Inv(Apply(s, a))
  {
    var t := Apply(s, a).jobs;
    forall i | i in s.jobs && Active(s.jobs[i])
      ensures !Rivals(s.jobs[i], t[s.nextID]) && !Rivals(t[s.nextID], s.jobs[i])
    {
    }
  }

  lemma ClaimKeepsInv(s: State, a: Action)
    requires Inv(s) && a.Claim? && Enabled(s, a)
    ensures Inv(Apply(s, a))
  {
    var t := Apply(s, a).jobs;
    forall i, j | i in t && j in t && i != j && Active(t[i]) && Active(t[j]) ensures !Rivals(t[i], t[j]) {
      assert !Rivals(s.jobs[i], s.jobs[j]);
    }
  }

  lemma UpdateKeepsInv(s: State, a: Action)
    requires Inv(s) && (a.Finish? || a.Requeue?) && Enabled(s, a)
    ensures Inv(Apply(s, a))
  {
    var t := Apply(s, a).jobs;
    forall i, j | i in t && j in t && i != j && Active(t[i]) && Active(t[j]) ensures !Rivals(t[i], t[j]) {
      assert Active(s.jobs[i]) && Active(s.jobs[j]);
      assert !Rivals(s.jobs[i], s.jobs[j]);
    }
  }

  lemma StepKeepsInv(s: State, a: Action)
    requires Inv(s) && Enabled(s, a)
    ensures Inv(Apply(s, a))
  {
    match a
    case Enqueue(_, _, _) => EnqueueKeepsInv(s, a);
    case Claim(_, _) => ClaimKeepsInv(s, a);
    case Finish(_, _) => UpdateKeepsInv(s, a);
    case Requeue(_) => UpdateKeepsInv(s, a);
    case _ =>
  }

  lemma {:induction false} RunKeepsInv(s: State, run: seq<Action>)
    requires Inv(s) && Ok(s, run)
    ensures Inv(Exec(s, run))
    ensures Exec(s, run).nextID >= s.nextID
    decreases |run|
  {
    if run != [] {
      StepKeepsInv(s, run[0]);
      RunKeepsInv(Apply(s, run[0]), run[1..]);
    }
  }

  /** The worker is inside handleDownload for the video. */
  predicate Downloading(s: State, worker: int, video: int) {
    && worker in s.workers && s.workers[worker] in s.jobs
    && s.jobs[s.workers[worker]].kind.Download?
    && s.jobs[s.workers[worker]].video == Some(video) && video > 0
  }

  /** Over every run, with restarts, recoveries and lost updates, no two workers are ever
      downloading the same video. */
  lemma DownloadIsExclusive(s: State, run: seq<Action>, v: int, w: int, video: int)
    requires Init(s) && Ok(s, run)
    requires Downloading(Exec(s, run), v, video) && Downloading(Exec(s, run), w, video)
    ensures v == w
  {
    RunKeepsInv(s, run);
    var t := Exec(s, run);
    if v != w {
      assert Rivals(t.jobs[t.workers[v]], t.jobs[t.workers[w]]);
    }
  }

  /** Over every run at most one job of each kind other than download is active, and the time
      stamps of every job match its status. */
  lemma OneActivePerKind(s: State, run: seq<Action>, i: int, j: int)
    requires Init(s) && Ok(s, run) && i in Exec(s, run).jobs && j in Exec(s, run).jobs
    ensures TimesMatch(Exec(s, run).jobs[i])
    ensures var t := Exec(s, run).jobs;
      Active(t[i]) && Active(t[j]) && t[i].kind == t[j].kind && !t[i].kind.Download? ==> i == j
  {
    RunKeepsInv(s, run);
    var t := Exec(s, run).jobs;
    if t[i].kind == t[j].kind && !t[i].kind.Download? {
      assert Rivals(t[i], t[j]);
    }
  }

  predicate Ended(j: Job) {
    j.status.Success? || j.status.Failed?
  }

  /** An ended job never changes again, and no job ever disappears or changes its kind or video. */
  lemma {:induction false} EndedStays(s: State, run: seq<Action>, id: int)
    requires Inv(s) && Ok(s, run) && id in s.jobs
    ensures id in Exec(s, run).jobs
    ensures Ended(s.jobs[id]) ==> Exec(s, run).jobs[id] == s.jobs[id]
    ensures Exec(s, run).jobs[id].kind == s.jobs[id].kind && Exec(s, run).jobs[id].video == s.jobs[id].video
    decreases |run|
  {
    if run != [] {
      StepKeepsInv(s, run[0]);
      EndedStays(Apply(s, run[0]), run[1..], id);
    }
  }
}
