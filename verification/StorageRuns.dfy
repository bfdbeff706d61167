/**
 Downloads, one cleanup and one check job working on the same disk, database and cached
 totals. A step ends where the storage lock is released or the disk or the database is
 called. A worker is named by the path it downloads to.
 */
module StorageRuns {
  import opened Common
  import opened StorageCache

  type Path = string

  /** A thread that found the cache unset and is about to seed it. */
  datatype Seeding = Scanned(used: nat, files: nat) | Counted(used: nat, files: nat, rare: nat)

  datatype Cleanup =
    | NoCleanup
    | Preparing(seeding: Seeding)
    | Deleting(freed: nat, deleted: nat, rareGone: nat)

  datatype Check = NoCheck | Wrote(wasRare: bool, isRare: bool)

  datatype State = State(
    disk: map<Path, nat>,          // the files of the store and their sizes
    rare: set<int>,                // the videos the database calls OUT_OF_PRINT
    cache: Snapshot,
    seeding: map<Path, Seeding>,
    ready: set<Path>,              // past the seeding, no file on disk
    written: map<Path, nat>,       // file on disk, its delta not yet applied
    cleanup: Cleanup,
    check: Check,
    driftBytes: int,               // history: what faults have added to the cached bytes
    driftFiles: int)               // history: what faults have added to the cached count

  datatype Action =
    | FindsSet(p: Path)                        // ensureStorageSnapshotInitialized returns at once
    | Scan(p: Path, used: nat, files: nat)
    | CountRare(p: Path)
    | SeedCache(p: Path)
    | GiveUp(p: Path)                          // the download ends without a file
    | SetState(p: Path, id: int)               // a download, before or after its transfer, sets its video's state
    | Download(p: Path, size: nat)
    | RollBack(p: Path)                        // the file record cannot be saved, the file is removed
    | ApplyDownload(p: Path)
    | LoseDownload(p: Path)                    // the video's state cannot be set or the recount fails
    | CleanupScan(used: nat, files: nat)       // over the threshold
    | CleanupCount
    | CleanupSeed
    | Evict(p: Path, last: Option<int>, listedRare: bool)  // delete one candidate; last: the video lost its last record
    | EvictFails(p: Path, last: Option<int>)   // the file goes, a query after that fails
    | CleanupReached
    | CleanupMissed                            // short of the target, or the recount fails
    | CheckWrite(id: int, wasRare: bool, isRare: bool)     // wasRare: as the video was when it was listed
    | CheckMark

  predicate Resting(s: State, p: Path) {
    p !in s.seeding && p !in s.ready && p !in s.written
  }

  /** A finished scan is exact if the cache is still unset; otherwise other steps may have
      torn it, and nobody will use it for the cache. */
  ghost predicate ScanOk(s: State, used: nat, files: nat) {
    !s.cache.initialized ==> used == Total(s.disk) && files == |s.disk|
  }

  ghost predicate Enabled(s: State, a: Action) {
    match a
    case FindsSet(p) => Resting(s, p) && s.cache.initialized
    case Scan(p, used, files) => Resting(s, p) && ScanOk(s, used, files)
    case CountRare(p) => p in s.seeding && s.seeding[p].Scanned?
    case SeedCache(p) => p in s.seeding && s.seeding[p].Counted?
    case GiveUp(p) => p in s.ready
    case SetState(p, _) => p in s.ready || p in s.written
    case Download(p, _) => p in s.ready
    case RollBack(p) => p in s.written
    case ApplyDownload(p) => p in s.written
    case LoseDownload(p) => p in s.written
    case CleanupScan(used, files) => s.cleanup.NoCleanup? && ScanOk(s, used, files)
    case CleanupCount => s.cleanup.Preparing? && s.cleanup.seeding.Scanned?
    case CleanupSeed => s.cleanup.Preparing? && s.cleanup.seeding.Counted?
    case Evict(_, _, _) => s.cleanup.Deleting?
    case EvictFails(_, _) => s.cleanup.Deleting?
    case CleanupReached => s.cleanup.Deleting?
    case CleanupMissed => s.cleanup.Deleting?
    case CheckWrite(_, _, _) => s.check.NoCheck?
    case CheckMark => s.check.Wrote?
  }

  /** applyStorageDelta from a state; the floors at zero go into the drift. */
  ghost function Applied(s: State, d: Delta): State {
    var used := if s.cache.initialized then s.cache.usedBytes else Total(s.disk);
    var files := if s.cache.initialized then s.cache.fileCount else |s.disk|;
    s.(cache := ApplyDelta(s.cache, d, Total(s.disk), |s.disk|, |s.rare|),
       driftBytes := s.driftBytes + Cut(used + d.usedBytes),
       driftFiles := s.driftFiles + Cut(files + d.fileCount))
  }

  function Without(rare: set<int>, last: Option<int>): set<int> {
    if last.Some? then rare - {last.value} else rare
  }

  ghost function Apply(s: State, a: Action): State
    requires Enabled(s, a)
  {
    match a
    case FindsSet(p) => s.(ready := s.ready + {p})
    case Scan(p, used, files) => s.(seeding := s.seeding[p := Scanned(used, files)])
    case CountRare(p) =>
      if s.cache.initialized then s.(seeding := s.seeding - {p}, ready := s.ready + {p})
      else s.(seeding := s.seeding[p := Counted(s.seeding[p].used, s.seeding[p].files, |s.rare|)])
    case SeedCache(p) =>
      var c := s.seeding[p];
      s.(cache := Seed(s.cache, c.used, c.files, c.rare), seeding := s.seeding - {p}, ready := s.ready + {p})
    case GiveUp(p) => s.(ready := s.ready - {p})
    case SetState(_, id) => s.(rare := s.rare - {id})
    case Download(p, size) =>
      s.(disk := s.disk[p := size], ready := s.ready - {p}, written := s.written[p := size],
         driftBytes := s.driftBytes + (if p in s.disk then s.disk[p] else 0),
         driftFiles := s.driftFiles + (if p in s.disk then 1 else 0))
    case RollBack(p) =>
      s.(disk := s.disk - {p}, written := s.written - {p}, ready := s.ready + {p},
         driftBytes := s.driftBytes + (if p in s.disk then s.disk[p] else 0) - s.written[p],
         driftFiles := s.driftFiles + (if p in s.disk then 1 else 0) - 1)
    case ApplyDownload(p) =>
      Applied(s.(written := s.written - {p}), Delta(s.written[p], 1, 0))
    case LoseDownload(p) =>
      s.(written := s.written - {p}, driftBytes := s.driftBytes - s.written[p], driftFiles := s.driftFiles - 1)
    case CleanupScan(used, files) => s.(cleanup := Preparing(Scanned(used, files)))
    case CleanupCount =>
      var c := s.cleanup.seeding;
      if s.cache.initialized then s.(cleanup := Deleting(0, 0, 0))
      else s.(cleanup := Preparing(Counted(c.used, c.files, |s.rare|)))
    case CleanupSeed =>
      var c := s.cleanup.seeding;
      s.(cache := Seed(s.cache, c.used, c.files, c.rare), cleanup := Deleting(0, 0, 0))
    case Evict(p, last, listedRare) =>
      var c := s.cleanup;
      s.(disk := s.disk - {p},
         rare := Without(s.rare, last),
         cleanup := Deleting(c.freed + (if p in s.disk then s.disk[p] else 0), c.deleted + 1,
                             c.rareGone + if last.Some? && listedRare then 1 else 0),
         driftFiles := s.driftFiles - (if p in s.disk then 0 else 1))
    case EvictFails(p, last) =>
      s.(disk := s.disk - {p},
         rare := Without(s.rare, last),
         driftBytes := s.driftBytes + (if p in s.disk then s.disk[p] else 0),
         driftFiles := s.driftFiles + (if p in s.disk then 1 else 0))
    case CleanupReached =>
      var c := s.cleanup;
      Applied(s.(cleanup := NoCleanup), Delta(0 - c.freed, 0 - c.deleted, 0 - c.rareGone))
    case CleanupMissed =>
      s.(cleanup := NoCleanup,
         driftBytes := s.driftBytes + s.cleanup.freed, driftFiles := s.driftFiles + s.cleanup.deleted)
    case CheckWrite(id, wasRare, isRare) =>
      s.(rare := if isRare then s.rare + {id} else s.rare - {id}, check := Wrote(wasRare, isRare))
    case CheckMark =>
      s.(cache := MarkRare(s.cache, s.check.wasRare, s.check.isRare), check := NoCheck)
  }

  ghost predicate Init(s: State) {
    && s.cache == UNSET && s.seeding == map[] && s.ready == {} && s.written == map[]
    && s.cleanup.NoCleanup? && s.check.NoCheck? && s.driftBytes == 0 && s.driftFiles == 0
  }

  ghost predicate Ok(s: State, run: seq<Action>)
    decreases |run|
  {
    run == [] || (Enabled(s, run[0]) && Ok(Apply(s, run[0]), run[1..]))
  }

  ghost function Exec(s: State, run: seq<Action>): State
    requires Ok(s, run)
    decreases |run|
  {
    if run == [] then s else Exec(Apply(s, run[0]), run[1..])
  }

  // ---- The books balance, faults included ---------------------------------------------

  function FreedSoFar(c: Cleanup): nat {
    if c.Deleting? then c.freed else 0
  }

  function DeletedSoFar(c: Cleanup): nat {
    if c.Deleting? then c.deleted else 0
  }

  /** Cached totals plus the deltas on their way equal the disk plus the drift. */
  ghost predicate Balanced(s: State) {
    && s.cache.usedBytes + Total(s.written) - FreedSoFar(s.cleanup) == Total(s.disk) + s.driftBytes
    && s.cache.fileCount + |s.written| - DeletedSoFar(s.cleanup) == |s.disk| + s.driftFiles
  }

  /** Nobody changes the disk before the cache is set, so every scan in hand is exact. */
  ghost predicate SeedsExact(s: State) {
    !s.cache.initialized ==>
      && s.ready == {} && s.written == map[] && !s.cleanup.Deleting?
      && s.driftBytes == 0 && s.driftFiles == 0
      && (forall p :: p in s.seeding ==> s.seeding[p].used == Total(s.disk) && s.seeding[p].files == |s.disk|)
      && (s.cleanup.Preparing? ==> s.cleanup.seeding.used == Total(s.disk) && s.cleanup.seeding.files == |s.disk|)
  }

  ghost predicate Apartness(s: State) {
    && (forall p :: p in s.written ==> p !in s.ready && p !in s.seeding)
    && (forall p :: p in s.ready ==> p !in s.seeding)
  }

  ghost predicate Books(s: State) {
    SeedsExact(s) && Apartness(s) && (s.cache.initialized ==> Balanced(s))
  }

  lemma StepKeepsApart(s: State, a: Action)
    requires Apartness(s) && Enabled(s, a)
    ensures Apartness(Apply(s, a))
  {
  }

  lemma CacheStaysSet(s: State, a: Action)
    requires s.cache.initialized && Enabled(s, a)
    ensures Apply(s, a).cache.initialized
  {
  }

  lemma UnsetStepKeepsSeeds(s: State, a: Action)
    requires SeedsExact(s) && !s.cache.initialized && Enabled(s, a)
    ensures SeedsExact(Apply(s, a))
  {
  }

  lemma StepKeepsSeeds(s: State, a: Action)
    requires Books(s) && Enabled(s, a)
    ensures SeedsExact(Apply(s, a)) && Apartness(Apply(s, a))
  {
    hide Apartness, Apply, Enabled;
    StepKeepsApart(s, a);
    if s.cache.initialized {
      CacheStaysSet(s, a);
    } else {
      UnsetStepKeepsSeeds(s, a);
    }
  }

  lemma DownloadKeepsBalance(s: State, a: Action)
    requires Books(s) && s.cache.initialized && a.Download? && Enabled(s, a)
    ensures Balanced(Apply(s, a))
  {
    TotalWith(s.disk, a.p, a.size);
    SizeWith(s.disk, a.p, a.size);
    TotalWith(s.written, a.p, a.size);
    SizeWith(s.written, a.p, a.size);
  }

  /** What removing a file does to the disk, whether or not it is there. */
  lemma DiskWithout(disk: map<Path, nat>, p: Path)
    ensures Total(disk - {p}) == Total(disk) - (if p in disk then disk[p] else 0)
    ensures |disk - {p}| == |disk| - (if p in disk then 1 else 0)
  {
    if p in disk {
      TotalWithout(disk, p);
      SizeWithout(disk, p);
    } else {
      assert disk - {p} == disk;
    }
  }

  lemma RollBackKeepsBalance(s: State, a: Action)
    requires Balanced(s) && s.cache.initialized && a.RollBack? && Enabled(s, a)
    ensures Balanced(Apply(s, a))
  {
    DiskWithout(s.disk, a.p);
    DiskWithout(s.written, a.p);
  }

  lemma EvictionKeepsBalance(s: State, a: Action)
    requires Balanced(s) && s.cache.initialized && (a.Evict? || a.EvictFails?) && Enabled(s, a)
    ensures Balanced(Apply(s, a))
  {
    DiskWithout(s.disk, a.p);
  }

  lemma AppliedDownloadKeepsBalance(s: State, p: Path)
    requires s.cache.initialized && Balanced(s) && p in s.written
    ensures Balanced(Apply(s, ApplyDownload(p)))
  {
    hide Applied, Total;
    DiskWithout(s.written, p);
    AppliedReads(s.(written := s.written - {p}), Delta(s.written[p], 1, 0));
  }

  lemma ReachedCleanupKeepsBalance(s: State)
    requires s.cache.initialized && Balanced(s) && s.cleanup.Deleting?
    ensures Balanced(Apply(s, CleanupReached))
  {
    hide Applied, Total;
    var c := s.cleanup;
    AppliedReads(s.(cleanup := NoCleanup), Delta(0 - c.freed, 0 - c.deleted, 0 - c.rareGone));
  }

  lemma LossKeepsBalance(s: State, p: Path)
    requires s.cache.initialized && Balanced(s) && p in s.written
    ensures Balanced(Apply(s, LoseDownload(p)))
  {
    hide Total;
    DiskWithout(s.written, p);
  }

  lemma MissedCleanupKeepsBalance(s: State)
    requires s.cache.initialized && Balanced(s) && s.cleanup.Deleting?
    ensures Balanced(Apply(s, CleanupMissed))
  {
    hide Total;
  }

  predicate MovesTotals(a: Action) {
    || a.Download? || a.RollBack? || a.ApplyDownload? || a.LoseDownload?
    || a.Evict? || a.EvictFails? || a.CleanupReached? || a.CleanupMissed?
  }

  /** The other steps leave disk, totals, deltas and drift alone. */
  lemma OtherStepsLeave(s: State, a: Action)
    requires s.cache.initialized && Enabled(s, a) && !MovesTotals(a)
    ensures var t := Apply(s, a);
      && t.disk == s.disk && t.written == s.written && t.driftBytes == s.driftBytes && t.driftFiles == s.driftFiles
      && t.cache.usedBytes == s.cache.usedBytes && t.cache.fileCount == s.cache.fileCount
      && FreedSoFar(t.cleanup) == FreedSoFar(s.cleanup) && DeletedSoFar(t.cleanup) == DeletedSoFar(s.cleanup)
  {
    hide Applied, Total;
  }

  lemma InitializedStepKeepsBalance(s: State, a: Action)
    requires s.cache.initialized && Balanced(s) && Books(s) && Enabled(s, a)
    ensures Balanced(Apply(s, a))
  {
    if MovesTotals(a) {
      match a
      case Download(_, _) => DownloadKeepsBalance(s, a);
      case RollBack(_) => RollBackKeepsBalance(s, a);
      case ApplyDownload(p) => AppliedDownloadKeepsBalance(s, p);
      case LoseDownload(p) => LossKeepsBalance(s, p);
      case Evict(_, _, _) => EvictionKeepsBalance(s, a);
      case EvictFails(_, _) => EvictionKeepsBalance(s, a);
      case CleanupReached => ReachedCleanupKeepsBalance(s);
      case CleanupMissed => MissedCleanupKeepsBalance(s);
    } else {
      hide Apply;
      OtherStepsLeave(s, a);
    }
  }

  /** A delta moves the cached totals by what it says, or else the drift by the difference. */
  lemma AppliedReads(s: State, d: Delta)
    requires s.cache.initialized
    ensures var t := Applied(s, d);
      && t.cache.usedBytes - t.driftBytes == s.cache.usedBytes + d.usedBytes - s.driftBytes
      && t.cache.fileCount - t.driftFiles == s.cache.fileCount + d.fileCount - s.driftFiles
      && t.disk == s.disk && t.written == s.written && t.cleanup == s.cleanup
  {
    hide Total;
  }

  lemma SeedingBalances(s: State, a: Action)
    requires Books(s) && !s.cache.initialized && Enabled(s, a) && Apply(s, a).cache.initialized
    ensures Balanced(Apply(s, a))
  {
    assert Total(s.written) == 0 && |s.written| == 0;
  }

  /** The books stay balanced through every step, faulty or not. */
  lemma StepKeepsBooks(s: State, a: Action)
    requires Books(s) && Enabled(s, a)
    ensures Books(Apply(s, a))
  {
    StepKeepsSeeds(s, a);
    if !s.cache.initialized {
      if Apply(s, a).cache.initialized {
        SeedingBalances(s, a);
      }
    } else {
      InitializedStepKeepsBalance(s, a);
    }
  }

  lemma {:induction false} RunKeepsBooks(s: State, run: seq<Action>)
    requires Books(s) && Ok(s, run)
    ensures Books(Exec(s, run))
    decreases |run|
  {
    if run != [] {
      StepKeepsBooks(s, run[0]);
      RunKeepsBooks(Apply(s, run[0]), run[1..]);
    }
  }

  /** No delta is on its way. */
  predicate Settled(s: State) {
    s.written == map[] && !s.cleanup.Deleting?
  }

  /** Over every run the settled cache is off from the disk by exactly the drift, so it is
      right if and only if the faults of the run cancel. */
  lemma SettledCacheIsOffByDrift(s: State, run: seq<Action>)
    requires Init(s) && Ok(s, run) && Exec(s, run).cache.initialized && Settled(Exec(s, run))
    ensures var t := Exec(s, run);
      && t.cache.usedBytes == Total(t.disk) + t.driftBytes
      && t.cache.fileCount == |t.disk| + t.driftFiles
      && (t.cache.usedBytes == Total(t.disk) <==> t.driftBytes == 0)
      && (t.cache.fileCount == |t.disk| <==> t.driftFiles == 0)
  {
    RunKeepsBooks(s, run);
    var t := Exec(s, run);
    assert Total(t.written) == 0 && |t.written| == 0;
  }

  // ---- Without faults --------------------------------------------------------------------

  /**
     The guard of each step: downloads go to free paths and their deltas are not lost; a cleanup
     evicts existing files, none of them so new that its delta is still on its way, loses none
     to a failing query, and reaches its target or frees nothing.
   */
  predicate Faultless(s: State, a: Action) {
    match a
    case Download(p, _) => p !in s.disk
    case LoseDownload(_) => false
    case Evict(p, _, _) => p in s.disk && p !in s.written
    case EvictFails(p, _) => p !in s.disk
    case CleanupMissed => s.cleanup.Deleting? && s.cleanup.freed == 0 && s.cleanup.deleted == 0
    case _ => true
  }

  ghost predicate FaultlessRun(s: State, run: seq<Action>)
    requires Ok(s, run)
    decreases |run|
  {
    run == [] || (Faultless(s, run[0]) && FaultlessRun(Apply(s, run[0]), run[1..]))
  }

  /** A file whose delta is on its way is on disk with the size the delta says. */
  ghost predicate WrittenOnDisk(s: State) {
    forall p :: p in s.written ==> p in s.disk && s.disk[p] == s.written[p]
  }

  ghost predicate Exact(s: State) {
    && Books(s) && WrittenOnDisk(s)
    && s.driftBytes == 0 && s.driftFiles == 0
  }

  /** In an exact state no delta takes the bytes or the files to their floors at zero. */
  lemma FloorsNeverReached(s: State)
    requires Exact(s) && s.cache.initialized
    ensures s.cache.usedBytes >= FreedSoFar(s.cleanup)
    ensures s.cache.fileCount >= DeletedSoFar(s.cleanup)
  {
    TotalOfPart(s.written, s.disk);
  }

  /** The drift of an exact state stays zero exactly when the step's guard holds, except that
      an eviction may take a file whose delta is still on its way. */
  lemma StepKeepsDrift(s: State, a: Action)
    requires Exact(s) && Enabled(s, a)
    ensures (Apply(s, a).driftBytes == 0 && Apply(s, a).driftFiles == 0)
      <==> Faultless(s, a) || (a.Evict? && a.p in s.disk)
  {
    hide Total, SeedsExact, Apartness;
    if a.ApplyDownload? || a.CleanupReached? {
      DriftOfDelta(s, a);
    } else if a.RollBack? {
      assert a.p in s.disk && s.disk[a.p] == s.written[a.p];
    }
  }

  lemma DriftOfDelta(s: State, a: Action)
    requires Exact(s) && Enabled(s, a) && (a.ApplyDownload? || a.CleanupReached?)
    ensures Apply(s, a).driftBytes == 0 && Apply(s, a).driftFiles == 0
  {
    if s.cache.initialized {
      FloorsNeverReached(s);
    }
  }

  lemma StepKeepsWritten(s: State, a: Action)
    requires WrittenOnDisk(s) && Apartness(s) && Enabled(s, a) && Faultless(s, a)
    ensures WrittenOnDisk(Apply(s, a))
  {
  }

  /** From an exact state, the state after a step is exact if and only if its guard held. */
  lemma StepIsExact(s: State, a: Action)
    requires Exact(s) && Enabled(s, a)
    ensures Exact(Apply(s, a)) <==> Faultless(s, a)
  {
    hide Apply, Enabled, SeedsExact, Balanced;
    StepKeepsBooks(s, a);
    StepKeepsDrift(s, a);
    if Faultless(s, a) {
      StepKeepsWritten(s, a);
    } else if a.Evict? && a.p in s.disk {
      EarlyEvictionShows(s, a);
    }
  }

  lemma EarlyEvictionShows(s: State, a: Action)
    requires Enabled(s, a) && a.Evict? && a.p in s.written
    ensures !WrittenOnDisk(Apply(s, a))
  {
    assert a.p in Apply(s, a).written;
  }

  ghost predicate ExactThroughout(s: State, run: seq<Action>)
    requires Ok(s, run)
    decreases |run|
  {
    Exact(s) && (run == [] || ExactThroughout(Apply(s, run[0]), run[1..]))
  }

  /** A run from an exact state stays exact if and only if every guard holds when its step is taken. */
  lemma {:induction false} RunIsExact(s: State, run: seq<Action>)
    requires Exact(s) && Ok(s, run)
    ensures ExactThroughout(s, run) <==> FaultlessRun(s, run)
    ensures FaultlessRun(s, run) ==> Exact(Exec(s, run))
    decreases |run|
  {
    hide Exact, Faultless, Apply, Enabled;
    if run != [] {
      StepIsExact(s, run[0]);
      if Faultless(s, run[0]) {
        RunIsExact(Apply(s, run[0]), run[1..]);
      } else {
        NotExactThroughout(Apply(s, run[0]), run[1..]);
      }
    }
  }

  lemma NotExactThroughout(s: State, run: seq<Action>)
    requires Ok(s, run) && !Exact(s)
    ensures !ExactThroughout(s, run)
  {
  }

  // ---- What faults cost ------------------------------------------------------------------

  /** A download over an existing file counts it twice. */
  lemma OverwriteCountsTwice(s: State, p: Path, size: nat)
    requires Exact(s) && s.cache.initialized && Settled(s) && p in s.ready && p in s.disk
    ensures Enabled(s, Download(p, size)) && Enabled(Apply(s, Download(p, size)), ApplyDownload(p))
    ensures var t := Apply(Apply(s, Download(p, size)), ApplyDownload(p));
      Settled(t) && t.cache.usedBytes == Total(t.disk) + s.disk[p] && t.cache.fileCount == |t.disk| + 1
  {
    TotalWith(s.disk, p, size);
    SizeWith(s.disk, p, size);
    assert map[p := size] - {p} == map[];
    assert Total(s.written) == 0 && |s.written| == 0;
  }

  /** A cleanup that misses its target leaves the totals off by all that it deleted. */
  lemma MissedCleanupIsNotReported(s: State)
    requires Exact(s) && s.cache.initialized && s.written == map[] && s.cleanup.Deleting?
    ensures var t := Apply(s, CleanupMissed);
      && Settled(t)
      && t.cache.usedBytes == Total(t.disk) + s.cleanup.freed
      && t.cache.fileCount == |t.disk| + s.cleanup.deleted
  {
    assert Total(s.written) == 0 && |s.written| == 0;
  }

  /** However seeding, downloads and cleanups interleave, once set the cached totals and the
      deltas on their way are together exactly the disk. */
  lemma StorageIsConserved(s: State, run: seq<Action>)
    requires Init(s) && Ok(s, run) && FaultlessRun(s, run) && Exec(s, run).cache.initialized
    ensures var t := Exec(s, run);
      && t.cache.usedBytes + Total(t.written) - FreedSoFar(t.cleanup) == Total(t.disk)
      && t.cache.fileCount + |t.written| - DeletedSoFar(t.cleanup) == |t.disk|
      && t.cache.usedBytes >= FreedSoFar(t.cleanup) && t.cache.fileCount >= DeletedSoFar(t.cleanup)
  {
    RunIsExact(s, run);
    FloorsNeverReached(Exec(s, run));
  }

  // ---- Reaching a state --------------------------------------------------------------------

  lemma {:induction false} Join(s: State, first: seq<Action>, second: seq<Action>)
    requires Ok(s, first) && Ok(Exec(s, first), second)
    ensures Ok(s, first + second) && Exec(s, first + second) == Exec(Exec(s, first), second)
    decreases |first|
  {
    if first == [] {
      assert first + second == second;
    } else {
      Join(Apply(s, first[0]), first[1..], second);
      assert (first + second)[1..] == first[1..] + second;
    }
  }

  /** The run continues from where it has come. */
  lemma Continues(s: State, run: seq<Action>, a: Action)
    requires Ok(s, run) && Enabled(Exec(s, run), a)
    ensures Ok(s, run + [a]) && Exec(s, run + [a]) == Apply(Exec(s, run), a)
  {
    assert [a][1..] == [];
    assert Ok(Exec(s, run), [a]);
    Join(s, run, [a]);
  }

  ghost predicate Reaches(s: State, t: State) {
    exists run :: Ok(s, run) && Exec(s, run) == t
  }

  lemma Then(s: State, t: State, a: Action)
    requires Reaches(s, t) && Enabled(t, a)
    ensures Reaches(s, Apply(t, a))
  {
    var run :| Ok(s, run) && Exec(s, run) == t;
    Continues(s, run, a);
  }

  lemma Here(s: State)
    ensures Reaches(s, s)
  {
    assert Ok(s, []) && Exec(s, []) == s;
  }

  /** Whatever others have done to the cache meanwhile, the seeding of a download leads on to its
      transfer. */
  lemma SeedingLeadsOn(s: State, p: Path) returns (t: State)
    requires Apartness(s) && p in s.seeding
    ensures Reaches(s, t) && p in t.ready && p !in t.seeding && p !in t.written
    ensures t.cache.initialized && t.disk == s.disk
  {
    hide Reaches, Total;
    Here(s);
    t := s;
    if s.seeding[p].Scanned? {
      Then(s, t, CountRare(p));
      t := Apply(t, CountRare(p));
    }
    if p in t.seeding {
      Then(s, t, SeedCache(p));
      t := Apply(t, SeedCache(p));
    }
  }

  /** And then it can write its file and report it. */
  lemma DownloadGoesOn(s: State, p: Path, size: nat) returns (t: State)
    requires Apartness(s) && (p in s.seeding || (p in s.ready && s.cache.initialized))
    ensures Reaches(s, t) && Resting(t, p) && t.cache.initialized && t.disk == s.disk[p := size]
  {
    hide Reaches, Total, Applied;
    if p in s.seeding {
      t := SeedingLeadsOn(s, p);
    } else {
      Here(s);
      t := s;
    }
    Then(s, t, Download(p, size));
    t := Apply(t, Download(p, size));
    AppliedKeepsPlaces(t.(written := t.written - {p}), Delta(t.written[p], 1, 0));
    Then(s, t, ApplyDownload(p));
    t := Apply(t, ApplyDownload(p));
  }

  lemma AppliedKeepsPlaces(s: State, d: Delta)
    ensures var t := Applied(s, d);
      t.disk == s.disk && t.seeding == s.seeding && t.ready == s.ready && t.written == s.written && t.cache.initialized
  {
    hide Total;
  }

  /** The state in which nobody is seeding or about to download. */
  function Plain(disk: map<Path, nat>, rare: set<int>, cache: Snapshot, written: map<Path, nat>,
                 cleanup: Cleanup, check: Check): State {
    State(disk, rare, cache, map[], {}, written, cleanup, check, 0, 0)
  }
}
