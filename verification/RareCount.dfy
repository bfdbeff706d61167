/**
 The cached count of rare videos over the runs of StorageRuns: exactly when it stays right, or is
 marked for a recount. A cleanup reports what its listing said of a video, and a check marks the
 cache by comparing with its own listing; by the time of the write either may be out of date.
 */
module RareCount {
  import opened Common
  import opened StorageCache
  import opened StorageRuns

  /** The check job has changed the database and not yet marked the cache. */
  predicate MarkDue(s: State) {
    s.check.Wrote? && s.check.wasRare != s.check.isRare
  }

  /** A recount is or will be asked for, so no count needs to be right. */
  predicate Excused(s: State) {
    s.cache.dirtyRare || MarkDue(s)
  }

  /** Rare videos that a cleanup has deleted and will report when it reaches its target. */
  function RareGoneSoFar(c: Cleanup): nat {
    if c.Deleting? then c.rareGone else 0
  }

  ghost predicate SeedIsGood(s: State, c: Seeding) {
    c.Counted? ==> Excused(s) || c.rare == |s.rare|
  }

  ghost predicate SeedsAreGood(s: State) {
    && (forall p :: p in s.seeding ==> SeedIsGood(s, s.seeding[p]))
    && (s.cleanup.Preparing? ==> SeedIsGood(s, s.cleanup.seeding))
  }

  ghost predicate CountIsGood(s: State) {
    Excused(s) || s.cache.rareVideos == |s.rare| + RareGoneSoFar(s.cleanup)
  }

  /** Wherever a count of rare videos is held it is right, what a cleanup has yet to report
      included, or it is excused. */
  ghost predicate RareExact(s: State) {
    if s.cache.initialized then CountIsGood(s) else SeedsAreGood(s)
  }

  /** Somebody holds a count that a change of the rare videos can put wrong. */
  ghost predicate CountHeld(s: State) {
    || s.cache.initialized
    || (exists p :: p in s.seeding && s.seeding[p].Counted?)
    || (s.cleanup.Preparing? && s.cleanup.seeding.Counted?)
  }

  /**
     The guard of each step: no recount while a cleanup has rare videos to report, none of which
     is lost or miscounted, and no unmarked change of a video that is rare or becomes so.
   */
  ghost predicate RareGuard(s: State, a: Action) {
    match a
    case SetState(_, id) => id !in s.rare || Excused(s)
    case ApplyDownload(_) => s.cache.dirtyRare ==> MarkDue(s) || RareGoneSoFar(s.cleanup) == 0
    case Evict(_, last, listedRare) => last.Some? ==> (last.value in s.rare) == listedRare || Excused(s)
    case EvictFails(_, last) => last.Some? ==> last.value !in s.rare || Excused(s)
    case CleanupMissed => RareGoneSoFar(s.cleanup) == 0 || Excused(s)
    case CheckWrite(id, wasRare, isRare) =>
      wasRare != isRare || (id in s.rare) == isRare || s.cache.dirtyRare || !CountHeld(s)
    case _ => true
  }

  // ---- One step ------------------------------------------------------------------------------

  lemma SetStateIsExact(s: State, p: Path, id: int)
    requires s.cache.initialized && RareExact(s) && Enabled(s, SetState(p, id))
    ensures RareExact(Apply(s, SetState(p, id))) <==> RareGuard(s, SetState(p, id))
  {
    if id !in s.rare {
      assert s.rare - {id} == s.rare;
    }
  }

  lemma ApplyDownloadIsExact(s: State, p: Path)
    requires s.cache.initialized && RareExact(s) && p in s.written
    ensures RareExact(Apply(s, ApplyDownload(p))) <==> RareGuard(s, ApplyDownload(p))
  {
    hide Total;
  }

  lemma EvictIsExact(s: State, p: Path, last: Option<int>, listedRare: bool)
    requires s.cache.initialized && RareExact(s) && s.cleanup.Deleting?
    ensures RareExact(Apply(s, Evict(p, last, listedRare))) <==> RareGuard(s, Evict(p, last, listedRare))
  {
    RareWithout(s.rare, last);
  }

  lemma EvictFailsIsExact(s: State, p: Path, last: Option<int>)
    requires s.cache.initialized && RareExact(s) && s.cleanup.Deleting?
    ensures RareExact(Apply(s, EvictFails(p, last))) <==> RareGuard(s, EvictFails(p, last))
  {
    RareWithout(s.rare, last);
  }

  lemma RareWithout(rare: set<int>, last: Option<int>)
    ensures |Without(rare, last)| == |rare| - (if last.Some? && last.value in rare then 1 else 0)
  {
    if last.Some? && last.value !in rare {
      assert rare - {last.value} == rare;
    }
  }

  lemma CleanupReachedIsExact(s: State)
    requires s.cache.initialized && RareExact(s) && s.cleanup.Deleting?
    ensures RareExact(Apply(s, CleanupReached))
  {
    hide Total;
  }

  lemma CleanupMissedIsExact(s: State)
    requires s.cache.initialized && RareExact(s) && s.cleanup.Deleting?
    ensures RareExact(Apply(s, CleanupMissed)) <==> RareGuard(s, CleanupMissed)
  {
  }

  lemma RareChanged(rare: set<int>, id: int, isRare: bool)
    ensures var after := if isRare then rare + {id} else rare - {id};
      if (id in rare) == isRare then after == rare else |after| != |rare|
  {
    if id in rare && isRare {
      assert rare + {id} == rare;
    } else if id !in rare && !isRare {
      assert rare - {id} == rare;
    }
  }

  lemma CheckWriteIsExact(s: State, id: int, wasRare: bool, isRare: bool)
    requires RareExact(s) && s.check.NoCheck?
    ensures RareExact(Apply(s, CheckWrite(id, wasRare, isRare))) <==> RareGuard(s, CheckWrite(id, wasRare, isRare))
  {
    RareChanged(s.rare, id, isRare);
    var t := Apply(s, CheckWrite(id, wasRare, isRare));
    assert t.seeding == s.seeding && t.cleanup == s.cleanup && t.cache == s.cache;
    if !s.cache.initialized {
      forall p | p in s.seeding && s.seeding[p].Counted?
        ensures SeedIsGood(t, t.seeding[p]) <==> Excused(t) || t.seeding[p].rare == |t.rare|
        ensures Excused(s) || s.seeding[p].rare == |s.rare|
      {
        assert SeedIsGood(s, s.seeding[p]);
      }
    }
  }

  lemma CheckMarkIsExact(s: State)
    requires RareExact(s) && s.check.Wrote?
    ensures RareExact(Apply(s, CheckMark))
  {
    var t := Apply(s, CheckMark);
    assert t.seeding == s.seeding && t.cleanup == s.cleanup && t.rare == s.rare;
    assert Excused(s) ==> Excused(t);
    if !s.cache.initialized {
      forall p | p in t.seeding ensures SeedIsGood(t, t.seeding[p]) {
        assert SeedIsGood(s, s.seeding[p]);
      }
    }
  }

  lemma SeedsCarryOver(s: State, t: State)
    requires SeedsAreGood(s) && t.rare == s.rare && t.check == s.check && t.cache == s.cache
    requires forall p :: p in t.seeding ==>
      (p in s.seeding && t.seeding[p] == s.seeding[p]) || SeedIsGood(t, t.seeding[p])
    requires t.cleanup.Preparing? ==> t.cleanup == s.cleanup || SeedIsGood(t, t.cleanup.seeding)
    ensures SeedsAreGood(t)
  {
    forall p | p in t.seeding ensures SeedIsGood(t, t.seeding[p]) {
      assert p in s.seeding && t.seeding[p] == s.seeding[p] ==> SeedIsGood(s, s.seeding[p]);
    }
  }

  lemma CountRareIsExact(s: State, p: Path)
    requires RareExact(s) && p in s.seeding && s.seeding[p].Scanned?
    ensures RareExact(Apply(s, CountRare(p)))
  {
    if !s.cache.initialized {
      SeedsCarryOver(s, Apply(s, CountRare(p)));
    }
  }

  lemma SeedCacheIsExact(s: State, p: Path)
    requires SeedsExact(s) && RareExact(s) && p in s.seeding && s.seeding[p].Counted?
    ensures RareExact(Apply(s, SeedCache(p)))
  {
    assert !s.cache.initialized ==> SeedIsGood(s, s.seeding[p]);
  }

  lemma CleanupCountIsExact(s: State)
    requires RareExact(s) && s.cleanup.Preparing? && s.cleanup.seeding.Scanned?
    ensures RareExact(Apply(s, CleanupCount))
  {
    if !s.cache.initialized {
      SeedsCarryOver(s, Apply(s, CleanupCount));
    }
  }

  lemma CleanupSeedIsExact(s: State)
    requires RareExact(s) && s.cleanup.Preparing? && s.cleanup.seeding.Counted?
    ensures RareExact(Apply(s, CleanupSeed))
  {
  }

  predicate LeavesRare(a: Action) {
    || a.FindsSet? || a.Scan? || a.GiveUp? || a.Download? || a.RollBack? || a.LoseDownload? || a.CleanupScan?
  }

  ghost predicate SeedsOnlyScanned(s: State, t: State) {
    && (forall p :: p in t.seeding ==> (p in s.seeding && t.seeding[p] == s.seeding[p]) || t.seeding[p].Scanned?)
    && (t.cleanup.Preparing? ==> t.cleanup == s.cleanup || t.cleanup.seeding.Scanned?)
  }

  lemma LeavingKeepsCounts(s: State, a: Action)
    requires Enabled(s, a) && LeavesRare(a)
    ensures var t := Apply(s, a);
      && t.rare == s.rare && t.check == s.check && t.cache == s.cache
      && RareGoneSoFar(t.cleanup) == RareGoneSoFar(s.cleanup)
  {
    hide Total, Applied;
  }

  lemma LeavingKeepsSeeds(s: State, a: Action)
    requires Enabled(s, a) && LeavesRare(a)
    ensures SeedsOnlyScanned(s, Apply(s, a))
  {
    hide Total, Applied;
    var t := Apply(s, a);
    assert t.seeding == if a.Scan? then s.seeding[a.p := Scanned(a.used, a.files)] else s.seeding;
    assert a.CleanupScan? || t.cleanup == s.cleanup;
  }

  /** Steps that neither count rare videos nor change them. */
  lemma LeavingIsExact(s: State, a: Action)
    requires RareExact(s) && Enabled(s, a) && LeavesRare(a)
    ensures RareExact(Apply(s, a))
  {
    hide Apply, Enabled;
    LeavingKeepsCounts(s, a);
    LeavingKeepsSeeds(s, a);
    if !s.cache.initialized {
      SeedsCarryOver(s, Apply(s, a));
    }
  }

  /** From a state in which every count is good, the next state is one exactly when the guard of
      the step holds. */
  lemma StepIsRareExact(s: State, a: Action)
    requires Books(s) && RareExact(s) && Enabled(s, a)
    ensures RareExact(Apply(s, a)) <==> RareGuard(s, a)
  {
    if LeavesRare(a) {
      hide Apply, RareExact;
      LeavingIsExact(s, a);
    } else {
      hide Apply, RareExact, RareGuard, Balanced;
      match a
      case SetState(p, id) => SetStateIsExact(s, p, id);
      case CountRare(p) => CountRareIsExact(s, p); GuardIsTrue(s, a);
      case SeedCache(p) => SeedCacheIsExact(s, p); GuardIsTrue(s, a);
      case CleanupCount => CleanupCountIsExact(s); GuardIsTrue(s, a);
      case CleanupSeed => CleanupSeedIsExact(s); GuardIsTrue(s, a);
      case ApplyDownload(p) => ApplyDownloadIsExact(s, p);
      case Evict(p, last, listedRare) => EvictIsExact(s, p, last, listedRare);
      case EvictFails(p, last) => EvictFailsIsExact(s, p, last);
      case CleanupReached => CleanupReachedIsExact(s); GuardIsTrue(s, a);
      case CleanupMissed => CleanupMissedIsExact(s);
      case CheckWrite(id, wasRare, isRare) => CheckWriteIsExact(s, id, wasRare, isRare);
      case CheckMark => CheckMarkIsExact(s); GuardIsTrue(s, a);
    }
  }

  lemma GuardIsTrue(s: State, a: Action)
    requires a.CountRare? || a.SeedCache? || a.CleanupCount? || a.CleanupSeed? || a.CleanupReached? || a.CheckMark?
    ensures RareGuard(s, a)
  {
  }

  // ---- Whole runs ----------------------------------------------------------------------------

  ghost predicate RareGuarded(s: State, run: seq<Action>)
    requires Ok(s, run)
    decreases |run|
  {
    run == [] || (RareGuard(s, run[0]) && RareGuarded(Apply(s, run[0]), run[1..]))
  }

  ghost predicate RareExactThroughout(s: State, run: seq<Action>)
    requires Ok(s, run)
    decreases |run|
  {
    RareExact(s) && (run == [] || RareExactThroughout(Apply(s, run[0]), run[1..]))
  }

  /** Every count of a run stays good if and only if every guard holds when its step is taken. */
  lemma {:induction false} RunIsRareExact(s: State, run: seq<Action>)
    requires Books(s) && RareExact(s) && Ok(s, run)
    ensures RareExactThroughout(s, run) <==> RareGuarded(s, run)
    ensures RareGuarded(s, run) ==> RareExact(Exec(s, run))
    decreases |run|
  {
    hide Books, RareExact, RareGuard, Apply, Enabled;
    if run != [] {
      StepIsRareExact(s, run[0]);
      StepKeepsBooks(s, run[0]);
      if RareGuard(s, run[0]) {
        RunIsRareExact(Apply(s, run[0]), run[1..]);
      } else {
        InexactStart(Apply(s, run[0]), run[1..]);
      }
    }
  }

  lemma InexactStart(s: State, run: seq<Action>)
    requires Ok(s, run) && !RareExact(s)
    ensures !RareExactThroughout(s, run)
  {
  }

  lemma InitIsRareExact(s: State)
    requires Init(s)
    ensures Books(s) && RareExact(s)
  {
  }

  /** Over every guarded run the cached count, once set, is right but for the rare videos that a
      cleanup has yet to report, or it is marked, whenever the check job is not between its write
      and its mark; so the delta of a cleanup never takes it below zero. */
  lemma RareCountIsRightOrDirty(s: State, run: seq<Action>)
    requires Init(s) && Ok(s, run) && RareGuarded(s, run)
    requires Exec(s, run).cache.initialized && !MarkDue(Exec(s, run))
    ensures var t := Exec(s, run); t.cache.dirtyRare || t.cache.rareVideos == |t.rare| + RareGoneSoFar(t.cleanup)
    ensures var t := Exec(s, run); t.cache.dirtyRare || t.cache.rareVideos >= RareGoneSoFar(t.cleanup)
  {
    InitIsRareExact(s);
    RunIsRareExact(s, run);
  }

  // ---- Runs that leave rare videos to the check job ------------------------------------------

  /** No eviction and no state write takes a rare video, none is reported, and a check goes by a current listing. */
  predicate SparesRare(s: State, a: Action) {
    match a
    case SetState(_, id) => id !in s.rare
    case Evict(_, last, listedRare) => last.Some? ==> last.value !in s.rare && !listedRare
    case EvictFails(_, last) => last.Some? ==> last.value !in s.rare
    case CheckWrite(id, wasRare, _) => wasRare == (id in s.rare)
    case _ => true
  }

  ghost predicate Sparing(s: State, run: seq<Action>)
    requires Ok(s, run)
    decreases |run|
  {
    run == [] || (SparesRare(s, run[0]) && Sparing(Apply(s, run[0]), run[1..]))
  }

  ghost predicate NothingToReport(s: State) {
    s.cache.rareVideos >= 0 && RareGoneSoFar(s.cleanup) == 0
  }

  lemma SparingStepIsGuarded(s: State, a: Action)
    requires NothingToReport(s) && Enabled(s, a) && SparesRare(s, a)
    ensures RareGuard(s, a)
  {
    hide CountHeld;
  }

  lemma SparingStepReportsNothing(s: State, a: Action)
    requires NothingToReport(s) && Enabled(s, a) && SparesRare(s, a)
    ensures NothingToReport(Apply(s, a))
  {
    hide Total;
  }

  /** Such a run is guarded, and no delta ever takes the count to its floor. */
  lemma {:induction false} SparingRunIsGuarded(s: State, run: seq<Action>)
    requires NothingToReport(s) && Ok(s, run) && Sparing(s, run)
    ensures RareGuarded(s, run) && NothingToReport(Exec(s, run))
    decreases |run|
  {
    hide NothingToReport, RareGuard, SparesRare, Apply, Enabled;
    if run != [] {
      SparingStepIsGuarded(s, run[0]);
      SparingStepReportsNothing(s, run[0]);
      SparingRunIsGuarded(Apply(s, run[0]), run[1..]);
    }
  }

  /** So its count is right or marked, and never reaches its floor. */
  lemma SparedCountIsRightOrDirty(s: State, run: seq<Action>)
    requires Init(s) && Ok(s, run) && Sparing(s, run)
    ensures var t := Exec(s, run); t.cache.rareVideos >= RareGoneSoFar(t.cleanup)
    ensures var t := Exec(s, run);
      t.cache.initialized && !MarkDue(t) ==> t.cache.dirtyRare || t.cache.rareVideos == |t.rare|
  {
    SparingRunIsGuarded(s, run);
    if Exec(s, run).cache.initialized && !MarkDue(Exec(s, run)) {
      RareCountIsRightOrDirty(s, run);
    }
  }

  // ---- What a failing guard does -------------------------------------------------------------

  /** A candidate listed before a check made it rare is evicted without being reported. */
  lemma StaleListingBreaksTheCount(s: State, p: Path, id: int)
    requires RareExact(s) && s.cache.initialized && !Excused(s) && s.cleanup.Deleting? && id in s.rare
    ensures var t := Apply(s, Evict(p, Some(id), false));
      !Excused(t) && t.cache.rareVideos == |t.rare| + RareGoneSoFar(t.cleanup) + 1
  {
    RareWithout(s.rare, Some(id));
  }

  /** A candidate listed as rare that has since become stable is reported for nothing. */
  lemma StaleReportBreaksTheCount(s: State, p: Path, id: int)
    requires RareExact(s) && s.cache.initialized && !Excused(s) && s.cleanup.Deleting? && id !in s.rare
    ensures var t := Apply(s, Evict(p, Some(id), true));
      !Excused(t) && t.cache.rareVideos == |t.rare| + RareGoneSoFar(t.cleanup) - 1
  {
    RareWithout(s.rare, Some(id));
  }

  /** A video listed as rare, evicted before its check and then found unavailable becomes rare
      again without a mark. */
  lemma StaleCheckBreaksTheCount(s: State, id: int)
    requires RareExact(s) && s.cache.initialized && s.check.NoCheck? && !Excused(s) && id !in s.rare
    ensures var t := Apply(s, CheckWrite(id, true, true));
      !Excused(t) && t.cache.rareVideos == |t.rare| + RareGoneSoFar(t.cleanup) - 1
  {
  }

  /** What happens to a video that a check finds unavailable while it is being downloaded. */
  function LateState(p: Path, q: Path, id: int): seq<Action> {
    RecountFirst(q, id) + StateLast(p, id)
  }

  function RecountFirst(q: Path, id: int): seq<Action> {
    [CheckWrite(id, false, true), CheckMark, ApplyDownload(q)]
  }

  function StateLast(p: Path, id: int): seq<Action> {
    [SetState(p, id), ApplyDownload(p)]
  }

  /** The check makes the video rare and marks the cache, the delta of another download has it
      recounted, and the download's last write takes the video out again without a mark. */
  lemma LateStateBreaksTheCount(s: State, p: Path, q: Path, id: int)
    requires s.cache.initialized && s.check.NoCheck? && RareGoneSoFar(s.cleanup) == 0
    requires p in s.written && q in s.written && p != q && id !in s.rare
    ensures Ok(s, LateState(p, q, id))
    ensures var t := Exec(s, LateState(p, q, id));
      && t.cache.initialized && !Excused(t) && t.cache.rareVideos == |t.rare| + 1
      && t.rare == s.rare && t.written == s.written - {p, q} && t.cleanup == s.cleanup && t.check == s.check
  {
    MarkedAndRecounted(s, p, q, id);
    StateWrittenLast(Exec(s, RecountFirst(q, id)), p, id);
    Join(s, RecountFirst(q, id), StateLast(p, id));
    assert s.written - {q} - {p} == s.written - {p, q} && s.rare + {id} - {id} == s.rare;
  }

  lemma MarkedAndRecounted(s: State, p: Path, q: Path, id: int)
    requires s.cache.initialized && s.check.NoCheck? && p in s.written && q in s.written && p != q
    ensures Ok(s, RecountFirst(q, id))
    ensures var t := Exec(s, RecountFirst(q, id));
      && t.cache.initialized && !t.cache.dirtyRare && t.cache.rareVideos == |s.rare + {id}| && p in t.written
      && t.rare == s.rare + {id} && t.written == s.written - {q} && t.cleanup == s.cleanup && t.check == s.check
  {
    hide Exec, Ok, Total;
    NoStep(s);
    Continues(s, [], CheckWrite(id, false, true));
    Continues(s, [] + [CheckWrite(id, false, true)], CheckMark);
    Continues(s, [] + [CheckWrite(id, false, true)] + [CheckMark], ApplyDownload(q));
    assert [] + [CheckWrite(id, false, true)] + [CheckMark] + [ApplyDownload(q)] == RecountFirst(q, id);
  }

  lemma StateWrittenLast(s: State, p: Path, id: int)
    requires s.cache.initialized && !s.cache.dirtyRare && s.cache.rareVideos >= 0 && p in s.written
    ensures Ok(s, StateLast(p, id))
    ensures var t := Exec(s, StateLast(p, id));
      && t.cache.initialized && !t.cache.dirtyRare && t.cache.rareVideos == s.cache.rareVideos
      && t.rare == s.rare - {id} && t.written == s.written - {p} && t.cleanup == s.cleanup && t.check == s.check
  {
    hide Exec, Ok, Total;
    NoStep(s);
    Continues(s, [], SetState(p, id));
    Continues(s, [] + [SetState(p, id)], ApplyDownload(p));
    assert [] + [SetState(p, id)] + [ApplyDownload(p)] == StateLast(p, id);
  }

  lemma NoStep(s: State)
    ensures Ok(s, []) && Exec(s, []) == s
  {
  }

  ghost predicate UnmarkedAndWrong(s: State) {
    && s.cache.initialized && !s.cache.dirtyRare && s.check.NoCheck? && s.cleanup.NoCleanup?
    && s.written == map[] && s.cache.rareVideos != |s.rare|
  }

  const ONE_FILE: map<Path, nat> := map["a" := 10]
  const TWO_FILES: map<Path, nat> := map["a" := 10, "b" := 5]
  const ONE_WRITTEN: map<Path, nat> := map["b" := 5]
  const SEEDED := Snapshot(true, 10, 1, 2, false)

  lemma OneFileTotal()
    ensures Total(ONE_FILE) == 10
  {
    TotalWithout(ONE_FILE, "a");
    assert ONE_FILE - {"a"} == map[];
  }

  function Before(seeding: map<Path, Seeding>): State {
    Plain(ONE_FILE, {1, 2}, UNSET, map[], NoCleanup, NoCheck).(seeding := seeding)
  }

  lemma ScanFirst() returns (s: State)
    ensures Init(s) && Reaches(s, Before(map["b" := Counted(10, 1, 2)]))
  {
    s := Before(map[]);
    OneFileTotal();
    assert Ok(s, []) && Exec(s, []) == s;
    Then(s, s, Scan("b", 10, 1));
    assert Apply(s, Scan("b", 10, 1)) == Before(map["b" := Scanned(10, 1)]);
    Then(s, Before(map["b" := Scanned(10, 1)]), CountRare("b"));
    assert |{1, 2}| == 2;
  }

  lemma DownloadFirst() returns (s: State)
    ensures Init(s) && Reaches(s, Plain(TWO_FILES, {1, 2}, SEEDED, ONE_WRITTEN, NoCleanup, NoCheck))
  {
    s := ScanFirst();
    Then(s, Before(map["b" := Counted(10, 1, 2)]), SeedCache("b"));
    var s3 := Plain(ONE_FILE, {1, 2}, SEEDED, map[], NoCleanup, NoCheck).(ready := {"b"});
    assert Apply(Before(map["b" := Counted(10, 1, 2)]), SeedCache("b")) == s3;
    Then(s, s3, Download("b", 5));
    assert ONE_FILE["b" := 5] == TWO_FILES;
  }

  const BOTH_FILES := Plain(TWO_FILES, {1, 2}, SEEDED, ONE_WRITTEN, NoCleanup, NoCheck)
  const LISTED := Plain(TWO_FILES, {1, 2}, SEEDED, ONE_WRITTEN, Deleting(0, 0, 0), NoCheck)

  /** A cleanup has listed its candidates and deleted nothing yet. */
  lemma ListCandidates(s: State)
    requires Reaches(s, BOTH_FILES)
    ensures Reaches(s, LISTED)
  {
    Then(s, BOTH_FILES, CleanupScan(15, 2));
    var preparing := Plain(TWO_FILES, {1, 2}, SEEDED, ONE_WRITTEN, Preparing(Scanned(15, 2)), NoCheck);
    assert Apply(BOTH_FILES, CleanupScan(15, 2)) == preparing;
    Then(s, preparing, CleanupCount);
  }

  lemma EvictRare(s: State)
    requires Reaches(s, LISTED)
    ensures Reaches(s, Plain(ONE_WRITTEN, {2}, SEEDED, ONE_WRITTEN, Deleting(10, 1, 1), NoCheck))
  {
    Then(s, LISTED, Evict("a", Some(1), true));
    assert TWO_FILES - {"a"} == ONE_WRITTEN && {1, 2} - {1} == {2};
  }

  /** A check writes and marks between two steps of the others. */
  lemma CheckAlone(s: State, t: State, id: int, wasRare: bool, isRare: bool)
    requires Reaches(s, t) && t.check.NoCheck?
    ensures var rare := if isRare then t.rare + {id} else t.rare - {id};
      Reaches(s, t.(rare := rare, cache := MarkRare(t.cache, wasRare, isRare)))
  {
    Then(s, t, CheckWrite(id, wasRare, isRare));
    Then(s, Apply(t, CheckWrite(id, wasRare, isRare)), CheckMark);
  }

  /** A recount between the eviction of a rare video and its report takes the video off twice. */
  lemma EvictingRareBreaksTheCount() returns (s: State, t: State)
    ensures Init(s) && Reaches(s, t) && UnmarkedAndWrong(t)
  {
    s := DownloadFirst();
    ListCandidates(s);
    EvictRare(s);
    var s4 := Plain(ONE_WRITTEN, {2}, SEEDED, ONE_WRITTEN, Deleting(10, 1, 1), NoCheck);
    CheckAlone(s, s4, 3, false, true);
    assert {2} + {3} == {2, 3} && |{2, 3}| == 2;
    var s6 := Plain(ONE_WRITTEN, {2, 3}, SEEDED.(dirtyRare := true), ONE_WRITTEN, Deleting(10, 1, 1), NoCheck);
    Then(s, s6, ApplyDownload("b"));
    var s7 := Plain(ONE_WRITTEN, {2, 3}, Snapshot(true, 15, 2, 2, false), map[], Deleting(10, 1, 1), NoCheck);
    assert Apply(s6, ApplyDownload("b")) == s7;
    Then(s, s7, CleanupReached);
    t := Apply(s7, CleanupReached);
  }

  /** The same recount can leave less than the cleanup has yet to report. */
  lemma EvictingRareReachesTheFloor() returns (s: State, t: State)
    ensures Init(s) && Reaches(s, t)
    ensures t.cache.initialized && !t.cache.dirtyRare && t.cleanup.Deleting?
    ensures t.cache.rareVideos < RareGoneSoFar(t.cleanup)
  {
    s := DownloadFirst();
    ListCandidates(s);
    EvictRare(s);
    var s4 := Plain(ONE_WRITTEN, {2}, SEEDED, ONE_WRITTEN, Deleting(10, 1, 1), NoCheck);
    CheckAlone(s, s4, 2, true, false);
    assert {2} - {2} == {};
    var s6 := Plain(ONE_WRITTEN, {}, SEEDED.(dirtyRare := true), ONE_WRITTEN, Deleting(10, 1, 1), NoCheck);
    Then(s, s6, ApplyDownload("b"));
    t := Plain(ONE_WRITTEN, {}, Snapshot(true, 15, 2, 0, false), map[], Deleting(10, 1, 1), NoCheck);
    assert Apply(s6, ApplyDownload("b")) == t;
  }

  const RECOUNTED := Plain(TWO_FILES, {1, 2, 3}, Snapshot(true, 15, 2, 3, false), map[], Deleting(0, 0, 0), NoCheck)

  /** After the listing a check makes video 3 rare, and a download has the rare videos recounted. */
  lemma RareSinceListing(s: State)
    requires Reaches(s, LISTED)
    ensures Reaches(s, RECOUNTED)
  {
    CheckAlone(s, LISTED, 3, false, true);
    assert {1, 2} + {3} == {1, 2, 3} && |{1, 2, 3}| == 3;
    var marked := Plain(TWO_FILES, {1, 2, 3}, SEEDED.(dirtyRare := true), ONE_WRITTEN, Deleting(0, 0, 0), NoCheck);
    Then(s, marked, ApplyDownload("b"));
    assert Apply(marked, ApplyDownload("b")) == RECOUNTED;
  }

  /** Even a cleanup that lists no rare video can break the count: video 3 becomes rare, and is
      recounted, between the listing and its eviction. */
  lemma StaleListingIsReachable() returns (s: State, t: State)
    ensures Init(s) && Reaches(s, t) && UnmarkedAndWrong(t)
  {
    s := DownloadFirst();
    ListCandidates(s);
    RareSinceListing(s);
    Then(s, RECOUNTED, Evict("a", Some(3), false));
    assert TWO_FILES - {"a"} == ONE_WRITTEN && {1, 2, 3} - {3} == {1, 2} && |{1, 2}| == 2;
    var evicted := Plain(ONE_WRITTEN, {1, 2}, Snapshot(true, 15, 2, 3, false), map[], Deleting(10, 1, 0), NoCheck);
    assert Apply(RECOUNTED, Evict("a", Some(3), false)) == evicted;
    Then(s, evicted, CleanupReached);
    t := Apply(evicted, CleanupReached);
  }

  /** A check that goes by a listing from before an eviction breaks it as well. */
  lemma StaleCheckIsReachable() returns (s: State, t: State)
    ensures Init(s) && Reaches(s, t) && UnmarkedAndWrong(t)
  {
    s := DownloadFirst();
    ListCandidates(s);
    EvictRare(s);
    var s4 := Plain(ONE_WRITTEN, {2}, SEEDED, ONE_WRITTEN, Deleting(10, 1, 1), NoCheck);
    Then(s, s4, CleanupReached);
    var s5 := Plain(ONE_WRITTEN, {2}, Snapshot(true, 0, 0, 1, false), ONE_WRITTEN, NoCleanup, NoCheck);
    assert Apply(s4, CleanupReached) == s5;
    Then(s, s5, ApplyDownload("b"));
    assert ONE_WRITTEN - {"b"} == map[];
    var s6 := Plain(ONE_WRITTEN, {2}, Snapshot(true, 5, 1, 1, false), map[], NoCleanup, NoCheck);
    assert Apply(s5, ApplyDownload("b")) == s6;
    CheckAlone(s, s6, 1, true, true);
    assert {2} + {1} == {1, 2} && |{1, 2}| == 2;
    t := s6.(rare := {2} + {1});
  }
  /** So a run from the start ends with a wrong count that nobody will correct. */
  lemma LateStateIsReachable() returns (s: State, t: State)
    ensures Init(s) && Reaches(s, t) && UnmarkedAndWrong(t)
  {
    s := DownloadFirst();
    Then(s, BOTH_FILES, FindsSet("c"));
    var about := BOTH_FILES.(ready := {"c"});
    assert Apply(BOTH_FILES, FindsSet("c")) == about;
    Then(s, about, SetState("c", 3));
    assert {1, 2} - {3} == {1, 2};
    assert Apply(about, SetState("c", 3)) == about;
    Then(s, about, Download("c", 1));
    var both := Apply(about, Download("c", 1));
    assert |both.rare| == 2;
    LateStateBreaksTheCount(both, "c", "b", 3);
    t := Exec(both, LateState("c", "b", 3));
    assert t.written == map[];
    ThenRun(s, both, LateState("c", "b", 3));
  }

  lemma ThenRun(s: State, t: State, run: seq<Action>)
    requires Reaches(s, t) && Ok(t, run)
    ensures Reaches(s, Exec(t, run))
  {
    var before :| Ok(s, before) && Exec(s, before) == t;
    Join(s, before, run);
  }
}
