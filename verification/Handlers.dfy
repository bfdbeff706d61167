/**
 The download and the check handler, statement by statement, as they run when no other job
 touches the store meanwhile. Each also names the run of StorageRuns that it amounts to, so
 what holds of every run holds of the handlers.
 */
module Handlers {
  import opened Common
  import opened StorageCache
  import R = StorageRuns

  datatype Video = Video(state: string, path: string, published: Option<int>)

  datatype Record = Record(video: int, path: string, size: nat)

  /** What the client's download comes to; a refusal is permanent. */
  datatype Fetch = Fetched(size: nat) | Refused | Broken

  datatype Outcome = NotFound | Already | Failed | Done

  function Rare(videos: map<int, Video>): set<int> {
    set v | v in videos && videos[v].state == "OUT_OF_PRINT"
  }

  function Without(records: seq<Record>, video: int): seq<Record> {
    if records == [] then []
    else
      var last := records[|records| - 1];
      Without(records[..|records| - 1], video) + (if last.video == video then [] else [last])
  }

  /**
     What a download meets on its way: whether the limiters let it through, what the client's
     download comes to, whether the rare videos can be counted when the cache is seeded, whether
     the file record can be saved and the final state set, and whether a count works when the
     delta is applied.
   */
  datatype Attempt = Attempt(waits: bool, fetch: Fetch, seeds: bool, records: bool, closes: bool, recounts: bool)

  /** The file is on disk and its record is saved. */
  predicate Saved(a: Attempt) {
    a.waits && a.fetch.Fetched? && a.records
  }

  predicate Succeeds(a: Attempt) {
    Saved(a) && a.closes
  }

  /** The state a download leaves its video in. */
  function StateAfter(a: Attempt): string {
    if !a.waits || a.fetch.Broken? then "NEW"
    else if a.fetch.Refused? then "FAILED"
    else if !a.records then "NEW"
    else if a.closes then "DOWNLOADED"
    else "DOWNLOADING"
  }

  /** FAILED means refused for good, DOWNLOADED that file, record and last write are there, NEW that
      nothing was left and nothing refused, DOWNLOADING that only the last write is missing. */
  predicate EndsAsMet(a: Attempt, state: string) {
    && (state == "FAILED" <==> a.waits && a.fetch.Refused?)
    && (state == "DOWNLOADED" <==> a.waits && a.fetch.Fetched? && a.records && a.closes)
    && (state == "DOWNLOADING" <==> a.waits && a.fetch.Fetched? && a.records && !a.closes)
    && (state == "NEW" <==> !a.waits || a.fetch.Broken? || (a.fetch.Fetched? && !a.records))
  }

  /** What a check makes of a video: gone from the platform, older than the cutoff, or as before. */
  function Verdict(v: Video, available: bool, cutoff: int): string {
    if !available then "OUT_OF_PRINT"
    else if v.published.Some? && v.published.value < cutoff then "STABLE"
    else v.state
  }

  /** The state t, but for the drift, is one with nothing in flight. */
  predicate Rests(t: R.State, disk: map<string, nat>, rare: set<int>, cache: Snapshot) {
    var plain := R.Plain(disk, rare, cache, map[], R.NoCleanup, R.NoCheck);
    t == plain.(driftBytes := t.driftBytes, driftFiles := t.driftFiles)
  }

  ghost predicate Leads(start: R.State, run: seq<R.Action>, disk: map<string, nat>, rare: set<int>, cache: Snapshot) {
    R.Ok(start, run) && Rests(R.Exec(start, run), disk, rare, cache)
  }

  /** The same, but for one download that has no file on disk. */
  predicate AboutTo(t: R.State, disk: map<string, nat>, rare: set<int>, cache: Snapshot, path: string) {
    t.ready == {path} && Rests(t.(ready := {}), disk, rare, cache)
  }

  /** The same, but for one download that has its file on disk. */
  predicate Holds(t: R.State, disk: map<string, nat>, rare: set<int>, cache: Snapshot, path: string, size: nat) {
    t.written == map[path := size] && Rests(t.(written := map[]), disk, rare, cache)
  }

  /** A write of the video's state before the transfer, or after one that has left no file. */
  lemma SetsState(start: R.State, run: seq<R.Action>, disk: map<string, nat>, rare: set<int>, cache: Snapshot,
      path: string, id: int)
    requires R.Ok(start, run) && AboutTo(R.Exec(start, run), disk, rare, cache, path)
    ensures var longer := run + [R.SetState(path, id)];
      R.Ok(start, longer) && AboutTo(R.Exec(start, longer), disk, rare - {id}, cache, path)
  {
    R.Continues(start, run, R.SetState(path, id));
  }

  /** The write that ends a transfer; the video is no longer rare by then. */
  lemma SetsLastState(start: R.State, run: seq<R.Action>, disk: map<string, nat>, rare: set<int>, cache: Snapshot,
      path: string, size: nat, id: int)
    requires R.Ok(start, run) && Holds(R.Exec(start, run), disk, rare, cache, path, size) && id !in rare
    ensures var longer := run + [R.SetState(path, id)];
      R.Ok(start, longer) && Holds(R.Exec(start, longer), disk, rare, cache, path, size)
  {
    R.Continues(start, run, R.SetState(path, id));
    assert rare - {id} == rare;
  }

  /** The download ends without a file: it sets the video's state back and gives up. */
  lemma GivesUp(start: R.State, run: seq<R.Action>, disk: map<string, nat>, rare: set<int>, cache: Snapshot,
      path: string, id: int)
    requires R.Ok(start, run) && AboutTo(R.Exec(start, run), disk, rare, cache, path) && id !in rare
    ensures Leads(start, run + [R.SetState(path, id)] + [R.GiveUp(path)], disk, rare, cache)
  {
    SetsState(start, run, disk, rare, cache, path, id);
    assert rare - {id} == rare;
    R.Continues(start, run + [R.SetState(path, id)], R.GiveUp(path));
  }

  lemma Downloads(start: R.State, run: seq<R.Action>, disk: map<string, nat>, rare: set<int>, cache: Snapshot,
      path: string, size: nat)
    requires R.Ok(start, run) && AboutTo(R.Exec(start, run), disk, rare, cache, path)
    ensures var longer := run + [R.Download(path, size)];
      R.Ok(start, longer) && Holds(R.Exec(start, longer), disk[path := size], rare, cache, path, size)
  {
    R.Continues(start, run, R.Download(path, size));
  }

  lemma Applies(start: R.State, run: seq<R.Action>, disk: map<string, nat>, rare: set<int>, cache: Snapshot,
      path: string, size: nat)
    requires R.Ok(start, run) && Holds(R.Exec(start, run), disk, rare, cache, path, size)
    ensures Leads(start, run + [R.ApplyDownload(path)], disk, rare,
                  ApplyDelta(cache, Delta(size, 1, 0), Total(disk), |disk|, |rare|))
  {
    hide R.Exec, R.Ok, Total;
    R.Continues(start, run, R.ApplyDownload(path));
    assert map[path := size] - {path} == map[];
  }

  lemma RollsBack(start: R.State, run: seq<R.Action>, disk: map<string, nat>, rare: set<int>, cache: Snapshot,
      path: string, size: nat)
    requires R.Ok(start, run) && Holds(R.Exec(start, run), disk, rare, cache, path, size)
    ensures var longer := run + [R.RollBack(path)];
      R.Ok(start, longer) && AboutTo(R.Exec(start, longer), disk - {path}, rare, cache, path)
  {
    hide R.Exec, R.Ok;
    R.Continues(start, run, R.RollBack(path));
    assert map[path := size] - {path} == map[];
  }

  lemma Loses(start: R.State, run: seq<R.Action>, disk: map<string, nat>, rare: set<int>, cache: Snapshot,
      path: string, size: nat)
    requires R.Ok(start, run) && Holds(R.Exec(start, run), disk, rare, cache, path, size)
    ensures Leads(start, run + [R.LoseDownload(path)], disk, rare, cache)
  {
    hide R.Exec, R.Ok;
    R.Continues(start, run, R.LoseDownload(path));
    assert map[path := size] - {path} == map[];
  }

  /** A state other than OUT_OF_PRINT takes the video out of the rare ones, if it was one. */
  lemma RareLeft(videos: map<int, Video>, id: int, state: string)
    requires id in videos && state != "OUT_OF_PRINT"
    ensures var after := Rare(videos[id := videos[id].(state := state)]);
      && after == Rare(videos) - {id}
      && |after| == |Rare(videos)| - (if videos[id].state == "OUT_OF_PRINT" then 1 else 0)
  {
    assert Rare(videos[id := videos[id].(state := state)]) == Rare(videos) - {id};
    if videos[id].state != "OUT_OF_PRINT" {
      assert Rare(videos) - {id} == Rare(videos);
    }
  }

  // ---- What a download leaves ----------------------------------------------------------------

  function VideosAfter(videos: map<int, Video>, id: int, a: Attempt): map<int, Video>
    requires id in videos
  {
    videos[id := videos[id].(state := StateAfter(a))]
  }

  function RecordsAfter(records: seq<Record>, id: int, v: Video, a: Attempt): seq<Record> {
    (if v.state == "DOWNLOADED" then Without(records, id) else records)
    + (if Saved(a) then [Record(id, v.path, a.fetch.size)] else [])
  }

  function DiskAfter(disk: map<string, nat>, path: string, a: Attempt): map<string, nat> {
    if !a.waits || !a.fetch.Fetched? then disk
    else if a.records then disk[path := a.fetch.size]
    else disk - {path}
  }

  /** The cache before the transfer; if the count fails it stays unset and the download goes on. */
  ghost function Ensured(cache: Snapshot, disk: map<string, nat>, rare: nat, seeds: bool): Snapshot {
    if seeds then Seed(cache, Total(disk), |disk|, rare) else cache
  }

  /** The delta is applied, unless it needs a count and the count fails. */
  predicate Delivers(cache: Snapshot, recounts: bool) {
    recounts || (cache.initialized && !cache.dirtyRare)
  }

  ghost function CacheAfter(cache: Snapshot, disk: map<string, nat>, path: string, rareBefore: nat, rareAfter: nat,
      a: Attempt): Snapshot
  {
    var ensured, after := Ensured(cache, disk, rareBefore, a.seeds), DiskAfter(disk, path, a);
    if Succeeds(a) && Delivers(ensured, a.recounts)
    then ApplyDelta(ensured, Delta(a.fetch.size, 1, 0), Total(after), |after|, rareAfter)
    else ensured
  }

  lemma {:induction false} WithoutExact(records: seq<Record>, video: int, r: Record)
    ensures multiset(Without(records, video))[r] == if r.video == video then 0 else multiset(records)[r]
  {
    if records != [] {
      var front, last := records[..|records| - 1], records[|records| - 1];
      WithoutExact(front, video, r);
      assert records == front + [last];
    }
  }

  /** A DOWNLOADED video without its file loses its records, a saved file gets one, and the records
      of all other videos stay. */
  lemma RecordsExactly(records: seq<Record>, id: int, v: Video, a: Attempt, r: Record)
    ensures var before, after := multiset(records)[r], multiset(RecordsAfter(records, id, v, a))[r];
      var saved := a.waits && a.fetch.Fetched? && a.records;
      after == (if r.video == id && v.state == "DOWNLOADED" then 0 else before)
               + (if saved && r == Record(id, v.path, a.fetch.size) then 1 else 0)
  {
    WithoutExact(records, id, r);
  }

  /** The steps before the transfer. */
  lemma BeginsAsRun(disk: map<string, nat>, rare: set<int>, cache: Snapshot, path: string) returns (run: seq<R.Action>)
    ensures var start := R.Plain(disk, rare, cache, map[], R.NoCleanup, R.NoCheck);
      R.Ok(start, run) && AboutTo(R.Exec(start, run), disk, rare, Ensured(cache, disk, |rare|, true), path)
  {
    hide Total;
    var start := R.Plain(disk, rare, cache, map[], R.NoCleanup, R.NoCheck);
    run := [];
    if cache.initialized {
      R.Continues(start, run, R.FindsSet(path));
      run := run + [R.FindsSet(path)];
    } else {
      R.Continues(start, run, R.Scan(path, Total(disk), |disk|));
      run := run + [R.Scan(path, Total(disk), |disk|)];
      R.Continues(start, run, R.CountRare(path));
      run := run + [R.CountRare(path)];
      R.Continues(start, run, R.SeedCache(path));
      run := run + [R.SeedCache(path)];
      assert R.Exec(start, run).seeding == map[];
    }
  }

  /** The steps from the limiters on, given that the cache is set. */
  lemma TransferIsRun(start: R.State, run: seq<R.Action>, disk: map<string, nat>, rare: set<int>, cache: Snapshot,
      path: string, id: int, a: Attempt)
    returns (longer: seq<R.Action>)
    requires R.Ok(start, run) && AboutTo(R.Exec(start, run), disk, rare, cache, path) && id !in rare
    ensures var after := DiskAfter(disk, path, a);
      Leads(start, longer, after, rare,
            if Succeeds(a) && Delivers(cache, a.recounts)
            then ApplyDelta(cache, Delta(a.fetch.size, 1, 0), Total(after), |after|, |rare|) else cache)
  {
    hide R.Ok, R.Exec, AboutTo, Holds, Leads, Total, ApplyDelta;
    if !a.waits || !a.fetch.Fetched? {
      GivesUp(start, run, disk, rare, cache, path, id);
      return run + [R.SetState(path, id)] + [R.GiveUp(path)];
    }
    var after, size := disk[path := a.fetch.size], a.fetch.size;
    Downloads(start, run, disk, rare, cache, path, size);
    longer := run + [R.Download(path, size)];
    if !a.records {
      RollsBack(start, longer, after, rare, cache, path, size);
      longer := longer + [R.RollBack(path)];
      GivesUp(start, longer, after - {path}, rare, cache, path, id);
      assert after - {path} == disk - {path};
      return longer + [R.SetState(path, id)] + [R.GiveUp(path)];
    }
    if a.closes {
      SetsLastState(start, longer, after, rare, cache, path, size, id);
      longer := longer + [R.SetState(path, id)];
    }
    if a.closes && Delivers(cache, a.recounts) {
      Applies(start, longer, after, rare, cache, path, size);
      longer := longer + [R.ApplyDownload(path)];
    } else {
      Loses(start, longer, after, rare, cache, path, size);
      longer := longer + [R.LoseDownload(path)];
    }
  }

  /** A handled download is a run of the steps in which downloads and other jobs interleave, and
      it ends with the table that the handler leaves, whether or not the video was rare. */
  lemma DownloadIsRun(disk: map<string, nat>, videos: map<int, Video>, id: int, cache: Snapshot, a: Attempt)
    returns (run: seq<R.Action>)
    requires id in videos && (cache.initialized || a.seeds)
    ensures var rare, after := Rare(videos), Rare(VideosAfter(videos, id, a));
      Leads(R.Plain(disk, rare, cache, map[], R.NoCleanup, R.NoCheck), run, DiskAfter(disk, videos[id].path, a),
            after, CacheAfter(cache, disk, videos[id].path, |rare|, |after|, a))
  {
    hide R.Ok, R.Exec, AboutTo, Leads, R.Plain, Total, ApplyDelta, Rare, DiskAfter;
    var rare, path := Rare(videos), videos[id].path;
    var start := R.Plain(disk, rare, cache, map[], R.NoCleanup, R.NoCheck);
    var ensured := Ensured(cache, disk, |rare|, true);
    assert ensured == Ensured(cache, disk, |rare|, a.seeds);
    RareLeft(videos, id, StateAfter(a));
    run := BeginsAsRun(disk, rare, cache, path);
    SetsState(start, run, disk, rare, ensured, path, id);
    run := TransferIsRun(start, run + [R.SetState(path, id)], disk, rare - {id}, ensured, path, id, a);
  }

  /** The cache is set and agrees with the disk. */
  ghost predicate Agrees(cache: Snapshot, disk: map<string, nat>) {
    cache.initialized && cache.usedBytes == Total(disk) && cache.fileCount == |disk|
  }

  /**
     A download to a free path leaves a cache that agrees with the disk, whatever becomes of it,
     if and only if the cache was set or could be seeded and, for a saved file, the final state
     could be set and a count that was needed worked.
   */
  lemma DownloadKeepsTotals(disk: map<string, nat>, rareBefore: nat, rareAfter: nat, cache: Snapshot,
      path: string, a: Attempt)
    requires path !in disk && (cache.initialized ==> Agrees(cache, disk))
    ensures Agrees(CacheAfter(cache, disk, path, rareBefore, rareAfter, a), DiskAfter(disk, path, a)) <==>
      (cache.initialized || a.seeds) && (Saved(a) ==> a.closes && (a.recounts || !cache.dirtyRare))
  {
    if a.waits && a.fetch.Fetched? {
      TotalWith(disk, path, a.fetch.size);
      SizeWith(disk, path, a.fetch.size);
      assert disk - {path} == disk;
    }
  }

  /** When the cache is unset and seeding fails, applying the delta scans a disk that already holds
      the new file and adds it once more. */
  lemma FailedSeedingCountsTwice(disk: map<string, nat>, rareBefore: nat, rareAfter: nat, cache: Snapshot,
      path: string, a: Attempt)
    requires !cache.initialized && !a.seeds && Succeeds(a) && a.recounts
    ensures var c, after := CacheAfter(cache, disk, path, rareBefore, rareAfter, a), DiskAfter(disk, path, a);
      c.initialized && c.usedBytes == Total(after) + a.fetch.size && c.fileCount == |after| + 1
  {
    var ensured, after := Ensured(cache, disk, rareBefore, a.seeds), DiskAfter(disk, path, a);
    assert ensured == cache && after == disk[path := a.fetch.size];
  }

  /** A rare count that is held is right or marked for a recount. */
  predicate CountIsGood(cache: Snapshot, rare: nat) {
    cache.initialized ==> cache.dirtyRare || cache.rareVideos == rare
  }

  /** A download takes a rare video out of the database's rare videos without marking the cache:
      a good count stays good exactly when the video was not rare, the cache was marked already,
      or it was not set and could not be seeded. */
  lemma DownloadKeepsRareCount(disk: map<string, nat>, videos: map<int, Video>, id: int, cache: Snapshot, a: Attempt)
    requires id in videos && CountIsGood(cache, |Rare(videos)|)
    ensures var after := |Rare(VideosAfter(videos, id, a))|;
      CountIsGood(CacheAfter(cache, disk, videos[id].path, |Rare(videos)|, after, a), after) <==>
        videos[id].state != "OUT_OF_PRINT" || cache.dirtyRare || (!cache.initialized && !a.seeds)
  {
    hide Rare, Total, DiskAfter;
    RareLeft(videos, id, StateAfter(a));
  }

  // ---- The check job -------------------------------------------------------------------------

  /** One video of the listing: whether the limiters let the check through, what the platform
      says, and whether the result can be saved. */
  datatype Probe = Probe(id: int, waits: bool, available: Option<bool>, saved: bool)

  /** The probes up to the first one that the limiters stop. */
  function LetThrough(probes: seq<Probe>): seq<Probe> {
    if probes == [] || !probes[0].waits then [] else [probes[0]] + LetThrough(probes[1..])
  }

  predicate Counts(videos: map<int, Video>, p: Probe) {
    p.id in videos && p.available.Some? && p.saved
  }

  function Checked(videos: map<int, Video>, p: Probe, cutoff: int): map<int, Video> {
    if Counts(videos, p) then
      var v := videos[p.id];
      videos[p.id := v.(state := Verdict(v, p.available.value, cutoff))]
    else videos
  }

  function CheckedAll(videos: map<int, Video>, probes: seq<Probe>, cutoff: int): map<int, Video> {
    if probes == [] then videos
    else Checked(CheckedAll(videos, probes[..|probes| - 1], cutoff), probes[|probes| - 1], cutoff)
  }

  /** The cache is marked by every check that makes a video rare or no longer rare. */
  function Marked(videos: map<int, Video>, cache: Snapshot, p: Probe, cutoff: int): Snapshot {
    if Counts(videos, p) then
      var v := videos[p.id];
      MarkRare(cache, v.state == "OUT_OF_PRINT", Verdict(v, p.available.value, cutoff) == "OUT_OF_PRINT")
    else cache
  }

  function MarkedAll(videos: map<int, Video>, cache: Snapshot, probes: seq<Probe>, cutoff: int): Snapshot {
    if probes == [] then cache
    else
      var front := probes[..|probes| - 1];
      Marked(CheckedAll(videos, front, cutoff), MarkedAll(videos, cache, front, cutoff), probes[|probes| - 1], cutoff)
  }

  /** The probes that go ahead are all before the first one that the limiters stop. */
  lemma {:induction false} LetThroughExact(probes: seq<Probe>) returns (n: nat)
    ensures n <= |probes| && LetThrough(probes) == probes[..n]
    ensures forall i :: 0 <= i < n ==> probes[i].waits
    ensures n < |probes| ==> !probes[n].waits
  {
    n := 0;
    if probes != [] && probes[0].waits {
      var m := LetThroughExact(probes[1..]);
      n := m + 1;
      assert probes[..n] == [probes[0]] + probes[1..][..m];
    }
  }

  lemma {:induction false} CheckSparesOthers(videos: map<int, Video>, probes: seq<Probe>, cutoff: int, id: int)
    requires forall i :: 0 <= i < |probes| ==> probes[i].id != id
    ensures Look(CheckedAll(videos, probes, cutoff), id) == Look(videos, id)
  {
    if probes != [] {
      CheckSparesOthers(videos, probes[..|probes| - 1], cutoff, id);
    }
  }

  /**
     What a check makes of each video that it lists once: out of print if the platform no longer has
     it, stable if it has and the video was published before the cutoff, and otherwise, or when the
     probe fails or its result cannot be saved, what it was.
   */
  lemma {:induction false} CheckDecides(videos: map<int, Video>, probes: seq<Probe>, cutoff: int, i: nat)
    requires i < |probes| && probes[i].id in videos
    requires forall j, k :: 0 <= j < k < |probes| ==> probes[j].id != probes[k].id
    ensures probes[i].id in CheckedAll(videos, probes, cutoff)
    ensures var p := probes[i];
      var was, after := videos[p.id], CheckedAll(videos, probes, cutoff)[p.id];
      var past := was.published.Some? && was.published.value < cutoff;
      && after == was.(state := after.state)
      && (p.saved && p.available == Some(false) ==> after.state == "OUT_OF_PRINT")
      && (p.saved && p.available == Some(true) && past ==> after.state == "STABLE")
      && (!p.saved || p.available.None? || (p.available == Some(true) && !past) ==> after.state == was.state)
  {
    var n := |probes| - 1;
    if i < n {
      CheckDecides(videos, probes[..n], cutoff, i);
    } else {
      CheckSparesOthers(videos, probes[..n], cutoff, probes[n].id);
    }
  }

  lemma NoProbe(videos: map<int, Video>, cache: Snapshot, probes: seq<Probe>, cutoff: int)
    ensures CheckedAll(videos, probes[..0], cutoff) == videos && MarkedAll(videos, cache, probes[..0], cutoff) == cache
    ensures LetThrough(probes) == probes[..0] + LetThrough(probes[0..])
    ensures probes[..|probes|] + LetThrough(probes[|probes|..]) == probes
  {
    assert probes[0..] == probes && [] + LetThrough(probes) == LetThrough(probes);
    assert probes[|probes|..] == [];
  }

  lemma OneProbe(videos: map<int, Video>, cache: Snapshot, probes: seq<Probe>, i: nat, cutoff: int)
    requires i < |probes|
    ensures CheckedAll(videos, probes[..i + 1], cutoff)
      == Checked(CheckedAll(videos, probes[..i], cutoff), probes[i], cutoff)
    ensures MarkedAll(videos, cache, probes[..i + 1], cutoff)
      == Marked(CheckedAll(videos, probes[..i], cutoff), MarkedAll(videos, cache, probes[..i], cutoff),
                probes[i], cutoff)
    ensures probes[..i] + LetThrough(probes[i..])
      == if probes[i].waits then probes[..i + 1] + LetThrough(probes[i + 1..]) else probes[..i]
  {
    assert probes[..i + 1][..i] == probes[..i];
    assert probes[i..][0] == probes[i] && probes[i..][1..] == probes[i + 1..];
  }

  /** A check job is a run of the steps, each write followed by its mark. */
  lemma {:induction false} CheckIsRun(disk: map<string, nat>, videos: map<int, Video>, cache: Snapshot,
      probes: seq<Probe>, cutoff: int)
    returns (run: seq<R.Action>)
    ensures Leads(R.Plain(disk, Rare(videos), cache, map[], R.NoCleanup, R.NoCheck), run,
                  disk, Rare(CheckedAll(videos, probes, cutoff)), MarkedAll(videos, cache, probes, cutoff))
    decreases |probes|
  {
    var start := R.Plain(disk, Rare(videos), cache, map[], R.NoCleanup, R.NoCheck);
    run := [];
    if probes != [] {
      var front, p := probes[..|probes| - 1], probes[|probes| - 1];
      run := CheckIsRun(disk, videos, cache, front, cutoff);
      var before, c := CheckedAll(videos, front, cutoff), MarkedAll(videos, cache, front, cutoff);
      if Counts(before, p) {
        run := CheckStep(start, run, disk, before, c, p, cutoff);
      }
    }
  }

  lemma CheckStep(start: R.State, run: seq<R.Action>, disk: map<string, nat>, videos: map<int, Video>,
      cache: Snapshot, p: Probe, cutoff: int)
    returns (longer: seq<R.Action>)
    requires Leads(start, run, disk, Rare(videos), cache) && Counts(videos, p)
    ensures Leads(start, longer, disk, Rare(Checked(videos, p, cutoff)), Marked(videos, cache, p, cutoff))
  {
    hide R.Ok, R.Exec;
    var was := videos[p.id].state == "OUT_OF_PRINT";
    var rare := Verdict(videos[p.id], p.available.value, cutoff) == "OUT_OF_PRINT";
    hide Verdict;
    R.Continues(start, run, R.CheckWrite(p.id, was, rare));
    R.Continues(start, run + [R.CheckWrite(p.id, was, rare)], R.CheckMark);
    longer := run + [R.CheckWrite(p.id, was, rare)] + [R.CheckMark];
    RareFollows(videos, p, cutoff);
  }

  lemma RareFollows(videos: map<int, Video>, p: Probe, cutoff: int)
    requires Counts(videos, p)
    ensures var rare := Verdict(videos[p.id], p.available.value, cutoff) == "OUT_OF_PRINT";
      Rare(Checked(videos, p, cutoff)) == if rare then Rare(videos) + {p.id} else Rare(videos) - {p.id}
  {
  }

  /** A check job leaves a rare count that is right, or marked for a recount, as it found it. */
  lemma {:induction false} CheckKeepsRareCount(videos: map<int, Video>, cache: Snapshot, probes: seq<Probe>,
      cutoff: int)
    requires cache.dirtyRare || cache.rareVideos == |Rare(videos)|
    ensures var c := MarkedAll(videos, cache, probes, cutoff);
      c.dirtyRare || c.rareVideos == |Rare(CheckedAll(videos, probes, cutoff))|
    decreases |probes|
  {
    hide Verdict, Rare;
    if probes != [] {
      var front, p := probes[..|probes| - 1], probes[|probes| - 1];
      CheckKeepsRareCount(videos, cache, front, cutoff);
      var before := CheckedAll(videos, front, cutoff);
      if Counts(before, p) {
        RareFollows(before, p, cutoff);
        RareMember(before, p.id);
      }
    }
  }

  lemma RareMember(videos: map<int, Video>, id: int)
    requires id in videos
    ensures videos[id].state == "OUT_OF_PRINT" ==> Rare(videos) + {id} == Rare(videos)
    ensures videos[id].state != "OUT_OF_PRINT" ==> Rare(videos) - {id} == Rare(videos)
  {
  }

  /** scanStorageUsage over the files of the store. */
  method ScanStorage(disk: map<string, nat>) returns (used: nat, files: nat)
    ensures used == Total(disk) && files == |disk|
  {
    used, files := 0, 0;
    var rest := disk;
    while rest != map[]
      invariant used + Total(rest) == Total(disk) && files + |rest| == |disk|
      decreases |rest|
    {
      var path :| path in rest;
      TotalWithout(rest, path);
      SizeWithout(rest, path);
      used := used + rest[path];
      files := files + 1;
      rest := rest - {path};
    }
  }

  class Handler {
    const cache: Cache
    var disk: map<string, nat>
    var videos: map<int, Video>
    var records: seq<Record>

    constructor (cache: Cache)
      ensures this.cache == cache && disk == map[] && videos == map[] && records == []
    {
      this.cache := cache;
      disk, videos, records := map[], map[], [];
    }

    /** ensureStorageSnapshotInitialized; a failed count leaves the cache unset. */
    method EnsureSnapshot(seeds: bool)
      modifies cache
      ensures cache.Now() == Ensured(old(cache.Now()), disk, |Rare(videos)|, seeds)
    {
      if cache.initialized {
        return;
      }
      var used, files := ScanStorage(disk);
      if seeds {
        cache.SeedIfUnset(used, files, |Rare(videos)|);
      }
    }

    /** A stored file is left alone; otherwise the download is attempted. */
    method HandleDownload(id: int, a: Attempt) returns (outcome: Outcome)
      modifies this, cache
      ensures outcome.NotFound? <==> id !in old(videos)
      ensures outcome.Already? <==>
        && id in old(videos) && old(videos)[id].state == "DOWNLOADED"
        && old(videos)[id].path in old(disk) && old(disk)[old(videos)[id].path] > 0
      ensures outcome.NotFound? || outcome.Already? ==> unchanged(this) && unchanged(cache)
      ensures outcome.Done? ==> Succeeds(a)
      ensures outcome.Failed? ==> !Succeeds(a)
      ensures outcome.Failed? || outcome.Done? ==> videos == VideosAfter(old(videos), id, a)
      ensures outcome.Failed? || outcome.Done? ==>
        && videos == old(videos)[id := old(videos)[id].(state := videos[id].state)]
        && EndsAsMet(a, videos[id].state)
      ensures outcome.Failed? || outcome.Done? ==> records == RecordsAfter(old(records), id, old(videos)[id], a)
      ensures outcome.Failed? || outcome.Done? ==> disk == DiskAfter(old(disk), old(videos)[id].path, a)
      ensures outcome.Failed? || outcome.Done? ==>
        cache.Now() == CacheAfter(old(cache.Now()), old(disk), old(videos)[id].path,
                                  |Rare(old(videos))|, |Rare(videos)|, a)
    {
      if id !in videos {
        return NotFound;
      }
      var video := videos[id];
      if video.state == "DOWNLOADED" {
        if video.path in disk && disk[video.path] > 0 {
          return Already;
        }
        DeleteRecords(id);
      }
      outcome := Transfer(id, a);
    }

    method Transfer(id: int, a: Attempt) returns (outcome: Outcome)
      requires id in videos
      modifies this, cache
      ensures outcome == if Succeeds(a) then Done else Failed
      ensures videos == VideosAfter(old(videos), id, a)
      ensures videos == old(videos)[id := old(videos)[id].(state := videos[id].state)]
      ensures EndsAsMet(a, videos[id].state)
      ensures records == old(records) + (if Saved(a) then [Record(id, old(videos)[id].path, a.fetch.size)] else [])
      ensures disk == DiskAfter(old(disk), old(videos)[id].path, a)
      ensures cache.Now() == CacheAfter(old(cache.Now()), old(disk), old(videos)[id].path,
                                        |Rare(old(videos))|, |Rare(videos)|, a)
    {
      hide ApplyDelta, Rare, Ensured;
      var video := videos[id];
      var dst := video.path;
      EnsureSnapshot(a.seeds);
      videos := videos[id := video.(state := "DOWNLOADING")];
      if !a.waits || !a.fetch.Fetched? {
        videos := videos[id := video.(state := if a.waits && a.fetch.Refused? then "FAILED" else "NEW")];
        return Failed;
      }
      disk := disk[dst := a.fetch.size];
      if !a.records {
        disk := disk - {dst};
        videos := videos[id := video.(state := "NEW")];
        return Failed;
      }
      records := records + [Record(id, dst, a.fetch.size)];
      if !a.closes {
        return Failed;
      }
      videos := videos[id := video.(state := "DOWNLOADED")];
      PublishStorageChanged(a);
      return Done;
    }

    /** The delta of a finished download; if it cannot be applied that is only logged. */
    method PublishStorageChanged(a: Attempt)
      requires a.fetch.Fetched?
      modifies cache
      ensures var was := old(cache.Now());
        cache.Now() == if Delivers(was, a.recounts)
                       then ApplyDelta(was, Delta(a.fetch.size, 1, 0), Total(disk), |disk|, |Rare(videos)|)
                       else was
    {
      var used, files := 0, 0;
      if !cache.initialized {
        used, files := ScanStorage(disk);
      }
      var counted := if a.recounts then Some(|Rare(videos)|) else None;
      var ok := cache.ApplyStorageDelta(Delta(a.fetch.size, 1, 0), Some((used, files)), counted);
    }

    method DeleteRecords(video: int)
      modifies this`records
      ensures records == Without(old(records), video)
      ensures forall r: Record :: multiset(records)[r] == if r.video == video then 0 else multiset(old(records))[r]
    {
      ghost var all := records;
      var kept := [];
      for i := 0 to |records|
        invariant records == all && kept == Without(records[..i], video)
      {
        assert records[..i + 1][..i] == records[..i];
        if records[i].video != video {
          kept := kept + [records[i]];
        }
      }
      assert records[..|records|] == records;
      records := kept;
      forall r: Record ensures multiset(kept)[r] == if r.video == video then 0 else multiset(all)[r] {
        WithoutExact(all, video, r);
      }
    }

    /** The listing holds rows of the table, each once. */
    method HandleCheck(probes: seq<Probe>, cutoff: int) returns (ok: bool)
      requires forall i :: 0 <= i < |probes| ==> probes[i].id in videos
      modifies `videos, cache
      ensures videos == CheckedAll(old(videos), LetThrough(probes), cutoff)
      ensures cache.Now() == MarkedAll(old(videos), old(cache.Now()), LetThrough(probes), cutoff)
      ensures ok <==> forall p :: p in probes ==> p.waits && p.available.Some? && p.saved
    {
      hide Verdict, CheckedAll, MarkedAll, LetThrough;
      ok := true;
      NoProbe(old(videos), old(cache.Now()), probes, cutoff);
      for i := 0 to |probes|
        invariant videos.Keys == old(videos).Keys
        invariant LetThrough(probes) == probes[..i] + LetThrough(probes[i..])
        invariant videos == CheckedAll(old(videos), probes[..i], cutoff)
        invariant cache.Now() == MarkedAll(old(videos), old(cache.Now()), probes[..i], cutoff)
        invariant ok <==> forall p :: p in probes[..i] ==> p.waits && p.available.Some? && p.saved
      {
        var p := probes[i];
        assert p in probes && probes[..i + 1] == probes[..i] + [p];
        OneProbe(old(videos), old(cache.Now()), probes, i, cutoff);
        if !p.waits {
          return false;
        }
        if p.available.None? || !p.saved {
          ok := false;
          continue;
        }
        var video := videos[p.id];
        var newState := Verdict(video, p.available.value, cutoff);
        videos := videos[p.id := video.(state := newState)];
        cache.SyncRareOnCheck(video.state, newState);
      }
      assert probes[..|probes|] == probes;
    }
  }
}
