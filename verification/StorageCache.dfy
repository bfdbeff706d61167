/** The cached storage totals of the job handler and the disk they describe. */
module StorageCache {
  import opened Common

  datatype Snapshot = Snapshot(initialized: bool, usedBytes: int, fileCount: int, rareVideos: int, dirtyRare: bool)

  datatype Delta = Delta(usedBytes: int, fileCount: int, rareVideos: int)

  const UNSET := Snapshot(false, 0, 0, 0, false)

  function Floor(n: int): int {
    if n < 0 then 0 else n
  }

  /** How much the floor at zero adds. */
  function Cut(n: int): nat {
    if n < 0 then -n else 0
  }

  /** applyStorageDelta, all under the lock; scanned and counted are what the disk and the
      database hold while the lock is held. */
  function ApplyDelta(s: Snapshot, d: Delta, scannedBytes: nat, scannedFiles: nat, countedRare: nat): Snapshot {
    var refreshed := !s.initialized || s.dirtyRare;
    var base :=
      if !s.initialized then Snapshot(true, scannedBytes, scannedFiles, countedRare, false)
      else if s.dirtyRare then s.(rareVideos := countedRare, dirtyRare := false)
      else s;
    base.(usedBytes := Floor(base.usedBytes + d.usedBytes),
          fileCount := Floor(base.fileCount + d.fileCount),
          rareVideos := Floor(base.rareVideos + if refreshed then 0 else d.rareVideos))
  }

  /** The last locked part of seedStorageSnapshot. */
  function Seed(s: Snapshot, scannedBytes: nat, scannedFiles: nat, countedRare: nat): Snapshot {
    if s.initialized then s
    else Snapshot(true, scannedBytes, scannedFiles, countedRare, s.dirtyRare)
  }

  /** syncStorageRareVideosOnCheck. */
  function MarkRare(s: Snapshot, wasRare: bool, isRare: bool): Snapshot {
    if wasRare == isRare then s else s.(dirtyRare := true)
  }

  /** cleanupTarget: how many bytes a cleanup has to free. */
  function CleanupTarget(safe: int, max: int, used: nat): nat {
    var threshold := if safe <= 0 then max else safe;
    if threshold <= 0 || used <= threshold then 0 else used - threshold
  }

  class Cache {
    var initialized: bool
    var usedBytes: int
    var fileCount: int
    var rareVideos: int
    var dirtyRare: bool

    function Now(): Snapshot
      reads this
    {
      Snapshot(initialized, usedBytes, fileCount, rareVideos, dirtyRare)
    }

    constructor ()
      ensures Now() == UNSET
    {
      initialized, usedBytes, fileCount, rareVideos, dirtyRare := false, 0, 0, 0, false;
    }

    /** An unset cache needs a scan of the disk and a count, a marked one a count; if one that
        is needed fails, the cache stays as it is and the delta is lost. */
    method ApplyStorageDelta(d: Delta, scanned: Option<(nat, nat)>, counted: Option<nat>) returns (ok: bool)
      modifies this
      ensures ok <==> (old(initialized) || scanned.Some?) && ((old(initialized) && !old(dirtyRare)) || counted.Some?)
      ensures !ok ==> Now() == old(Now())
      ensures ok ==>
        Now() == ApplyDelta(old(Now()), d, OrElse(scanned, (0, 0)).0, OrElse(scanned, (0, 0)).1, OrElse(counted, 0))
    {
      var refreshedRare := false;
      if !initialized {
        if scanned.None? || counted.None? {
          return false;
        }
        var (used, files) := scanned.value;
        initialized, usedBytes, fileCount, rareVideos, dirtyRare := true, used, files, counted.value, false;
        refreshedRare := true;
      } else if dirtyRare {
        if counted.None? {
          return false;
        }
        rareVideos := counted.value;
        dirtyRare := false;
        refreshedRare := true;
      }
      usedBytes := usedBytes + d.usedBytes;
      fileCount := fileCount + d.fileCount;
      if !refreshedRare {
        rareVideos := rareVideos + d.rareVideos;
      }
      if usedBytes < 0 { usedBytes := 0; }
      if fileCount < 0 { fileCount := 0; }
      if rareVideos < 0 { rareVideos := 0; }
      return true;
    }

    method SeedIfUnset(scannedBytes: nat, scannedFiles: nat, countedRare: nat)
      modifies this
      ensures Now() == Seed(old(Now()), scannedBytes, scannedFiles, countedRare)
    {
      if !initialized {
        initialized, usedBytes, fileCount, rareVideos := true, scannedBytes, scannedFiles, countedRare;
      }
    }

    method SyncRareOnCheck(prevState: string, nextState: string)
      modifies this
      ensures Now() == MarkRare(old(Now()), prevState == "OUT_OF_PRINT", nextState == "OUT_OF_PRINT")
    {
      if prevState == nextState {
        return;
      }
      var prevRare := prevState == "OUT_OF_PRINT";
      var nextRare := nextState == "OUT_OF_PRINT";
      if prevRare == nextRare {
        return;
      }
      dirtyRare := true;
    }
  }

  // ---- Sums over the disk --------------------------------------------------------------

  ghost function Total<K(!new)>(m: map<K, nat>): nat
    decreases |m|
  {
    if m == map[] then 0
    else var k :| k in m; m[k] + Total(m - {k})
  }

  lemma {:induction false} TotalWithout<K(!new)>(m: map<K, nat>, k: K)
    requires k in m
    ensures Total(m) == m[k] + Total(m - {k})
    decreases |m|
  {
    var j :| j in m && Total(m) == m[j] + Total(m - {j});
    if j != k {
      assert k in m - {j} && j in m - {k};
      TotalWithout(m - {j}, k);
      TotalWithout(m - {k}, j);
      assert m - {j} - {k} == m - {k} - {j};
    }
  }

  lemma TotalWith<K(!new)>(m: map<K, nat>, k: K, n: nat)
    ensures Total(m[k := n]) == Total(m - {k}) + n
    ensures Total(m[k := n]) == Total(m) + n - (if k in m then m[k] else 0)
  {
    TotalWithout(m[k := n], k);
    assert m[k := n] - {k} == m - {k};
    if k in m {
      TotalWithout(m, k);
    } else {
      assert m - {k} == m;
    }
  }

  lemma SizeWithout<K(!new)>(m: map<K, nat>, k: K)
    requires k in m
    ensures |m - {k}| == |m| - 1
  {
    assert (m - {k}).Keys == m.Keys - {k};
  }

  lemma SizeWith<K(!new)>(m: map<K, nat>, k: K, n: nat)
    ensures |m[k := n]| == |m| + (if k in m then 0 else 1)
  {
    assert m[k := n].Keys == m.Keys + {k};
    assert |m.Keys| == |m| && |m[k := n].Keys| == |m[k := n]|;
  }

  lemma {:induction false} TotalOfPart<K(!new)>(part: map<K, nat>, m: map<K, nat>)
    requires forall k :: k in part ==> k in m && m[k] == part[k]
    ensures Total(part) <= Total(m) && |part| <= |m|
    decreases |part|
  {
    if part != map[] {
      var k :| k in part;
      TotalWithout(part, k);
      TotalWithout(m, k);
      SizeWithout(part, k);
      SizeWithout(m, k);
      TotalOfPart(part - {k}, m - {k});
    } else {
      assert |part| == 0;
    }
  }
}
