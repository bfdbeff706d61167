/** One turn of a worker: claim a job, handle it, record how it ended. */
module Worker {
  import opened Common
  import opened Paging
  import opened JobTable

  class Worker {
    const repo: Repo

    constructor (repo: Repo)
      ensures this.repo == repo
    {
      this.repo := repo;
    }

    /**
     The handler's result is `succeeded`; `saved` is false when the final update fails, which
     is only logged. The claim happens at `now`, the update at `later`.
     */
    method ConsumeOnce(now: int, later: int, succeeded: bool, saved: bool) returns (claimed: Option<int>)
      modifies repo`jobs
      ensures claimed.None? <==> ClaimableIds(old(repo.jobs), now) == {}
      ensures claimed.Some? ==> IsLeast(ClaimableIds(old(repo.jobs), now), claimed.value)
      ensures repo.jobs.Keys == old(repo.jobs).Keys
      ensures forall id :: id in repo.jobs ==>
        var was := old(repo.jobs)[id];
        repo.jobs[id] ==
          if claimed != Some(id) then was
          else if saved then
            was.(status := if succeeded then Success else Failed, started := Some(now), finished := Some(later))
          else was.(status := Running, started := Some(now))
    {
      hide ClaimableIds;
      OneClaimed(ClaimableIds(repo.jobs, now));
      var ids := repo.FetchQueued(1, now);
      if |ids| == 0 {
        return None;
      }
      var id := ids[0];
      claimed := Some(id);
      assert id in ids;
      ClaimableRow(old(repo.jobs), now, id);
      if saved {
        repo.UpdateStatus(id, if succeeded then Success else Failed, later);
      }
    }
  }

  lemma OneClaimed(ids: set<int>)
    ensures Take(Ascending(ids), 1) == if ids == {} then [] else [Least(ids)]
  {
  }

  lemma ClaimableRow(t: Table, now: int, id: int)
    requires id in ClaimableIds(t, now)
    ensures id in t
  {
  }

  function Consumed(j: Job, now: int, later: int, succeeded: bool, saved: bool): Job {
    if saved then Updated(Claimed(j, now), if succeeded then Success else Failed, later) else Claimed(j, now)
  }

  /** A turn of a worker is a claim and a finish, so what holds of every run holds of it. */
  lemma TurnIsRun(s: State, worker: int, id: int, later: int, succeeded: bool, saved: bool)
    returns (run: seq<Action>)
    requires s.up && worker !in s.workers && id in s.jobs && Claimable(s.jobs[id], s.now) && later >= s.now
    ensures Ok(s, run) && Exec(s, run).workers.Keys == s.workers.Keys
    ensures Exec(s, run).jobs == s.jobs[id := Consumed(s.jobs[id], s.now, later, succeeded, saved)]
  {
    var finish := if saved then Finish(worker, succeeded) else LoseFinish(worker);
    run := [Claim(worker, id), Tick(later), finish];
    var s1 := Apply(s, Claim(worker, id));
    var s2 := Apply(s1, Tick(later));
    assert Enabled(s2, finish);
    var s3 := Apply(s2, finish);
    assert run[1..] == [Tick(later), finish] && run[1..][1..] == [finish] && run[1..][1..][1..] == [];
    assert [finish][1..] == [] && Ok(s3, []) && Exec(s3, []) == s3;
    assert Ok(s2, [finish]) && Exec(s2, [finish]) == s3;
    assert Ok(s1, run[1..]) && Exec(s1, run[1..]) == s3;
    assert s3.jobs == s.jobs[id := Consumed(s.jobs[id], s.now, later, succeeded, saved)];
  }
}
