/**
 The job system with the look-up and the insert of Enqueue as two steps, the way the program
 issues them, so that several callers may look before any of them inserts.
 */
module EnqueueRace {
  import opened Common
  import opened JobTable

  datatype Ask = Ask(kind: Kind, video: Option<int>, notBefore: Option<int>)

  /** asked: the callers whose look-up found no active job and who will insert. */
  datatype Race = Race(sys: State, asked: map<int, Ask>)

  datatype Move =
    | Look(caller: int, ask: Ask)
    | Insert(caller: int)
    | Other(action: Action)   // any step of the job system but a whole enqueue

  predicate Allowed(r: Race, m: Move) {
    match m
    case Look(caller, _) => caller !in r.asked
    case Insert(caller) => caller in r.asked
    case Other(action) => !action.Enqueue? && Enabled(r.sys, action)
  }

  function Asked(a: Ask): Job {
    NewJob(a.kind, Queued, a.video, a.notBefore)
  }

  /** A look-up that finds an active job ends the call with ErrJobAlreadyActive. */
  function Moved(r: Race, m: Move): Race
    requires Allowed(r, m)
  {
    match m
    case Look(caller, ask) =>
      if HasActive(r.sys.jobs, ask.kind, ask.video) then r else r.(asked := r.asked[caller := ask])
    case Insert(caller) =>
      var s := r.sys;
      Race(s.(jobs := s.jobs[s.nextID := Asked(r.asked[caller])], nextID := s.nextID + 1), r.asked - {caller})
    case Other(action) => r.(sys := Apply(r.sys, action))
  }

  predicate Possible(r: Race, run: seq<Move>)
    decreases |run|
  {
    run == [] || (Allowed(r, run[0]) && Possible(Moved(r, run[0]), run[1..]))
  }

  function End(r: Race, run: seq<Move>): Race
    requires Possible(r, run)
    decreases |run|
  {
    if run == [] then r else End(Moved(r, run[0]), run[1..])
  }

  ghost predicate Start(r: Race) {
    Init(r.sys) && r.asked == map[]
  }

  // ---- When rivals arise ---------------------------------------------------------------------

  ghost predicate FreshIds(s: State) {
    forall id :: id in s.jobs ==> id < s.nextID
  }

  /** An active job of the table rivals the one that is asked for. */
  predicate Contested(t: Table, a: Ask) {
    exists id :: id in t && Active(t[id]) && Rivals(t[id], Asked(a))
  }

  /** For every request but a download that names no video this is what the look-up tests. */
  lemma ContestedIsLookup(t: Table, a: Ask)
    ensures Contested(t, a) ==> HasActive(t, a.kind, a.video)
    ensures HasActive(t, a.kind, a.video) && (a.kind.Download? ==> Names(a.video)) ==> Contested(t, a)
  {
    if id :| id in t && Active(t[id]) && Rivals(t[id], Asked(a)) {
      assert t[id].kind == a.kind;
    }
    var named := a.kind.Download? && Names(a.video);
    if id :| id in t && Active(t[id]) && t[id].kind == a.kind && (named ==> t[id].video == a.video) {
      assert (a.kind.Download? ==> Names(a.video)) ==> Rivals(t[id], Asked(a));
    }
  }

  /** An insert keeps the table free of rivals if and only if no active rival exists when it is done. */
  lemma InsertKeepsNoRivals(r: Race, caller: int)
    requires FreshIds(r.sys) && NoRivals(r.sys.jobs) && caller in r.asked
    ensures NoRivals(Moved(r, Insert(caller)).sys.jobs) <==> !Contested(r.sys.jobs, r.asked[caller])
  {
    hide Rivals;
    var t, n, job := r.sys.jobs, r.sys.nextID, Asked(r.asked[caller]);
    var after := t[n := job];
    forall id | id in t ensures Rivals(t[id], job) == Rivals(job, t[id]) {
      RivalsBothWays(t[id], job);
    }
    if id :| id in t && Active(t[id]) && Rivals(t[id], job) {
      assert id != n && after[id] == t[id] && after[n] == job;
    } else {
      forall i, j | i in after && j in after && i != j && Active(after[i]) && Active(after[j])
        ensures !Rivals(after[i], after[j])
      {
        assert i != n && j != n ==> !Rivals(t[i], t[j]);
      }
    }
  }

  lemma RivalsBothWays(a: Job, b: Job)
    ensures Rivals(a, b) == Rivals(b, a)
  {
  }

  /** No other step of the job system makes rivals. */
  lemma OthersKeepNoRivals(s: State, a: Action)
    requires FreshIds(s) && NoRivals(s.jobs) && Enabled(s, a) && !a.Enqueue?
    ensures FreshIds(Apply(s, a)) && NoRivals(Apply(s, a).jobs)
  {
    var t := Apply(s, a).jobs;
    forall i, j | i in t && j in t && i != j && Active(t[i]) && Active(t[j]) ensures !Rivals(t[i], t[j]) {
      assert Active(s.jobs[i]) && Active(s.jobs[j]);
      assert !Rivals(s.jobs[i], s.jobs[j]);
    }
  }

  /** Every insert of the run finds no active rival. */
  predicate Uncontested(r: Race, run: seq<Move>)
    requires Possible(r, run)
    decreases |run|
  {
    run == []
    || ((run[0].Insert? ==> !Contested(r.sys.jobs, r.asked[run[0].caller]))
        && Uncontested(Moved(r, run[0]), run[1..]))
  }

  /** No state of the run has rivals. */
  ghost predicate NeverRivals(r: Race, run: seq<Move>)
    requires Possible(r, run)
    decreases |run|
  {
    NoRivals(r.sys.jobs) && (run == [] || NeverRivals(Moved(r, run[0]), run[1..]))
  }

  lemma MoveKeepsFresh(r: Race, m: Move)
    requires FreshIds(r.sys) && NoRivals(r.sys.jobs) && Allowed(r, m)
    ensures FreshIds(Moved(r, m).sys)
    ensures NoRivals(Moved(r, m).sys.jobs) <==> (m.Insert? ==> !Contested(r.sys.jobs, r.asked[m.caller]))
  {
    hide NoRivals, Contested;
    match m
    case Insert(caller) => InsertKeepsNoRivals(r, caller);
    case Other(action) => OthersKeepNoRivals(r.sys, action);
    case Look(_, _) =>
  }

  /** With look-up and insert apart, a run stays free of rivals if and only if every insert finds
      no active rival at the moment it is done, whatever its look-up found before. */
  lemma {:induction false} RaceIsExact(r: Race, run: seq<Move>)
    requires FreshIds(r.sys) && NoRivals(r.sys.jobs) && Possible(r, run)
    ensures NeverRivals(r, run) <==> Uncontested(r, run)
    decreases |run|
  {
    hide NoRivals, FreshIds, Contested, Moved, Allowed;
    if run != [] {
      MoveKeepsFresh(r, run[0]);
      if NoRivals(Moved(r, run[0]).sys.jobs) {
        RaceIsExact(Moved(r, run[0]), run[1..]);
      }
    }
  }

  // ---- A race that is lost -------------------------------------------------------------------

  lemma {:induction false} Extended(r: Race, run: seq<Move>, m: Move)
    requires Possible(r, run) && Allowed(End(r, run), m)
    ensures Possible(r, run + [m]) && End(r, run + [m]) == Moved(End(r, run), m)
    decreases |run|
  {
    hide Allowed, Moved;
    if run == [] {
      assert [m][1..] == [] && run + [m] == [m];
    } else {
      Extended(Moved(r, run[0]), run[1..], m);
      assert (run + [m])[1..] == run[1..] + [m];
    }
  }

  const BEGIN := Race(State(map[], 1, 0, false, map[]), map[])

  function TwoJobs(a: Ask): Table {
    map[1 := Asked(a), 2 := Asked(a)]
  }

  /** Both callers look, then both insert: two rivals, whatever they ask for. */
  lemma BothLookThenInsert(a: Ask) returns (run: seq<Move>)
    ensures Start(BEGIN) && Possible(BEGIN, run)
    ensures End(BEGIN, run) == Race(State(TwoJobs(a), 3, 0, false, map[]), map[])
    ensures !NoRivals(End(BEGIN, run).sys.jobs)
  {
    hide Allowed, Moved, NoRivals;
    run := [];
    LookClears(BEGIN, 1, a);
    Extended(BEGIN, run, Look(1, a));
    run := run + [Look(1, a)];
    LookClears(End(BEGIN, run), 2, a);
    Extended(BEGIN, run, Look(2, a));
    run := run + [Look(2, a)];
    Inserts(End(BEGIN, run), 1);
    Extended(BEGIN, run, Insert(1));
    run := run + [Insert(1)];
    Inserts(End(BEGIN, run), 2);
    Extended(BEGIN, run, Insert(2));
    run := run + [Insert(2)];
    assert End(BEGIN, run).asked == map[];
    assert End(BEGIN, run).sys.jobs == TwoJobs(a);
    TwoJobsAreRivals(a);
  }

  lemma LookClears(r: Race, caller: int, a: Ask)
    requires caller !in r.asked && r.sys.jobs == map[]
    ensures Allowed(r, Look(caller, a)) && Moved(r, Look(caller, a)) == r.(asked := r.asked[caller := a])
  {
  }

  lemma Inserts(r: Race, caller: int)
    requires caller in r.asked
    ensures Allowed(r, Insert(caller))
    ensures var s := r.sys;
      Moved(r, Insert(caller))
        == Race(s.(jobs := s.jobs[s.nextID := Asked(r.asked[caller])], nextID := s.nextID + 1), r.asked - {caller})
  {
  }

  lemma TwoJobsAreRivals(a: Ask)
    ensures !NoRivals(TwoJobs(a))
  {
    var t := TwoJobs(a);
    assert Active(t[1]) && Active(t[2]) && Rivals(t[1], t[2]);
  }

  /** And then two workers can be downloading the same video at once. */
  lemma RaceDoublesDownload(video: int) returns (run: seq<Move>)
    requires video > 0
    ensures Possible(BEGIN, run)
    ensures var s := End(BEGIN, run).sys; Downloading(s, 1, video) && Downloading(s, 2, video)
  {
    var a := Ask(Download, Some(video), None);
    run := BothLookThenInsert(a);
    var r := End(BEGIN, run);
    Extended(BEGIN, run, Other(StartWorkers));
    run := run + [Other(StartWorkers)];
    var r1 := Moved(r, Other(StartWorkers));
    assert r1 == Race(State(TwoJobs(a), 3, 0, true, map[]), map[]);
    Extended(BEGIN, run, Other(Claim(1, 1)));
    run := run + [Other(Claim(1, 1))];
    var r2 := Moved(r1, Other(Claim(1, 1)));
    assert r2.sys.jobs[2] == Asked(a) && r2.sys.workers == map[1 := 1];
    Extended(BEGIN, run, Other(Claim(2, 2)));
    run := run + [Other(Claim(2, 2))];
  }
}
