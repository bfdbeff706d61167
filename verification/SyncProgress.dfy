/** What whole runs of the library syncer guarantee: no lost update, no blocking, an end. */
module SyncProgress {
  import opened Common
  import opened LibrarySync
  import Q = WorkQueue

  lemma {:induction false} Extend(s: State, run: seq<Action>, a: Action)
    requires Ok(s, run) && Enabled(Exec(s, run), a)
    ensures Ok(s, run + [a]) && Exec(s, run + [a]) == Apply(Exec(s, run), a)
    decreases |run|
  {
    if run != [] {
      Extend(Apply(s, run[0]), run[1..], a);
      assert (run + [a])[1..] == run[1..] + [a];
    } else {
      assert [a][1..] == [];
    }
  }

  lemma {:induction false} Join(s: State, first: seq<Action>, second: seq<Action>)
    requires Ok(s, first) && Ok(Exec(s, first), second)
    ensures Ok(s, first + second) && Exec(s, first + second) == Exec(Exec(s, first), second)
    decreases |first|
  {
    if first == [] {
      assert first + second == second;
    } else {
      Join(Apply(s, first[0]), first[1..], second);
      assert (first + second)[1..] == first[1..] + second;
    }
  }

  lemma Two(s: State, a: Action, b: Action)
    requires Enabled(s, a) && Enabled(Apply(s, a), b)
    ensures Ok(s, [a, b]) && Exec(s, [a, b]) == Apply(Apply(s, a), b)
  {
    Extend(s, [], a);
    Extend(s, [a], b);
    assert [] + [a] == [a] && [a] + [b] == [a, b];
  }

  lemma Three(s: State, a: Action, b: Action, c: Action)
    requires Enabled(s, a) && Enabled(Apply(s, a), b) && Enabled(Apply(Apply(s, a), b), c)
    ensures Ok(s, [a, b, c]) && Exec(s, [a, b, c]) == Apply(Apply(Apply(s, a), b), c)
  {
    Two(s, a, b);
    Extend(s, [a, b], c);
    assert [a, b] + [c] == [a, b, c];
  }

  // ---- No lost update ----------------------------------------------------------------

  predicate QueueIdle(s: State) {
    s.events == [] && s.work.hand.None? && s.work.queue == [] && s.work.consumer.Idle?
  }

  predicate Quiescent(s: State) {
    QueueIdle(s) && !s.reconciling && s.unannounced == multiset{}
  }

  lemma QuiescentIsRight(s: State)
    requires Inv(s) && Quiescent(s)
    ensures forall id :: id > 0 && id !in s.waived ==> Right(s, id)
  {
    forall id | id > 0 && id !in s.waived ensures Right(s, id) {
      assert Covered(s, id);
    }
  }

  /** However changes, enqueues, rebuilds and reconciles interleave, once nothing is in flight
      every directory shows the source, except where a change was silent or dropped or a
      rebuild failed and nothing has repaired it since. */
  lemma NoLostUpdate(s: State, run: seq<Action>)
    requires Init(s) && Ok(s, run) && Quiescent(Exec(s, run))
    ensures var t := Exec(s, run); forall id :: id > 0 && id !in t.waived ==> Right(t, id)
  {
    InitHolds(s);
    RunKeepsInv(s, run);
    QuiescentIsRight(Exec(s, run));
  }

  predicate Faultless(a: Action) {
    !a.LookupFails? && !a.Fail? && !a.ReconFail? && (a.Change? ==> a.announced)
  }

  /** Only faults waive: with every change announced, room for every event and no failed
      rebuild, the set of waived creators never grows. */
  lemma {:induction false} WaivedNeverGrows(s: State, run: seq<Action>)
    requires Ok(s, run) && Exec(s, run).open
    requires forall a :: a in run ==> Faultless(a)
    ensures s.open && Exec(s, run).waived <= s.waived
    decreases |run|
  {
    if run != [] {
      assert run[0] in run;
      WaivedNeverGrows(Apply(s, run[0]), run[1..]);
    }
  }

  /** The step leaves the reconcile running and the creator's source as it is. */
  predicate KeepsCopy(a: Action, id: int) {
    !a.ReconEnd? && !a.ReconFail? && (a.Change? ==> a.id != id)
  }

  /** RebuildAll has begun to read the creator, and nothing of what it read is out of date. */
  predicate Current(s: State, id: int) {
    s.reconciling && id in s.copies && s.copies[id].value == Look(s.source, id)
  }

  lemma StepKeepsCopy(s: State, a: Action, id: int)
    requires Enabled(s, a) && KeepsCopy(a, id) && Current(s, id)
    ensures Current(Apply(s, a), id)
  {
  }

  lemma {:induction false} RunKeepsCopy(s: State, run: seq<Action>, id: int)
    requires Ok(s, run) && forall a :: a in run ==> KeepsCopy(a, id)
    requires Current(s, id)
    ensures Current(Exec(s, run), id)
    decreases |run|
  {
    hide Apply, Enabled;
    if run != [] {
      assert run[0] in run;
      StepKeepsCopy(s, run[0], id);
      RunKeepsCopy(Apply(s, run[0]), run[1..], id);
    }
  }

  /** A reconcile repairs a creator whatever had gone wrong before and whatever happens between
      its first query and its write, as long as the creator's source stays the same; and for good, unless
      the consumer is about to write an older copy. */
  lemma ReconcileRepairs(s: State, between: seq<Action>, id: int)
    requires s.reconciling && id > 0 && Ok(Apply(s, ReconFind(id)), between)
    requires forall a :: a in between ==> KeepsCopy(a, id)
    ensures var t := Exec(Apply(s, ReconFind(id)), between);
      && id in t.copies
      && (Enabled(t, ReconWrite(id)) <==> t.copies[id].Whole?)
      && (Enabled(t, ReconWrite(id)) ==> Right(Apply(t, ReconWrite(id)), id))
      && (Enabled(t, ReconWrite(id)) && !StaleCopy(t, id) ==> id !in Apply(t, ReconWrite(id)).waived)
  {
    hide Exec, Ok;
    RunKeepsCopy(Apply(s, ReconFind(id)), between, id);
  }

  // ---- No send blocks while the ids fit the channel -----------------------------------

  ghost predicate Within(s: State, ids: set<int>) {
    && (forall id :: id in s.events && id > 0 ==> id in ids)
    && s.work.marks.pending <= ids
    && s.work.marks.processing <= ids
  }

  ghost predicate AnnouncesOnly(run: seq<Action>, ids: set<int>) {
    forall a :: a in run && a.Announce? && a.id > 0 ==> a.id in ids
  }

  lemma StepStaysWithin(s: State, a: Action, ids: set<int>)
    requires Inv(s) && Enabled(s, a) && Within(s, ids)
    requires a.Announce? && a.id > 0 ==> a.id in ids
    ensures Within(Apply(s, a), ids)
  {
    match a
    case Handle =>
      assert s.events == [s.events[0]] + s.events[1..];
    case LookupFails =>
      assert s.events == [s.events[0]] + s.events[1..];
    case Begin =>
      assert s.work.consumer.id in s.work.marks.pending;
    case Finish =>
      assert s.work.consumer.id in s.work.marks.processing;
    case _ =>
  }

  lemma {:induction false} RunStaysWithin(s: State, run: seq<Action>, ids: set<int>)
    requires Inv(s) && Ok(s, run) && Within(s, ids) && AnnouncesOnly(run, ids)
    ensures Within(Exec(s, run), ids)
    decreases |run|
  {
    if run != [] {
      assert run[0] in run;
      StepStaysWithin(s, run[0], ids);
      StepKeepsInv(s, run[0]);
      RunStaysWithin(Apply(s, run[0]), run[1..], ids);
    }
  }

  predicate WantsToSend(s: State) {
    s.work.hand.Some? || s.work.consumer.Resending?
  }

  lemma RoomForToken(s: State, ids: set<int>)
    requires Inv(s) && Within(s, ids) && |ids| <= s.cap && WantsToSend(s)
    ensures |s.work.queue| < s.cap
  {
    Q.TokensArePending(s.work);
    SubsetSize(s.work.marks.pending, ids);
  }

  /** With no more creators than the channel holds, neither the event loop nor the consumer
      ever blocks on a send, in any reachable state. */
  lemma NoSendBlocks(s: State, run: seq<Action>, ids: set<int>)
    requires Init(s) && Ok(s, run) && AnnouncesOnly(run, ids) && |ids| <= s.cap
    requires WantsToSend(Exec(s, run))
    ensures |Exec(s, run).work.queue| < Exec(s, run).cap
  {
    InitHolds(s);
    RunKeepsInv(s, run);
    RunStaysWithin(s, run, ids);
    RoomForToken(Exec(s, run), ids);
  }

  // ---- The bound is tight -------------------------------------------------------------

  /** The only receiver waits to send to the full channel that only it can empty. */
  predicate Stuck(s: State) {
    s.work.consumer.Resending? && |s.work.queue| >= s.cap
  }

  /** No action of anyone ever frees a stuck consumer. */
  lemma {:induction false} StuckForever(s: State, run: seq<Action>)
    requires Stuck(s) && Ok(s, run)
    ensures Stuck(Exec(s, run)) && Exec(s, run).work.queue == s.work.queue
    decreases |run|
  {
    if run != [] {
      StuckForever(Apply(s, run[0]), run[1..]);
    }
  }

  function Start(cap: nat, evcap: nat): State {
    State(cap, evcap, map[], map[], multiset{}, true, [], Q.EMPTY, Unread, false, map[], {})
  }

  /** The consumer is rebuilding creator 1, already dirty, and k other creators wait. */
  ghost predicate Filling(s: State, k: nat) {
    && s.open && s.events == [] && AtSelect(s) && |s.work.queue| == k
    && s.work.consumer == Q.Building(1) && s.rebuild.Unread?
    && s.work.marks.dirty == {1} && s.work.marks.processing == {1}
    && forall id :: id in s.work.marks.pending ==> id <= k + 1
  }

  lemma FillOne(s: State, k: nat)
    requires Filling(s, k) && k < s.cap && s.evcap > 0
    ensures var run := [Announce(k + 2), Handle, Send]; Ok(s, run) && Filling(Exec(s, run), k + 1)
  {
    var s1 := Apply(s, Announce(k + 2));
    assert s1 == s.(unannounced := s1.unannounced, events := [k + 2]);
    var s2 := Apply(s1, Handle);
    assert s2.work == Q.Handle(s.work, k + 2);
    Three(s, Announce(k + 2), Handle, Send);
  }

  lemma FirstToken(s: State)
    requires s.cap > 0 && s.evcap > 0 && s == Start(s.cap, s.evcap)
    ensures Ok(s, [Announce(1), Handle, Send])
    ensures Exec(s, [Announce(1), Handle, Send]) == s.(work := Q.Work(Q.Marks({1}, {}, {}), [1], None, Q.Idle))
  {
    var s1 := Apply(s, Announce(1));
    assert s1 == s.(events := [1]);
    var s2 := Apply(s1, Handle);
    assert s2 == s.(work := Q.Work(Q.Marks({1}, {}, {}), [], Some(1), Q.Idle));
    Three(s, Announce(1), Handle, Send);
  }

  lemma FirstDirty(s: State)
    requires s.evcap > 0 && s.open && s.events == [] && !s.reconciling && s.unannounced == multiset{}
    requires s.work == Q.Work(Q.Marks({1}, {}, {}), [1], None, Q.Idle)
    ensures var run := [Receive, Begin] + [Announce(1), Handle]; Ok(s, run) && Filling(Exec(s, run), 0)
  {
    Two(s, Receive, Begin);
    var s2 := Exec(s, [Receive, Begin]);
    assert s2.work == Q.Work(Q.Marks({}, {1}, {}), [], None, Q.Building(1));
    var s3 := Apply(s2, Announce(1));
    assert s3.events == [1] && s3.work == s2.work;
    Two(s2, Announce(1), Handle);
    Join(s, [Receive, Begin], [Announce(1), Handle]);
  }

  lemma FillFirst(cap: nat, evcap: nat) returns (run: seq<Action>)
    requires cap > 0 && evcap > 0
    ensures Ok(Start(cap, evcap), run) && Filling(Exec(Start(cap, evcap), run), 0)
    ensures forall a :: a in run && a.Announce? ==> a.id == 1
  {
    var s := Start(cap, evcap);
    FirstToken(s);
    FirstDirty(Exec(s, [Announce(1), Handle, Send]));
    run := [Announce(1), Handle, Send] + ([Receive, Begin] + [Announce(1), Handle]);
    Join(s, [Announce(1), Handle, Send], [Receive, Begin] + [Announce(1), Handle]);
  }

  lemma Fill(cap: nat, evcap: nat, k: nat) returns (run: seq<Action>)
    requires 0 < cap && 0 < evcap && k <= cap
    ensures Ok(Start(cap, evcap), run) && Filling(Exec(Start(cap, evcap), run), k)
    ensures forall a :: a in run && a.Announce? ==> 1 <= a.id <= k + 1
  {
    if k == 0 {
      run := FillFirst(cap, evcap);
    } else {
      var before := Fill(cap, evcap, k - 1);
      var more := [Announce(k + 1), Handle, Send];
      InitHolds(Start(cap, evcap));
      RunKeepsInv(Start(cap, evcap), before);
      FillOne(Exec(Start(cap, evcap), before), k - 1);
      Join(Start(cap, evcap), before, more);
      run := before + more;
    }
  }

  /** One creator more than the channel holds is enough to stick the consumer for good: for
      every capacity there is a run that announces creators 1 to capacity + 1 and gets there. */
  lemma StuckIsReachable(cap: nat, evcap: nat) returns (run: seq<Action>)
    requires 0 < cap && 0 < evcap
    ensures Init(Start(cap, evcap)) && Ok(Start(cap, evcap), run) && Stuck(Exec(Start(cap, evcap), run))
    ensures forall a :: a in run && a.Announce? ==> 1 <= a.id <= cap + 1
  {
    var s := Start(cap, evcap);
    var before := Fill(cap, evcap, cap);
    InitHolds(s);
    RunKeepsInv(s, before);
    var t := Exec(s, before);
    var value := Look(t.source, 1);
    Two(t, FindCreator, Export(value));
    var u := Exec(t, [FindCreator, Export(value)]);
    Two(u, Write, Finish);
    Join(t, [FindCreator, Export(value)], [Write, Finish]);
    var rest := [FindCreator, Export(value)] + [Write, Finish];
    Join(s, before, rest);
    run := before + rest;
  }

  // ---- Draining -----------------------------------------------------------------------

  /** The steps of the event loop and the consumer, without new events and without a reconcile. */
  predicate Internal(a: Action) {
    || a.Handle? || a.LookupFails? || a.Send? || a.Receive? || a.Begin?
    || a.FindCreator? || a.Export? || a.Write? || a.Fail? || a.Finish? || a.Resend?
  }

  function ConsumerWork(s: State): nat {
    match s.work.consumer
    case Idle => 0
    case Received(_) => 8
    case Building(_) =>
      if s.rebuild.Unread? then 7 else if s.rebuild.Returned? then 4 else if s.rebuild.copy.Found? then 6 else 5
    case Resending(_) => 10
  }

  function Remaining(s: State): nat {
    11 * |s.events| + 9 * |s.work.queue| + 7 * |s.work.marks.dirty|
    + (if s.work.hand.Some? then 10 else 0) + ConsumerWork(s)
  }

  lemma FinishFalls(s: State)
    requires Inv(s) && Enabled(s, Finish)
    ensures Remaining(Apply(s, Finish)) < Remaining(s)
  {
    var id := s.work.consumer.id;
    if id in s.work.marks.dirty {
      assert |s.work.marks.dirty - {id}| == |s.work.marks.dirty| - 1;
    }
  }

  lemma HandleFalls(s: State)
    requires Inv(s) && Enabled(s, Handle)
    ensures Remaining(Apply(s, Handle)) < Remaining(s)
  {
  }

  /** Every internal step uses up some of the remaining work. */
  lemma InternalStepsFall(s: State, a: Action)
    requires Inv(s) && Enabled(s, a) && Internal(a)
    ensures Remaining(Apply(s, a)) < Remaining(s)
  {
    if a.Finish? {
      FinishFalls(s);
    } else if a.Handle? {
      HandleFalls(s);
    }
  }

  lemma {:induction false} InternalRunsAreShort(s: State, run: seq<Action>)
    requires Inv(s) && Ok(s, run) && forall a :: a in run ==> Internal(a)
    ensures |run| <= Remaining(s)
    decreases |run|
  {
    if run != [] {
      assert run[0] in run;
      InternalStepsFall(s, run[0]);
      StepKeepsInv(s, run[0]);
      InternalRunsAreShort(Apply(s, run[0]), run[1..]);
    }
  }

  /** While the ids fit the channel some goroutine can always move until the queue is idle. */
  lemma SomeoneCanMove(s: State, ids: set<int>)
    requires Inv(s) && Within(s, ids) && |ids| <= s.cap && !s.reconciling && !QueueIdle(s)
    ensures exists a :: Internal(a) && Enabled(s, a)
  {
    if WantsToSend(s) {
      RoomForToken(s, ids);
      assert Internal(Send) && Internal(Resend);
      assert Enabled(s, Send) || Enabled(s, Resend);
    } else if s.work.consumer.Idle? {
      assert Internal(Handle) && Internal(Receive);
      assert Enabled(s, Handle) || Enabled(s, Receive);
    } else if s.work.consumer.Received? {
      assert Internal(Begin) && Enabled(s, Begin);
    } else {
      var value := Look(s.source, s.work.consumer.id);
      assert Internal(FindCreator) && Internal(Export(value)) && Internal(Write) && Internal(Finish);
      assert Enabled(s, FindCreator) || Enabled(s, Export(value)) || Enabled(s, Write) || Enabled(s, Finish);
    }
  }

  lemma InternalStepStays(s: State, a: Action)
    requires Enabled(s, a) && Internal(a)
    ensures Apply(s, a).reconciling == s.reconciling && Apply(s, a).unannounced == s.unannounced
  {
  }

  lemma {:induction false} InternalRunsStay(s: State, run: seq<Action>)
    requires Ok(s, run) && forall a :: a in run ==> Internal(a)
    ensures Exec(s, run).reconciling == s.reconciling && Exec(s, run).unannounced == s.unannounced
    decreases |run|
  {
    hide Apply, Enabled, Internal;
    if run != [] {
      assert run[0] in run;
      InternalStepStays(s, run[0]);
      InternalRunsStay(Apply(s, run[0]), run[1..]);
    }
  }

  /** Once announcements stop, the event loop and the consumer finish in boundedly many steps,
      and when neither can move every directory that is not waived shows the source. */
  lemma Drains(s: State, before: seq<Action>, after: seq<Action>, ids: set<int>)
    requires Init(s)
    requires AnnouncesOnly(before, ids) && |ids| <= s.cap
    requires Ok(s, before) && !Exec(s, before).reconciling && Exec(s, before).unannounced == multiset{}
    requires Ok(Exec(s, before), after) && forall a :: a in after ==> Internal(a)
    ensures |after| <= Remaining(Exec(s, before))
    ensures var t := Exec(Exec(s, before), after);
      (forall a :: Internal(a) ==> !Enabled(t, a)) ==>
        Quiescent(t) && forall id :: id > 0 && id !in t.waived ==> Right(t, id)
  {
    var m := Exec(s, before);
    var t := Exec(m, after);
    InitHolds(s);
    RunKeepsInv(s, before);
    RunStaysWithin(s, before, ids);
    InternalRunsAreShort(m, after);
    RunKeepsInv(m, after);
    RunStaysWithin(m, after, ids);
    InternalRunsStay(m, after);
    if !QueueIdle(t) {
      SomeoneCanMove(t, ids);
    } else {
      QuiescentIsRight(t);
    }
  }
}
