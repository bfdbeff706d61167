/**
 The browsing directories (the view) against the database (the source) while writers change
 the source, the event loop and the consumer drive the work queue, and the periodic reconcile
 runs on the event loop. An action is one atomic step; a run is a sequence of actions.
 */
module LibrarySync {
  import opened Common
  import Q = WorkQueue

  /** What a creator's directory holds: nothing, or a projection named by a number. */
  type Projection = Option<nat>

  /** An export is two queries: the creator as it was at the first, then what both have read. If the
      source changed in between, the parts need not fit together, and the copy may be anything. */
  datatype Copy = Found(value: Projection) | Whole(value: Projection)

  /** How far the consumer's rebuild has come, while the consumer is Building. */
  datatype Rebuild = Unread | Copied(copy: Copy) | Returned

  datatype State = State(
    cap: nat,                        // capacity of the work queue
    evcap: nat,                      // capacity of the event subscription
    source: map<int, nat>,
    view: map<int, nat>,
    unannounced: multiset<int>,      // changed in the database, event not yet published
    open: bool,                      // the broker still holds the subscription
    events: seq<int>,                // subscription buffer; unrelated events carry an id <= 0
    work: Q.Work,
    rebuild: Rebuild,
    reconciling: bool,               // the event loop is inside RebuildAll
    copies: map<int, Copy>,          // what RebuildAll has read and may still write
    waived: set<int>)                // history: a change was silent or dropped, or a rebuild failed

  datatype Action =
    | Change(id: int, value: Projection, announced: bool)
    | Announce(id: int)
    | Handle
    | LookupFails
    | Send
    | Receive
    | Begin
    | FindCreator
    | Export(value: Projection)
    | Write
    | Fail(left: Projection)
    | Finish
    | Resend
    | ReconBegin
    | ReconFind(id: int)
    | ReconRead(id: int, value: Projection)
    | ReconWrite(id: int)
    | ReconRemove(id: int)           // the directory is not one that RebuildAll has seen
    | ReconFail(id: int, left: Projection)
    | ReconEnd

  /** The event loop is at its select. */
  predicate AtSelect(s: State) {
    !s.reconciling && s.work.hand.None?
  }

  /** What the second query may make of the copy. */
  predicate Completes(c: Copy, value: Projection, source: Projection) {
    c.Found? && (c.value == source ==> value == source)
  }

  predicate Enabled(s: State, a: Action) {
    match a
    case Change(id, _, _) => id > 0
    case Announce(_) => true
    case Handle => AtSelect(s) && s.events != []
    case LookupFails => AtSelect(s) && s.events != []
    case Send => s.work.hand.Some? && |s.work.queue| < s.cap
    case Receive => s.work.consumer.Idle? && s.work.queue != []
    case Begin => s.work.consumer.Received?
    case FindCreator => s.work.consumer.Building? && s.rebuild.Unread?
    case Export(value) =>
      && s.work.consumer.Building? && s.rebuild.Copied?
      && Completes(s.rebuild.copy, value, Look(s.source, s.work.consumer.id))
    case Write => s.work.consumer.Building? && s.rebuild.Copied? && s.rebuild.copy.Whole?
    case Fail(_) => s.work.consumer.Building? && !s.rebuild.Returned?
    case Finish => s.work.consumer.Building? && s.rebuild.Returned?
    case Resend => s.work.consumer.Resending? && |s.work.queue| < s.cap
    case ReconBegin => AtSelect(s)
    case ReconFind(id) => s.reconciling && id > 0
    case ReconRead(id, value) =>
      s.reconciling && id in s.copies && Completes(s.copies[id], value, Look(s.source, id))
    case ReconWrite(id) => s.reconciling && id in s.copies && s.copies[id].Whole?
    case ReconRemove(id) =>
      s.reconciling && id in s.copies && s.copies[id].Whole? && s.copies[id].value != Look(s.view, id)
    case ReconFail(id, _) => s.reconciling && id > 0
    case ReconEnd => s.reconciling
  }

  /** A copy of id, read before the source changed again, that may still be written. */
  predicate StaleCopy(s: State, id: int) {
    || (id in s.copies && s.copies[id].value != Look(s.source, id))
    || (s.work.consumer == Q.Building(id) && s.rebuild.Copied? && s.rebuild.copy.value != Look(s.source, id))
  }

  /** History only: a write that leaves the view right, with no stale copy about, lifts the waiver. */
  function Settle(s: State, id: int): State {
    if Look(s.view, id) == Look(s.source, id) && !StaleCopy(s, id)
    then s.(waived := s.waived - {id}) else s
  }

  function Positive(id: int): set<int> {
    if id > 0 then {id} else {}
  }

  function Apply(s: State, a: Action): State
    requires Enabled(s, a)
  {
    match a
    case Change(id, value, true) =>
      s.(source := Put(s.source, id, value), unannounced := s.unannounced + multiset{id})
    case Change(id, value, false) =>
      s.(source := Put(s.source, id, value), waived := s.waived + {id})
    case Announce(id) =>
      if s.open && |s.events| < s.evcap then
        s.(unannounced := s.unannounced - multiset{id}, events := s.events + [id])
      else
        s.(unannounced := s.unannounced - multiset{id}, open := false, waived := s.waived + Positive(id))
    case Handle =>
      s.(events := s.events[1..], work := Q.Handle(s.work, s.events[0]))
    case LookupFails =>
      s.(events := s.events[1..], waived := s.waived + Positive(s.events[0]))
    case Send => s.(work := Q.Send(s.work))
    case Receive => s.(work := Q.Receive(s.work))
    case Begin => s.(work := Q.Begin(s.work), rebuild := Unread)
    case FindCreator => s.(rebuild := Copied(Found(Look(s.source, s.work.consumer.id))))
    case Export(value) => s.(rebuild := Copied(Whole(value)))
    case Write =>
      var id := s.work.consumer.id;
      Settle(s.(view := Put(s.view, id, s.rebuild.copy.value), rebuild := Returned), id)
    case Fail(left) =>
      var id := s.work.consumer.id;
      s.(view := Put(s.view, id, left), rebuild := Returned, waived := s.waived + {id})
    case Finish => s.(work := Q.Finish(s.work))
    case Resend => s.(work := Q.Resend(s.work))
    case ReconBegin => s.(reconciling := true, copies := map[])
    case ReconFind(id) => s.(copies := s.copies[id := Found(Look(s.source, id))])
    case ReconRead(id, value) => s.(copies := s.copies[id := Whole(value)])
    case ReconWrite(id) => Settle(s.(view := Put(s.view, id, s.copies[id].value)), id)
    case ReconRemove(id) => s.(view := Put(s.view, id, None))
    case ReconFail(id, left) =>
      s.(view := Put(s.view, id, left), waived := s.waived + {id}, reconciling := false, copies := map[])
    case ReconEnd => s.(reconciling := false, copies := map[])
  }

  predicate Right(s: State, id: int) {
    Look(s.view, id) == Look(s.source, id)
  }

  ghost predicate Init(s: State) {
    && s.unannounced == multiset{} && s.events == [] && s.open
    && s.work == Q.EMPTY && !s.reconciling && s.copies == map[]
    && forall id :: id > 0 && id !in s.waived ==> Right(s, id)
  }

  predicate Ok(s: State, run: seq<Action>)
    decreases |run|
  {
    run == [] || (Enabled(s, run[0]) && Ok(Apply(s, run[0]), run[1..]))
  }

  function Exec(s: State, run: seq<Action>): State
    requires Ok(s, run)
    decreases |run|
  {
    if run == [] then s else Exec(Apply(s, run[0]), run[1..])
  }

  // ---- The invariant -----------------------------------------------------------------

  /** A later repair of id is still owed by someone outside the work queue, or waived. */
  predicate Owed(s: State, id: int) {
    id in s.unannounced || id in s.events || id in s.waived
  }

  /** The consumer has not read id yet, or what it read is still current. */
  predicate BeingRepaired(s: State, id: int) {
    && s.work.consumer == Q.Building(id)
    && (s.rebuild.Unread? || (s.rebuild.Copied? && s.rebuild.copy.value == Look(s.source, id)))
  }

  /** The directory of id is right, or something is under way that will make it right. */
  predicate Covered(s: State, id: int) {
    || Right(s, id)
    || Owed(s, id)
    || id in s.work.marks.pending
    || id in s.work.marks.dirty
    || BeingRepaired(s, id)
  }

  ghost predicate AllCovered(s: State) {
    forall id :: id > 0 ==> Covered(s, id)
  }

  /** A copy that RebuildAll holds is current, or an event that it keeps waiting is owed. */
  ghost predicate CopiesOwed(s: State) {
    forall id :: id in s.copies ==> s.reconciling && id > 0 && (s.copies[id].value == Look(s.source, id) || Owed(s, id))
  }

  /** The copy the consumer holds is current, or its creator will be rebuilt again. */
  ghost predicate CopyOwed(s: State) {
    s.work.consumer.Building? && s.rebuild.Copied? ==>
      var id := s.work.consumer.id;
      s.rebuild.copy.value == Look(s.source, id) || Owed(s, id) || id in s.work.marks.dirty
  }

  ghost predicate Inv(s: State) {
    && Q.Tidy(s.work)
    && |s.work.queue| <= s.cap && |s.events| <= s.evcap
    && (s.reconciling ==> s.work.hand.None?)
    && AllCovered(s) && CopiesOwed(s) && CopyOwed(s)
  }

  lemma InitHolds(s: State)
    requires Init(s)
    ensures Inv(s)
  {
    Q.EmptyIsTidy();
  }

  lemma StepKeepsTidy(s: State, a: Action)
    requires Inv(s) && Enabled(s, a)
    ensures Q.Tidy(Apply(s, a).work) && |Apply(s, a).work.queue| <= s.cap && |Apply(s, a).events| <= s.evcap
  {
    match a
    case Handle => Q.HandleKeepsTidy(s.work, s.events[0]);
    case Send => Q.SendKeepsTidy(s.work);
    case Receive => Q.ReceiveKeepsTidy(s.work);
    case Begin => Q.BeginKeepsTidy(s.work);
    case Finish => Q.FinishKeepsTidy(s.work);
    case Resend => Q.ResendKeepsTidy(s.work);
    case _ =>
  }

  lemma ChangeKeepsCover(s: State, changed: int, value: Projection, announced: bool)
    requires Inv(s) && changed > 0
    ensures var t := Apply(s, Change(changed, value, announced)); AllCovered(t) && CopiesOwed(t) && CopyOwed(t)
  {
    hide Q.Tidy;
    var t := Apply(s, Change(changed, value, announced));
    assert Owed(t, changed);
    assert t.view == s.view && t.work == s.work && t.rebuild == s.rebuild && t.copies == s.copies;
    forall id | id > 0 ensures Covered(t, id) {
      assert Covered(s, id);
      if id != changed {
        assert Look(t.source, id) == Look(s.source, id);
      }
    }
  }

  lemma EventKeepsCover(s: State, a: Action)
    requires Inv(s) && Enabled(s, a) && (a.Announce? || a.Handle? || a.LookupFails?)
    ensures var t := Apply(s, a); AllCovered(t) && CopiesOwed(t) && CopyOwed(t)
  {
    var t := Apply(s, a);
    if !a.Announce? {
      assert s.events == [s.events[0]] + s.events[1..];
    }
    forall id | id > 0 ensures Covered(t, id) {
      assert Covered(s, id);
    }
  }

  lemma QueueKeepsCover(s: State, a: Action)
    requires Inv(s) && Enabled(s, a) && (a.Begin? || a.Finish?)
    ensures var t := Apply(s, a); AllCovered(t) && CopiesOwed(t) && CopyOwed(t)
  {
    var t := Apply(s, a);
    forall id | id > 0 ensures Covered(t, id) {
      assert Covered(s, id);
    }
  }

  lemma RebuildKeepsCover(s: State, a: Action)
    requires Inv(s) && Enabled(s, a) && (a.FindCreator? || a.Export? || a.Write? || a.Fail?)
    ensures var t := Apply(s, a); AllCovered(t) && CopiesOwed(t) && CopyOwed(t)
  {
    hide Q.Tidy;
    var t := Apply(s, a);
    forall id | id > 0 ensures Covered(t, id) {
      assert Covered(s, id);
    }
  }

  lemma ReadingKeepsCover(s: State, a: Action)
    requires Inv(s) && Enabled(s, a) && (a.ReconFind? || a.ReconRead?)
    ensures var t := Apply(s, a); AllCovered(t) && CopiesOwed(t) && CopyOwed(t)
  {
    hide Q.Tidy;
    var t := Apply(s, a);
    forall id | id > 0 ensures Covered(t, id) {
      assert Covered(s, id);
    }
  }

  lemma WritingKeepsCover(s: State, a: Action)
    requires Inv(s) && Enabled(s, a) && (a.ReconWrite? || a.ReconRemove? || a.ReconFail?)
    ensures var t := Apply(s, a); AllCovered(t) && CopiesOwed(t) && CopyOwed(t)
  {
    hide Q.Tidy;
    var t := Apply(s, a);
    forall id | id > 0 ensures Covered(t, id) {
      assert Covered(s, id);
    }
  }

  lemma PassingKeepsCover(s: State, a: Action)
    requires Inv(s) && Enabled(s, a)
    requires a.Send? || a.Receive? || a.Resend? || a.ReconBegin? || a.ReconEnd?
    ensures var t := Apply(s, a); AllCovered(t) && CopiesOwed(t) && CopyOwed(t)
  {
    var t := Apply(s, a);
    forall id | id > 0 ensures Covered(t, id) {
      assert Covered(s, id);
    }
  }

  /** Every step of every goroutine keeps the invariant. */
  lemma StepKeepsInv(s: State, a: Action)
    requires Inv(s) && Enabled(s, a)
    ensures Inv(Apply(s, a))
  {
    StepKeepsTidy(s, a);
    match a
    case Change(id, value, announced) => ChangeKeepsCover(s, id, value, announced);
    case Announce(_) => EventKeepsCover(s, a);
    case Handle => EventKeepsCover(s, a);
    case LookupFails => EventKeepsCover(s, a);
    case Begin => QueueKeepsCover(s, a);
    case FindCreator => RebuildKeepsCover(s, a);
    case Export(_) => RebuildKeepsCover(s, a);
    case Write => RebuildKeepsCover(s, a);
    case Fail(_) => RebuildKeepsCover(s, a);
    case Finish => QueueKeepsCover(s, a);
    case ReconFind(_) => ReadingKeepsCover(s, a);
    case ReconRead(_, _) => ReadingKeepsCover(s, a);
    case ReconWrite(_) => WritingKeepsCover(s, a);
    case ReconRemove(_) => WritingKeepsCover(s, a);
    case ReconFail(_, _) => WritingKeepsCover(s, a);
    case _ => PassingKeepsCover(s, a);
  }

  lemma CapacityStays(s: State, a: Action)
    requires Enabled(s, a)
    ensures Apply(s, a).cap == s.cap && Apply(s, a).evcap == s.evcap
  {
  }

  lemma {:induction false} RunKeepsInv(s: State, run: seq<Action>)
    requires Inv(s) && Ok(s, run)
    ensures Inv(Exec(s, run))
    ensures Exec(s, run).cap == s.cap && Exec(s, run).evcap == s.evcap
    decreases |run|
  {
    if run != [] {
      hide Inv, Enabled, Apply;
      StepKeepsInv(s, run[0]);
      CapacityStays(s, run[0]);
      RunKeepsInv(Apply(s, run[0]), run[1..]);
    }
  }
}
