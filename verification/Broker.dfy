/**
 The in-process event broker: bounded fan-out that drops a subscriber rather than wait for
 it. Subscribe, Publish and removal run under the broker's lock, so each is one step; taking
 an event from a channel is a step of its own.
 */
module Broker {
  import opened Common

  type Event = int

  /** A subscriber's channel with what its receiver has taken so far. from and upTo are history:
      how many events had been published when it was registered and when it was closed. */
  datatype Sub = Sub(capacity: nat, buffer: seq<Event>, closed: bool, got: seq<Event>, from: nat, upTo: nat)

  datatype State = State(
    subs: map<nat, Sub>,     // registered
    gone: map<nat, Sub>,     // no longer registered; its receiver may still drain it
    nextID: nat,
    published: seq<Event>)   // history

  /** Whether a send goes through at once; a receiver that waits takes the event directly. */
  predicate CanSend(s: Sub, waiting: bool) {
    |s.buffer| < s.capacity || (waiting && s.buffer == [])
  }

  function Send(s: Sub, evt: Event, waiting: bool): Sub {
    if waiting && s.buffer == [] then s.(got := s.got + [evt]) else s.(buffer := s.buffer + [evt])
  }

  function Close(s: Sub, at: nat): Sub {
    s.(closed := true, upTo := at)
  }

  function Subscribed(st: State, capacity: nat): State {
    st.(subs := st.subs[st.nextID := Sub(capacity, [], false, [], |st.published|, 0)], nextID := st.nextID + 1)
  }

  /** Every subscriber that can take the event gets it, every other one is closed. */
  function Published(st: State, evt: Event, waiting: set<nat>): State {
    State(
      map id | id in st.subs && CanSend(st.subs[id], id in waiting) :: Send(st.subs[id], evt, id in waiting),
      st.gone + map id | id in st.subs && !CanSend(st.subs[id], id in waiting) :: Close(st.subs[id], |st.published|),
      st.nextID,
      st.published + [evt])
  }

  function Removed(st: State, id: nat): State {
    if id in st.subs then
      st.(subs := st.subs - {id}, gone := st.gone[id := Close(st.subs[id], |st.published|)])
    else st
  }

  function Take(s: Sub): Sub
    requires s.buffer != []
  {
    s.(buffer := s.buffer[1..], got := s.got + [s.buffer[0]])
  }

  /** Either the event goes straight to a receiver that waits at an empty channel, or it is the last of
      fewer than `capacity` waiting events or just fits, or the channel is full and is closed. */
  predicate Delivered(s: Sub, evt: Event, waiting: bool, kept: Option<Sub>, dropped: Option<Sub>, at: nat) {
    if waiting && s.buffer == [] then kept == Some(s.(got := s.got + [evt]))
    else if |s.buffer| < s.capacity then kept == Some(s.(buffer := s.buffer + [evt]))
    else kept == None && dropped == Some(s.(closed := true, upTo := at))
  }

  /** Publish gives the event to every subscriber whose channel has room or whose receiver takes it
      directly, and closes all others. */
  lemma PublishDelivers(st: State, evt: Event, waiting: set<nat>)
    ensures var t := Published(st, evt, waiting); forall id :: id in st.subs ==>
      Delivered(st.subs[id], evt, id in waiting, Look(t.subs, id), Look(t.gone, id), |st.published|)
  {
  }

  /** Publish in progress: the subscribers still to do are as before, the others as they will be. */
  ghost predicate Half(before: State, target: State, todo: set<nat>, subs: map<nat, Sub>, gone: map<nat, Sub>) {
    && (forall id :: id in todo ==> id in subs)
    && (forall id :: id in subs ==> if id in todo then id in before.subs && subs[id] == before.subs[id]
                                    else id in target.subs && subs[id] == target.subs[id])
    && (forall id :: id in target.subs ==> id in subs)
    && (forall id :: id in gone ==> if id in todo then id in before.gone && gone[id] == before.gone[id]
                                    else id in target.gone && gone[id] == target.gone[id])
    && (forall id :: id in target.gone && id !in todo ==> id in gone)
    && (forall id :: id in before.gone ==> id in gone)
  }

  lemma HalfAtStart(before: State, evt: Event, waiting: set<nat>)
    ensures Half(before, Published(before, evt, waiting), before.subs.Keys, before.subs, before.gone)
  {
  }

  lemma HalfStep(before: State, evt: Event, waiting: set<nat>, todo: set<nat>,
                 subs: map<nat, Sub>, gone: map<nat, Sub>, id: nat)
    requires Half(before, Published(before, evt, waiting), todo, subs, gone)
    requires id in todo && id in before.subs && id in subs && subs[id] == before.subs[id]
    ensures var s := subs[id];
      var sends := CanSend(s, id in waiting);
      Half(before, Published(before, evt, waiting), todo - {id},
           if sends then subs[id := Send(s, evt, id in waiting)] else subs - {id},
           if sends then gone else gone[id := Close(s, |before.published|)])
  {
  }

  lemma AllDone(before: State, evt: Event, waiting: set<nat>, subs: map<nat, Sub>, gone: map<nat, Sub>)
    requires Half(before, Published(before, evt, waiting), {}, subs, gone)
    ensures Published(before, evt, waiting) == State(subs, gone, before.nextID, before.published + [evt])
  {
    var target := Published(before, evt, waiting);
    SameMap(subs, target.subs);
    SameMap(gone, target.gone);
  }

  // ---- The broker under its lock ----------------------------------------------------------

  class Broker {
    var subscribers: map<nat, Sub>
    var nextID: nat
    var gone: map<nat, Sub>       // history
    var published: seq<Event>     // history

    function Now(): State
      reads this
    {
      State(subscribers, gone, nextID, published)
    }

    constructor ()
      ensures Now() == State(map[], map[], 0, [])
    {
      subscribers, nextID, gone, published := map[], 0, map[], [];
    }

    method Subscribe(buffer: nat) returns (id: nat)
      modifies this
      ensures id == old(nextID) && Now() == Subscribed(old(Now()), buffer)
      ensures subscribers == old(subscribers)[id := Sub(buffer, [], false, [], |published|, 0)]
    {
      id := nextID;
      subscribers := subscribers[id := Sub(buffer, [], false, [], |published|, 0)];
      nextID := nextID + 1;
    }

    /** The subscribers are visited in any order. A channel is sent to and closed only while it
        is registered and open. */
    method Publish(evt: Event, waiting: set<nat>)
      requires forall id :: id in subscribers ==> !subscribers[id].closed
      modifies this
      ensures Now() == Published(old(Now()), evt, waiting)
      ensures forall id :: id in old(subscribers) ==>
        Delivered(old(subscribers)[id], evt, id in waiting, Look(subscribers, id), Look(gone, id), |old(published)|)
    {
      PublishDelivers(Now(), evt, waiting);
      ghost var before := Now();
      var todo := subscribers.Keys;
      hide Half, Published;
      HalfAtStart(before, evt, waiting);
      while todo != {}
        invariant todo <= before.subs.Keys && todo <= subscribers.Keys
        invariant forall id :: id in todo ==> subscribers[id] == before.subs[id]
        invariant nextID == before.nextID && published == before.published
        invariant Half(before, Published(before, evt, waiting), todo, subscribers, gone)
        decreases todo
      {
        ghost var some := AnyOf(todo);
        var id :| id in todo;
        var s := subscribers[id];
        assert !s.closed;
        HalfStep(before, evt, waiting, todo, subscribers, gone, id);
        if CanSend(s, id in waiting) {
          subscribers := subscribers[id := Send(s, evt, id in waiting)];
        } else {
          gone := gone[id := Close(s, |published|)];
          subscribers := subscribers - {id};
        }
        todo := todo - {id};
      }
      AllDone(before, evt, waiting, subscribers, gone);
      published := published + [evt];
    }

    method RemoveSubscriber(id: nat)
      requires forall id :: id in subscribers ==> !subscribers[id].closed
      modifies this
      ensures Now() == Removed(old(Now()), id)
    {
      if id in subscribers {
        var s := subscribers[id];
        assert !s.closed;
        subscribers := subscribers - {id};
        gone := gone[id := Close(s, |published|)];
      }
    }
  }

  // ---- Runs ------------------------------------------------------------------------------

  datatype Action =
    | Subscribe(capacity: nat)
    | Publish(evt: Event, waiting: set<nat>)
    | Remove(id: nat)
    | Receive(id: nat)

  predicate Enabled(st: State, a: Action) {
    match a
    case Receive(id) => (id in st.subs && st.subs[id].buffer != []) || (id in st.gone && st.gone[id].buffer != [])
    case _ => true
  }

  function Apply(st: State, a: Action): State
    requires Enabled(st, a)
  {
    match a
    case Subscribe(capacity) => Subscribed(st, capacity)
    case Publish(evt, waiting) => Published(st, evt, waiting)
    case Remove(id) => Removed(st, id)
    case Receive(id) =>
      if id in st.subs && st.subs[id].buffer != [] then st.(subs := st.subs[id := Take(st.subs[id])])
      else st.(gone := st.gone[id := Take(st.gone[id])])
  }

  predicate Ok(st: State, run: seq<Action>)
    decreases |run|
  {
    run == [] || (Enabled(st, run[0]) && Ok(Apply(st, run[0]), run[1..]))
  }

  function Exec(st: State, run: seq<Action>): State
    requires Ok(st, run)
    decreases |run|
  {
    if run == [] then st else Exec(Apply(st, run[0]), run[1..])
  }

  const START := State(map[], map[], 0, [])

  /** What it received and what waits for it are all the events since it came, in order. */
  ghost predicate GapFree(s: Sub, published: seq<Event>) {
    && !s.closed && s.from <= |published|
    && s.got + s.buffer == published[s.from..]
    && |s.buffer| <= s.capacity
  }

  /** The same, up to the moment it was closed. */
  ghost predicate GapFreeUntilClosed(s: Sub, published: seq<Event>) {
    && s.closed && s.from <= s.upTo <= |published|
    && s.got + s.buffer == published[s.from..s.upTo]
    && |s.buffer| <= s.capacity
  }

  ghost predicate Inv(st: State) {
    && (forall id :: id in st.subs ==> id < st.nextID && id !in st.gone && GapFree(st.subs[id], st.published))
    && (forall id :: id in st.gone ==> id < st.nextID && GapFreeUntilClosed(st.gone[id], st.published))
  }

  lemma SendKeepsGapFree(s: Sub, published: seq<Event>, evt: Event, waiting: bool)
    requires GapFree(s, published) && CanSend(s, waiting)
    ensures GapFree(Send(s, evt, waiting), published + [evt])
  {
    var t := Send(s, evt, waiting);
    assert (published + [evt])[s.from..] == published[s.from..] + [evt];
    assert t.got + t.buffer == s.got + s.buffer + [evt];
  }

  lemma CloseKeepsGapFree(s: Sub, published: seq<Event>)
    requires GapFree(s, published)
    ensures GapFreeUntilClosed(Close(s, |published|), published)
  {
    assert published[s.from..|published|] == published[s.from..];
  }

  lemma LaterKeepsGapFree(s: Sub, published: seq<Event>, evt: Event)
    requires GapFreeUntilClosed(s, published)
    ensures GapFreeUntilClosed(s, published + [evt])
  {
    assert (published + [evt])[s.from..s.upTo] == published[s.from..s.upTo];
  }

  lemma TakeKeepsOrder(s: Sub)
    requires s.buffer != []
    ensures Take(s).got + Take(s).buffer == s.got + s.buffer
  {
    assert s.buffer == [s.buffer[0]] + s.buffer[1..];
  }

  lemma PublishKeepsInv(st: State, evt: Event, waiting: set<nat>)
    requires Inv(st)
    ensures Inv(Published(st, evt, waiting))
  {
    var t := Published(st, evt, waiting);
    forall id | id in t.subs ensures GapFree(t.subs[id], t.published) {
      SendKeepsGapFree(st.subs[id], st.published, evt, id in waiting);
    }
    forall id | id in t.gone ensures GapFreeUntilClosed(t.gone[id], t.published) {
      if id in st.subs {
        CloseKeepsGapFree(st.subs[id], st.published);
      }
      LaterKeepsGapFree(t.gone[id], st.published, evt);
    }
  }

  lemma StepKeepsInv(st: State, a: Action)
    requires Inv(st) && Enabled(st, a)
    ensures Inv(Apply(st, a))
  {
    match a
    case Publish(evt, waiting) => PublishKeepsInv(st, evt, waiting);
    case Remove(id) =>
      if id in st.subs {
        CloseKeepsGapFree(st.subs[id], st.published);
      }
    case Receive(id) => TakeKeepsOrder(if id in st.subs then st.subs[id] else st.gone[id]);
    case Subscribe(_) =>
  }

  lemma {:induction false} RunKeepsInv(st: State, run: seq<Action>)
    requires Inv(st) && Ok(st, run)
    ensures Inv(Exec(st, run))
    decreases |run|
  {
    if run != [] {
      StepKeepsInv(st, run[0]);
      RunKeepsInv(Apply(st, run[0]), run[1..]);
    }
  }

  /** Over every run, a registered subscriber has received or still holds exactly the events
      published since it came, in order; a closed one exactly those up to its closing. No
      closed channel is registered, so none is ever sent to or closed again. */
  lemma DeliveryIsGapFree(run: seq<Action>, id: nat)
    requires Ok(START, run)
    ensures var t := Exec(START, run);
      && (id in t.subs ==> GapFree(t.subs[id], t.published))
      && (id in t.gone ==> id !in t.subs && GapFreeUntilClosed(t.gone[id], t.published))
  {
    RunKeepsInv(START, run);
  }

  /** A subscriber known before is still known, from the same point on; closed, it stays closed there. */
  ghost predicate Remembers(st: State, t: State, id: nat) {
    && (id in st.gone ==> id in t.gone && t.gone[id].from == st.gone[id].from && t.gone[id].upTo == st.gone[id].upTo)
    && (id in st.subs ==> id in t.subs || id in t.gone)
    && (id in st.subs && id in t.subs ==> t.subs[id].from == st.subs[id].from)
    && (id in st.subs && id in t.gone ==> t.gone[id].from == st.subs[id].from)
  }

  lemma StepRemembers(st: State, a: Action, id: nat)
    requires Inv(st) && Enabled(st, a)
    ensures Remembers(st, Apply(st, a), id)
  {
  }

  lemma RememberingChains(s: State, t: State, u: State, id: nat)
    requires Remembers(s, t, id) && Remembers(t, u, id)
    requires id in u.gone ==> id !in u.subs
    ensures Remembers(s, u, id)
  {
  }

  /** No run forgets a subscriber or moves the points where it came and was closed. */
  lemma {:induction false} RunRemembers(st: State, run: seq<Action>, id: nat)
    requires Inv(st) && Ok(st, run)
    ensures Remembers(st, Exec(st, run), id)
    decreases |run|
  {
    if run != [] {
      hide Remembers, Enabled;
      var next := Apply(st, run[0]);
      StepKeepsInv(st, run[0]);
      StepRemembers(st, run[0], id);
      RunRemembers(next, run[1..], id);
      RunKeepsInv(next, run[1..]);
      RememberingChains(st, next, Exec(st, run), id);
    }
  }

  /** The subscriber, whether or not it is still registered. */
  function Of(st: State, id: nat): Sub
    requires id in st.subs || id in st.gone
  {
    if id in st.subs then st.subs[id] else st.gone[id]
  }

  /** Whatever waits for a subscriber can be received, to the last event, even after it was closed. */
  lemma {:induction false} BufferedIsReceivable(st: State, id: nat)
    requires Inv(st) && (id in st.subs || id in st.gone)
    ensures var run := seq(|Of(st, id).buffer|, i => Receive(id));
      && Ok(st, run)
      && (id in st.subs <==> id in Exec(st, run).subs) && (id in st.gone <==> id in Exec(st, run).gone)
      && Of(Exec(st, run), id) == Of(st, id).(buffer := [], got := Of(st, id).got + Of(st, id).buffer)
    decreases |Of(st, id).buffer|
  {
    hide Inv;
    var s := Of(st, id);
    var run := seq(|s.buffer|, i => Receive(id));
    if s.buffer == [] {
      assert s.got + s.buffer == s.got;
    } else {
      StepKeepsInv(st, Receive(id));
      ReceivedOne(st, id);
      var next := Apply(st, Receive(id));
      BufferedIsReceivable(next, id);
      assert run[1..] == seq(|Of(next, id).buffer|, i => Receive(id));
      TakeKeepsOrder(s);
    }
  }

  lemma ReceivedOne(st: State, id: nat)
    requires Inv(st) && (id in st.subs || id in st.gone) && Of(st, id).buffer != []
    ensures Enabled(st, Receive(id))
    ensures var t := Apply(st, Receive(id));
      (id in st.subs <==> id in t.subs) && (id in st.gone <==> id in t.gone) && Of(t, id) == Take(Of(st, id))
  {
  }

  // ---- Who is dropped ------------------------------------------------------------------------

  /** The step unregisters the subscriber on request, or finds as many events waiting for it as its
      channel holds and no receiver that takes the event directly. */
  predicate Drops(st: State, a: Action, id: nat) {
    && id in st.subs
    && (|| a == Remove(id)
        || (&& a.Publish? && |st.subs[id].buffer| == st.subs[id].capacity
            && !(id in a.waiting && st.subs[id].buffer == [])))
  }

  lemma LeavesExactlyIfDropped(st: State, a: Action, id: nat)
    requires Inv(st) && Enabled(st, a) && id in st.subs
    ensures id !in Apply(st, a).subs <==> Drops(st, a, id)
  {
    assert GapFree(st.subs[id], st.published);
  }

  /** Some step of the run drops the subscriber. */
  ghost predicate DroppedIn(st: State, run: seq<Action>, id: nat)
    requires Ok(st, run)
    decreases |run|
  {
    run != [] && (Drops(st, run[0], id) || DroppedIn(Apply(st, run[0]), run[1..], id))
  }

  /** Over every run a registered subscriber is gone afterwards if and only if some step of the run
      removed it or published to its full channel. */
  lemma {:induction false} GoneExactlyIfDropped(st: State, run: seq<Action>, id: nat)
    requires Inv(st) && Ok(st, run) && id in st.subs
    ensures id !in Exec(st, run).subs <==> DroppedIn(st, run, id)
    decreases |run|
  {
    hide Inv, Apply, Enabled, Drops;
    if run != [] {
      StepKeepsInv(st, run[0]);
      LeavesExactlyIfDropped(st, run[0], id);
      if id in Apply(st, run[0]).subs {
        GoneExactlyIfDropped(Apply(st, run[0]), run[1..], id);
      } else {
        StepGone(st, run[0], id);
        GoneStays(Apply(st, run[0]), run[1..], id);
      }
    }
  }

  lemma StepGone(st: State, a: Action, id: nat)
    requires Inv(st) && Enabled(st, a) && (id in st.subs || id in st.gone)
    ensures id in Apply(st, a).subs || id in Apply(st, a).gone
  {
  }

  lemma {:induction false} GoneStays(st: State, run: seq<Action>, id: nat)
    requires Inv(st) && Ok(st, run) && id in st.gone
    ensures id !in Exec(st, run).subs
  {
    RunKeepsInv(st, run);
    RunRemembers(st, run, id);
  }
}
