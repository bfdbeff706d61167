/**
 The work queue of the library syncer: three sets behind a mutex, a bounded channel, the
 event loop that fills it and the consumer that empties it and also sends to it.
 A transition is what happens between two points where the lock is released or the channel
 is used, so a sequence of transitions is one interleaving of the two goroutines.
 */
module WorkQueue {
  import opened Common

  datatype Marks = Marks(pending: set<int>, processing: set<int>, dirty: set<int>)

  /** The locked part of enqueueCreator; the flag says whether a send must follow. */
  function EnqueueMarks(m: Marks, id: int): (Marks, bool) {
    if id <= 0 then (m, false)
    else if id in m.processing then (m.(dirty := m.dirty + {id}), false)
    else if id in m.pending then (m, false)
    else (m.(pending := m.pending + {id}), true)
  }

  /** The first locked part of processCreator. */
  function BeginMarks(m: Marks, id: int): Marks {
    m.(pending := m.pending - {id}, processing := m.processing + {id})
  }

  /** The second locked part of processCreator; the flag says whether a re-send must follow. */
  function FinishMarks(m: Marks, id: int): (Marks, bool) {
    if id in m.dirty then
      (Marks(m.pending + {id}, m.processing - {id}, m.dirty - {id}), true)
    else
      (m.(processing := m.processing - {id}), false)
  }

  datatype Consumer =
    | Idle
    | Received(id: int)    // token taken from the channel, lock not yet taken
    | Building(id: int)    // between the two locked parts
    | Resending(id: int)   // found dirty, re-send not yet done

  /** hand is the event loop between its unlock and its send. */
  datatype Work = Work(marks: Marks, queue: seq<int>, hand: Option<int>, consumer: Consumer)

  const EMPTY := Work(Marks({}, {}, {}), [], None, Idle)

  function Handle(w: Work, id: int): Work
    requires w.hand.None?
  {
    var (m, send) := EnqueueMarks(w.marks, id);
    w.(marks := m, hand := if send then Some(id) else None)
  }

  function Send(w: Work): Work
    requires w.hand.Some?
  {
    w.(queue := w.queue + [w.hand.value], hand := None)
  }

  function Receive(w: Work): Work
    requires w.consumer.Idle? && w.queue != []
  {
    w.(queue := w.queue[1..], consumer := Received(w.queue[0]))
  }

  function Begin(w: Work): Work
    requires w.consumer.Received?
  {
    w.(marks := BeginMarks(w.marks, w.consumer.id), consumer := Building(w.consumer.id))
  }

  function Finish(w: Work): Work
    requires w.consumer.Building?
  {
    var (m, again) := FinishMarks(w.marks, w.consumer.id);
    w.(marks := m, consumer := if again then Resending(w.consumer.id) else Idle)
  }

  function Resend(w: Work): Work
    requires w.consumer.Resending?
  {
    w.(queue := w.queue + [w.consumer.id], consumer := Idle)
  }

  // ---- One token for each pending creator --------------------------------------------

  function Busy(c: Consumer): set<int> {
    if c.Building? then {c.id} else {}
  }

  /** The token the consumer holds outside the rebuild itself. */
  function Held(c: Consumer): Option<int> {
    if c.Received? || c.Resending? then Some(c.id) else None
  }

  function Bag(o: Option<int>): multiset<int> {
    if o.Some? then multiset{o.value} else multiset{}
  }

  /** The tokens in the system: in the channel, in the sender's hand, in the consumer's hand. */
  function Tokens(w: Work): multiset<int> {
    multiset(w.queue) + Bag(w.hand) + Bag(Held(w.consumer))
  }

  ghost predicate OneToken(pending: set<int>, queue: seq<int>, hand: Option<int>, held: Option<int>) {
    && (forall i, j :: 0 <= i < j < |queue| ==> queue[i] != queue[j])
    && (forall id :: id in queue ==> id in pending)
    && (hand.Some? ==> hand.value in pending && hand.value !in queue && hand != held)
    && (held.Some? ==> held.value in pending && held.value !in queue)
    && (forall id :: id in pending ==> id in queue || Some(id) == hand || Some(id) == held)
  }

  ghost predicate Tidy(w: Work) {
    && w.marks.dirty <= w.marks.processing
    && w.marks.pending !! w.marks.processing
    && w.marks.processing == Busy(w.consumer)
    && (forall id :: id in w.marks.pending ==> id > 0)
    && (forall id :: id in w.marks.processing ==> id > 0)
    && OneToken(w.marks.pending, w.queue, w.hand, Held(w.consumer))
  }

  lemma EmptyIsTidy()
    ensures Tidy(EMPTY)
  {
  }

  lemma HandleKeepsTidy(w: Work, id: int)
    requires Tidy(w) && w.hand.None?
    ensures Tidy(Handle(w, id))
  {
  }

  lemma SendKeepsTidy(w: Work)
    requires Tidy(w) && w.hand.Some?
    ensures Tidy(Send(w))
  {
  }

  lemma ReceiveKeepsTidy(w: Work)
    requires Tidy(w) && w.consumer.Idle? && w.queue != []
    ensures Tidy(Receive(w))
  {
    assert w.queue == [w.queue[0]] + w.queue[1..];
  }

  lemma BeginKeepsTidy(w: Work)
    requires Tidy(w) && w.consumer.Received?
    ensures Tidy(Begin(w))
  {
  }

  lemma FinishKeepsTidy(w: Work)
    requires Tidy(w) && w.consumer.Building?
    ensures Tidy(Finish(w))
  {
  }

  lemma ResendKeepsTidy(w: Work)
    requires Tidy(w) && w.consumer.Resending?
    ensures Tidy(Resend(w))
  {
  }

  lemma DistinctBag(q: seq<int>, id: int)
    requires forall i, j :: 0 <= i < j < |q| ==> q[i] != q[j]
    ensures multiset(q)[id] == if id in q then 1 else 0
  {
    if q != [] {
      var front := q[..|q| - 1];
      assert q == front + [q[|q| - 1]];
      DistinctBag(front, id);
    }
  }

  /** A creator is pending exactly when one token for it exists, and then there is only one. */
  lemma TokensArePending(w: Work)
    requires Tidy(w)
    ensures Tokens(w) == multiset(w.marks.pending)
    ensures |w.queue| + |Bag(w.hand)| + |Bag(Held(w.consumer))| == |w.marks.pending|
  {
    forall id ensures Tokens(w)[id] == multiset(w.marks.pending)[id] {
      DistinctBag(w.queue, id);
    }
    MultisetOfSetSize(w.marks.pending);
    assert |Tokens(w)| == |multiset(w.queue)| + |Bag(w.hand)| + |Bag(Held(w.consumer))|;
  }
}
