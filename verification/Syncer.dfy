/**
 The syncer object: three sets behind its mutex and its bounded channel. A method is the piece
 of the program between two points where the lock is released or the channel is used, and
 does to the fields what the transition of WorkQueue of the same name does to a state.
 */
module Syncer {
  import opened Common
  import Q = WorkQueue

  /** Receive, Begin and Finish with nothing in between. */
  lemma OneTurn(w: Q.Work)
    requires Q.Tidy(w) && w.hand.None? && w.consumer.Idle? && w.queue != []
    ensures var id := w.queue[0]; w.marks.dirty == {} && w.marks.processing == {}
    ensures var id := w.queue[0]; Q.Tidy(Q.Work(Q.Marks(w.marks.pending - {id}, {}, {}), w.queue[1..], None, Q.Idle))
  {
    hide Q.OneToken;
    var received := Q.Receive(w);
    Q.ReceiveKeepsTidy(w);
    Q.BeginKeepsTidy(received);
    Q.FinishKeepsTidy(Q.Begin(received));
    var id := w.queue[0];
    assert {} + {id} - {id} == {};
    assert Q.Finish(Q.Begin(received)) == Q.Work(Q.Marks(w.marks.pending - {id}, {}, {}), w.queue[1..], None, Q.Idle);
  }

  lemma Emptied(w: Q.Work)
    requires Q.Tidy(w) && w.hand.None? && w.consumer.Idle? && w.queue == []
    ensures w == Q.EMPTY
  {
    Q.TokensArePending(w);
  }

  class Syncer {
    const capacity: nat
    var pending: set<int>
    var processing: set<int>
    var dirty: set<int>
    var queue: seq<int>

    function Marks(): Q.Marks
      reads this
    {
      Q.Marks(pending, processing, dirty)
    }

    /** The state of the whole queue when neither goroutine is in the middle of anything. */
    function AtRest(): Q.Work
      reads this
    {
      Q.Work(Marks(), queue, None, Q.Idle)
    }

    /** The state of the whole queue, given where the two goroutines are. */
    ghost function During(hand: Option<int>, consumer: Q.Consumer): Q.Work
      reads this
    {
      Q.Work(Marks(), queue, hand, consumer)
    }

    constructor (capacity: nat)
      ensures this.capacity == capacity && AtRest() == Q.EMPTY
    {
      this.capacity := capacity;
      pending, processing, dirty, queue := {}, {}, {}, [];
    }

    /** The locked part of enqueueCreator; the caller must send the id afterwards if told so. */
    method Enqueue(id: int) returns (send: bool)
      modifies `pending, `dirty
      ensures (Marks(), send) == Q.EnqueueMarks(old(Marks()), id)
    {
      if id <= 0 {
        return false;
      }
      if id in processing {
        dirty := dirty + {id};
        return false;
      }
      if id in pending {
        return false;
      }
      pending := pending + {id};
      return true;
    }

    /** A send completes only while the channel has room. */
    method Send(id: int)
      requires |queue| < capacity
      modifies `queue
      ensures queue == old(queue) + [id]
    {
      queue := queue + [id];
    }

    method Receive() returns (id: int)
      requires queue != []
      modifies `queue
      ensures [id] + queue == old(queue)
    {
      id := queue[0];
      queue := queue[1..];
    }

    /** The first locked part of processCreator. */
    method Begin(id: int)
      modifies `pending, `processing
      ensures Marks() == Q.BeginMarks(old(Marks()), id)
    {
      pending := pending - {id};
      processing := processing + {id};
    }

    /** The second locked part of processCreator; the caller must re-send the id if told so. */
    method Finish(id: int) returns (again: bool)
      modifies `pending, `processing, `dirty
      ensures (Marks(), again) == Q.FinishMarks(old(Marks()), id)
    {
      processing := processing - {id};
      again := id in dirty;
      if again {
        dirty := dirty - {id};
        pending := pending + {id};
      }
    }

    /**
     The event loop takes one creator id, wherever the consumer is: the locked part and then the
     send. It is left waiting, the id in hand, only by a full channel, and by TokensArePending
     that takes as many pending creators as the channel holds.
     */
    method HandleCreator(id: int, ghost consumer: Q.Consumer) returns (waits: bool)
      requires Q.Tidy(During(None, consumer))
      modifies `pending, `dirty, `queue
      ensures Q.Tidy(During(if waits then Some(id) else None, consumer))
      ensures |old(pending)| < capacity ==> !waits
      ensures waits ==> |queue| >= capacity && queue == old(queue)
      ensures pending == old(pending) + (if id > 0 && id !in processing then {id} else {})
      ensures dirty == old(dirty) + (if id > 0 && id in processing then {id} else {})
      ensures !waits ==> queue == old(queue) + (if id in pending && id !in old(pending) then [id] else [])
    {
      ghost var before := During(None, consumer);
      Q.TokensArePending(before);
      var send := Enqueue(id);
      ghost var handled := Q.Handle(before, id);
      Q.HandleKeepsTidy(before, id);
      if !send {
        assert During(None, consumer) == handled;
        return false;
      }
      assert During(Some(id), consumer) == handled;
      if |queue| >= capacity {
        return true;
      }
      Send(id);
      Q.SendKeepsTidy(handled);
      assert During(None, consumer) == Q.Send(handled);
      return false;
    }

    /**
     The consumer runs until the channel is empty and nothing else moves: it builds every
     pending creator exactly once, in the order of the channel.
     */
    method RunQueue() returns (built: seq<int>)
      requires Q.Tidy(AtRest())
      modifies `pending, `processing, `dirty, `queue
      ensures AtRest() == Q.EMPTY
      ensures built == old(queue) && multiset(built) == multiset(old(pending))
    {
      hide Q.Tidy, Q.OneToken;
      ghost var start := AtRest();
      Q.TokensArePending(start);
      built := [];
      while queue != []
        invariant Q.Tidy(AtRest()) && built + queue == old(queue)
        decreases |queue|
      {
        OneTurn(AtRest());
        var id := Receive();
        Begin(id);
        var again := Finish(id);
        if again {
          assert false;
        }
        built := built + [id];
      }
      Emptied(AtRest());
    }
  }
}
