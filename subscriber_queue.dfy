/**
 * SubscriberQueue of mafia/subscriber_queue.py: one FIFO of messages per
 * subscriber, fixed at construction. A message put is appended to every
 * subscriber's FIFO; a get takes the oldest message of one FIFO.
 */
module Queues {

  /**
   * The outcome of a get: the subscriber is unknown (the source returns None),
   * its queue is empty (SimpleQueue.get blocks until another thread puts), or
   * the oldest message.
   */
  datatype Poll<T> = NotSubscribed | Blocks | Next(msg: T)

  /** Every subscriber's queue with the messages appended, in order. */
  function Appended<T>(queues: map<string, seq<T>>, msgs: seq<T>): (r: map<string, seq<T>>)
    ensures r.Keys == queues.Keys
    ensures forall s :: s in r ==> r[s] == queues[s] + msgs
  {
    map s | s in queues :: queues[s] + msgs
  }

  /** Appending one batch after another is appending both at once: delivery keeps put order. */
  lemma AppendedTwice<T>(queues: map<string, seq<T>>, first: seq<T>, second: seq<T>)
    ensures Appended(Appended(queues, first), second) == Appended(queues, first + second)
  {
    var lhs, rhs := Appended(Appended(queues, first), second), Appended(queues, first + second);
    forall s | s in lhs ensures lhs[s] == rhs[s] {
      assert queues[s] + first + second == queues[s] + (first + second);
    }
  }

  /** One empty queue per listed subscriber, and no other queue. */
  predicate Initial<T>(queues: map<string, seq<T>>, subscribers: seq<string>) {
    queues.Keys == (set s | s in subscribers) && forall s :: s in queues ==> queues[s] == []
  }

  class SubscriberQueue<T> {
    var queues: map<string, seq<T>>

    /** One empty queue per listed subscriber. */
    constructor (subscribers: seq<string>)
      ensures Initial(queues, subscribers)
    {
      queues := map s | s in subscribers :: [];
    }

    /** get: the oldest message of the subscriber's queue, removed from that queue only. */
    method Get(subscriber: string) returns (r: Poll<T>)
      modifies this
      ensures subscriber !in old(queues) ==> r == NotSubscribed && queues == old(queues)
      ensures subscriber in old(queues) && old(queues)[subscriber] == [] ==> r == Blocks && queues == old(queues)
      ensures subscriber in old(queues) && old(queues)[subscriber] != [] ==>
                r == Next(old(queues)[subscriber][0])
                && queues == old(queues)[subscriber := old(queues)[subscriber][1..]]
    {
      if subscriber !in queues {
        return NotSubscribed;
      }
      var queue := queues[subscriber];
      if queue == [] {
        return Blocks;
      }
      r := Next(queue[0]);
      queues := queues[subscriber := queue[1..]];
    }

    /** put: appends the message to every subscriber's queue, one queue at a time. */
    method Put(msg: T)
      modifies this
      ensures queues == Appended(old(queues), [msg])
    {
      var pending := queues.Keys;
      ghost var done: set<string> := {};
      while pending != {}
        invariant queues.Keys == old(queues).Keys
        invariant done + pending == queues.Keys && done !! pending
        invariant forall s :: s in done ==> queues[s] == old(queues)[s] + [msg]
        invariant forall s :: s in pending ==> queues[s] == old(queues)[s]
        decreases pending
      {
        var s :| s in pending;
        queues := queues[s := queues[s] + [msg]];
        pending := pending - {s};
        done := done + {s};
      }
    }
  }
}
