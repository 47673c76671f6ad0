/** The FIFO between the two threads. Every method body is one critical section
    of the queue's mutex; a blocking fetch is two of them, before and after the wait. */
module WorkQueues {
  import opened Options

  /** What is queued after pushing `items`: all that fit, in order; the rest is gone. */
  function Admitted<T>(queue: seq<T>, limit: nat, items: seq<T>): seq<T> {
    if limit == 0 || |queue| + |items| <= limit then queue + items
    else if |queue| >= limit then queue
    else queue + items[..limit - |queue|]
  }

  lemma AdmittedAppend<T>(queue: seq<T>, limit: nat, a: seq<T>, b: seq<T>)
    ensures Admitted(Admitted(queue, limit, a), limit, b) == Admitted(queue, limit, a + b)
  {
    assert queue + (a + b) == queue + a + b;
  }

  class WorkQueue<T> {
    var queue: seq<T>
    var fetchCancelled: bool
    const itemLimit: nat

    // History, for specification only.
    ghost var accepted: seq<T>
    ghost var fetched: seq<T>

    /** Nothing is lost, duplicated or reordered, and the limit is respected. */
    ghost predicate Valid()
      reads this
    {
      && fetched + queue == accepted
      && (itemLimit != 0 ==> |queue| <= itemLimit)
    }

    predicate Full()
      reads this
    {
      itemLimit != 0 && |queue| >= itemLimit
    }

    constructor (limit: nat)
      ensures Valid() && queue == [] && accepted == [] && fetched == []
      ensures itemLimit == limit && !fetchCancelled
    {
      queue, fetchCancelled, itemLimit := [], false, limit;
      accepted, fetched := [], [];
    }

    method PushItem(item: T)
      requires Valid()
      modifies this
      ensures Valid() && fetched == old(fetched) && fetchCancelled == old(fetchCancelled)
      ensures queue == Admitted(old(queue), itemLimit, [item])
      ensures old(Full()) ==> queue == old(queue) && accepted == old(accepted)
      ensures !old(Full()) ==> queue == old(queue) + [item] && accepted == old(accepted) + [item]
    {
      if itemLimit != 0 && |queue| >= itemLimit {
        return;
      }
      queue := queue + [item];
      accepted := accepted + [item];
    }

    method FetchItemNonBlocking() returns (item: Option<T>)
      requires Valid()
      modifies this
      ensures Valid() && accepted == old(accepted) && fetchCancelled == old(fetchCancelled)
      ensures item.None? <==> old(queue) == []
      ensures item.None? ==> queue == [] && fetched == old(fetched)
      ensures item.Some? ==> old(queue) == [item.value] + queue && fetched == old(fetched) + [item.value]
    {
      if queue == [] {
        return None;
      }
      var front := TakeFront();
      item := Some(front);
    }

    /** The front element, removed. */
    method TakeFront() returns (item: T)
      requires Valid() && queue != []
      modifies this
      ensures Valid() && accepted == old(accepted) && fetchCancelled == old(fetchCancelled)
      ensures old(queue) == [item] + queue && fetched == old(fetched) + [item]
    {
      item := queue[0];
      queue := queue[1..];
      fetched := fetched + [item];
    }

    /** The condition a blocked fetch waits for. */
    predicate Awake()
      reads this
    {
      queue != [] || fetchCancelled
    }

    /** Entering a blocking fetch forgets an earlier cancellation. */
    method BeginFetch()
      requires Valid()
      modifies this
      ensures Valid() && queue == old(queue) && accepted == old(accepted) && fetched == old(fetched)
      ensures !fetchCancelled && (Awake() <==> queue != [])
    {
      fetchCancelled := false;
    }

    /** Leaving the wait: a cancelled fetch (None) removes nothing, even from a
        queue that is not empty. */
    method EndFetch() returns (item: Option<T>)
      requires Valid() && Awake()
      modifies this
      ensures Valid() && accepted == old(accepted) && fetchCancelled == old(fetchCancelled)
      ensures item.None? <==> old(fetchCancelled)
      ensures item.None? ==> queue == old(queue) && fetched == old(fetched)
      ensures item.Some? ==> old(queue) == [item.value] + queue && fetched == old(fetched) + [item.value]
    {
      if fetchCancelled {
        return None;
      }
      var front := TakeFront();
      item := Some(front);
    }

    method CancelFetch()
      requires Valid()
      modifies this
      ensures Valid() && queue == old(queue) && accepted == old(accepted) && fetched == old(fetched)
      ensures fetchCancelled && Awake()
    {
      fetchCancelled := true;
    }
  }
}
