/**
 * The rate-limiting work queue as client-go specifies it: FIFO, no item twice in line, an item
 * added while it is being processed waits for Done, and retries come back after a delay.
 */
module WorkQueues {
  import opened Wrappers

  class WorkQueue<T(==)> {
    var ready: seq<T>
    var dirty: set<T>
    var processing: set<T>
    var delayed: set<T>
    var failures: map<T, nat>
    var shuttingDown: bool

    ghost predicate Valid()
      reads this
    {
      && (forall i, j :: 0 <= i < j < |ready| ==> ready[i] != ready[j])
      && (forall i :: 0 <= i < |ready| ==> ready[i] in dirty && ready[i] !in processing)
      && (forall x :: x in dirty && x !in processing ==> x in ready)
    }

    constructor ()
      ensures Valid() && ready == [] && delayed == {} && processing == {} && dirty == {} && failures == map[]
      ensures !shuttingDown
    {
      ready, dirty, processing, delayed, failures, shuttingDown := [], {}, {}, {}, map[], false;
    }

    method Add(item: T)
      requires Valid()
      modifies this`ready, this`dirty
      ensures Valid()
      ensures ready == if shuttingDown || item in old(dirty) || item in processing then old(ready) else old(ready) + [item]
      ensures dirty == if shuttingDown then old(dirty) else old(dirty) + {item}
    {
      if shuttingDown || item in dirty { return; }
      dirty := dirty + {item};
      if item in processing { return; }
      ready := ready + [item];
    }

    /** Get blocks while nothing is ready, unless the queue is shutting down. */
    method Get() returns (item: Option<T>)
      requires Valid() && (ready != [] || shuttingDown)
      modifies this`ready, this`dirty, this`processing
      ensures Valid()
      ensures old(ready) == [] ==> item == None && ready == old(ready) && dirty == old(dirty) && processing == old(processing)
      ensures old(ready) != [] ==> item == Some(old(ready)[0]) && ready == old(ready)[1..]
      ensures old(ready) != [] ==> dirty == old(dirty) - {old(ready)[0]} && processing == old(processing) + {old(ready)[0]}
    {
      if ready == [] { return None; }
      item := Some(ready[0]);
      processing := processing + {ready[0]};
      dirty := dirty - {ready[0]};
      ready := ready[1..];
    }

    method Done(item: T)
      requires Valid() && item in processing
      modifies this`ready, this`processing
      ensures Valid() && processing == old(processing) - {item}
      ensures ready == if item in dirty then old(ready) + [item] else old(ready)
    {
      processing := processing - {item};
      if item in dirty {
        ready := ready + [item];
      }
    }

    function NumRequeues(item: T): nat
      reads this
    {
      if item in failures then failures[item] else 0
    }

    method AddRateLimited(item: T)
      modifies this`failures, this`delayed
      ensures failures == old(failures)[item := old(NumRequeues(item)) + 1]
      ensures delayed == if shuttingDown then old(delayed) else old(delayed) + {item}
    {
      failures := failures[item := NumRequeues(item) + 1];
      if !shuttingDown {
        delayed := delayed + {item};
      }
    }

    method Forget(item: T)
      modifies this`failures
      ensures failures == old(failures) - {item}
    {
      failures := failures - {item};
    }

    /** The delay of a retried item runs out. */
    method Due(item: T)
      requires Valid() && item in delayed
      modifies this`ready, this`dirty, this`delayed
      ensures Valid() && delayed == old(delayed) - {item}
      ensures ready == if shuttingDown || item in old(dirty) || item in processing then old(ready) else old(ready) + [item]
      ensures dirty == if shuttingDown then old(dirty) else old(dirty) + {item}
    {
      delayed := delayed - {item};
      Add(item);
    }

    method ShutDown()
      requires Valid()
      modifies this`shuttingDown
      ensures Valid() && shuttingDown
    {
      shuttingDown := true;
    }
  }
}
