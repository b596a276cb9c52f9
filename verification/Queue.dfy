/** The rate-limited work queue, as the set of waiting keys and a requeue counter per key. */
module WorkQueue {
  import opened Model

  const MAX_REQUEUES := 5

  datatype QueueState = QueueState(queued: set<string>, counts: map<string, nat>)

  const EMPTY_QUEUE := QueueState({}, map[])

  function Count(q: QueueState, key: string): nat {
    if key in q.counts then q.counts[key] else 0
  }

  function AddedRateLimited(q: QueueState, key: string): QueueState {
    QueueState(q.queued + {key}, q.counts[key := Count(q, key) + 1])
  }

  /** A key whose status write met a conflict waits again. */
  function Requeued(q: QueueState, key: string, conflicted: bool): QueueState {
    if conflicted then AddedRateLimited(q, key) else q
  }

  function Forgotten(q: QueueState, key: string): QueueState {
    q.(counts := q.counts - {key})
  }

  function Taken(q: QueueState, key: string): QueueState {
    q.(queued := q.queued - {key})
  }

  /** After a key was processed: forget it on success, requeue it on failure, drop it after too many. */
  function Handled(q: QueueState, key: string, failed: bool): QueueState {
    if failed && Count(q, key) < MAX_REQUEUES then AddedRateLimited(q, key) else Forgotten(q, key)
  }

  function Enqueued(q: QueueState, list: seq<Ingress>): QueueState {
    if list == [] then q
    else AddedRateLimited(Enqueued(q, list[..|list| - 1]), IngressKey(list[|list| - 1]))
  }

  class Queue {
    var queued: set<string>
    var requeues: map<string, nat>
    var shuttingDown: bool

    constructor ()
      ensures State() == EMPTY_QUEUE && !shuttingDown
    {
      queued, requeues, shuttingDown := {}, map[], false;
    }

    ghost function State(): QueueState
      reads this
    {
      QueueState(queued, requeues)
    }

    method AddRateLimited(key: string)
      modifies this`queued, this`requeues
      ensures State() == AddedRateLimited(old(State()), key)
    {
      queued := queued + {key};
      requeues := requeues[key := (if key in requeues then requeues[key] else 0) + 1];
    }

    method Forget(key: string)
      modifies this`requeues
      ensures State() == Forgotten(old(State()), key)
    {
      requeues := requeues - {key};
    }

    method NumRequeues(key: string) returns (num: nat)
      ensures num == Count(State(), key)
    {
      num := if key in requeues then requeues[key] else 0;
    }

    /** A call returns once a key waits or the queue shuts down; any waiting key may be handed out. */
    method Get() returns (key: string, quit: bool)
      requires queued != {} || shuttingDown
      modifies this`queued
      ensures !quit ==> key in old(queued) && State() == Taken(old(State()), key)
      ensures quit ==> old(queued) == {} && State() == old(State())
    {
      if queued == {} {
        return "", true;
      }
      key :| key in queued;
      queued := queued - {key};
      quit := false;
    }
  }
}
