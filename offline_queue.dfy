/** The offline mutation queue of src/store/offline.store.ts: personal
    expenses created without a connection wait here, in arrival order, until
    they are synchronised. The temporary id and the timestamp, which the store
    draws from `Math.random()` and `Date.now()`, are parameters; nothing
    assumes that temporary ids are unique. */
module OfflineStore {
  import opened Common
  import opened ExpenseTypes

  /** A queued payload with its temporary id and the time it was queued. */
  datatype OfflineExpense = OfflineExpense(payload: CreatePersonalExpensePayload, tempId: string, timestamp: int)

  /** The test `item.tempId !== tempId`. */
  function Keeps(tempId: string): OfflineExpense -> bool
  {
    (e: OfflineExpense) => e.tempId != tempId
  }

  /** `queue.filter(item => item.tempId !== tempId)` */
  function WithoutTempId(queue: seq<OfflineExpense>, tempId: string): (r: seq<OfflineExpense>)
    ensures |r| <= |queue|
    ensures forall e :: e in r <==> e in queue && e.tempId != tempId
  {
    Filter(queue, Keeps(tempId))
  }

  /** The number of queued entries carrying `tempId`. */
  function Carrying(queue: seq<OfflineExpense>, tempId: string): nat
  {
    if |queue| == 0 then 0 else (if queue[0].tempId == tempId then 1 else 0) + Carrying(queue[1..], tempId)
  }

  /** Removal drops exactly the entries carrying the id: no more, no fewer. */
  lemma {:induction false} RemovedCount(queue: seq<OfflineExpense>, tempId: string)
    ensures |WithoutTempId(queue, tempId)| == |queue| - Carrying(queue, tempId)
  {
    if |queue| > 0 {
      var e, tail := queue[0], queue[1..];
      assert queue == [e] + tail;
      RemovedCount(tail, tempId);
      FilterCons(e, tail, Keeps(tempId));
    }
  }

  /** An id some entry carries is counted. */
  lemma {:induction false} CarriedIsCounted(queue: seq<OfflineExpense>, tempId: string)
    requires exists e :: e in queue && e.tempId == tempId
    ensures Carrying(queue, tempId) > 0
  {
    if queue[0].tempId != tempId {
      var e :| e in queue && e.tempId == tempId;
      assert e in queue[1..] by {
        assert queue == [queue[0]] + queue[1..];
      }
      CarriedIsCounted(queue[1..], tempId);
    }
  }

  lemma RemovePresentShrinks(queue: seq<OfflineExpense>, tempId: string)
    requires exists e :: e in queue && e.tempId == tempId
    ensures |WithoutTempId(queue, tempId)| < |queue|
  {
    RemovedCount(queue, tempId);
    CarriedIsCounted(queue, tempId);
  }

  /** Removing an id no entry carries changes nothing. */
  lemma RemoveAbsent(queue: seq<OfflineExpense>, tempId: string)
    requires forall e :: e in queue ==> e.tempId != tempId
    ensures WithoutTempId(queue, tempId) == queue
  {
    FilterKeepsAll(queue, Keeps(tempId));
  }

  /** Removing the same id twice is removing it once. */
  lemma RemoveIdempotent(queue: seq<OfflineExpense>, tempId: string)
    ensures WithoutTempId(WithoutTempId(queue, tempId), tempId) == WithoutTempId(queue, tempId)
  {
    FilterIdempotent(queue, Keeps(tempId));
  }

  /** Removal keeps the order of what stays: it works piecewise on a split queue. */
  lemma RemoveKeepsOrder(front: seq<OfflineExpense>, back: seq<OfflineExpense>, tempId: string)
    ensures WithoutTempId(front + back, tempId) == WithoutTempId(front, tempId) + WithoutTempId(back, tempId)
  {
    FilterConcat(front, back, Keeps(tempId));
  }

  /** Removing the id just queued undoes the append, and removes every earlier
      entry that shares the id. */
  lemma RemoveAfterAdd(queue: seq<OfflineExpense>, expense: CreatePersonalExpensePayload, tempId: string, timestamp: int)
    ensures WithoutTempId(queue + [OfflineExpense(expense, tempId, timestamp)], tempId) == WithoutTempId(queue, tempId)
  {
    FilterSnoc(queue, OfflineExpense(expense, tempId, timestamp), Keeps(tempId));
    assert WithoutTempId(queue, tempId) + [] == WithoutTempId(queue, tempId);
  }

  /** The store's state and its actions. */
  class OfflineState {
    var queue: seq<OfflineExpense>

    /** The queue starts empty. */
    constructor ()
      ensures queue == []
    {
      queue := [];
    }

    /** `addToQueue`: one entry goes at the back; the earlier ones stay as they were. */
    method AddToQueue(expense: CreatePersonalExpensePayload, tempId: string, timestamp: int)
      modifies this
      ensures queue == old(queue) + [OfflineExpense(expense, tempId, timestamp)]
    {
      queue := queue + [OfflineExpense(expense, tempId, timestamp)];
    }

    /** `removeFromQueue` */
    method RemoveFromQueue(tempId: string)
      modifies this
      ensures queue == WithoutTempId(old(queue), tempId)
    {
      queue := WithoutTempId(queue, tempId);
    }

    /** `clearQueue` */
    method ClearQueue()
      modifies this
      ensures queue == []
    {
      queue := [];
    }
  }
}
