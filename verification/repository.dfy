/**
 * The event_logs table and its repository: lookup by id, the two kinds of
 * `save` with their timestamp rules, and the three derived queries.
 */
module Repository {
  import opened Wrappers
  import opened Events

  /** The table. Ids are IDENTITY values 1, 2, 3, ... and the core never
      deletes a row, so the row with id `k` sits at index `k - 1`. */
  type Store = seq<EventLog>

  predicate Contains(store: Store, id: int) {
    1 <= id <= |store|
  }

  function Get(store: Store, id: int): EventLog
    requires Contains(store, id)
  {
    store[id - 1]
  }

  /** The id the store assigns to the next inserted row. */
  function NextId(store: Store): int {
    |store| + 1
  }

  function FindById(store: Store, id: int): (r: Option<EventLog>)
    ensures r.Some? <==> Contains(store, id)
    ensures r.Some? ==> r.value == Get(store, id)
  {
    if Contains(store, id) then Some(Get(store, id)) else None
  }

  /** `save` of a new entity: the store chooses the id, and stamps both
      `createdAt` and `updatedAt` with the current time. */
  function Insert(store: Store, log: EventLog, now: int): (r: Store)
    ensures |r| == |store| + 1
    ensures !Contains(store, NextId(store)) && Contains(r, NextId(store))
    ensures forall id | Contains(store, id) :: Get(r, id) == Get(store, id)
    ensures Get(r, NextId(store)) == log.(createdAt := now, updatedAt := now)
  {
    store + [log.(createdAt := now, updatedAt := now)]
  }

  /** `save` of an existing entity: `updatedAt` is refreshed, while
      `createdAt` is not updatable and keeps its stored value. */
  function Update(store: Store, id: int, log: EventLog, now: int): (r: Store)
    requires Contains(store, id)
    ensures |r| == |store|
    ensures forall k | Contains(store, k) && k != id :: Get(r, k) == Get(store, k)
    ensures Get(r, id) == log.(createdAt := Get(store, id).createdAt, updatedAt := now)
  {
    store[id - 1 := log.(createdAt := Get(store, id).createdAt, updatedAt := now)]
  }

  /** Every id at most once, in increasing order. */
  predicate Ascending(ids: seq<int>) {
    forall i, j | 0 <= i < j < |ids| :: ids[i] < ids[j]
  }

  /** The ids from `lo` on whose rows satisfy `keep`, in id order. */
  function SelectFrom(store: Store, keep: EventLog -> bool, lo: int): (ids: seq<int>)
    requires 1 <= lo <= NextId(store)
    ensures forall id :: id in ids <==> lo <= id && Contains(store, id) && keep(Get(store, id))
    ensures forall i | 0 <= i < |ids| :: lo <= ids[i]
    ensures Ascending(ids)
    decreases NextId(store) - lo
  {
    if lo == NextId(store) then []
    else (if keep(Get(store, lo)) then [lo] else []) + SelectFrom(store, keep, lo + 1)
  }

  /** The rows satisfying `keep`, as a query without an ORDER BY returns
      them; this model fixes the order to increasing id. */
  function Select(store: Store, keep: EventLog -> bool): (ids: seq<int>)
    ensures forall id :: id in ids <==> Contains(store, id) && keep(Get(store, id))
    ensures Ascending(ids)
  {
    SelectFrom(store, keep, 1)
  }

  function FindByStatus(store: Store, status: EventStatus): (ids: seq<int>)
    ensures forall id :: id in ids <==> Contains(store, id) && Get(store, id).status == status
    ensures Ascending(ids)
  {
    Select(store, (log: EventLog) => log.status == status)
  }

  function FindByStatusAndRetryCountLessThan(store: Store, status: EventStatus, bound: int): (ids: seq<int>)
    ensures forall id :: id in ids <==>
      Contains(store, id) && Get(store, id).status == status && Get(store, id).retryCount < bound
    ensures Ascending(ids)
  {
    Select(store, (log: EventLog) => log.status == status && log.retryCount < bound)
  }

  /** `createdAt` strictly after `timestamp`. */
  function FindByStatusAndCreatedAtAfter(store: Store, status: EventStatus, timestamp: int): (ids: seq<int>)
    ensures forall id :: id in ids <==>
      Contains(store, id) && Get(store, id).status == status && Get(store, id).createdAt > timestamp
    ensures Ascending(ids)
  {
    Select(store, (log: EventLog) => log.status == status && log.createdAt > timestamp)
  }
}
