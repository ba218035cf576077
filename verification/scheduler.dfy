/**
 * The retry scheduler's tick: select `Retry` records below the scheduler's
 * own retry bound, compute each one's exponential backoff from its retry
 * count, and retry those that are due, one record at a time.
 */
module Scheduler {
  import opened Wrappers
  import opened Events
  import opened Repository
  import opened Publisher

  /** The literal bound in the candidate query. It is not the listener's
      configurable `maxRetries`, and nothing keeps the two in step. */
  const SchedulerRetryBound := 3

  const BaseDelaySeconds := 5

  function Pow2(n: nat): nat {
    if n == 0 then 1 else 2 * Pow2(n - 1)
  }

  /** Two's-complement reduction of an integer to a 32-bit Java `int`. */
  function Int32(x: int): int {
    (x + 0x8000_0000) % 0x1_0000_0000 - 0x8000_0000
  }

  /** The backoff as the code computes it, `(1 << retryCount) * 5` on Java
      `int`s: the shift distance is taken modulo 32 and both operations wrap. */
  function BackoffSeconds(retryCount: int): int {
    Int32(Int32(Pow2(retryCount % 32)) * BaseDelaySeconds)
  }

  /** A record is skipped while its last update plus the backoff is strictly
      after `now`; reaching that instant exactly makes it due. */
  predicate IsDue(log: EventLog, now: int) {
    !(log.updatedAt + BackoffSeconds(log.retryCount) > now)
  }

  predicate IsCandidate(log: EventLog) {
    log.status == Retry && log.retryCount < SchedulerRetryBound
  }

  function Candidates(store: Store): (ids: seq<int>)
    ensures forall id :: id in ids <==> Contains(store, id) && IsCandidate(Get(store, id))
    ensures Ascending(ids)
  {
    FindByStatusAndRetryCountLessThan(store, Retry, SchedulerRetryBound)
  }

  datatype TickResult = TickResult(store: Store, emitted: seq<Envelope>)

  /** The loop over the selected records. A record that is not yet due is
      skipped; one record's failed retry is absorbed into that record and
      the loop goes on with the next. */
  function RetryEach(store: Store, ids: seq<int>, codec: Codec, now: int): (r: TickResult)
    requires forall id | id in ids :: Contains(store, id)
    ensures |r.store| == |store|
    ensures forall e | e in r.emitted :: e.eventLogId in ids
    decreases |ids|
  {
    if ids == [] then TickResult(store, [])
    else
      var first := RetryHead(store, ids, codec, now);
      assert forall k | k in ids[1..] :: k in ids;
      var rest := RetryEach(first.store, ids[1..], codec, now);
      TickResult(rest.store, AsSeq(first.emitted) + rest.emitted)
  }

  /** The first step of the loop: the head record is retried if due. */
  function RetryHead(store: Store, ids: seq<int>, codec: Codec, now: int): (r: Retried)
    requires ids != [] && Contains(store, ids[0])
    ensures |r.store| == |store|
    ensures forall k | Contains(store, k) && k != ids[0] :: Get(r.store, k) == Get(store, k)
  {
    if IsDue(Get(store, ids[0]), now) then RetryEvent(store, ids[0], codec, now) else Retried(store, None)
  }

  /** The rest of an ascending list lies strictly above its head. */
  lemma TailAboveHead(ids: seq<int>)
    requires ids != [] && Ascending(ids)
    ensures Ascending(ids[1..])
    ensures forall k | k in ids[1..] :: k in ids && k > ids[0]
  {
    forall k | k in ids[1..] ensures k in ids && k > ids[0] {
      var j :| 0 <= j < |ids[1..]| && ids[1..][j] == k;
      assert ids[j + 1] == k;
    }
  }

  /** Each listed record ends as retrying it alone from the original store
      would leave it if it was due, and untouched if it was not; every other
      record is untouched. */
  lemma {:induction false} RetryEachIsPointwise(store: Store, ids: seq<int>, codec: Codec, now: int)
    requires forall id | id in ids :: Contains(store, id)
    requires Ascending(ids)
    ensures var r := RetryEach(store, ids, codec, now);
      forall id | Contains(store, id) ::
        Get(r.store, id) ==
          if id in ids && IsDue(Get(store, id), now) then Get(RetryEvent(store, id, codec, now).store, id)
          else Get(store, id)
    decreases |ids|
  {
    if ids != [] {
      var first := RetryHead(store, ids, codec, now);
      TailAboveHead(ids);
      RetryEachIsPointwise(first.store, ids[1..], codec, now);
    }
  }

  /** Envelopes naming records in strictly increasing id order. */
  predicate AscendingIds(emitted: seq<Envelope>) {
    forall i, j | 0 <= i < j < |emitted| :: emitted[i].eventLogId < emitted[j].eventLogId
  }

  lemma AscendingIdsPrepend(head: seq<Envelope>, rest: seq<Envelope>, pivot: int)
    requires |head| <= 1 && (forall e | e in head :: e.eventLogId == pivot)
    requires AscendingIds(rest) && (forall e | e in rest :: e.eventLogId > pivot)
    ensures AscendingIds(head + rest)
  {
    if head != [] {
      var all := head + rest;
      forall i, j | 0 <= i < j < |all| ensures all[i].eventLogId < all[j].eventLogId {
        assert all[j] == rest[j - 1];
        if i > 0 {
          assert all[i] == rest[i - 1];
        }
      }
    } else {
      assert head + rest == rest;
    }
  }

  /** Only due records emit, each the envelope its own retry emits. */
  lemma {:induction false} RetryEachEmitsDue(store: Store, ids: seq<int>, codec: Codec, now: int)
    requires forall id | id in ids :: Contains(store, id)
    requires Ascending(ids)
    ensures var r := RetryEach(store, ids, codec, now);
      forall e | e in r.emitted ::
        && Contains(store, e.eventLogId)
        && IsDue(Get(store, e.eventLogId), now)
        && RetryEvent(store, e.eventLogId, codec, now).emitted == Some(e)
    decreases |ids|
  {
    if ids != [] {
      var first := RetryHead(store, ids, codec, now);
      TailAboveHead(ids);
      RetryEachEmitsDue(first.store, ids[1..], codec, now);
      var rest := RetryEach(first.store, ids[1..], codec, now);
      assert RetryEach(store, ids, codec, now).emitted == AsSeq(first.emitted) + rest.emitted;
    }
  }

  /** The envelopes of one tick name distinct records, in increasing id order. */
  lemma {:induction false} RetryEachEmitsAscending(store: Store, ids: seq<int>, codec: Codec, now: int)
    requires forall id | id in ids :: Contains(store, id)
    requires Ascending(ids)
    ensures AscendingIds(RetryEach(store, ids, codec, now).emitted)
    decreases |ids|
  {
    if ids != [] {
      var first := RetryHead(store, ids, codec, now);
      TailAboveHead(ids);
      RetryEachEmitsAscending(first.store, ids[1..], codec, now);
      var rest := RetryEach(first.store, ids[1..], codec, now);
      assert RetryEach(store, ids, codec, now).emitted == AsSeq(first.emitted) + rest.emitted;
      AscendingIdsPrepend(AsSeq(first.emitted), rest.emitted, ids[0]);
    }
  }

  /** No due record's envelope is lost to an earlier record's failure: every
      due record whose retry emits has its envelope among the tick's. */
  lemma {:induction false} RetryEachEmitsEveryDue(store: Store, ids: seq<int>, codec: Codec, now: int)
    requires forall id | id in ids :: Contains(store, id)
    requires Ascending(ids)
    ensures forall id | id in ids && IsDue(Get(store, id), now) && RetryEvent(store, id, codec, now).emitted.Some? ::
      RetryEvent(store, id, codec, now).emitted.value in RetryEach(store, ids, codec, now).emitted
    decreases |ids|
  {
    if ids != [] {
      var first := RetryHead(store, ids, codec, now);
      TailAboveHead(ids);
      RetryEachEmitsEveryDue(first.store, ids[1..], codec, now);
      var rest := RetryEach(first.store, ids[1..], codec, now);
      assert RetryEach(store, ids, codec, now).emitted == AsSeq(first.emitted) + rest.emitted;
      forall id | id in ids[1..]
        ensures RetryEvent(first.store, id, codec, now).emitted == RetryEvent(store, id, codec, now).emitted
      {
        assert Get(first.store, id) == Get(store, id);
      }
    }
  }

  /** One tick of the scheduler. */
  function RetryFailedEvents(store: Store, codec: Codec, now: int): (r: TickResult)
    ensures |r.store| == |store|
    ensures forall id | Contains(store, id) ::
      Get(r.store, id) ==
        if IsCandidate(Get(store, id)) && IsDue(Get(store, id), now) then Get(RetryEvent(store, id, codec, now).store, id)
        else Get(store, id)
    ensures forall e | e in r.emitted ::
      && Contains(store, e.eventLogId)
      && IsCandidate(Get(store, e.eventLogId))
      && IsDue(Get(store, e.eventLogId), now)
      && RetryEvent(store, e.eventLogId, codec, now).emitted == Some(e)
    ensures forall id | Contains(store, id) && IsCandidate(Get(store, id)) && IsDue(Get(store, id), now)
      && RetryEvent(store, id, codec, now).emitted.Some? ::
        RetryEvent(store, id, codec, now).emitted.value in r.emitted
    ensures AscendingIds(r.emitted)
  {
    var ids := Candidates(store);
    RetryEachEmitsEveryDue(store, ids, codec, now);
    RetryEachIsPointwise(store, ids, codec, now);
    RetryEachEmitsDue(store, ids, codec, now);
    RetryEachEmitsAscending(store, ids, codec, now);
    RetryEach(store, ids, codec, now)
  }

  /** The backoffs of the three candidate retry counts: 5, 10 and 20 seconds. */
  lemma BackoffTable()
    ensures BackoffSeconds(0) == 5
    ensures BackoffSeconds(1) == 10
    ensures BackoffSeconds(2) == 20
  {
    assert Pow2(1) == 2;
    assert Pow2(2) == 4;
  }

  /** For every record the scheduler can select (and whose count is not
      negative), the backoff is the exact `5 * 2^retryCount`, at most 20
      seconds, and grows strictly with the count. */
  lemma CandidateBackoff(a: EventLog, b: EventLog)
    requires IsCandidate(a) && IsCandidate(b) && 0 <= a.retryCount && 0 <= b.retryCount
    ensures BackoffSeconds(a.retryCount) == BaseDelaySeconds * Pow2(a.retryCount)
    ensures BackoffSeconds(a.retryCount) <= 20
    ensures a.retryCount < b.retryCount ==> BackoffSeconds(a.retryCount) < BackoffSeconds(b.retryCount)
  {
    BackoffTable();
    assert Pow2(1) == 2 && Pow2(2) == 4;
    assert a.retryCount == 0 || a.retryCount == 1 || a.retryCount == 2;
    assert b.retryCount == 0 || b.retryCount == 1 || b.retryCount == 2;
  }

  /** The due check at retry count 1 (a 10-second backoff): updated 3 seconds
      ago is too soon, exactly 10 seconds ago is due, 11 seconds ago is due. */
  lemma DueExample(log: EventLog, now: int)
    requires log.retryCount == 1
    ensures log.updatedAt == now - 3 ==> !IsDue(log, now)
    ensures log.updatedAt == now - 10 ==> IsDue(log, now)
    ensures log.updatedAt == now - 11 ==> IsDue(log, now)
  {
    BackoffTable();
  }
}
