/**
 * The whole service as a sequential state machine: the record store plus the
 * channel of envelopes not yet consumed. A step is a publish, the dispatch of
 * any one queued envelope (delivery is asynchronous and unordered), or a
 * scheduler tick; steps interleave in any order.
 */
module Outbox {
  import opened Wrappers
  import opened Events
  import opened Repository
  import opened Listener
  import opened Publisher
  import opened Scheduler

  datatype System = System(store: Store, channel: seq<Envelope>)

  const Init := System([], [])

  datatype Step =
    | PublishStep(payload: Payload, eventType: EventType, now: int)
    | DispatchStep(index: int, now: int)
    | TickStep(now: int)

  function RemoveAt(channel: seq<Envelope>, i: int): seq<Envelope>
    requires 0 <= i < |channel|
  {
    channel[..i] + channel[i + 1..]
  }

  /** A publish; when encoding fails the caller gets the error and the
      system is as before. */
  function Publish(sys: System, payload: Payload, eventType: EventType, codec: Codec, now: int): System {
    match PublishEvent(sys.store, payload, eventType, codec, now)
    case Failure(_) => sys
    case Success(pub) => System(pub.store, sys.channel + [pub.event])
  }

  /** A worker takes the `i`-th queued envelope and handles it. */
  function Dispatch(sys: System, i: int, maxRetries: int, now: int): System
    requires 0 <= i < |sys.channel|
  {
    System(HandleEvent(sys.store, sys.channel[i], maxRetries, now).store, RemoveAt(sys.channel, i))
  }

  /** A scheduler tick; its envelopes are delivered after its transaction commits. */
  function Tick(sys: System, codec: Codec, now: int): System {
    var t := RetryFailedEvents(sys.store, codec, now);
    System(t.store, sys.channel + t.emitted)
  }

  /** One step; a dispatch with no envelope at that position does nothing. */
  function Apply(sys: System, step: Step, codec: Codec, maxRetries: int): System {
    match step
    case PublishStep(payload, eventType, now) => Publish(sys, payload, eventType, codec, now)
    case DispatchStep(i, now) => if 0 <= i < |sys.channel| then Dispatch(sys, i, maxRetries, now) else sys
    case TickStep(now) => Tick(sys, codec, now)
  }

  function Run(sys: System, steps: seq<Step>, codec: Codec, maxRetries: int): System
    decreases |steps|
  {
    if steps == [] then sys else Run(Apply(sys, steps[0], codec, maxRetries), steps[1..], codec, maxRetries)
  }

  // ---------------------------------------------------------------------------
  // The channel as a multiset of record ids

  function Queued(channel: seq<Envelope>): multiset<int> {
    if channel == [] then multiset{} else multiset{channel[0].eventLogId} + Queued(channel[1..])
  }

  lemma {:induction false} QueuedConcat(a: seq<Envelope>, b: seq<Envelope>)
    ensures Queued(a + b) == Queued(a) + Queued(b)
    decreases |a|
  {
    if a == [] {
      assert a + b == b;
    } else {
      assert (a + b)[1..] == a[1..] + b;
      QueuedConcat(a[1..], b);
    }
  }

  lemma QueuedSingle(e: Envelope)
    ensures Queued([e]) == multiset{e.eventLogId}
  {
    assert [e][1..] == [];
  }

  lemma {:induction false} QueuedRemoveAt(channel: seq<Envelope>, i: int)
    requires 0 <= i < |channel|
    ensures Queued(channel) == Queued(RemoveAt(channel, i)) + multiset{channel[i].eventLogId}
    decreases i
  {
    if i == 0 {
      assert RemoveAt(channel, i) == channel[1..];
    } else {
      var rest := RemoveAt(channel, i);
      assert rest[0] == channel[0];
      assert rest[1..] == RemoveAt(channel[1..], i - 1);
      QueuedRemoveAt(channel[1..], i - 1);
    }
  }

  lemma {:induction false} QueuedHas(channel: seq<Envelope>, e: Envelope)
    requires e in channel
    ensures e.eventLogId in Queued(channel)
    decreases |channel|
  {
    if channel[0] != e {
      QueuedHas(channel[1..], e);
    }
  }

  // ---------------------------------------------------------------------------
  // The invariant

  /** What holds of every record in every reachable state. The retry count
      stays within the scheduler's bound whatever `maxRetries` is, so the
      listener's `int` increment never overflows. */
  ghost predicate RecordInv(log: EventLog, maxRetries: int) {
    && 0 <= log.retryCount <= SchedulerRetryBound
    && (log.status == Pending ==> log.retryCount < SchedulerRetryBound)
    && (log.status == Retry ==> 1 <= log.retryCount < maxRetries)
    && (log.status == Retry || log.status == Failed ==> log.errorMessage.Some?)
    && (log.processedAt.Some? <==> log.status == Processed)
  }

  /** The outbox invariant: every queued envelope names a stored record, and
      a record has exactly one queued envelope while it is `Pending` and none
      otherwise, so no pending record is forgotten and none is dispatched
      twice. */
  ghost predicate Inv(sys: System, maxRetries: int) {
    && (forall id | id in Queued(sys.channel) :: Contains(sys.store, id))
    && (forall id | Contains(sys.store, id) ::
          Queued(sys.channel)[id] == if Get(sys.store, id).status == Pending then 1 else 0)
    && (forall id | Contains(sys.store, id) :: RecordInv(Get(sys.store, id), maxRetries))
  }

  lemma InitInv(maxRetries: int)
    ensures Inv(Init, maxRetries)
  {
  }

  /** The invariant survives a change confined to one record `x` (updated
      in place, or appended as the newest row) and to `x`'s queued
      envelopes, provided `x` itself ends up satisfying it. */
  lemma InvAfterLocalChange(sys: System, sys': System, x: int, maxRetries: int)
    requires Inv(sys, maxRetries)
    requires |sys'.store| == |sys.store| || (|sys'.store| == |sys.store| + 1 && x == |sys'.store|)
    requires Contains(sys'.store, x)
    requires forall id | Contains(sys.store, id) && id != x :: Get(sys'.store, id) == Get(sys.store, id)
    requires forall id | id != x :: Queued(sys'.channel)[id] == Queued(sys.channel)[id]
    requires Queued(sys'.channel)[x] == if Get(sys'.store, x).status == Pending then 1 else 0
    requires RecordInv(Get(sys'.store, x), maxRetries)
    ensures Inv(sys', maxRetries)
  {
    forall id | id in Queued(sys'.channel) ensures Contains(sys'.store, id) {
      if id != x {
        assert Queued(sys.channel)[id] == Queued(sys'.channel)[id];
      }
    }
  }

  lemma PublishPreservesInv(sys: System, payload: Payload, eventType: EventType, codec: Codec, now: int, maxRetries: int)
    requires Inv(sys, maxRetries)
    ensures Inv(Publish(sys, payload, eventType, codec, now), maxRetries)
  {
    var r := PublishEvent(sys.store, payload, eventType, codec, now);
    if r.Success? {
      var pub := r.value;
      var sys' := System(pub.store, sys.channel + [pub.event]);
      QueuedConcat(sys.channel, [pub.event]);
      QueuedSingle(pub.event);
      assert Queued(sys'.channel) == Queued(sys.channel) + multiset{pub.id};
      assert pub.id !in Queued(sys.channel);
      InvAfterLocalChange(sys, sys', pub.id, maxRetries);
    }
  }

  lemma DispatchPreservesInv(sys: System, i: int, maxRetries: int, now: int)
    requires Inv(sys, maxRetries)
    requires 0 <= i < |sys.channel|
    ensures Inv(Dispatch(sys, i, maxRetries, now), maxRetries)
  {
    var x := sys.channel[i].eventLogId;
    var sys' := Dispatch(sys, i, maxRetries, now);
    QueuedRemoveAt(sys.channel, i);
    assert Queued(sys.channel) == Queued(sys'.channel) + multiset{x};
    assert Contains(sys.store, x);
    assert Get(sys.store, x).status == Pending;
    InvAfterLocalChange(sys, sys', x, maxRetries);
  }

  /** Retrying one selected record keeps the invariant, provided its
      envelope is queued with the rest. */
  lemma RetryPreservesInv(sys: System, id: int, codec: Codec, now: int, maxRetries: int)
    requires Inv(sys, maxRetries)
    requires Contains(sys.store, id) && IsCandidate(Get(sys.store, id))
    ensures var r := RetryEvent(sys.store, id, codec, now);
      Inv(System(r.store, sys.channel + AsSeq(r.emitted)), maxRetries)
  {
    var r := RetryEvent(sys.store, id, codec, now);
    var sys' := System(r.store, sys.channel + AsSeq(r.emitted));
    var log := Get(sys.store, id);
    assert RecordInv(log, maxRetries) && Queued(sys.channel)[id] == 0;
    QueuedConcat(sys.channel, AsSeq(r.emitted));
    if r.emitted.Some? {
      QueuedSingle(r.emitted.value);
      assert Get(r.store, id) == log.(status := Pending, updatedAt := now);
      assert Queued(sys'.channel) == Queued(sys.channel) + multiset{id};
    } else {
      assert Get(r.store, id).status == Failed && Get(r.store, id).errorMessage.Some?;
      assert Get(r.store, id).(status := log.status, errorMessage := log.errorMessage, updatedAt := log.updatedAt) == log;
      assert Queued(sys'.channel) == Queued(sys.channel);
    }
    assert RecordInv(Get(r.store, id), maxRetries);
    InvAfterLocalChange(sys, sys', id, maxRetries);
  }

  lemma RetryHeadPreservesInv(sys: System, ids: seq<int>, codec: Codec, now: int, maxRetries: int)
    requires Inv(sys, maxRetries)
    requires ids != [] && Contains(sys.store, ids[0]) && IsCandidate(Get(sys.store, ids[0]))
    ensures var first := RetryHead(sys.store, ids, codec, now);
      Inv(System(first.store, sys.channel + AsSeq(first.emitted)), maxRetries)
  {
    var first := RetryHead(sys.store, ids, codec, now);
    if IsDue(Get(sys.store, ids[0]), now) {
      assert first == RetryEvent(sys.store, ids[0], codec, now);
      RetryPreservesInv(sys, ids[0], codec, now, maxRetries);
    } else {
      assert System(first.store, sys.channel + AsSeq(first.emitted)) == sys;
    }
  }

  lemma {:induction false} RetryEachPreservesInv(sys: System, ids: seq<int>, codec: Codec, now: int, maxRetries: int)
    requires Inv(sys, maxRetries)
    requires forall id | id in ids :: Contains(sys.store, id) && IsCandidate(Get(sys.store, id))
    requires Ascending(ids)
    ensures var r := RetryEach(sys.store, ids, codec, now);
      Inv(System(r.store, sys.channel + r.emitted), maxRetries)
    decreases |ids|
  {
    if ids != [] {
      var first := RetryHead(sys.store, ids, codec, now);
      var next := System(first.store, sys.channel + AsSeq(first.emitted));
      RetryHeadPreservesInv(sys, ids, codec, now, maxRetries);
      TailAboveHead(ids);
      RetryEachPreservesInv(next, ids[1..], codec, now, maxRetries);
      var rest := RetryEach(first.store, ids[1..], codec, now);
      var r := RetryEach(sys.store, ids, codec, now);
      assert r == TickResult(rest.store, AsSeq(first.emitted) + rest.emitted);
      assert sys.channel + r.emitted == next.channel + rest.emitted;
      assert System(r.store, sys.channel + r.emitted) == System(rest.store, next.channel + rest.emitted);
    } else {
      assert sys.channel + [] == sys.channel;
    }
  }

  lemma TickPreservesInv(sys: System, codec: Codec, now: int, maxRetries: int)
    requires Inv(sys, maxRetries)
    ensures Inv(Tick(sys, codec, now), maxRetries)
  {
    RetryEachPreservesInv(sys, Candidates(sys.store), codec, now, maxRetries);
  }

  lemma ApplyPreservesInv(sys: System, step: Step, codec: Codec, maxRetries: int)
    requires Inv(sys, maxRetries)
    ensures Inv(Apply(sys, step, codec, maxRetries), maxRetries)
  {
    match step
    case PublishStep(payload, eventType, now) =>
      PublishPreservesInv(sys, payload, eventType, codec, now, maxRetries);
    case DispatchStep(i, now) =>
      if 0 <= i < |sys.channel| {
        DispatchPreservesInv(sys, i, maxRetries, now);
      }
    case TickStep(now) =>
      TickPreservesInv(sys, codec, now, maxRetries);
  }

  lemma {:induction false} RunPreservesInv(sys: System, steps: seq<Step>, codec: Codec, maxRetries: int)
    requires Inv(sys, maxRetries)
    ensures Inv(Run(sys, steps, codec, maxRetries), maxRetries)
    decreases |steps|
  {
    if steps != [] {
      ApplyPreservesInv(sys, steps[0], codec, maxRetries);
      RunPreservesInv(Apply(sys, steps[0], codec, maxRetries), steps[1..], codec, maxRetries);
    }
  }

  /** In every state reachable from the empty system, whatever the codec
      and the configured `maxRetries`: every queued envelope names a stored
      record, every `Pending` record has exactly one envelope queued, and no
      retry count exceeds the scheduler's bound. */
  lemma OutboxInvariant(steps: seq<Step>, codec: Codec, maxRetries: int)
    ensures var sys := Run(Init, steps, codec, maxRetries);
      && (forall e | e in sys.channel :: Contains(sys.store, e.eventLogId))
      && (forall id | Contains(sys.store, id) && Get(sys.store, id).status == Pending ::
            Queued(sys.channel)[id] == 1)
      && (forall id | Contains(sys.store, id) :: 0 <= Get(sys.store, id).retryCount <= SchedulerRetryBound)
  {
    InitInv(maxRetries);
    RunPreservesInv(Init, steps, codec, maxRetries);
    var sys := Run(Init, steps, codec, maxRetries);
    forall e | e in sys.channel ensures Contains(sys.store, e.eventLogId) {
      QueuedHas(sys.channel, e);
    }
  }

  // ---------------------------------------------------------------------------
  // How records change

  /** The state table: the ways one step may change one stored record. In
      every change `updatedAt` becomes the step's time and the record's type,
      payload and creation time stay as they were. */
  ghost predicate Evolves(before: EventLog, after: EventLog, now: int) {
    || after == before
    // the handler succeeded
    || (&& before.status == Pending
        && after == before.(status := Processed, processedAt := Some(now), updatedAt := now))
    // the handler failed: one more attempt is counted
    || (&& before.status == Pending
        && (after.status == Retry || after.status == Failed)
        && after.retryCount == before.retryCount + 1
        && after.errorMessage.Some?
        && after == before.(status := after.status, retryCount := after.retryCount,
                            errorMessage := after.errorMessage, updatedAt := now))
    // the scheduler re-queued it
    || (&& before.status == Retry
        && after == before.(status := Pending, updatedAt := now))
    // the scheduler could not read it back and gave it up
    || (&& before.status == Retry
        && after.status == Failed
        && after.errorMessage.Some?
        && after == before.(status := Failed, errorMessage := after.errorMessage, updatedAt := now))
  }

  /** What the state table implies: creation time, type and payload never
      change; the retry count never decreases and grows only on a handler
      failure; `Processed` and `Failed` are terminal; `processedAt` is only
      ever set together with `Processed`. */
  lemma EvolvesConsequences(before: EventLog, after: EventLog, now: int)
    requires Evolves(before, after, now)
    ensures after.createdAt == before.createdAt
    ensures after.eventType == before.eventType && after.payload == before.payload
    ensures before.retryCount <= after.retryCount
    ensures after.retryCount != before.retryCount ==>
      before.status == Pending && after.retryCount == before.retryCount + 1
    ensures before.status == Processed || before.status == Failed ==> after == before
    ensures after.processedAt != before.processedAt ==>
      after.status == Processed && after.processedAt == Some(now)
    ensures after != before ==> after.updatedAt == now
  {
  }

  /** The step's time. */
  function StepTime(step: Step): int {
    match step
    case PublishStep(_, _, now) => now
    case DispatchStep(_, now) => now
    case TickStep(now) => now
  }

  lemma DispatchEvolves(sys: System, i: int, maxRetries: int, now: int)
    requires 0 <= i < |sys.channel|
    ensures var sys' := Dispatch(sys, i, maxRetries, now);
      && |sys'.store| == |sys.store|
      && forall id | Contains(sys.store, id) :: Evolves(Get(sys.store, id), Get(sys'.store, id), now)
  {
    var e := sys.channel[i];
    var sys' := Dispatch(sys, i, maxRetries, now);
    if Contains(sys.store, e.eventLogId) && Get(sys.store, e.eventLogId).status == Pending {
      var log := Get(sys.store, e.eventLogId);
      match RunHandler(e.eventType, e.payload)
      case Completed =>
      case Threw(m) =>
        var log' := Get(sys'.store, e.eventLogId);
        assert log' == HandleEventFailure(log, m, maxRetries).(updatedAt := now);
        assert log' == log.(status := log'.status, retryCount := log'.retryCount,
                            errorMessage := log'.errorMessage, updatedAt := now);
    }
  }

  lemma TickEvolves(sys: System, codec: Codec, now: int)
    ensures var sys' := Tick(sys, codec, now);
      && |sys'.store| == |sys.store|
      && forall id | Contains(sys.store, id) :: Evolves(Get(sys.store, id), Get(sys'.store, id), now)
  {
  }

  /** Every step moves each existing record along the state table and
      changes nothing else about it; the only records a step adds are
      fresh `Pending` ones with no retries, created at the step's time. */
  lemma StepEvolves(sys: System, step: Step, codec: Codec, maxRetries: int)
    ensures var sys' := Apply(sys, step, codec, maxRetries);
      && |sys.store| <= |sys'.store|
      && (forall id | Contains(sys.store, id) :: Evolves(Get(sys.store, id), Get(sys'.store, id), StepTime(step)))
      && (forall id | Contains(sys'.store, id) && !Contains(sys.store, id) ::
            var log := Get(sys'.store, id);
            && log.status == Pending && log.retryCount == 0 && log.errorMessage == None
            && log.processedAt == None && log.createdAt == StepTime(step))
  {
    match step
    case PublishStep(payload, eventType, now) =>
    case DispatchStep(i, now) =>
      if 0 <= i < |sys.channel| {
        DispatchEvolves(sys, i, maxRetries, now);
      }
    case TickStep(now) =>
      TickEvolves(sys, codec, now);
  }

  /** The two retry bounds disagree: a `Retry` record whose count has reached
      the scheduler's literal bound is never selected again, and the listener
      skips it, so no step ever changes it. With `maxRetries` above that
      bound such a record exists (see the scenarios); it stays `Retry`
      forever without being given up. */
  lemma StrandedRetryIsUntouched(sys: System, step: Step, codec: Codec, maxRetries: int, id: int)
    requires Contains(sys.store, id)
    requires Get(sys.store, id).status == Retry && Get(sys.store, id).retryCount >= SchedulerRetryBound
    ensures var sys' := Apply(sys, step, codec, maxRetries);
      Contains(sys'.store, id) && Get(sys'.store, id) == Get(sys.store, id)
  {
    StepEvolves(sys, step, codec, maxRetries);
  }

  lemma {:induction false} StrandedRetryStaysForever(
    sys: System, steps: seq<Step>, codec: Codec, maxRetries: int, id: int)
    requires Contains(sys.store, id)
    requires Get(sys.store, id).status == Retry && Get(sys.store, id).retryCount >= SchedulerRetryBound
    ensures var sys' := Run(sys, steps, codec, maxRetries);
      Contains(sys'.store, id) && Get(sys'.store, id) == Get(sys.store, id)
    decreases |steps|
  {
    if steps != [] {
      StrandedRetryIsUntouched(sys, steps[0], codec, maxRetries, id);
      StrandedRetryStaysForever(Apply(sys, steps[0], codec, maxRetries), steps[1..], codec, maxRetries, id);
    }
  }
}
