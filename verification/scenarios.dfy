/**
 * End-to-end runs of the service from an empty store, for any mapper that
 * reads back what it writes.
 */
module Scenarios {
  import opened Wrappers
  import opened Events
  import opened Repository
  import opened Listener
  import opened Publisher
  import opened Scheduler
  import opened Outbox

  /** The order the handler is rigged to reject; its amount is 10.0. */
  const FailingOrder := OrderCreatedBody(OrderCreatedPayload(FailingOrderId, "X", Amount(0x4024_0000_0000_0000)))
  const FailingOrderEvent := Envelope(FailingOrder, OrderCreated, 1)
  const OrderFailure := "Simulated failure for order: " + FailingOrderId

  /** A registration the handler accepts. */
  const GoodUser := UserRegisteredBody(UserRegisteredPayload("ok", "ok@example.com"))

  /** Publish the failing order at time 0 and dispatch it at once. */
  function FirstAttempt(codec: Codec, maxRetries: int): System {
    Apply(Apply(Init, PublishStep(FailingOrder, OrderCreated, 0), codec, maxRetries), DispatchStep(0, 0), codec, maxRetries)
  }

  /** A tick at time 10 (10 s after the first failure) and the dispatch of what it queued. */
  function SecondAttempt(codec: Codec, maxRetries: int): System {
    Apply(Apply(FirstAttempt(codec, maxRetries), TickStep(10), codec, maxRetries), DispatchStep(0, 10), codec, maxRetries)
  }

  /** A tick at time 30 (20 s after the second failure) and the dispatch of what it queued. */
  function ThirdAttempt(codec: Codec, maxRetries: int): System {
    Apply(Apply(SecondAttempt(codec, maxRetries), TickStep(30), codec, maxRetries), DispatchStep(0, 30), codec, maxRetries)
  }

  lemma PublishIntoEmpty(payload: Payload, eventType: EventType, codec: Codec, maxRetries: int, now: int)
    requires codec.encode(payload).Success?
    ensures Apply(Init, PublishStep(payload, eventType, now), codec, maxRetries) ==
      System([EventLog(eventType, codec.encode(payload).value, Pending, 0, None, now, now, None)],
             [Envelope(payload, eventType, 1)])
  {
    var pub := PublishEvent([], payload, eventType, codec, now).value;
    assert pub.store == [Get(pub.store, 1)];
  }

  /** The dispatch of the failing order's envelope to its pending record. */
  lemma FailingDispatch(log: EventLog, codec: Codec, maxRetries: int, now: int)
    requires log.status == Pending
    ensures Apply(System([log], [FailingOrderEvent]), DispatchStep(0, now), codec, maxRetries) ==
      System([HandleEventFailure(log, OrderFailure, maxRetries).(updatedAt := now)], [])
  {
    var sys' := Apply(System([log], [FailingOrderEvent]), DispatchStep(0, now), codec, maxRetries);
    assert sys'.store == [Get(sys'.store, 1)];
  }

  /** Envelopes in increasing id order name one record at most once. */
  lemma AtMostOneForOneRecord(emitted: seq<Envelope>, id: int)
    requires AscendingIds(emitted)
    requires forall e | e in emitted :: e.eventLogId == id
    ensures |emitted| <= 1
  {
    if emitted != [] {
      var last := |emitted| - 1;
      AscendingSpread(emitted, last);
      assert emitted[0] in emitted && emitted[last] in emitted;
    }
  }

  /** Strictly increasing ids grow by at least one per position. */
  lemma {:induction false} AscendingSpread(emitted: seq<Envelope>, j: int)
    requires AscendingIds(emitted) && 0 <= j < |emitted|
    ensures emitted[j].eventLogId >= emitted[0].eventLogId + j
    decreases j
  {
    if j > 0 {
      AscendingSpread(emitted, j - 1);
    }
  }

  /** A tick that finds the failing order's record due re-queues it. */
  lemma DueRequeue(log: EventLog, codec: Codec, maxRetries: int, now: int)
    requires Faithful(codec) && codec.encode(FailingOrder).Success?
    requires log.eventType == OrderCreated && log.payload == codec.encode(FailingOrder).value
    requires IsCandidate(log) && IsDue(log, now)
    ensures Apply(System([log], []), TickStep(now), codec, maxRetries) ==
      System([log.(status := Pending, updatedAt := now)], [FailingOrderEvent])
  {
    var store := [log];
    var r := RetryFailedEvents(store, codec, now);
    RetryOfFailingOrder(log, codec, now);
    TickEmitsOnlyFailingOrder(log, codec, now);
    assert r.store == [Get(r.store, 1)];
  }

  lemma RetryOfFailingOrder(log: EventLog, codec: Codec, now: int)
    requires Faithful(codec) && codec.encode(FailingOrder).Success?
    requires log.eventType == OrderCreated && log.payload == codec.encode(FailingOrder).value
    ensures RetryEvent([log], 1, codec, now).emitted == Some(FailingOrderEvent)
    ensures Get(RetryEvent([log], 1, codec, now).store, 1) == log.(status := Pending, updatedAt := now)
  {
    assert ReadPayload(log, codec) == Success(FailingOrder);
  }

  lemma TickEmitsOnlyFailingOrder(log: EventLog, codec: Codec, now: int)
    requires RetryEvent([log], 1, codec, now).emitted == Some(FailingOrderEvent)
    requires IsCandidate(log) && IsDue(log, now)
    ensures RetryFailedEvents([log], codec, now).emitted == [FailingOrderEvent]
  {
    var r := RetryFailedEvents([log], codec, now);
    assert FailingOrderEvent in r.emitted;
    assert forall e | e in r.emitted :: e == FailingOrderEvent;
    AtMostOneForOneRecord(r.emitted, 1);
  }

  /** With `maxRetries = 3` an order that always fails goes `Retry` with
      count 1, then `Retry` with count 2, then `Failed` with count 3 and
      the handler's message, each retry waiting out its backoff. */
  lemma FailingOrderIsGivenUpOnTheThirdFailure(codec: Codec)
    requires Faithful(codec) && codec.encode(FailingOrder).Success?
    ensures var s := FirstAttempt(codec, 3);
      |s.store| == 1 && Get(s.store, 1).status == Retry && Get(s.store, 1).retryCount == 1
    ensures var s := SecondAttempt(codec, 3);
      |s.store| == 1 && Get(s.store, 1).status == Retry && Get(s.store, 1).retryCount == 2
    ensures var s := ThirdAttempt(codec, 3);
      && |s.store| == 1 && s.channel == []
      && Get(s.store, 1).status == Failed && Get(s.store, 1).retryCount == 3
      && Get(s.store, 1).errorMessage == Some(OrderFailure)
  {
    AttemptsUpToThird(codec, 3);
  }

  /** The three attempts for any `maxRetries` of at least 3 (record shapes only). */
  lemma AttemptsUpToThird(codec: Codec, maxRetries: int)
    requires Faithful(codec) && codec.encode(FailingOrder).Success?
    requires maxRetries >= 3
    ensures var s := FirstAttempt(codec, maxRetries);
      s == System([EventLog(OrderCreated, codec.encode(FailingOrder).value, Retry, 1, Some(OrderFailure), 0, 0, None)], [])
    ensures var s := SecondAttempt(codec, maxRetries);
      s == System([EventLog(OrderCreated, codec.encode(FailingOrder).value, Retry, 2, Some(OrderFailure), 0, 10, None)], [])
    ensures var s := ThirdAttempt(codec, maxRetries);
      s == System([EventLog(OrderCreated, codec.encode(FailingOrder).value,
                            if maxRetries == 3 then Failed else Retry, 3, Some(OrderFailure), 0, 30, None)], [])
  {
    var json := codec.encode(FailingOrder).value;
    BackoffTable();
    PublishIntoEmpty(FailingOrder, OrderCreated, codec, maxRetries, 0);
    var log0 := EventLog(OrderCreated, json, Pending, 0, None, 0, 0, None);
    FailingDispatch(log0, codec, maxRetries, 0);
    var log1 := EventLog(OrderCreated, json, Retry, 1, Some(OrderFailure), 0, 0, None);
    assert FirstAttempt(codec, maxRetries) == System([log1], []);
    DueRequeue(log1, codec, maxRetries, 10);
    FailingDispatch(log1.(status := Pending, updatedAt := 10), codec, maxRetries, 10);
    var log2 := EventLog(OrderCreated, json, Retry, 2, Some(OrderFailure), 0, 10, None);
    assert SecondAttempt(codec, maxRetries) == System([log2], []);
    DueRequeue(log2, codec, maxRetries, 30);
    FailingDispatch(log2.(status := Pending, updatedAt := 30), codec, maxRetries, 30);
  }

  /** With `maxRetries = 4` the third failure leaves the record `Retry` with
      count 3, which the scheduler's literal bound excludes: whatever
      happens afterwards, the record never changes again. */
  lemma FailingOrderIsStrandedWhenMaxRetriesIsFour(codec: Codec)
    requires Faithful(codec) && codec.encode(FailingOrder).Success?
    ensures var s := ThirdAttempt(codec, 4);
      |s.store| == 1 && Get(s.store, 1).status == Retry && Get(s.store, 1).retryCount == 3
    ensures forall steps: seq<Step> ::
      var s := ThirdAttempt(codec, 4);
      var s' := Run(s, steps, codec, 4);
      Contains(s'.store, 1) && Get(s'.store, 1) == Get(s.store, 1)
  {
    AttemptsUpToThird(codec, 4);
    var s := ThirdAttempt(codec, 4);
    forall steps: seq<Step>
      ensures Contains(Run(s, steps, codec, 4).store, 1) && Get(Run(s, steps, codec, 4).store, 1) == Get(s.store, 1)
    {
      StrandedRetryStaysForever(s, steps, codec, 4, 1);
    }
  }

  /** A registration the handler accepts is processed by its one dispatch:
      the record ends `Processed` with `processedAt` set and nothing is left
      queued for it. */
  lemma GoodUserIsProcessed(codec: Codec, maxRetries: int, now: int)
    requires codec.encode(GoodUser).Success?
    ensures var s := Apply(Apply(Init, PublishStep(GoodUser, UserRegistered, now), codec, maxRetries),
                           DispatchStep(0, now), codec, maxRetries);
      && |s.store| == 1 && s.channel == []
      && Get(s.store, 1).status == Processed
      && Get(s.store, 1).processedAt == Some(now)
      && Get(s.store, 1).retryCount == 0
  {
    PublishIntoEmpty(GoodUser, UserRegistered, codec, maxRetries, now);
  }
}
