/**
 * The dispatcher: it consumes one envelope, reloads the record, applies the
 * idempotency guard, runs the handler chosen by the envelope's type tag and
 * records the outcome. Each dispatch is its own unit of work.
 */
module Listener {
  import opened Wrappers
  import opened Events
  import opened Repository

  const EventLogNotFound := "Event log not found"

  /** The inputs on which the simulated business handlers throw. */
  const FailingEmail := "fail@example.com"
  const FailingOrderId := "FAIL123"

  const UserRegisteredClassName := "com.meska.eventdriven.dtos.UserRegisteredPayload"
  const OrderCreatedClassName := "com.meska.eventdriven.dtos.OrderCreatedPayload"

  /** A handler either returns normally or throws an exception with a message. */
  datatype HandlerResult = Completed | Threw(message: string)

  /** Welcome-email handler; the notification itself only logs and cannot fail. */
  function HandleUserRegistration(payload: UserRegisteredPayload): HandlerResult {
    if payload.email == FailingEmail then Threw("Simulated failure for email: " + payload.email)
    else Completed
  }

  /** Order handler; the order processing itself only logs and cannot fail. */
  function HandleOrderCreated(payload: OrderCreatedPayload): HandlerResult {
    if payload.orderId == FailingOrderId then Threw("Simulated failure for order: " + payload.orderId)
    else Completed
  }

  function ClassName(p: Payload): string {
    match p
    case UserRegisteredBody(_) => UserRegisteredClassName
    case OrderCreatedBody(_) => OrderCreatedClassName
    case OtherBody(name) => name
  }

  /** The message of the exception the JVM throws when the envelope's payload
      is not of the class its type tag's handler expects. */
  function CastFailure(p: Payload, target: string): string {
    "class " + ClassName(p) + " cannot be cast to class " + target
  }

  /** The switch on the envelope's type tag. A type without a case falls
      through to the default branch, which only logs: it counts as success. */
  function RunHandler(eventType: EventType, payload: Payload): (r: HandlerResult)
    ensures eventType.OtherType? ==> r == Completed
    ensures eventType == UserRegistered ==>
      (r.Threw? <==> !payload.UserRegisteredBody? || payload.user.email == FailingEmail)
    ensures eventType == OrderCreated ==>
      (r.Threw? <==> !payload.OrderCreatedBody? || payload.order.orderId == FailingOrderId)
    ensures eventType == OrderCreated && payload.OrderCreatedBody? && r.Threw? ==>
      r.message == "Simulated failure for order: " + FailingOrderId
    ensures eventType == UserRegistered && payload.UserRegisteredBody? && r.Threw? ==>
      r.message == "Simulated failure for email: " + FailingEmail
  {
    match eventType
    case UserRegistered =>
      if payload.UserRegisteredBody? then HandleUserRegistration(payload.user)
      else Threw(CastFailure(payload, UserRegisteredClassName))
    case OrderCreated =>
      if payload.OrderCreatedBody? then HandleOrderCreated(payload.order)
      else Threw(CastFailure(payload, OrderCreatedClassName))
    case OtherType(_) =>
      Completed
  }

  /** The failure rule, applied to the record before it is saved: one more
      attempt is counted, and the record gives up once the count reaches
      `maxRetries`. Nothing but status, count and message changes. */
  function HandleEventFailure(log: EventLog, message: string, maxRetries: int): (r: EventLog)
    ensures r.retryCount == log.retryCount + 1
    ensures r.status == Failed <==> log.retryCount + 1 >= maxRetries
    ensures r.status == Retry <==> log.retryCount + 1 < maxRetries
    ensures r.errorMessage == Some(message)
    ensures r.(status := log.status, retryCount := log.retryCount, errorMessage := log.errorMessage) == log
  {
    var newRetryCount := log.retryCount + 1;
    log.(status := if newRetryCount >= maxRetries then Failed else Retry,
         retryCount := newRetryCount,
         errorMessage := Some(message))
  }

  /** What a dispatch did. `NotFound` is the exception thrown on the
      asynchronous path, which reaches no caller. */
  datatype DispatchOutcome =
    | NotFound(message: string)
    | Skipped(status: EventStatus)
    | Handled
    | HandlerFailed(message: string)

  datatype Dispatched = Dispatched(store: Store, outcome: DispatchOutcome)

  /** Handling of one envelope. Only the record the envelope names can change. */
  function HandleEvent(store: Store, event: Envelope, maxRetries: int, now: int): (r: Dispatched)
    ensures |r.store| == |store|
    ensures forall id | Contains(store, id) && id != event.eventLogId :: Get(r.store, id) == Get(store, id)
    ensures !Contains(store, event.eventLogId) <==> r.outcome == NotFound(EventLogNotFound)
    ensures r.outcome.NotFound? || r.outcome.Skipped? ==> r.store == store
    ensures Contains(store, event.eventLogId) ==>
      (r.outcome.Skipped? <==> Get(store, event.eventLogId).status != Pending)
    ensures Contains(store, event.eventLogId) && Get(store, event.eventLogId).status == Pending ==>
      var log := Get(store, event.eventLogId);
      var handled := RunHandler(event.eventType, event.payload);
      && (handled.Completed? ==>
            && r.outcome == Handled
            && Get(r.store, event.eventLogId) == log.(status := Processed, processedAt := Some(now), updatedAt := now))
      && (handled.Threw? ==>
            && r.outcome == HandlerFailed(handled.message)
            && Get(r.store, event.eventLogId) == HandleEventFailure(log, handled.message, maxRetries).(updatedAt := now))
  {
    if !Contains(store, event.eventLogId) then
      Dispatched(store, NotFound(EventLogNotFound))
    else
      var log := Get(store, event.eventLogId);
      if log.status == Retry || log.status == Failed || log.status == Processed then
        Dispatched(store, Skipped(log.status))
      else
        assert log.status == Pending;
        match RunHandler(event.eventType, event.payload)
        case Completed =>
          Dispatched(Update(store, event.eventLogId, log.(status := Processed, processedAt := Some(now)), now), Handled)
        case Threw(message) =>
          Dispatched(Update(store, event.eventLogId, HandleEventFailure(log, message, maxRetries), now), HandlerFailed(message))
  }

  /** Delivering the same envelope twice has the effect of delivering it
      once: the second delivery finds the record past `Pending` (or still
      missing) and changes nothing. */
  lemma RedeliveryIsIgnored(store: Store, event: Envelope, maxRetries: int, now: int, later: int)
    ensures var first := HandleEvent(store, event, maxRetries, now);
      HandleEvent(first.store, event, maxRetries, later).store == first.store
  {
  }

  /** A type with no case in the switch is not an error: a pending record of
      such a type ends `Processed` with its retry count and message as they were. */
  lemma UnhandledTypeIsProcessed(store: Store, event: Envelope, maxRetries: int, now: int)
    requires Contains(store, event.eventLogId) && Get(store, event.eventLogId).status == Pending
    requires event.eventType.OtherType?
    ensures var r := HandleEvent(store, event, maxRetries, now);
      && r.outcome == Handled
      && Get(r.store, event.eventLogId).status == Processed
      && Get(r.store, event.eventLogId).processedAt == Some(now)
      && Get(r.store, event.eventLogId).retryCount == Get(store, event.eventLogId).retryCount
      && Get(r.store, event.eventLogId).errorMessage == Get(store, event.eventLogId).errorMessage
  {
  }

  /** The failure rule counts attempts exactly: starting from a fresh record,
      the first `n` failures leave `retryCount == n`, and the record is given
      up exactly when `n` reaches `maxRetries`. */
  function FailRepeatedly(log: EventLog, message: string, maxRetries: int, n: nat): EventLog
    decreases n
  {
    if n == 0 then log else HandleEventFailure(FailRepeatedly(log, message, maxRetries, n - 1), message, maxRetries)
  }

  lemma {:induction false} FailuresAreCounted(log: EventLog, message: string, maxRetries: int, n: nat)
    requires n >= 1
    ensures FailRepeatedly(log, message, maxRetries, n).retryCount == log.retryCount + n
    ensures FailRepeatedly(log, message, maxRetries, n).status ==
      (if log.retryCount + n >= maxRetries then Failed else Retry)
    ensures FailRepeatedly(log, message, maxRetries, n).errorMessage == Some(message)
    ensures FailRepeatedly(log, message, maxRetries, n).processedAt == log.processedAt
    decreases n
  {
    if n > 1 {
      FailuresAreCounted(log, message, maxRetries, n - 1);
    }
  }
}
