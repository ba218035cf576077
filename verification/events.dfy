/**
 * The data of the event outbox: the persisted `EventLog` record with its
 * closed status enum, the event type tag, the two payload DTOs, and the
 * in-memory envelope (`BaseEvent`) that the publisher hands to the listener.
 */
module Events {
  import opened Wrappers

  /** The status of an event record; the enum is closed. */
  datatype EventStatus = Pending | Processed | Failed | Retry

  /** The event type tag. Its enum declaration is not part of this model: the
      core names two constants, and both the listener and the payload registry
      have a `default` branch for any further constant, which is represented
      here by its name. */
  datatype EventType = UserRegistered | OrderCreated | OtherType(name: string)

  /** The enum constant's name, as `toString` renders it. */
  function TypeName(t: EventType): string {
    match t
    case UserRegistered => "USER_REGISTERED"
    case OrderCreated => "ORDER_CREATED"
    case OtherType(name) => name
  }

  datatype UserRegisteredPayload = UserRegisteredPayload(username: string, email: string)

  /** A Java `double`, kept as its 64-bit pattern: the core never computes with it. */
  datatype Amount = Amount(bits: bv64)

  datatype OrderCreatedPayload = OrderCreatedPayload(orderId: string, productName: string, amount: Amount)

  /** A typed payload as the publisher receives it. Publishing is generic in
      the payload's class: it is one of the two DTOs, or an object of some
      other class, known here only by its class name. */
  datatype Payload =
    | UserRegisteredBody(user: UserRegisteredPayload)
    | OrderCreatedBody(order: OrderCreatedPayload)
    | OtherBody(className: string)

  /** A persisted event record. Its id is the store's key for it, not a field.
      `payload` is the serialized text; times are whole seconds. */
  datatype EventLog = EventLog(
    eventType: EventType,
    payload: string,
    status: EventStatus,
    retryCount: int,
    errorMessage: Option<string>,
    createdAt: int,
    updatedAt: int,
    processedAt: Option<int>)

  /** The envelope handed from publisher to listener. It carries no status:
      `eventLogId` is its only link to the durable record. */
  datatype Envelope = Envelope(payload: Payload, eventType: EventType, eventLogId: int)
}
