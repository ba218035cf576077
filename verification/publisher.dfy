/**
 * The publisher: it records a new event and only then emits its envelope,
 * and it re-emits an existing record for a retry after decoding its stored
 * payload through the type registry.
 */
module Publisher {
  import opened Wrappers
  import opened Events
  import opened Repository

  const PublishFailed := "Event publishing failed"
  const RetryFailedPrefix := "Retry failed: "
  const UnknownTypePrefix := "Unknown event type: "

  /** The payload classes the registry knows. */
  datatype PayloadClass = UserRegisteredClass | OrderCreatedClass

  /** The class of a payload, when it is one the registry knows. */
  function ClassOf(p: Payload): Option<PayloadClass> {
    match p
    case UserRegisteredBody(_) => Some(UserRegisteredClass)
    case OrderCreatedBody(_) => Some(OrderCreatedClass)
    case OtherBody(_) => None
  }

  /** The registry from event type to payload class; an unlisted type is an
      error, reported with the type's name. */
  function PayloadTypeFor(t: EventType): (r: Result<PayloadClass, string>)
    ensures r.Success? <==> !t.OtherType?
    ensures t == UserRegistered ==> r == Success(UserRegisteredClass)
    ensures t == OrderCreated ==> r == Success(OrderCreatedClass)
    ensures r.Failure? ==> r.error == UnknownTypePrefix + TypeName(t)
  {
    match t
    case UserRegistered => Success(UserRegisteredClass)
    case OrderCreated => Success(OrderCreatedClass)
    case OtherType(_) => Failure(UnknownTypePrefix + TypeName(t))
  }

  /** The JSON mapper, left abstract: `encode` writes a payload as text,
      `decode` reads text as an instance of a class; either may fail with a
      message. */
  datatype Codec = Codec(
    encode: Payload -> Result<string, string>,
    decode: (PayloadClass, string) -> Result<Payload, string>)

  /** What the lemmas assume of the mapper: reading back what it wrote, as
      the payload's own class, gives the payload back; and a successful read
      yields an instance of the class asked for. */
  ghost predicate Faithful(codec: Codec) {
    && (forall p | codec.encode(p).Success? && ClassOf(p).Some? ::
          codec.decode(ClassOf(p).value, codec.encode(p).value) == Success(p))
    && (forall cls, text | codec.decode(cls, text).Success? ::
          ClassOf(codec.decode(cls, text).value) == Some(cls))
  }

  datatype Published = Published(store: Store, id: int, event: Envelope)

  /** Publishing: encode, insert a `Pending` record with no retries, and emit
      an envelope naming the new record. If encoding fails nothing is stored
      and nothing is emitted. */
  function PublishEvent(store: Store, payload: Payload, eventType: EventType, codec: Codec, now: int)
    : (r: Result<Published, string>)
    ensures r.Failure? <==> codec.encode(payload).Failure?
    ensures r.Failure? ==> r.error == PublishFailed
    ensures r.Success? ==>
      && r.value.id == NextId(store)
      && !Contains(store, r.value.id)
      && |r.value.store| == |store| + 1
      && (forall id | Contains(store, id) :: Get(r.value.store, id) == Get(store, id))
      && Get(r.value.store, r.value.id) ==
           EventLog(eventType, codec.encode(payload).value, Pending, 0, None, now, now, None)
      && r.value.event == Envelope(payload, eventType, r.value.id)
  {
    match codec.encode(payload)
    case Failure(_) => Failure(PublishFailed)
    case Success(json) =>
      // the builder leaves the timestamps to the store
      var log := EventLog(eventType, json, Pending, 0, None, 0, 0, None);
      var id := NextId(store);
      Success(Published(Insert(store, log, now), id, Envelope(payload, eventType, id)))
  }

  /** Reading a stored payload back: the registry lookup comes first, then
      the decode as the registered class. */
  function ReadPayload(log: EventLog, codec: Codec): (r: Result<Payload, string>)
    ensures log.eventType.OtherType? ==> r == Failure(UnknownTypePrefix + log.eventType.name)
    ensures !log.eventType.OtherType? ==>
      r == codec.decode(PayloadTypeFor(log.eventType).value, log.payload)
  {
    match PayloadTypeFor(log.eventType)
    case Failure(e) => Failure(e)
    case Success(cls) => codec.decode(cls, log.payload)
  }

  datatype Retried = Retried(store: Store, emitted: Option<Envelope>)

  /** Retrying a stored record: on a successful read it goes back to
      `Pending` and an envelope with the same id is emitted; otherwise it is
      given up with the cause recorded and nothing is emitted. The retry
      count and every other record stay as they were. */
  function RetryEvent(store: Store, id: int, codec: Codec, now: int): (r: Retried)
    requires Contains(store, id)
    ensures |r.store| == |store|
    ensures forall k | Contains(store, k) && k != id :: Get(r.store, k) == Get(store, k)
    ensures r.emitted.Some? <==> ReadPayload(Get(store, id), codec).Success?
    ensures r.emitted.Some? ==>
      && Get(r.store, id) == Get(store, id).(status := Pending, updatedAt := now)
      && r.emitted.value == Envelope(ReadPayload(Get(store, id), codec).value, Get(store, id).eventType, id)
    ensures r.emitted.None? ==>
      Get(r.store, id) == Get(store, id).(
        status := Failed,
        errorMessage := Some(RetryFailedPrefix + ReadPayload(Get(store, id), codec).error),
        updatedAt := now)
  {
    var log := Get(store, id);
    match ReadPayload(log, codec)
    case Success(payload) =>
      Retried(Update(store, id, log.(status := Pending), now), Some(Envelope(payload, log.eventType, id)))
    case Failure(cause) =>
      Retried(Update(store, id, log.(status := Failed, errorMessage := Some(RetryFailedPrefix + cause)), now), None)
  }

  /** Publish and retry agree: once a payload of the class its type registers
      has been published, retrying the record (whatever else happened to it,
      as long as its type and stored text are the ones published) emits the
      very envelope publishing emitted. */
  lemma RetryReemitsPublishedEvent(
    store: Store, payload: Payload, eventType: EventType, codec: Codec, now: int,
    later: Store, retryTime: int)
    requires Faithful(codec)
    requires PayloadTypeFor(eventType).Success? && ClassOf(payload) == Some(PayloadTypeFor(eventType).value)
    requires PublishEvent(store, payload, eventType, codec, now).Success?
    requires var pub := PublishEvent(store, payload, eventType, codec, now).value;
      && Contains(later, pub.id)
      && Get(later, pub.id).eventType == eventType
      && Get(later, pub.id).payload == Get(pub.store, pub.id).payload
    ensures var pub := PublishEvent(store, payload, eventType, codec, now).value;
      RetryEvent(later, pub.id, codec, retryTime).emitted == Some(pub.event)
  {
    var pub := PublishEvent(store, payload, eventType, codec, now).value;
    assert codec.encode(payload).Success?;
    assert ReadPayload(Get(later, pub.id), codec) == Success(payload);
  }

  /** A record whose type the registry does not know can never be retried:
      it is given up with the registry's message. */
  lemma UnknownTypeIsGivenUp(store: Store, id: int, codec: Codec, now: int)
    requires Contains(store, id) && Get(store, id).eventType.OtherType?
    ensures var r := RetryEvent(store, id, codec, now);
      && r.emitted == None
      && Get(r.store, id).status == Failed
      && Get(r.store, id).errorMessage ==
           Some(RetryFailedPrefix + UnknownTypePrefix + Get(store, id).eventType.name)
  {
    var name := Get(store, id).eventType.name;
    assert RetryFailedPrefix + (UnknownTypePrefix + name) == RetryFailedPrefix + UnknownTypePrefix + name;
  }
}
