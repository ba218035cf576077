# Transactional outbox for domain events

This project models the event-record lifecycle of a Spring Boot service that
publishes domain events through a transactional outbox. The model is written in Dafny.

- **Publish.** The publisher serializes a payload and stores an `EventLog` row
  with status `PENDING` and no retries. Only then does it emit an in-memory
  envelope (`BaseEvent`) that names the row by id.
- **Dispatch.** An asynchronous listener reloads the row and skips it unless it
  is still `PENDING`. It runs the handler selected by the envelope's type tag,
  then marks the row `PROCESSED` or records the failure. A failure means
  `RETRY`, or `FAILED` once `maxRetries` attempts are used up.
- **Retry.** A scheduled job selects `RETRY` rows whose count is below the
  literal bound 3 and waits out an exponential backoff of `5 * 2^retryCount`
  seconds. It then decodes each due row's stored payload again, puts the row
  back to `PENDING` and re-emits an envelope with the same id. A row whose
  payload cannot be read back is given up as `FAILED`.

Modules, one per file:

- `Wrappers`: `Option` (a nullable reference) and `Result` (a call that may throw).
- `Events`: the status enum, the type tag, the two payload DTOs, the `EventLog`
  record and the envelope.
- `Repository`: the `event_logs` table, modelled as a sequence in which the row
  with IDENTITY id `k` sits at index `k - 1`. Rows are never deleted.
  - `Insert` stamps `createdAt` and `updatedAt`.
  - `Update` keeps `createdAt` and refreshes `updatedAt`.
  - The three derived queries are filters. They return ids in increasing order.
- `Listener`: `handleEvent`, `handleEventFailure` and the two simulated handlers.
- `Publisher`: `publishEvent`, `retryEvent` and the payload-type registry. The
  JSON mapper is an abstract `Codec` (encode and decode, both of which may fail).
- `Scheduler`: one tick of `retryFailedEvents`. It uses Java `int` arithmetic
  for the backoff.
- `Outbox`: the service as a state machine. The state is the store plus the
  channel of undelivered envelopes. A step is a publish, the dispatch of any
  queued envelope, or a scheduler tick; steps interleave in any order. This
  module holds the invariant proved over every run, and the state table of
  record changes.
- `Scenarios`: end-to-end runs, including the order `FAIL123` failing three times.

Some lemmas need the mapper to read back what it wrote. That requirement is the
predicate `Publisher.Faithful`, taken as a hypothesis of those lemmas. It is
never assumed globally.

The listener picks the handler from the envelope's `eventType` and casts the
envelope's payload (EventListenerService.java:45-50). It does not look at the
stored record's type. The model does the same. Where the two disagree, the
handler's cast fails, and the model records that as a handler failure.

Two behaviours of the code are kept as written:

- The scheduler's bound `3` is a constant. It is independent of the
  configurable `maxRetries` used by the listener.
  - With `maxRetries > 3`, a record can end in `RETRY` with count 3. Nothing
    ever changes it again (`Outbox.StrandedRetryStaysForever`,
    `Scenarios.FailingOrderIsStrandedWhenMaxRetriesIsFour`).
  - A single configured bound would avoid this. The model follows the code instead.
- An event type with no case in the listener's switch is still marked `PROCESSED`.

## Model

| member | source | states |
|---|---|---|
| Repository.FindById | src/main/java/com/meska/eventdriven/service/EventListenerService.java:34-35 | the lookup finds a row exactly when the id is stored, and returns that row |
| Repository.Insert | src/main/java/com/meska/eventdriven/entity/EventLog.java:19-40 | the store assigns the next, previously unused id; no other row changes; the new row has both timestamps set to the save time |
| Repository.Update | src/main/java/com/meska/eventdriven/entity/EventLog.java:36-40 | saving an existing row keeps its original `createdAt`, sets `updatedAt` to the save time and leaves every other row as it was |
| Repository.FindByStatus | src/main/java/com/meska/eventdriven/repos/EventLogRepository.java:17 | an id is returned if and only if its row has the given status; each id once, in increasing order |
| Repository.FindByStatusAndRetryCountLessThan | src/main/java/com/meska/eventdriven/repos/EventLogRepository.java:14 | an id is returned if and only if its row has the status and a retry count strictly below the bound; each id once |
| Repository.FindByStatusAndCreatedAtAfter | src/main/java/com/meska/eventdriven/repos/EventLogRepository.java:20-23 | an id is returned if and only if its row has the status and was created strictly after the timestamp; each id once |
| Listener.RunHandler | src/main/java/com/meska/eventdriven/service/EventListenerService.java:45-98 | an unlisted type always completes; for the two listed types the handler throws exactly when the payload is of the wrong class or carries `fail@example.com` / `FAIL123`, with the fixed "Simulated failure for ..." message |
| Listener.HandleEventFailure | src/main/java/com/meska/eventdriven/service/EventListenerService.java:66-77 | the retry count goes up by exactly one; the record is `FAILED` if and only if the new count reaches `maxRetries` and `RETRY` otherwise; the message is the exception's; no other field changes |
| Listener.HandleEvent | src/main/java/com/meska/eventdriven/service/EventListenerService.java:33-64 | a missing id gives "Event log not found" and no change; a record not `PENDING` is skipped unchanged, and only such a record is skipped; a pending record becomes `PROCESSED` with `processedAt` set on success or takes the failure rule on a throw; no other record changes |
| Listener.RedeliveryIsIgnored | src/main/java/com/meska/eventdriven/service/EventListenerService.java:37-43 | delivering the same envelope a second time, at any later time, leaves the store as the first delivery left it |
| Listener.UnhandledTypeIsProcessed | src/main/java/com/meska/eventdriven/service/EventListenerService.java:52-59 | a pending record whose envelope has a type with no case ends `PROCESSED` with `processedAt` set and its count and message kept |
| Listener.FailuresAreCounted | src/main/java/com/meska/eventdriven/service/EventListenerService.java:68-72 | after `n` consecutive failures the count has grown by exactly `n`, the status is `FAILED` exactly when the count reached `maxRetries`, and `processedAt` is untouched |
| Publisher.PayloadTypeFor | src/main/java/com/meska/eventdriven/service/EventPublisherService.java:79-88 | the registry maps `USER_REGISTERED` and `ORDER_CREATED` to their DTO classes and fails for every other type with "Unknown event type: " and the type's name |
| Publisher.PublishEvent | src/main/java/com/meska/eventdriven/service/EventPublisherService.java:30-52 | publish fails with "Event publishing failed" if and only if encoding fails; otherwise exactly one new row with a fresh id holds the type, the encoded text, `PENDING` and count 0, old rows are kept, and the envelope carries the new id, the payload and the type |
| Publisher.ReadPayload | src/main/java/com/meska/eventdriven/service/EventPublisherService.java:58-59 | an unknown type fails before any decode; a known type decodes the stored text as its registered class |
| Publisher.RetryEvent | src/main/java/com/meska/eventdriven/service/EventPublisherService.java:55-76 | an envelope is emitted if and only if the stored payload reads back; then the record is `PENDING` with its count kept and the envelope has the same id; otherwise it is `FAILED` with "Retry failed: " and the cause; no other record changes |
| Publisher.RetryReemitsPublishedEvent | src/main/java/com/meska/eventdriven/service/EventPublisherService.java:44-67 | for a mapper that reads back what it writes, retrying a published record re-emits exactly the envelope publish emitted |
| Publisher.UnknownTypeIsGivenUp | src/main/java/com/meska/eventdriven/service/EventPublisherService.java:70-86 | a record of a type the registry does not know is never re-emitted and is given up with "Retry failed: Unknown event type: ..." |
| Scheduler.Candidates | src/main/java/com/meska/eventdriven/service/RetrySchedulerService.java:36-37 | the tick selects exactly the `RETRY` records whose count is below the literal 3 |
| Scheduler.RetryFailedEvents | src/main/java/com/meska/eventdriven/service/RetrySchedulerService.java:35-58 | each due candidate is changed exactly as its own retry would change it and every other record is untouched; every envelope emitted belongs to a due candidate and is the one its retry emits; every due candidate that reads back is emitted, each at most once and in id order, whatever the other candidates' retries did |
| Scheduler.RetryEachIsPointwise | src/main/java/com/meska/eventdriven/service/RetrySchedulerService.java:41-57 | one record's retry, failed or not, does not affect how the loop treats the other selected records |
| Scheduler.BackoffTable | src/main/java/com/meska/eventdriven/service/RetrySchedulerService.java:46 | the backoff is 5, 10 and 20 seconds for retry counts 0, 1 and 2 |
| Scheduler.CandidateBackoff | src/main/java/com/meska/eventdriven/service/RetrySchedulerService.java:36-46 | for every selectable record the wrapping `int` backoff equals `5 * 2^retryCount`, is at most 20 and strictly increases with the count |
| Scheduler.DueExample | src/main/java/com/meska/eventdriven/service/RetrySchedulerService.java:44-51 | at count 1 a record updated 3 s ago is not due, one updated exactly 10 s ago is due, one updated 11 s ago is due |
| Outbox.PublishPreservesInv | src/main/java/com/meska/eventdriven/service/EventPublisherService.java:42-45 | a publish keeps the outbox invariant: the new pending row has exactly one envelope queued |
| Outbox.DispatchPreservesInv | src/main/java/com/meska/eventdriven/service/EventListenerService.java:33-77 | consuming any queued envelope keeps the outbox invariant |
| Outbox.RetryPreservesInv | src/main/java/com/meska/eventdriven/service/EventPublisherService.java:55-76 | retrying a candidate keeps the invariant: a re-queued record gets exactly one envelope, a given-up record none |
| Outbox.TickPreservesInv | src/main/java/com/meska/eventdriven/service/RetrySchedulerService.java:35-58 | a whole scheduler tick keeps the outbox invariant |
| Outbox.OutboxInvariant | src/main/java/com/meska/eventdriven/service/EventPublisherService.java:42-67 | in every reachable state, for any mapper and any `maxRetries`, every queued envelope names a stored record, every `PENDING` record has exactly one envelope queued, and every retry count lies in 0..3 |
| Outbox.EvolvesConsequences | src/main/java/com/meska/eventdriven/entity/EventLog.java:36-42 | under the state table `createdAt`, type and payload never change, the count never decreases, `PROCESSED` and `FAILED` are terminal, `processedAt` is set only together with `PROCESSED`, and every change refreshes `updatedAt` |
| Outbox.StepEvolves | src/main/java/com/meska/eventdriven/entity/EventLog.java:19-46 | every step moves each existing record along the state table, and the only records it adds are `PENDING` rows with count 0 created at the step's time |
| Outbox.StrandedRetryIsUntouched | src/main/java/com/meska/eventdriven/service/RetrySchedulerService.java:36-37 | a `RETRY` record with count 3 or more is left unchanged by every step |
| Outbox.StrandedRetryStaysForever | src/main/java/com/meska/eventdriven/service/RetrySchedulerService.java:36-37 | such a record stays unchanged by every sequence of steps |
| Scenarios.PublishIntoEmpty | src/main/java/com/meska/eventdriven/service/EventPublisherService.java:35-45 | publishing into the empty system yields one `PENDING` row with id 1 and one queued envelope for it |
| Scenarios.DueRequeue | src/main/java/com/meska/eventdriven/service/RetrySchedulerService.java:44-53 | a tick that finds the failing order due puts it back to `PENDING` and queues its envelope again |
| Scenarios.AttemptsUpToThird | src/main/java/com/meska/eventdriven/service/EventListenerService.java:68-72 | for `maxRetries >= 3` the three attempts at the failing order, at 0 s, 10 s and 30 s, give the exact system states `RETRY(1)`, `RETRY(2)` and then `FAILED(3)` or `RETRY(3)` |
| Scenarios.FailingOrderIsGivenUpOnTheThirdFailure | src/main/java/com/meska/eventdriven/service/EventListenerService.java:91-98 | with `maxRetries = 3` the order `FAIL123` goes `RETRY(1)`, `RETRY(2)`, `FAILED(3)` with the message "Simulated failure for order: FAIL123" |
| Scenarios.FailingOrderIsStrandedWhenMaxRetriesIsFour | src/main/java/com/meska/eventdriven/service/RetrySchedulerService.java:36-37 | with `maxRetries = 4` the same order ends `RETRY(3)` and no later sequence of steps ever changes it |
| Scenarios.GoodUserIsProcessed | src/main/java/com/meska/eventdriven/service/EventListenerService.java:56-59 | an accepted registration is `PROCESSED` after its one dispatch, with `processedAt` set, count 0 and nothing left queued |

## Left out

- The HTTP controller and the application bootstrap. The controller only forwards to publish.
- `NotificationService` and `OrderProcessingService` only log. They are modelled as always succeeding.
- Logging.
- Jackson's `ObjectMapper`.
  - It is an abstract `Codec` whose encode and decode may fail.
  - Read-back is a hypothesis (`Publisher.Faithful`) of the lemmas that need it, not an axiom.
- Spring's concurrency and transactions: `@Async`, `@TransactionalEventListener`,
  `REQUIRES_NEW`, `@Transactional` and the `@Scheduled` timer.
  - Each operation is one atomic step.
  - Steps interleave in any order.
  - A dispatch may take any queued envelope.
  - Races and lost updates between concurrent transactions are not modelled.
- The wall clock (`LocalDateTime.now()`) is a parameter in whole seconds.
  - One tick uses a single `now` for all its records.
  - The code reads the clock once per record, and sub-second precision is not modelled.
- The envelope's creation timestamp (`BaseEvent`, taken from `System.currentTimeMillis()`).
  The core never reads it.
- The `double amount` of an order is opaque: a 64-bit pattern the core never computes with.
- The order of query results.
  - The derived queries have no `ORDER BY`.
  - The model returns ids in increasing order.
- The store is a sequence indexed by id, not a map. IDENTITY ids are consecutive
  and the core never deletes a row.
- Null strings and null enum values are not modelled. Every string field and
  type tag is present, and an absent `errorMessage` or `processedAt` is `None`.
- Listener.RunHandler: the message of the `ClassCastException` for a
  payload of the wrong class is approximated. Only the fact that it is a failure matters.
- Scheduler.RetryFailedEvents: the `catch` around each record's retry (RetrySchedulerService.java:54-56) has no counterpart.
  - In the model, `retryEvent` absorbs every failure into the record itself, so nothing reaches that `catch`.
  - Per-record isolation is stated instead as each record being treated as its own retry would treat it.
- Listener.HandleEventFailure: the 32-bit wrap-around of `retryCount + 1` is
  not modelled.
  - `Outbox.OutboxInvariant` shows the count never exceeds 3 in any reachable state.
  - So the increment cannot overflow there.
- The `EventsType` enum's declaration is not part of this model. Its two named
  constants are modelled, and any further constant is represented by its name.
