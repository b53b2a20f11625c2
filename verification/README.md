# Order → payment saga over Kafka: a Dafny model of the decision layer

The repository wires an order API, a payment API and a Kafka consumer
process together with OpenTelemetry tracing. This project models the
decision layer inside that wiring as pure functions:

- the Kafka header carrier (`kafkaHeaderCarrier`: `Get`, `Set`, `Keys`) and the
  propagator's use of it (`Carrier`);
- `Producer.Publish`: serialize, inject the trace context, build the message,
  write (`Producer`);
- `Consumer.Listen`: the fetch → handle → commit loop, as a function over a
  finite script of fetch, handler and commit outcomes that returns the exit
  and a trace of handler calls and commits (`Consumer`);
- `POST /orders` and `UseCase.PlaceOrder`: validation, the decline gate,
  order construction, publication, status codes and outcome labels
  (`OrderController`, `OrderUseCase`);
- the order-topic and payment-topic handlers `processOrder` and
  `processPayment` (`Handlers`);
- `POST /payments/confirm` and `UseCase.ConfirmPayment` (`PaymentController`,
  `PaymentUseCase`);
- the `customer_id` baggage override shared by both consumption points
  (`Baggage`), and the metrics the core records (`Telemetry`, a record of
  what has been recorded so far).

Everything impure is a parameter: `json.Marshal`/`json.Unmarshal` and the
HTTP body parser are functions or parse outcomes, the broker write is a
function from the message to its error, `uuid.NewString()`, `time.Now()`,
`rand.Float64() < 0.2` and `rand.IntN(451)` are values passed in, the
propagator's injected fields are a list of key/value pairs, the HTTP round
trip is a function from the callout body to a status or transport error,
and the baggage at each consumption point is a map passed in. Go's `string`
and `[]byte` are one type (`Bytes`); `int64` is a bounded subset of `int`.

`Saga` composes the pieces: an order the API accepted reaches the
confirmation service with its id, customer and amount intact, and a
confirmation callout answered with 500 fails the payment handler, so the
loop makes no commit call for that message and carries on.

In the consumer model, `Committed(msg)` means only that a `CommitMessages`
call for the message returned nil. It does not mean the broker has stored
the offset; see "## Left out".

## Model

| member | source | states |
|---|---|---|
| `Carrier.Keys` | internal/kafka/producer.go:101-107 | one key per header, same length, position i holds header i's key, duplicates kept |
| `Carrier.Get` | internal/kafka/producer.go:88-95 | the value of the first header with the key; `""` when no header has it |
| `Carrier.Set` | internal/kafka/producer.go:97-99 | appends exactly one header `(k, v)` at the end and leaves every earlier header unchanged |
| `Carrier.GetReadsFirstMatch` | internal/kafka/producer.go:88-95 | a present key has a first occurrence and `Get` returns its value, shadowing later duplicates |
| `Carrier.GetAfterSet` | internal/kafka/producer.go:88-99 | after `Set(k', v)`, `Get(k)` is unchanged for a key already present, is `v` for an absent `k == k'`, and `""` for any other absent key |
| `Carrier.GetAfterSetAbsent` | internal/kafka/producer.go:88-99 | if `k` is absent, `Get(k)` after `Set(k, v)` is `v` |
| `Carrier.KeysAfterSet` | internal/kafka/producer.go:97-107 | `Keys` after `Set(k, v)` is the old key list followed by `k` |
| `Carrier.Inject` | internal/kafka/producer.go:60-61 | injecting the propagator's fields keeps the existing headers and appends one header per field, in field order |
| `Carrier.InjectedFieldsReadBack` | internal/kafka/producer.go:60-61 | a field injected into a fresh carrier reads back with `Get` unless an earlier field used its key |
| `Producer.Publish` | internal/kafka/producer.go:42-78 | a serialization failure returns an error and writes nothing; otherwise the written message has the key, the serialized bytes and exactly the injected headers; the result is nil iff serialization and the write both succeed, and a failed write returns `WriteFailed` carrying the broker's cause |
| `Producer.PublishedContextReadsBack` | internal/kafka/producer.go:60-61 | after a successful serialization, `Get` on the written message's headers returns every injected trace field that no earlier field shadows, so a consumer reading the carrier sees the producer's context |
| `Consumer.Listen` | internal/kafka/consumer.go:45-84 | the loop stops at the first fetch failure or commit failure with the matching exit (nil after cancellation, an error otherwise), hands every fetched message to the handler exactly once in fetch order, makes a commit call for a message iff its handler succeeded and records it as committed iff that call returned nil, makes each commit call right after that message's successful handler call, and leaves a success unrecorded only when that commit call's error ended the loop |
| `Consumer.AcknowledgedIsSubsequence` | internal/kafka/consumer.go:46-83 | over any script, the messages whose handler and commit call succeeded are a subsequence of the fetched messages, in fetch order |
| `Consumer.CommitsAreSubsequenceOfHandled` | internal/kafka/consumer.go:46-83 | in every run of the loop, the messages whose commit call returned nil are a subsequence of the messages handed to the handler, in the order they were handled |
| `Consumer.ListenExit` | internal/kafka/consumer.go:46-82 | at the first step that ends the loop: a fetch error after cancellation returns nil, a fetch error with a live context returns an error, a commit failure returns an error |
| `Consumer.HandlerFailureSkipsCommit` | internal/kafka/consumer.go:70-75 | a failing handler is followed by no commit call and by the next fetch; the rest of the run is the run of the rest of the script |
| `Baggage.EffectiveCustomer` | cmd/consumer/main.go:138-142 | a non-empty `customer_id` baggage member overrides the payload's customer id; an absent or empty one leaves it |
| `Baggage.OverrideAgrees` | internal/payment/usecase.go:32-35 | the override changes nothing when the baggage is silent or names the payload's customer |
| `Baggage.Seed` | internal/order/controller.go:45-47 | the controller's context baggage holds exactly `customer_id` when the member was accepted, and is empty when it was rejected |
| `OrderUseCase.PlaceOrder` | internal/order/usecase.go:34-85 | a decline returns `ErrPaymentDeclined` and publishes nothing; an accepted order has the given id, customer, items, amount and time and is published keyed by its id; success iff accepted and published, returning the published order; a publish failure returns the producer's error; one OrdersCreated increment labelled by outcome; the value histogram only on success |
| `OrderUseCase.StatusLabelIdentifiesOutcome` | internal/order/usecase.go:52-74 | the "declined", "error" and "ok" labels identify the path taken: two results with the same label are both orders, both declines or both publish failures (this rests only on the three labels being distinct strings) |
| `OrderController.Create` | internal/order/controller.go:29-64 | an unparseable body or a missing customer, item list or positive amount gives 400 and the use case is not called; otherwise the use case gets the request's fields under the seeded baggage, and a decline gives 402, any other error 500, success 201 with the order |
| `OrderController.CreateSeedsCustomer` | internal/order/controller.go:45-49 | for a customer id the baggage member accepts unchanged, the use case runs with baggage `customer_id` equal to the request's |
| `PaymentUseCase.ConfirmPayment` | internal/payment/usecase.go:26-62 | never errors; keeps order id and amount; customer id under the baggage override; status "confirmed"; exactly one PaymentsConfirmed increment |
| `PaymentUseCase.RepeatedConfirmationsAllSucceed` | internal/payment/usecase.go:26-62 | confirming the same order n times, each call with its own clock reading, gives n successful payments that all carry the order id, the effective customer, the amount and "confirmed", each stamped with its own reading, and exactly n increments: nothing remembers earlier confirmations |
| `PaymentController.Confirm` | internal/payment/controller.go:26-52 | an unparseable body or an empty order id gives 400 and the use case is not called; customer and amount reach the use case unvalidated; a use-case error would give 500, success gives 200 with the payment, so every request with an order id gets 200 |
| `Handlers.ProcessOrder` | cmd/consumer/main.go:119-177 | an undecodable order fails the handler with nothing published or recorded; otherwise the delay lies in 50..500 ms, the payment (order id, effective customer, amount, "confirmed") is published keyed by the order id, the handler fails iff that publish fails and with its error, and one consumed-message count and one processing sample are recorded under the effective customer |
| `Handlers.ProcessPayment` | cmd/consumer/main.go:179-237 | an undecodable payment or an unbuildable request fails the handler and sends nothing; the callout body carries the payment's own order id, customer and amount; the handler succeeds iff the callout answered 200, and reports transport errors and other statuses |
| `Saga.AcceptedOrderIsConfirmed` | cmd/consumer/main.go:119-237 | an order the API accepted (201), carried through both handlers and the confirmation API, is confirmed with 200 and a payment holding its id, the requesting customer and its amount, and the payment handler succeeds |
| `Saga.FailedCalloutIsNotCommitted` | cmd/consumer/main.go:222-227 | a callout answered with 500 fails the payment handler; the loop makes no commit call for that message and continues as for the rest of the script |

## Left out

- Topic provisioning (`CreateTopic` in internal/kafka/admin.go) is broker dialing and a create request; it is not modelled. `CreateTopic` does not special-case an existing topic; it returns `CreateTopics`' error wrapped as `failed to create topic: %w` (and its own wrapped errors when dialing the broker or the controller fails), and its callers log a warning (cmd/consumer/main.go:82-84).
- JSON encoding and decoding, W3C trace-context injection and extraction, `baggage.NewMember` validation and percent-decoding, UUID generation, the clock and random numbers are library behaviour; each enters as a parameter. `Saga.AcceptedOrderIsConfirmed` therefore assumes three things rather than proving them: the JSON round trip of the Order, the JSON round trip of the Payment, and that the confirmation service parses the callout body into exactly its order id, customer id and amount.
- `OrderUseCase.PlaceOrder`: takes the gate's verdict as a boolean rather than the draw compared against 0.2, so the decline rate is not modelled.
- `Handlers.ProcessOrder`: the sleep itself and the conversion of the delay to float seconds for the ProcessingTime histogram are left out; the sample is the delay in whole milliseconds.
- `Consumer.Listen`: the script is finite; when it runs out the model reports `Blocked` (still waiting in a fetch) where the real loop keeps going. kafka-go's offset bookkeeping and rebalancing are outside the model; the loop itself never re-fetches a message whose handler failed, and the model does not either.
- Consumer.Listen: a recorded commit is only a `CommitMessages` call that returned nil. The reader is configured with `CommitInterval: time.Second` (internal/kafka/consumer.go:33), so that call only queues the offset and the library commits it later in the background; a broker-side failure of that later commit does not end `Listen`. Kafka commits one offset per partition (the message's offset plus one), so a later successful message on the same partition commits past a message whose handler failed. The model therefore promises nothing about which messages the broker redelivers after a restart.
- Spans, span attributes, span statuses and log lines have no behavioural effect beyond the error paths modelled and are left out.
- The HTTP header carrier used for the callout (`propagation.HeaderCarrier`) is library code; only the callout body and outcome are modelled.
- The baggage at each consumption point is a parameter. As configured (internal/telemetry/logger.go:57 and the producer's `init`), the global propagator is the W3C trace-context propagator alone, which carries no baggage, so in the running system the `customer_id` member set by the order controller does not reach the consumer or the payment API, and the override does not fire there; the saga lemma covers both the absent and the agreeing member.
- Process wiring (`main` of each command, environment defaults, Fiber routing, `/health`, signal handling, running the two consumer loops concurrently) and the load generators are not part of this model.
- OrderController.Create: the baggage put into the use case's context is the combined outcome of `baggage.NewMember` and `baggage.New` on the request's customer id (a parameter). It equals the request's customer id only when that id is a valid baggage value that percent-decodes to itself and the baggage fits the library's limits (`OrderController.CreateSeedsCustomer`). It is empty when either call rejects it, because the controller discards both errors.
- `PlaceOrder` has three outcomes: an order, `ErrPaymentDeclined`, or the producer's error.
- `PlaceOrder` validates nothing; only the controller does (internal/order/controller.go:40). The override fires only for a non-empty member.
