/** The two consumer handlers of cmd/consumer/main.go: `processOrder` on the
    order topic and `processPayment` on the payment topic.

    `json.Unmarshal` is the `unmarshal` parameter, `rand.IntN(451)` is
    `draw`, `time.Now()` is `now`, the payment producer is `publish` (the
    error `Producer.Publish` returns for a key and a payment), building the
    HTTP request is `requestErr` (its error, if any) and the HTTP round trip
    is `post`. `bag` is the baggage of the handler's context. */
module Handlers {
  import opened Base
  import opened Models
  import opened Telemetry
  import opened Baggage
  import Producer

  datatype HandlerError =
    | DecodeFailed(cause: string)                  // json.Unmarshal's error
    | PublishFailed(publishError: Producer.PublishError)  // the producer's error, returned as is
    | RequestFailed(cause: string)                 // http.NewRequestWithContext's error
    | TransportFailed(cause: string)               // httpClient.Do's error
    | UnexpectedStatus(status: int)                // "payment-api returned %d"

  const MinDelayMillis: int := 50
  const MaxDelayMillis: int := 500

  /** The error returned, the simulated delay, the publish call made and the
      metrics after the call. */
  datatype OrderHandling = OrderHandling(
    err: Option<HandlerError>,
    delayMillis: Option<int>,
    published: Option<(string, Payment)>,
    metrics: Metrics)

  function ProcessOrder(
    m: Metrics,
    bag: Bag,
    value: Bytes,
    unmarshal: Bytes -> Result<Order, string>,
    draw: int,
    now: Timestamp,
    publish: (string, Payment) -> Option<Producer.PublishError>): (h: OrderHandling)
    requires 0 <= draw < 451  // what rand.IntN(451) returns
    // an undecodable message fails the handler before anything else happens
    ensures unmarshal(value).Err? ==>
      h == OrderHandling(Some(DecodeFailed(unmarshal(value).error)), None, None, m)
    ensures unmarshal(value).Ok? ==>
      var order := unmarshal(value).value;
      var customer := EffectiveCustomer(bag, order.customerID);
      // the delay stays within 50..500 ms
      && h.delayMillis.Some?
      && MinDelayMillis <= h.delayMillis.value <= MaxDelayMillis
      // the payment for the order is published, keyed by the order id, under
      // the effective customer
      && h.published.Some?
      && h.published.value.0 == order.id
      && h.published.value.1 == Payment(order.id, customer, order.totalCents, Confirmed, now)
      // the handler fails exactly when the publish does, with its error
      && (h.err.None? <==> publish(order.id, h.published.value.1).None?)
      && (h.err.Some? ==> h.err.value == PublishFailed(publish(order.id, h.published.value.1).value))
      // one consumed message and one processing-time sample, both labelled
      // with the effective customer, recorded before the publish
      && h.metrics == m.(messagesConsumed := m.messagesConsumed + multiset{customer},
                         processingMillis := m.processingMillis + [(customer, h.delayMillis.value)])
  {
    match unmarshal(value)
    case Err(cause) => OrderHandling(Some(DecodeFailed(cause)), None, None, m)
    case Ok(order) =>
      var cid := MemberValue(bag, CustomerIDKey);
      var customerID := if cid != "" then cid else order.customerID;
      var delay := 50 + draw;
      var m' := m.(messagesConsumed := m.messagesConsumed + multiset{customerID},
                   processingMillis := m.processingMillis + [(customerID, delay)]);
      var payment := Payment(order.id, customerID, order.totalCents, Confirmed, now);
      match publish(order.id, payment)
      case Some(err) => OrderHandling(Some(PublishFailed(err)), Some(delay), Some((order.id, payment)), m')
      case None => OrderHandling(None, Some(delay), Some((order.id, payment)), m')
  }

  /** The JSON body of the confirmation callout. */
  datatype ConfirmBody = ConfirmBody(orderID: string, customerID: string, totalCents: int64)

  /** What the HTTP round trip produced. */
  datatype CalloutResult = TransportError(cause: string) | Responded(status: int)

  /** The error returned and the callout body sent, if a request went out. */
  datatype PaymentHandling = PaymentHandling(err: Option<HandlerError>, sent: Option<ConfirmBody>)

  function ProcessPayment(
    value: Bytes,
    unmarshal: Bytes -> Result<Payment, string>,
    requestErr: Option<string>,
    post: ConfirmBody -> CalloutResult): (h: PaymentHandling)
    // an undecodable message fails the handler and no callout is made
    ensures unmarshal(value).Err? ==> h == PaymentHandling(Some(DecodeFailed(unmarshal(value).error)), None)
    // a request that cannot be built fails the handler and nothing is sent
    ensures unmarshal(value).Ok? && requestErr.Some? ==> h == PaymentHandling(Some(RequestFailed(requestErr.value)), None)
    ensures h.sent.Some? <==> unmarshal(value).Ok? && requestErr.None?
    // the callout carries the payment's own fields, with no baggage override
    ensures h.sent.Some? ==>
      var p := unmarshal(value).value;
      h.sent.value == ConfirmBody(p.orderID, p.customerID, p.totalCents)
    // only a 200 answer makes the handler succeed
    ensures h.err.None? <==> h.sent.Some? && post(h.sent.value) == Responded(200)
    ensures h.sent.Some? && post(h.sent.value).TransportError? ==>
      h.err == Some(TransportFailed(post(h.sent.value).cause))
    ensures h.sent.Some? && post(h.sent.value).Responded? && post(h.sent.value).status != 200 ==>
      h.err == Some(UnexpectedStatus(post(h.sent.value).status))
  {
    match unmarshal(value)
    case Err(cause) => PaymentHandling(Some(DecodeFailed(cause)), None)
    case Ok(payment) =>
      var body := ConfirmBody(payment.orderID, payment.customerID, payment.totalCents);
      match requestErr
      case Some(cause) => PaymentHandling(Some(RequestFailed(cause)), None)
      case None =>
        match post(body)
        case TransportError(cause) => PaymentHandling(Some(TransportFailed(cause)), Some(body))
        case Responded(status) =>
          if status != 200 then PaymentHandling(Some(UnexpectedStatus(status)), Some(body))
          else PaymentHandling(None, Some(body))
  }
}
