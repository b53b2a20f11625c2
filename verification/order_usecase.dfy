/** `UseCase.PlaceOrder` (internal/order/usecase.go): the authorization gate,
    order construction, publication and outcome metrics.

    The random draw is replaced by its verdict `declined` (the source declines
    when `rand.Float64() < 0.2`), `uuid.NewString()` by `newID`, `time.Now()` by
    `now`, and the order producer by `publish`, the error `Producer.Publish`
    returns for a key and an order. The use case itself validates nothing. */
module OrderUseCase {
  import opened Base
  import opened Models
  import opened Telemetry
  import Producer

  datatype OrderError =
    | PaymentDeclined                              // ErrPaymentDeclined
    | PublishFailed(cause: Producer.PublishError)  // the producer's error, returned as is

  /** The "status" label of the OrdersCreated increment for an outcome. */
  function StatusLabel(result: Result<Order, OrderError>): string {
    match result
    case Ok(_) => "ok"
    case Err(PaymentDeclined) => "declined"
    case Err(PublishFailed(_)) => "error"
  }

  /** The returned `(order, err)`, the publish call made (key and record),
      and the metrics after the call. */
  datatype Placement = Placement(
    result: Result<Order, OrderError>,
    published: Option<(string, Order)>,
    metrics: Metrics)

  function PlaceOrder(
    m: Metrics,
    customerID: string,
    items: seq<string>,
    totalCents: int64,
    declined: bool,
    newID: string,
    now: Timestamp,
    publish: (string, Order) -> Option<Producer.PublishError>): (p: Placement)
    // a decline is returned as ErrPaymentDeclined and nothing is published
    ensures declined <==> p.result == Err(PaymentDeclined)
    ensures declined ==> p.published.None?
    // an accepted order carries the caller's fields and is published once,
    // keyed by its own identifier
    ensures !declined ==> p.published.Some?
    ensures p.published.Some? ==>
      && p.published.value.0 == p.published.value.1.id
      && p.published.value.1.id == newID
      && p.published.value.1.customerID == customerID
      && p.published.value.1.items == items
      && p.published.value.1.totalCents == totalCents
      && p.published.value.1.createdAt == now
    // success exactly when the gate accepts and the publish succeeds; the
    // returned order is the one published
    ensures p.result.Ok? <==> p.published.Some? && publish(p.published.value.0, p.published.value.1).None?
    ensures p.result.Ok? ==> p.published == Some((p.result.value.id, p.result.value))
    // a publish failure is returned with the producer's own error
    ensures p.result.Err? && p.result.error.PublishFailed? ==>
      p.published.Some? && publish(p.published.value.0, p.published.value.1) == Some(p.result.error.cause)
    // one OrdersCreated increment per call, labelled by the outcome; the
    // order value is recorded on success only; nothing else is recorded
    ensures p.metrics.ordersCreated == m.ordersCreated + multiset{StatusLabel(p.result)}
    ensures p.metrics.orderValueCents == m.orderValueCents + (if p.result.Ok? then [totalCents] else [])
    ensures p.metrics.messagesConsumed == m.messagesConsumed
    ensures p.metrics.processingMillis == m.processingMillis
    ensures p.metrics.paymentsConfirmed == m.paymentsConfirmed
  {
    if declined then
      Placement(Err(PaymentDeclined), None, m.(ordersCreated := m.ordersCreated + multiset{"declined"}))
    else
      var order := Order(newID, customerID, items, totalCents, now);
      match publish(order.id, order)
      case Some(err) =>
        Placement(Err(PublishFailed(err)), Some((order.id, order)),
                  m.(ordersCreated := m.ordersCreated + multiset{"error"}))
      case None =>
        Placement(Ok(order), Some((order.id, order)),
                  m.(ordersCreated := m.ordersCreated + multiset{"ok"},
                     orderValueCents := m.orderValueCents + [totalCents]))
  }

  /** The three labels are distinct, so the label recorded identifies the
      path taken. */
  lemma StatusLabelIdentifiesOutcome(a: Result<Order, OrderError>, b: Result<Order, OrderError>)
    requires StatusLabel(a) == StatusLabel(b)
    ensures a.Ok? <==> b.Ok?
    ensures a == Err(PaymentDeclined) <==> b == Err(PaymentDeclined)
  {
  }
}
