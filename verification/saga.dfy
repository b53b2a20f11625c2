/** The order → payment saga end to end: the order API, the order-topic
    handler, the payment-topic handler and the confirmation API, composed
    through the messages and callout that connect them. */
module Saga {
  import opened Base
  import opened Models
  import opened Telemetry
  import opened Http
  import opened Baggage
  import opened Kafka
  import opened OrderController
  import opened Handlers
  import opened PaymentController
  import PaymentUseCase
  import opened Consumer
  import Producer

  /** An order the API accepted reaches the confirmation service with its
      identifier, customer and amount intact, and the payment-topic handler
      succeeds (so the loop makes a commit call for its message). Baggage may or may not survive
      each hop; where it does, it names the requesting customer. */
  lemma AcceptedOrderIsConfirmed(
    req: CreateOrderRequest, member: Option<string>, m0: Metrics, newID: string, created: Timestamp,
    publishOrder: (string, Order) -> Option<Producer.PublishError>,
    c: Created,
    m1: Metrics, orderBag: Bag, orderValue: Bytes, unmarshalOrder: Bytes -> Result<Order, string>,
    draw: int, built: Timestamp, publishPayment: (string, Payment) -> Option<Producer.PublishError>,
    h: OrderHandling,
    paymentValue: Bytes, unmarshalPayment: Bytes -> Result<Payment, string>, post: ConfirmBody -> CalloutResult,
    ph: PaymentHandling,
    confirmBag: Bag, m2: Metrics, confirmed: Timestamp,
    reply: ConfirmReply)
    // uuid.NewString() never yields the empty string, which the confirmation
    // service would reject as a missing order_id
    requires newID != ""
    // the order API accepted the order
    requires c == Create(Ok(req), member, m0, false, newID, created, publishOrder)
    requires c.response.status == StatusCreated
    // the order-topic message decodes to the order that was published
    requires unmarshalOrder(orderValue) == Ok(c.published.value.1)
    requires 0 <= draw < 451
    requires h == ProcessOrder(m1, orderBag, orderValue, unmarshalOrder, draw, built, publishPayment)
    requires h.err.None?
    // the payment-topic message decodes to the payment that was published
    requires unmarshalPayment(paymentValue) == Ok(h.published.value.1)
    requires ph == ProcessPayment(paymentValue, unmarshalPayment, None, post)
    // the confirmation service parses the callout body it was sent
    requires reply == Confirm(
      Ok(ConfirmPaymentRequest(ph.sent.value.orderID, ph.sent.value.customerID, ph.sent.value.totalCents)),
      confirmBag, m2, confirmed)
    // and the callout's answer is that service's reply
    requires post(ph.sent.value) == Responded(reply.response.status)
    requires MemberValue(orderBag, CustomerIDKey) in {"", req.customerID}
    requires MemberValue(confirmBag, CustomerIDKey) in {"", req.customerID}
    ensures reply.response ==
      Response(StatusOK, PaymentBody(Payment(newID, req.customerID, req.totalCents, Confirmed, confirmed)))
    ensures ph.err.None?
  {
    var order := c.published.value.1;
    assert order.id == newID && order.customerID == req.customerID && order.totalCents == req.totalCents;
    OverrideAgrees(orderBag, order.customerID);
    var payment := h.published.value.1;
    assert payment == Payment(newID, req.customerID, req.totalCents, Confirmed, built);
    assert ph.sent.value == ConfirmBody(newID, req.customerID, req.totalCents);
    OverrideAgrees(confirmBag, req.customerID);
    var u := PaymentUseCase.ConfirmPayment(m2, confirmBag, newID, req.customerID, req.totalCents, confirmed);
    assert u.result.value == Payment(newID, req.customerID, req.totalCents, Confirmed, confirmed);
  }

  /** A confirmation callout answered with 500 fails the payment handler, so
      no commit call is made for the message and the loop carries on with
      the next fetch. */
  lemma FailedCalloutIsNotCommitted(
    msg: Message, unmarshal: Bytes -> Result<Payment, string>, post: ConfirmBody -> CalloutResult,
    commitOk: bool, rest: seq<Step>)
    requires unmarshal(msg.value).Ok?
    requires forall b :: post(b) == Responded(StatusInternalServerError)
    ensures var step := Fetched(msg, ProcessPayment(msg.value, unmarshal, None, post).err.None?, commitOk);
      && Listen([step] + rest).exit == Listen(rest).exit
      && Commits(Listen([step] + rest).trace) == Commits(Listen(rest).trace)
  {
    var step := Fetched(msg, ProcessPayment(msg.value, unmarshal, None, post).err.None?, commitOk);
    assert !step.handlerOk;
    assert ([step] + rest)[1..] == rest;
    HandlerFailureSkipsCommit([step] + rest);
  }
}
