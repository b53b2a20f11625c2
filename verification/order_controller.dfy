/** `Controller.Create` (internal/order/controller.go): `POST /orders`.

    Body parsing is outside the model: `parsed` is what `c.BodyParser` made of
    the request body (`Err` when it fails). The baggage seeded into the use
    case's context comes from `member`, the combined outcome of
    `baggage.NewMember("customer_id", ...)` and `baggage.New` (see
    `Baggage.Seed`). The remaining parameters are the
    use case's own (see `OrderUseCase.PlaceOrder`). */
module OrderController {
  import opened Base
  import opened Models
  import opened Telemetry
  import opened Http
  import opened Baggage
  import opened OrderUseCase
  import Producer

  datatype CreateOrderRequest = CreateOrderRequest(
    customerID: string,
    items: seq<string>,
    totalCents: int64)

  /** The request names a customer, at least one item and a positive amount. */
  predicate HasRequiredFields(req: CreateOrderRequest) {
    req.customerID != "" && |req.items| > 0 && req.totalCents > 0
  }

  /** The use-case call the controller made: the baggage in its context and
      its arguments. */
  datatype PlaceOrderCall = PlaceOrderCall(
    bag: Bag,
    customerID: string,
    items: seq<string>,
    totalCents: int64)

  datatype Created = Created(
    response: Response,
    call: Option<PlaceOrderCall>,
    published: Option<(string, Order)>,
    metrics: Metrics)

  function Create(
    parsed: Result<CreateOrderRequest, string>,
    member: Option<string>,
    m: Metrics,
    declined: bool,
    newID: string,
    now: Timestamp,
    publish: (string, Order) -> Option<Producer.PublishError>): (c: Created)
    // malformed bodies and missing fields are rejected before anything happens
    ensures parsed.Err? ==> c.response == Response(StatusBadRequest, ErrorBody("invalid body"))
    ensures parsed.Ok? && !HasRequiredFields(parsed.value) ==>
      c.response == Response(StatusBadRequest, ErrorBody("customer_id, items and total_cents are required"))
    ensures c.call.Some? <==> parsed.Ok? && HasRequiredFields(parsed.value)
    ensures c.call.None? ==> c.published.None? && c.metrics == m
    // the use case gets the request's fields, under baggage seeded from the
    // request's customer
    ensures c.call.Some? ==>
      c.call.value == PlaceOrderCall(Seed(member), parsed.value.customerID, parsed.value.items, parsed.value.totalCents)
    // its outcome maps to 402, 500 or 201
    ensures c.call.Some? ==>
      var p := PlaceOrder(m, parsed.value.customerID, parsed.value.items, parsed.value.totalCents,
                          declined, newID, now, publish);
      && c.published == p.published
      && c.metrics == p.metrics
      && (p.result == Err(PaymentDeclined) ==> c.response == Response(StatusPaymentRequired, ErrorBody("payment declined")))
      && (p.result.Err? && p.result.error.PublishFailed? ==>
            c.response == Response(StatusInternalServerError, ErrorBody("internal error")))
      && (p.result.Ok? ==> c.response == Response(StatusCreated, OrderBody(p.result.value)))
      && (c.response.status == StatusCreated <==> p.result.Ok?)
      && (c.response.status == StatusInternalServerError <==> p.result.Err? && p.result.error.PublishFailed?)
    // 402 is the gate's decline and nothing else
    ensures c.response.status == StatusPaymentRequired <==> c.call.Some? && declined
  {
    match parsed
    case Err(_) => Created(Response(StatusBadRequest, ErrorBody("invalid body")), None, None, m)
    case Ok(req) =>
      if !HasRequiredFields(req) then
        Created(Response(StatusBadRequest, ErrorBody("customer_id, items and total_cents are required")), None, None, m)
      else
        var call := PlaceOrderCall(Seed(member), req.customerID, req.items, req.totalCents);
        var p := PlaceOrder(m, req.customerID, req.items, req.totalCents, declined, newID, now, publish);
        var response :=
          match p.result
          case Err(PaymentDeclined) => Response(StatusPaymentRequired, ErrorBody("payment declined"))
          case Err(_) => Response(StatusInternalServerError, ErrorBody("internal error"))
          case Ok(order) => Response(StatusCreated, OrderBody(order));
        Created(response, Some(call), p.published, p.metrics)
  }

  /** When the customer id is a valid baggage value that decodes to itself,
      the use case runs under baggage whose `customer_id` is the request's. */
  lemma CreateSeedsCustomer(
    req: CreateOrderRequest, m: Metrics, declined: bool, newID: string, now: Timestamp,
    publish: (string, Order) -> Option<Producer.PublishError>)
    requires HasRequiredFields(req)
    ensures var c := Create(Ok(req), Some(req.customerID), m, declined, newID, now, publish);
      c.call.Some? && MemberValue(c.call.value.bag, CustomerIDKey) == req.customerID
  {
  }
}
