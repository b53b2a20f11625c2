/** `Controller.Confirm` (internal/payment/controller.go):
    `POST /payments/confirm`. `parsed` is what the body parser made of the
    request body; `bag` is the baggage of the request's context. */
module PaymentController {
  import opened Base
  import opened Telemetry
  import opened Http
  import opened Baggage
  import opened PaymentUseCase

  datatype ConfirmPaymentRequest = ConfirmPaymentRequest(
    orderID: string,
    customerID: string,
    totalCents: int64)

  /** The use-case call the controller made. */
  datatype ConfirmCall = ConfirmCall(orderID: string, customerID: string, totalCents: int64)

  datatype ConfirmReply = ConfirmReply(response: Response, call: Option<ConfirmCall>, metrics: Metrics)

  function Confirm(
    parsed: Result<ConfirmPaymentRequest, string>,
    bag: Bag,
    m: Metrics,
    now: Timestamp): (c: ConfirmReply)
    // malformed bodies and a missing order id are rejected before the use case
    ensures parsed.Err? ==> c.response == Response(StatusBadRequest, ErrorBody("invalid body"))
    ensures parsed.Ok? && parsed.value.orderID == "" ==>
      c.response == Response(StatusBadRequest, ErrorBody("order_id is required"))
    ensures c.call.Some? <==> parsed.Ok? && parsed.value.orderID != ""
    ensures c.call.None? ==> c.metrics == m
    // customer and amount are not validated and reach the use case unchanged
    ensures c.call.Some? ==>
      c.call.value == ConfirmCall(parsed.value.orderID, parsed.value.customerID, parsed.value.totalCents)
    // a use-case error would map to 500; success maps to 200 with the payment
    ensures c.call.Some? ==>
      var u := ConfirmPayment(m, bag, parsed.value.orderID, parsed.value.customerID, parsed.value.totalCents, now);
      && c.metrics == u.metrics
      && (u.result.Err? ==> c.response == Response(StatusInternalServerError, ErrorBody("internal error")))
      && (u.result.Ok? ==> c.response == Response(StatusOK, PaymentBody(u.result.value)))
    // since the use case never fails, every request with an order id gets 200
    ensures c.response.status == StatusOK <==> c.call.Some?
  {
    match parsed
    case Err(_) => ConfirmReply(Response(StatusBadRequest, ErrorBody("invalid body")), None, m)
    case Ok(req) =>
      if req.orderID == "" then
        ConfirmReply(Response(StatusBadRequest, ErrorBody("order_id is required")), None, m)
      else
        var u := ConfirmPayment(m, bag, req.orderID, req.customerID, req.totalCents, now);
        var response :=
          match u.result
          case Err(_) => Response(StatusInternalServerError, ErrorBody("internal error"))
          case Ok(payment) => Response(StatusOK, PaymentBody(payment));
        ConfirmReply(response, Some(ConfirmCall(req.orderID, req.customerID, req.totalCents)), u.metrics)
  }
}
