/** `UseCase.ConfirmPayment` (internal/payment/usecase.go). Stateless: it
    never looks for an earlier confirmation of the same order. `bag` is the
    baggage of the caller's context and `now` the clock reading. */
module PaymentUseCase {
  import opened Base
  import opened Models
  import opened Telemetry
  import opened Baggage

  /** The returned `(payment, err)` and the metrics after the call. */
  datatype Confirmation = Confirmation(result: Result<Payment, string>, metrics: Metrics)

  function ConfirmPayment(
    m: Metrics,
    bag: Bag,
    orderID: string,
    customerID: string,
    totalCents: int64,
    now: Timestamp): (c: Confirmation)
    // never an error
    ensures c.result.Ok?
    // the order and amount are kept, the customer is subject to the baggage
    // override, and the status is always "confirmed"
    ensures c.result.value.orderID == orderID
    ensures c.result.value.totalCents == totalCents
    ensures c.result.value.customerID == EffectiveCustomer(bag, customerID)
    ensures c.result.value.status == Confirmed
    ensures c.result.value.confirmedAt == now
    // exactly one PaymentsConfirmed increment, nothing else recorded
    ensures c.metrics == m.(paymentsConfirmed := m.paymentsConfirmed + 1)
  {
    var customer := if MemberValue(bag, CustomerIDKey) != "" then MemberValue(bag, CustomerIDKey) else customerID;
    var payment := Payment(orderID, customer, totalCents, Confirmed, now);
    Confirmation(Ok(payment), m.(paymentsConfirmed := m.paymentsConfirmed + 1))
  }

  /** The same confirmation delivered once per clock reading in `nows`, in
      order. */
  function ConfirmRepeatedly(
    m: Metrics, bag: Bag, orderID: string, customerID: string, totalCents: int64, nows: seq<Timestamp>):
    (r: (seq<Result<Payment, string>>, Metrics))
    decreases |nows|
  {
    if |nows| == 0 then ([], m)
    else
      var c := ConfirmPayment(m, bag, orderID, customerID, totalCents, nows[0]);
      var rest := ConfirmRepeatedly(c.metrics, bag, orderID, customerID, totalCents, nows[1..]);
      ([c.result] + rest.0, rest.1)
  }

  /** Confirming the same order again and again always succeeds: every
      payment carries the order, the effective customer, the amount and the
      "confirmed" status, is stamped with its own clock reading, and every
      confirmation is counted. */
  lemma {:induction false} RepeatedConfirmationsAllSucceed(
    m: Metrics, bag: Bag, orderID: string, customerID: string, totalCents: int64, nows: seq<Timestamp>)
    ensures var r := ConfirmRepeatedly(m, bag, orderID, customerID, totalCents, nows);
      && |r.0| == |nows|
      && (forall i :: 0 <= i < |nows| ==>
            && r.0[i].Ok?
            && r.0[i].value.orderID == orderID
            && r.0[i].value.customerID == EffectiveCustomer(bag, customerID)
            && r.0[i].value.totalCents == totalCents
            && r.0[i].value.status == Confirmed
            && r.0[i].value.confirmedAt == nows[i])
      && r.1 == m.(paymentsConfirmed := m.paymentsConfirmed + |nows|)
    decreases |nows|
  {
    if |nows| > 0 {
      var c := ConfirmPayment(m, bag, orderID, customerID, totalCents, nows[0]);
      RepeatedConfirmationsAllSucceed(c.metrics, bag, orderID, customerID, totalCents, nows[1..]);
      var r := ConfirmRepeatedly(m, bag, orderID, customerID, totalCents, nows);
      var rest := ConfirmRepeatedly(c.metrics, bag, orderID, customerID, totalCents, nows[1..]);
      assert r.0 == [c.result] + rest.0;
      forall i | 1 <= i < |nows|
        ensures r.0[i] == rest.0[i - 1] && nows[i] == nows[1..][i - 1]
      {
      }
    }
  }
}
