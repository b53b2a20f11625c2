/** The metric instruments the core records into, represented by what has
    been recorded so far. Exporters and providers are outside the model. */
module Telemetry {
  import opened Base

  datatype Metrics = Metrics(
    ordersCreated: multiset<string>,       // OrdersCreated increments, by "status" label
    orderValueCents: seq<int64>,           // OrderValueCents samples
    messagesConsumed: multiset<string>,    // MessagesConsumed increments, by "customer_id" label
    processingMillis: seq<(string, int)>,  // ProcessingTime samples: customer label, delay in ms
    paymentsConfirmed: nat)                // PaymentsConfirmed increments

  const Initial: Metrics := Metrics(multiset{}, [], multiset{}, [], 0)
}
