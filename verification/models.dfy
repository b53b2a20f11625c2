/** The two records the saga carries (internal/models). */
module Models {
  import opened Base

  /** An order as created by the order service and published on `orders`. */
  datatype Order = Order(
    id: string,
    customerID: string,
    items: seq<string>,
    totalCents: int64,
    createdAt: Timestamp)

  /** The only status any component ever writes into a Payment. */
  const Confirmed: string := "confirmed"

  /** A payment as built by the order-topic handler and rebuilt by the
      confirmation service. */
  datatype Payment = Payment(
    orderID: string,
    customerID: string,
    totalCents: int64,
    status: string,
    confirmedAt: Timestamp)
}
