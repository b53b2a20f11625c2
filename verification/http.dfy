/** HTTP status codes and response bodies the two services produce. */
module Http {
  import opened Models

  const StatusOK: int := 200
  const StatusCreated: int := 201
  const StatusBadRequest: int := 400
  const StatusPaymentRequired: int := 402
  const StatusInternalServerError: int := 500

  datatype Body =
    | OrderBody(order: Order)
    | PaymentBody(payment: Payment)
    | ErrorBody(message: string)  // {"error": message}

  datatype Response = Response(status: int, body: Body)
}
