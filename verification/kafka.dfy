/** The broker-facing record types of the Kafka client library, reduced to
    the fields the core reads or writes. */
module Kafka {
  import opened Base

  /** One message header; a message may carry several with the same key. */
  datatype Header = Header(key: string, value: Bytes)

  type Headers = seq<Header>

  /** A message as written by a producer or returned by a fetch. The broker
      assigns `partition` and `offset`; a producer leaves them at Go's zero
      value. */
  datatype Message = Message(
    key: Bytes,
    value: Bytes,
    headers: Headers,
    time: Timestamp,
    partition: int,
    offset: int)
}
