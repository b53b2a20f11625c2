/** `Producer.Publish`: serialize the record, inject the active trace context
    into a fresh header list, build the message, write it synchronously.

    The JSON encoder, the propagator and the broker are parameters:
    `marshal` is `json.Marshal` for the record's type, `traceFields` are the
    fields the propagator emits for the caller's context, `now` is the clock
    reading, and `write` is the broker's answer to a write of a given message
    (`None` for an acknowledged write, `Some(cause)` for a failure). */
module Producer {
  import opened Base
  import opened Kafka
  import Carrier

  datatype PublishError =
    | SerializeFailed(cause: string)  // "failed to serialize message: ..."
    | WriteFailed(cause: string)      // "failed to publish message: ..."

  /** The message handed to the broker, if any, and the error returned
      (`None` is Go's nil). */
  datatype Publication = Publication(written: Option<Message>, err: Option<PublishError>)

  function Publish<T>(
    key: string,
    value: T,
    marshal: T -> Result<Bytes, string>,
    traceFields: seq<(string, Bytes)>,
    now: Timestamp,
    write: Message -> Option<string>): (p: Publication)
    // a serialization failure is reported and no write is attempted
    ensures marshal(value).Err? ==>
      p.written == None && p.err == Some(SerializeFailed(marshal(value).error))
    // otherwise exactly one message is written: the key, the serialized
    // record, and a header list holding just the injected context
    ensures marshal(value).Ok? ==>
      && p.written.Some?
      && p.written.value.key == key
      && p.written.value.value == marshal(value).value
      && |p.written.value.headers| == |traceFields|
      && (forall i :: 0 <= i < |traceFields| ==>
            p.written.value.headers[i] == Header(traceFields[i].0, traceFields[i].1))
      && p.written.value.time == now
    // the write's failure is reported with the broker's cause
    ensures marshal(value).Ok? && write(p.written.value).Some? ==>
      p.err == Some(WriteFailed(write(p.written.value).value))
    ensures p.err.Some? && p.err.value.WriteFailed? ==>
      p.written.Some? && write(p.written.value) == Some(p.err.value.cause)
    // nil exactly when serialization and the write both succeed
    ensures p.err.None? <==> marshal(value).Ok? && write(p.written.value).None?
  {
    match marshal(value)
    case Err(cause) => Publication(None, Some(SerializeFailed(cause)))
    case Ok(data) =>
      var headers := Carrier.Inject([], traceFields);
      var msg := Message(key, data, headers, now, 0, 0);
      match write(msg)
      case Some(cause) => Publication(Some(msg), Some(WriteFailed(cause)))
      case None => Publication(Some(msg), None)
  }

  /** The consumer reads the trace context back from the written headers:
      each injected field that no earlier field shadows is found under its
      key. */
  lemma PublishedContextReadsBack<T>(
    key: string,
    value: T,
    marshal: T -> Result<Bytes, string>,
    traceFields: seq<(string, Bytes)>,
    now: Timestamp,
    write: Message -> Option<string>,
    i: nat)
    requires marshal(value).Ok?
    requires i < |traceFields|
    requires forall j :: 0 <= j < i ==> traceFields[j].0 != traceFields[i].0
    ensures Carrier.Get(Publish(key, value, marshal, traceFields, now, write).written.value.headers, traceFields[i].0)
      == traceFields[i].1
  {
    var p := Publish(key, value, marshal, traceFields, now, write);
    assert p.written.value.headers == Carrier.Inject([], traceFields);
    Carrier.InjectedFieldsReadBack(traceFields, i);
  }
}
