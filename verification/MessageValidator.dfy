/** The UMessage checks of the datamodel validator. */
module MessageValidator {
  import opened Datamodel
  import opened UuidTime
  import Uri = UriValidator

  datatype Flaw =
    | BadId | IdExpired | PriorityOutOfRange | PayloadFormatOutOfRange | BadSourceUri | BadSinkUri
    | InvalidTtl | DisallowedFieldSet | ReqidMismatch | PriorityMismatch | UriMismatch
    | UnspecifiedMessageType | InvalidMessageType | WrongMessageType

  /** None means valid. */
  type Verdict = Option<Flaw>

  /** The clock readings one validation can take, in the order it takes them: three for
      the message id, three for the request id of a response. */
  datatype Readings = Readings(a: int, b: int, c: int, d: int, e: int, f: int)

  predicate Ordered(r: Readings) {
    r.a <= r.b <= r.c <= r.d <= r.e <= r.f
  }

  const PRIORITY_MAX := 7
  const PRIORITY_CS4 := 5
  const PAYLOAD_FORMAT_MAX := 8
  const UCODE_MAX := 16

  predicate IsPriority(p: int) { 0 <= p <= PRIORITY_MAX }
  predicate IsPayloadFormat(f: int) { 0 <= f <= PAYLOAD_FORMAT_MAX }

  const NIL_URI := UUri("", 0, 0, 0)

  function SourceOf(m: UMessage): UUri { OrDefault(m.attributes.source, NIL_URI) }
  function SinkOf(m: UMessage): UUri { OrDefault(m.attributes.sink, NIL_URI) }

  /** A TTL that is set to zero is ignored. */
  predicate TtlPassed(ttl: Option<Word32>, id: UUID, now: int, later: int) {
    ttl.Some? && ttl.value > 0 && IsExpired(id, ttl.value, now, later).0
  }

  function CommonAttributes(m: UMessage, r: Readings): Verdict {
    if IsUuid(IdOf(m), r.a).Some? then Some(BadId)
    else if TtlPassed(m.attributes.ttl, IdOf(m), r.b, r.c) then Some(IdExpired)
    else if !IsPriority(m.attributes.priority) then Some(PriorityOutOfRange)
    else if !IsPayloadFormat(m.attributes.payloadFormat) then Some(PayloadFormatOutOfRange)
    else None
  }

  function IsValidRpcRequest(m: UMessage, r: Readings): Verdict {
    var at := m.attributes;
    if CommonAttributes(m, r).Some? then CommonAttributes(m, r)
    else if at.kind != Request then Some(WrongMessageType)
    else if at.source.None? then Some(BadSourceUri)
    else if at.sink.None? then Some(BadSinkUri)
    else if !Uri.IsValidRpcResponse(at.source.value).ok then Some(BadSourceUri)
    else if !Uri.IsValidRpcMethod(at.sink.value).ok then Some(BadSinkUri)
    else if at.priority < PRIORITY_CS4 then Some(PriorityOutOfRange)
    else if at.ttl.None? || at.ttl.value == 0 then Some(InvalidTtl)
    else if at.commstatus.Some? then Some(DisallowedFieldSet)
    else if at.reqid.Some? then Some(DisallowedFieldSet)
    else None
  }

  function IsValidRpcResponse(m: UMessage, r: Readings): Verdict {
    var at := m.attributes;
    if CommonAttributes(m, r).Some? then CommonAttributes(m, r)
    else if at.kind != Response then Some(WrongMessageType)
    else if at.source.None? then Some(BadSourceUri)
    else if at.sink.None? then Some(BadSinkUri)
    else if !Uri.IsValidRpcMethod(at.source.value).ok then Some(BadSourceUri)
    else if !Uri.IsValidRpcResponse(at.sink.value).ok then Some(BadSinkUri)
    else if at.reqid.None? then Some(ReqidMismatch)
    else if IsUuid(at.reqid.value, r.d).Some? then Some(ReqidMismatch)
    else if TtlPassed(at.ttl, at.reqid.value, r.e, r.f) then Some(IdExpired)
    else if at.priority < PRIORITY_CS4 then Some(PriorityOutOfRange)
    else if at.permissionLevel.Some? then Some(DisallowedFieldSet)
    else if at.token.Some? then Some(DisallowedFieldSet)
    else None
  }

  function IsValidRpcResponseFor(request: UMessage, response: UMessage, r: Readings): Verdict {
    if IsValidRpcResponse(response, r).Some? then IsValidRpcResponse(response, r)
    else if SourceOf(response) != SinkOf(request) then Some(UriMismatch)
    else if SinkOf(response) != SourceOf(request) then Some(UriMismatch)
    else if ReqidOf(response) != IdOf(request) then Some(ReqidMismatch)
    else if request.attributes.priority != response.attributes.priority then Some(PriorityMismatch)
    else None
  }

  /** Some field that only RPC messages carry is set. */
  predicate HasRpcField(at: UAttributes) {
    at.commstatus.Some? || at.reqid.Some? || at.permissionLevel.Some? || at.token.Some?
  }

  function IsValidPublish(m: UMessage, r: Readings): Verdict {
    var at := m.attributes;
    if CommonAttributes(m, r).Some? then CommonAttributes(m, r)
    else if at.kind != Publish then Some(WrongMessageType)
    else if at.source.None? then Some(BadSourceUri)
    else if !Uri.IsValidPublishTopic(at.source.value).ok then Some(BadSourceUri)
    else if at.sink.Some? then Some(DisallowedFieldSet)
    else if HasRpcField(at) then Some(DisallowedFieldSet)
    else None
  }

  function IsValidNotification(m: UMessage, r: Readings): Verdict {
    var at := m.attributes;
    if CommonAttributes(m, r).Some? then CommonAttributes(m, r)
    else if at.kind != Notification then Some(WrongMessageType)
    else if at.source.None? then Some(BadSourceUri)
    else if at.sink.None? then Some(BadSinkUri)
    else if !Uri.IsValidNotificationSource(at.source.value).ok then Some(BadSourceUri)
    else if !Uri.IsValidNotificationSink(at.sink.value).ok then Some(BadSinkUri)
    else if HasRpcField(at) then Some(DisallowedFieldSet)
    else None
  }

  function IsValid(m: UMessage, r: Readings): Verdict {
    match m.attributes.kind
    case Request => IsValidRpcRequest(m, r)
    case Response => IsValidRpcResponse(m, r)
    case Publish => IsValidPublish(m, r)
    case Notification => IsValidNotification(m, r)
    case Unspecified => Some(UnspecifiedMessageType)
    case Unknown => Some(InvalidMessageType)
  }
}
