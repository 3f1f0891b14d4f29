/** What the setters, the factories and build() leave in each field. */
module BuilderFields {
  import opened Datamodel
  import opened UuidTime
  import opened MessageValidator
  import opened MessageBuilder
  import opened ValidMessages
  import Uri = UriValidator

  /** What a builder can be told. */
  datatype Field = Priority | Sink | Ttl | Token | Permission | CommStatus | Format

  function FieldOf(call: Call): Field {
    match call
    case WithPriority(_) => Priority
    case WithMethod(_) => Sink
    case WithTtl(_) => Ttl
    case WithToken(_) => Token
    case WithPermissionLevel(_) => Permission
    case WithCommStatus(_) => CommStatus
    case WithPayloadFormat(_) => Format
  }

  /** The call sets its field: it is accepted, and a commstatus of OK is left unset. */
  predicate Sets(b: Builder, call: Call) {
    Accepts(b, call) && call != WithCommStatus(UCODE_OK)
  }

  /** The field of the call has the argument of the call. */
  predicate Holds(b: Builder, call: Call) {
    var at := b.attributes;
    match call
    case WithPriority(p) => at.priority == p
    case WithMethod(u) => at.sink == Some(u)
    case WithTtl(ms) => at.ttl.Some? && at.ttl.value == ms
    case WithToken(s) => at.token == Some(s)
    case WithPermissionLevel(n) => at.permissionLevel == Some(n)
    case WithCommStatus(code) => at.commstatus == Some(code)
    case WithPayloadFormat(f) => at.payloadFormat == f && b.expectedFormat == Some(f)
  }

  predicate SameField(b: Builder, b': Builder, field: Field) {
    var at, at' := b.attributes, b'.attributes;
    match field
    case Priority => at'.priority == at.priority
    case Sink => at'.sink == at.sink
    case Ttl => at'.ttl == at.ttl
    case Token => at'.token == at.token
    case Permission => at'.permissionLevel == at.permissionLevel
    case CommStatus => at'.commstatus == at.commstatus
    case Format => at'.payloadFormat == at.payloadFormat && b'.expectedFormat == b.expectedFormat
  }

  /** What no setter touches. */
  predicate SameOrigin(b: Builder, b': Builder) {
    var at, at' := b.attributes, b'.attributes;
    at'.id == at.id && at'.kind == at.kind && at'.source == at.source && at'.reqid == at.reqid
  }

  /** One call sets its own field, if it is accepted, and no other. */
  lemma OneCall(b: Builder, call: Call, field: Field)
    ensures SameOrigin(b, After(b, call))
    ensures Sets(b, call) ==> Holds(After(b, call), call)
    ensures !(Sets(b, call) && FieldOf(call) == field) ==> SameField(b, After(b, call), field)
  {
  }

  lemma {:induction false} OriginStays(b: Builder, calls: seq<Call>)
    ensures SameOrigin(b, AfterAll(b, calls))
  {
    if calls != [] {
      var n := |calls| - 1;
      OriginStays(b, calls[..n]);
      OneCall(AfterAll(b, calls[..n]), calls[n], Priority);
    }
  }

  /** Whether a call sets its field depends on the message type alone. */
  lemma SetsByType(b: Builder, b': Builder, call: Call)
    requires SameOrigin(b, b')
    ensures Sets(b', call) == Sets(b, call)
  {
  }

  /** After any calls, a field that none of them sets is as it was. */
  lemma {:induction false} UnsetFieldStays(b: Builder, calls: seq<Call>, field: Field)
    requires forall i | 0 <= i < |calls| && Sets(b, calls[i]) :: FieldOf(calls[i]) != field
    ensures SameField(b, AfterAll(b, calls), field)
  {
    if calls != [] {
      var n := |calls| - 1;
      assert forall i | 0 <= i < n :: calls[..n][i] == calls[i];
      UnsetFieldStays(b, calls[..n], field);
      OriginStays(b, calls[..n]);
      SetsByType(b, AfterAll(b, calls[..n]), calls[n]);
      OneCall(AfterAll(b, calls[..n]), calls[n], field);
    }
  }

  /** Call `i` is the last to set its field. */
  predicate IsLast(b: Builder, calls: seq<Call>, i: nat) {
    && i < |calls| && Sets(b, calls[i])
    && forall j | i < j < |calls| && Sets(b, calls[j]) :: FieldOf(calls[j]) != FieldOf(calls[i])
  }

  lemma HoldsIsSame(b: Builder, b': Builder, call: Call)
    requires Holds(b, call) && SameField(b, b', FieldOf(call))
    ensures Holds(b', call)
  {
  }

  /** After any calls, each field has the argument of the last accepted call that sets it. */
  lemma {:induction false} LastCallHolds(b: Builder, calls: seq<Call>, i: nat)
    requires IsLast(b, calls, i)
    ensures Holds(AfterAll(b, calls), calls[i])
    decreases |calls|
  {
    var n := |calls| - 1;
    var was := AfterAll(b, calls[..n]);
    OriginStays(b, calls[..n]);
    SetsByType(b, was, calls[n]);
    OneCall(was, calls[n], FieldOf(calls[i]));
    if i < n {
      assert forall j | 0 <= j < n :: calls[..n][j] == calls[j];
      LastCallHolds(b, calls[..n], i);
      HoldsIsSame(was, AfterAll(b, calls), calls[i]);
    }
  }

  // ---------------------------------------------------------------- what is refused

  /** The builder with the argument put in unchecked; a TTL has to fit its 32 bits. */
  function Forced(b: Builder, call: Call): Builder
    requires call.WithTtl? ==> 0 <= call.ms < 0x1_0000_0000
  {
    var at := b.attributes;
    match call
    case WithPriority(p) => b.(attributes := at.(priority := p))
    case WithMethod(u) => b.(attributes := at.(sink := Some(u)))
    case WithTtl(ms) => b.(attributes := at.(ttl := Some(ms)))
    case WithToken(s) => b.(attributes := at.(token := Some(s)))
    case WithPermissionLevel(n) => b.(attributes := at.(permissionLevel := Some(n)))
    case WithCommStatus(code) => b.(attributes := at.(commstatus := Some(code)))
    case WithPayloadFormat(f) => b.(attributes := at.(payloadFormat := f))
  }

  /** A setter of a sound builder refuses exactly what would make the builder unsound, a TTL that
      does not fit, a commstatus that is no UCode, and a method that is none. */
  lemma RefusedIff(b: Builder, call: Call, since: int)
    requires Sound(b, since)
    ensures Accepts(b, call) <==>
      && (call.WithTtl? ==> 0 <= call.ms < 0x1_0000_0000)
      && (call.WithCommStatus? ==> 0 <= call.code <= 16)
      && (call.WithMethod? ==> Uri.IsValidRpcMethod(call.uri).ok)
      && Sound(Forced(b, call), since)
  {
  }

  // ---------------------------------------------------------------- factories

  /** Nothing is set that the factory was not given. */
  predicate IsPlain(b: Builder, kind: MessageType, source: UUri, sink: Option<UUri>, reqid: Option<UUID>) {
    var at := b.attributes;
    && at.kind == kind && at.source == Some(source) && at.sink == sink && at.reqid == reqid
    && at.id == None && at.permissionLevel == None && at.commstatus == None && at.token == None
    && at.payloadFormat == 0 && b.expectedFormat == None
  }

  predicate IsRpcPriority(p: int) {
    PRIORITY_CS4 <= p <= PRIORITY_MAX
  }

  /** publish and notification make a builder exactly of URIs the validator will accept, and it has
      exactly what the factory was given. */
  lemma TopicFactoriesIff(source: UUri, sink: UUri)
    ensures PublishTo(source).Some? <==> SourceFits(Publish, Some(source))
    ensures PublishTo(source).Some? ==>
      var b := PublishTo(source).value;
      IsPlain(b, Publish, source, None, None) && b.attributes.ttl == None && b.attributes.priority == 0
    ensures NotificationTo(source, sink).Some? <==>
      SourceFits(Notification, Some(source)) && SinkFits(Notification, Some(sink))
    ensures NotificationTo(source, sink).Some? ==>
      var b := NotificationTo(source, sink).value;
      IsPlain(b, Notification, source, Some(sink), None) && b.attributes.ttl == None && b.attributes.priority == 0
  {
  }

  /** request and response also want a priority and, for a request, a TTL the validator will accept,
      and for a response a request id it accepts now. */
  lemma RpcFactoriesIff(source: UUri, sink: UUri, reqid: UUID, priority: int, ttl: int, now: int)
    ensures RequestTo(sink, source, priority, ttl).Some? <==>
      && SourceFits(Request, Some(source)) && SinkFits(Request, Some(sink))
      && IsRpcPriority(priority) && 0 < ttl < 0x1_0000_0000
    ensures RequestTo(sink, source, priority, ttl).Some? ==>
      var b := RequestTo(sink, source, priority, ttl).value;
      && IsPlain(b, Request, source, Some(sink), None)
      && Holds(b, WithPriority(priority)) && Holds(b, WithTtl(ttl))
    ensures ResponseTo(sink, reqid, priority, source, now).Some? <==>
      && SourceFits(Response, Some(source)) && SinkFits(Response, Some(sink))
      && IsRpcPriority(priority) && IsUuid(reqid, now) == None
    ensures ResponseTo(sink, reqid, priority, source, now).Some? ==>
      var b := ResponseTo(sink, reqid, priority, source, now).value;
      && IsPlain(b, Response, source, Some(sink), Some(reqid))
      && Holds(b, WithPriority(priority)) && b.attributes.ttl == None
  {
  }

  /** A response to a message goes back where the message came from. */
  lemma ResponseTurnsAround(request: UMessage, now: int)
    requires ResponseToMessage(request, now).Some?
    ensures var b := ResponseToMessage(request, now).value;
      && IsPlain(b, Response, SinkOf(request), Some(SourceOf(request)), Some(IdOf(request)))
      && Holds(b, WithPriority(request.attributes.priority)) && b.attributes.ttl == None
  {
  }

  /** The builder an RpcClient keeps takes its entity as it is. */
  lemma ForClientIff(entity: UUri, priority: int, ttl: int)
    ensures ForClient(entity, priority, ttl).Some? <==> IsRpcPriority(priority) && 0 < ttl < 0x1_0000_0000
    ensures ForClient(entity, priority, ttl).Some? ==>
      var b := ForClient(entity, priority, ttl).value;
      && IsPlain(b, Request, entity, Some(NIL_URI), None)
      && Holds(b, WithPriority(priority)) && Holds(b, WithTtl(ttl))
  {
  }

  // ---------------------------------------------------------------- build()

  /** What a message carries of a builder. */
  predicate Carries(m: UMessage, call: Call) {
    Holds(Builder(m.attributes, Some(m.attributes.payloadFormat)), call)
  }

  /** A built message has the given id, method and payload, bytes and format, and what the builder
      was told; a payload's format is the one the builder was told to expect, if it was. */
  lemma BuiltCarries(b: Builder, method_: Option<UUri>, payload: Option<Payload>, id: UUID, call: Call)
    requires FormatFits(b, payload)
    ensures var m := Built(b, method_, payload, id);
      && IdOf(m) == id && SameOrigin(b.(attributes := b.attributes.(id := Some(id))), Builder(m.attributes, None))
      && m.attributes.sink == (if method_.Some? then method_ else b.attributes.sink)
      && m.payload == (if payload.Some? then Some(payload.value.bytes) else None)
      && m.attributes.payloadFormat == (if payload.Some? then payload.value.format else b.attributes.payloadFormat)
      && (Holds(b, call) && (call.WithMethod? ==> method_.None?) ==> Carries(m, call))
      && (m.attributes.ttl == b.attributes.ttl && m.attributes.token == b.attributes.token
          && m.attributes.permissionLevel == b.attributes.permissionLevel
          && m.attributes.commstatus == b.attributes.commstatus && m.attributes.priority == b.attributes.priority)
  {
  }

  /** From setter to message: what the last accepted call for a field said is in the message. */
  lemma MessageCarriesLastCall(b: Builder, calls: seq<Call>, i: nat, method_: Option<UUri>, payload: Option<Payload>,
                               id: UUID)
    requires IsLast(b, calls, i) && FormatFits(AfterAll(b, calls), payload)
    requires calls[i].WithMethod? ==> method_.None?
    ensures Carries(Built(AfterAll(b, calls), method_, payload, id), calls[i])
  {
    LastCallHolds(b, calls, i);
    BuiltCarries(AfterAll(b, calls), method_, payload, id, calls[i]);
  }
}
