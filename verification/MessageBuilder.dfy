/** `UMessageBuilder`: factories, setters and the build overloads. */
module MessageBuilder {
  import opened Datamodel
  import opened UuidTime
  import opened MessageValidator
  import Uri = UriValidator

  /** What a builder holds. */
  datatype Builder = Builder(attributes: UAttributes, expectedFormat: Option<int>)

  datatype Call =
    | WithPriority(priority: int)
    | WithMethod(uri: UUri)
    | WithTtl(ms: int)
    | WithToken(token: string)
    | WithPermissionLevel(level: Word32)
    | WithCommStatus(code: int)
    | WithPayloadFormat(format: int)

  /** A payload's constructor refuses formats out of range. */
  type Format = f: int | IsPayloadFormat(f)
  datatype Payload = Payload(bytes: seq<nat>, format: Format)

  function Fresh(kind: MessageType, source: UUri, sink: Option<UUri>, reqid: Option<UUID>): Builder {
    Builder(UAttributes(None, kind, Some(source), sink, 0, None, None, None, reqid, None, 0), None)
  }

  predicate IsRpc(kind: MessageType) { kind == Request || kind == Response }

  predicate IsTtl(ms: int) { 0 < ms < 0x1_0000_0000 }

  /** Whether a setter accepts its argument; otherwise it throws and changes nothing. */
  predicate Accepts(b: Builder, call: Call) {
    var kind := b.attributes.kind;
    match call
    case WithPriority(p) => IsPriority(p) && (IsRpc(kind) ==> p >= PRIORITY_CS4)
    case WithMethod(u) => Uri.IsValidRpcMethod(u).ok
    case WithTtl(ms) => IsTtl(ms)
    case WithToken(_) => kind == Request
    case WithPermissionLevel(_) => kind == Request
    case WithCommStatus(code) => kind == Response && 0 <= code <= UCODE_MAX
    case WithPayloadFormat(f) => IsPayloadFormat(f)
  }

  function After(b: Builder, call: Call): Builder {
    if !Accepts(b, call) then b
    else
      var at := b.attributes;
      match call
      case WithPriority(p) => b.(attributes := at.(priority := p))
      case WithMethod(u) => b.(attributes := at.(sink := Some(u)))
      case WithTtl(ms) => b.(attributes := at.(ttl := Some(ms)))
      case WithToken(s) => b.(attributes := at.(token := Some(s)))
      case WithPermissionLevel(n) => b.(attributes := at.(permissionLevel := Some(n)))
      case WithCommStatus(code) => if code == UCODE_OK then b else b.(attributes := at.(commstatus := Some(code)))
      case WithPayloadFormat(f) => Builder(at.(payloadFormat := f), Some(f))
  }

  function AfterAll(b: Builder, calls: seq<Call>): Builder {
    if calls == [] then b else After(AfterAll(b, calls[..|calls| - 1]), calls[|calls| - 1])
  }

  // ---------------------------------------------------------------- factories; None is an exception

  function PublishTo(topic: UUri): Option<Builder> {
    if Uri.IsValidPublishTopic(topic).ok then Some(Fresh(Publish, topic, None, None)) else None
  }

  function NotificationTo(source: UUri, sink: UUri): Option<Builder> {
    if Uri.IsValidNotificationSource(source).ok && Uri.IsValidNotificationSink(sink).ok
    then Some(Fresh(Notification, source, Some(sink), None)) else None
  }

  function RequestTo(method_: UUri, source: UUri, priority: int, ttl: int): Option<Builder> {
    var b := Fresh(Request, source, Some(method_), None);
    if Uri.IsValidRpcMethod(method_).ok && Uri.IsValidRpcResponse(source).ok && IsTtl(ttl)
       && Accepts(b, WithPriority(priority))
    then Some(After(After(b, WithPriority(priority)), WithTtl(ttl))) else None
  }

  function ResponseTo(sink: UUri, reqid: UUID, priority: int, method_: UUri, now: int): Option<Builder> {
    var b := Fresh(Response, method_, Some(sink), Some(reqid));
    if Uri.IsValidRpcMethod(method_).ok && Uri.IsValidRpcResponse(sink).ok && IsUuid(reqid, now) == None
       && Accepts(b, WithPriority(priority))
    then Some(After(b, WithPriority(priority))) else None
  }

  function ResponseToMessage(request: UMessage, now: int): Option<Builder> {
    ResponseTo(SourceOf(request), IdOf(request), request.attributes.priority, SinkOf(request), now)
  }

  /** The builder an RpcClient keeps: the sink stays empty until build(method). */
  function ForClient(entity: UUri, priority: int, ttl: int): Option<Builder> {
    var b := Fresh(Request, entity, Some(NIL_URI), None);
    if Accepts(b, WithPriority(priority)) && IsTtl(ttl)
    then Some(After(After(b, WithPriority(priority)), WithTtl(ttl))) else None
  }

  // ---------------------------------------------------------------- build

  predicate FormatFits(b: Builder, payload: Option<Payload>) {
    b.expectedFormat.Some? ==> payload.Some? && payload.value.format == b.expectedFormat.value
  }

  function Built(b: Builder, method_: Option<UUri>, payload: Option<Payload>, id: UUID): UMessage {
    var at := b.attributes.(sink := if method_.Some? then method_ else b.attributes.sink, id := Some(id));
    if payload.Some? then UMessage(at.(payloadFormat := payload.value.format), Some(payload.value.bytes))
    else UMessage(at, None)
  }

  class UMessageBuilder {
    var attributes: UAttributes
    var expectedFormat: Option<int>

    ghost function State(): Builder
      reads this
    {
      Builder(attributes, expectedFormat)
    }

    constructor (kind: MessageType, source: UUri, sink: Option<UUri>, reqid: Option<UUID>)
      ensures State() == Fresh(kind, source, sink, reqid)
    {
      attributes := UAttributes(None, kind, Some(source), sink, 0, None, None, None, reqid, None, 0);
      expectedFormat := None;
    }

    /** Any of the `withX` setters; `ok` is false where the setter throws. */
    method With(call: Call) returns (ok: bool)
      modifies this
      ensures ok == old(Accepts(State(), call)) && State() == After(old(State()), call)
    {
      ok := true;
      match call {
        case WithPriority(p) =>
          if p < 0 || p > PRIORITY_MAX { return false; }
          if attributes.kind == Request || attributes.kind == Response {
            if p < PRIORITY_CS4 { return false; }
          }
          attributes := attributes.(priority := p);
        case WithMethod(u) =>
          if !Uri.IsValidRpcMethod(u).ok { return false; }
          attributes := attributes.(sink := Some(u));
        case WithTtl(ms) =>
          if ms <= 0 || ms > 0xFFFF_FFFF { return false; }
          attributes := attributes.(ttl := Some(ms));
        case WithToken(s) =>
          if attributes.kind != Request { return false; }
          attributes := attributes.(token := Some(s));
        case WithPermissionLevel(n) =>
          if attributes.kind != Request { return false; }
          attributes := attributes.(permissionLevel := Some(n));
        case WithCommStatus(code) =>
          if attributes.kind != Response { return false; }
          if code < 0 || code > UCODE_MAX { return false; }
          if code != UCODE_OK { attributes := attributes.(commstatus := Some(code)); }
        case WithPayloadFormat(f) =>
          if f < 0 || f > PAYLOAD_FORMAT_MAX { return false; }
          attributes := attributes.(payloadFormat := f);
          expectedFormat := Some(f);
      }
    }

    /** The four overloads: with or without a method, with or without a payload.  None
        is the UnexpectedFormat exception. */
    method Build(method_: Option<UUri>, payload: Option<Payload>, id: UUID) returns (m: Option<UMessage>)
      ensures m == if FormatFits(State(), payload) then Some(Built(State(), method_, payload, id)) else None
    {
      if payload.None? && expectedFormat.Some? { return None; }
      var message := UMessage(attributes, None);
      if method_.Some? {
        message := message.(attributes := message.attributes.(sink := method_));
      }
      message := message.(attributes := message.attributes.(id := Some(id)));
      if payload.Some? {
        if expectedFormat.Some? && payload.value.format != expectedFormat.value { return None; }
        message := message.(payload := Some(payload.value.bytes));
        message := message.(attributes := message.attributes.(payloadFormat := payload.value.format));
      }
      return Some(message);
    }
  }

  // ---------------------------------------------------------------- what every call keeps

  /** Everything the validator checks except the sink, which withMethod and
      build(method) may replace; `since` is when the builder was made. */
  ghost predicate Sound(b: Builder, since: int) {
    var at := b.attributes;
    && IsPriority(at.priority) && IsPayloadFormat(at.payloadFormat)
    && (at.ttl.Some? ==> at.ttl.value > 0)
    && at.source.Some?
    && (at.kind == Publish || at.kind == Notification || at.kind == Request || at.kind == Response)
    && (at.kind == Publish ==> Uri.IsValidPublishTopic(at.source.value).ok)
    && (at.kind == Notification ==> Uri.IsValidNotificationSource(at.source.value).ok)
    && (at.kind == Request ==> Uri.IsValidRpcResponse(at.source.value).ok && at.ttl.Some?)
    && (at.kind == Response ==> Uri.IsValidRpcMethod(at.source.value).ok)
    && (IsRpc(at.kind) ==> at.priority >= PRIORITY_CS4)
    && (at.commstatus.Some? ==> at.kind == Response)
    && (at.reqid.Some? <==> at.kind == Response)
    && (at.reqid.Some? ==> IsUuid(at.reqid.value, since) == None)
    && (at.token.Some? || at.permissionLevel.Some? ==> at.kind == Request)
  }

  /** The sink the message type calls for. */
  predicate SinkFits(kind: MessageType, sink: Option<UUri>) {
    match kind
    case Publish => sink.None?
    case Notification => sink.Some? && Uri.IsValidNotificationSink(sink.value).ok
    case Request => sink.Some? && Uri.IsValidRpcMethod(sink.value).ok
    case Response => sink.Some? && Uri.IsValidRpcResponse(sink.value).ok
    case _ => false
  }

  lemma CallKeepsSound(b: Builder, call: Call, since: int)
    requires Sound(b, since)
    ensures Sound(After(b, call), since) && After(b, call).attributes.kind == b.attributes.kind
  {
  }

  lemma {:induction false} CallsKeepSound(b: Builder, calls: seq<Call>, since: int)
    requires Sound(b, since)
    ensures Sound(AfterAll(b, calls), since) && AfterAll(b, calls).attributes.kind == b.attributes.kind
  {
    if calls != [] {
      CallsKeepSound(b, calls[..|calls| - 1], since);
      CallKeepsSound(AfterAll(b, calls[..|calls| - 1]), calls[|calls| - 1], since);
    }
  }

  /** Some call of the sequence was a withMethod that was accepted. */
  predicate SetsMethod(calls: seq<Call>) {
    exists i | 0 <= i < |calls| :: calls[i].WithMethod? && Uri.IsValidRpcMethod(calls[i].uri).ok
  }

  lemma {:induction false} SinkAfterCalls(b: Builder, calls: seq<Call>)
    ensures var sink := AfterAll(b, calls).attributes.sink;
      if SetsMethod(calls) then sink.Some? && Uri.IsValidRpcMethod(sink.value).ok else sink == b.attributes.sink
  {
    if calls != [] {
      var n := |calls| - 1;
      SinkAfterCalls(b, calls[..n]);
      assert forall i | 0 <= i < n :: calls[..n][i] == calls[i];
    }
  }

  /** What each factory hands out, when it does not throw. */
  lemma FactoriesAreSound(source: UUri, sink: UUri, reqid: UUID, priority: int, ttl: int, now: int)
    ensures PublishTo(source).Some? ==> Good(PublishTo(source).value, now)
    ensures NotificationTo(source, sink).Some? ==> Good(NotificationTo(source, sink).value, now)
    ensures RequestTo(sink, source, priority, ttl).Some? ==>
      Good(RequestTo(sink, source, priority, ttl).value, now)
    ensures ResponseTo(sink, reqid, priority, source, now).Some? ==>
      Good(ResponseTo(sink, reqid, priority, source, now).value, now)
    ensures ForClient(source, priority, ttl).Some? && Uri.IsValidRpcResponse(source).ok ==>
      Sound(ForClient(source, priority, ttl).value, now)
  {
  }

  ghost predicate Good(b: Builder, since: int) {
    Sound(b, since) && SinkFits(b.attributes.kind, b.attributes.sink)
  }

  // ---------------------------------------------------------------- builder against validator

  /** Neither the message nor, for a response, the request it answers is older than the TTL. */
  predicate Unexpired(m: UMessage, r: Readings) {
    var at := m.attributes;
    at.ttl.Some? ==>
      && r.c - Ticks(IdOf(m)) <= at.ttl.value * TICKS_PER_MS
      && (at.kind == Response ==> r.f - Ticks(ReqidOf(m)) <= at.ttl.value * TICKS_PER_MS)
  }

  /** A message built at `now` from a sound builder passes its type's check, at any later
      readings, exactly when its sink fits its type and it has not expired. */
  lemma BuiltIsValidIff(b: Builder, since: int, method_: Option<UUri>, payload: Option<Payload>,
                        now: int, randA: nat, randB: nat, r: Readings)
    requires Sound(b, since) && since <= now <= r.a && Ordered(r)
    requires 0 <= now && ToMs(now) < 0x1_0000_0000_0000
    ensures var m := Built(b, method_, payload, V7(ToMs(now), randA, randB));
      IsValid(m, r) == None <==> SinkFits(b.attributes.kind, m.attributes.sink) && Unexpired(m, r)
  {
    BuiltIsAcceptedFrom(now, randA, randB, r.a);
    BuiltIsAcceptedFrom(now, randA, randB, r.b);
  }

  /** For every sequence of setter calls on a factory's builder, accepted or refused, the
      message built passes the validator while unexpired, exactly when withMethod was only
      used on a request. */
  lemma BuilderSatisfiesValidator(b: Builder, since: int, calls: seq<Call>, payload: Option<Payload>,
                                  now: int, randA: nat, randB: nat, r: Readings)
    requires Good(b, since) && since <= now <= r.a && Ordered(r)
    requires 0 <= now && ToMs(now) < 0x1_0000_0000_0000
    ensures var m := Built(AfterAll(b, calls), None, payload, V7(ToMs(now), randA, randB));
      IsValid(m, r) == None <==> (b.attributes.kind == Request || !SetsMethod(calls)) && Unexpired(m, r)
  {
    CallsKeepSound(b, calls, since);
    SinkAfterCalls(b, calls);
    BuiltIsValidIff(AfterAll(b, calls), since, None, payload, now, randA, randB, r);
  }

  /** The condition is needed: a publish builder accepts a withMethod, and what it then
      builds is refused. */
  lemma MethodSpoilsPublish()
    ensures var topic, method_ := UUri("", 1, 1, 0x8000), UUri("", 1, 1, 1);
      && PublishTo(topic).Some? && Accepts(PublishTo(topic).value, WithMethod(method_))
      && IsValid(Built(AfterAll(PublishTo(topic).value, [WithMethod(method_)]), None, None, V7(0, 0, 0)),
                 Readings(0, 0, 0, 0, 0, 0)) == Some(DisallowedFieldSet)
  {
    var b, call := PublishTo(UUri("", 1, 1, 0x8000)).value, WithMethod(UUri("", 1, 1, 1));
    assert [call][..0] == [];
    assert AfterAll(b, [call]) == After(AfterAll(b, []), call);
    BuiltIsAcceptedFrom(0, 0, 0, 0);
  }

  /** The method overloads on a request builder, in particular an RpcClient's: valid while
      unexpired exactly for a valid method. */
  lemma MethodOverloadIsValidIff(b: Builder, since: int, calls: seq<Call>, method_: UUri, payload: Option<Payload>,
                                 now: int, randA: nat, randB: nat, r: Readings)
    requires Sound(b, since) && b.attributes.kind == Request && since <= now <= r.a && Ordered(r)
    requires 0 <= now && ToMs(now) < 0x1_0000_0000_0000
    ensures var m := Built(AfterAll(b, calls), Some(method_), payload, V7(ToMs(now), randA, randB));
      IsValid(m, r) == None <==> Uri.IsValidRpcMethod(method_).ok && Unexpired(m, r)
  {
    CallsKeepSound(b, calls, since);
    BuiltIsValidIff(AfterAll(b, calls), since, Some(method_), payload, now, randA, randB, r);
  }
}
