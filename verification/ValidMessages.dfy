/** What the message validator accepts, and why it refuses the rest. */
module ValidMessages {
  import opened Datamodel
  import opened UuidTime
  import opened MessageValidator
  import opened MessageBuilder
  import Uri = UriValidator

  /** The source the message type calls for. */
  predicate SourceFits(kind: MessageType, source: Option<UUri>) {
    match kind
    case Publish => source.Some? && Uri.IsValidPublishTopic(source.value).ok
    case Notification => source.Some? && Uri.IsValidNotificationSource(source.value).ok
    case Request => source.Some? && Uri.IsValidRpcResponse(source.value).ok
    case Response => source.Some? && Uri.IsValidRpcMethod(source.value).ok
    case _ => false
  }

  /** Fields that are set only where the message type has a use for them. */
  predicate FieldsFit(at: UAttributes) {
    && (at.commstatus.Some? ==> at.kind == Response)
    && (at.reqid.Some? <==> at.kind == Response)
    && (at.token.Some? || at.permissionLevel.Some? ==> at.kind == Request)
  }

  predicate HasTtl(at: UAttributes) {
    at.ttl.Some? && at.ttl.value > 0
  }

  /** A message as the specification of its type wants it; a TTL of zero counts as none. */
  predicate WellFormed(m: UMessage, r: Readings) {
    var at := m.attributes;
    && SourceFits(at.kind, at.source) && SinkFits(at.kind, at.sink) && FieldsFit(at)
    && IsPriority(at.priority) && (IsRpc(at.kind) ==> at.priority >= PRIORITY_CS4)
    && IsPayloadFormat(at.payloadFormat)
    && (at.kind == Request ==> HasTtl(at))
    && IsUuid(IdOf(m), r.a) == None && (at.reqid.Some? ==> IsUuid(at.reqid.value, r.d) == None)
    && (HasTtl(at) ==> Unexpired(m, r))
  }

  /** Within a validation the clock does not run backwards, so an accepted id stays accepted. */
  lemma ExpiryTest(id: UUID, ttl: Option<Word32>, a: int, b: int, c: int)
    requires a <= b <= c && IsUuid(id, a) == None
    ensures TtlPassed(ttl, id, b, c) <==>
      ttl.Some? && ttl.value > 0 && c - Ticks(id) > ttl.value * TICKS_PER_MS
  {
  }

  lemma CommonIff(m: UMessage, r: Readings)
    requires Ordered(r)
    ensures CommonAttributes(m, r) == None <==>
      && IsUuid(IdOf(m), r.a) == None
      && IsPriority(m.attributes.priority) && IsPayloadFormat(m.attributes.payloadFormat)
      && (HasTtl(m.attributes) ==> r.c - Ticks(IdOf(m)) <= m.attributes.ttl.value * TICKS_PER_MS)
  {
    if IsUuid(IdOf(m), r.a) == None { ExpiryTest(IdOf(m), m.attributes.ttl, r.a, r.b, r.c); }
  }

  /** The validator accepts exactly the well-formed messages of the four types. */
  lemma ValidIff(m: UMessage, r: Readings)
    requires Ordered(r)
    ensures IsValid(m, r) == None <==> WellFormed(m, r)
  {
    CommonIff(m, r);
    var reqid := m.attributes.reqid;
    if reqid.Some? && IsUuid(reqid.value, r.d) == None {
      ExpiryTest(reqid.value, m.attributes.ttl, r.d, r.e, r.f);
    }
  }

  /** Each reason for a refusal is a flaw the message has. */
  predicate IsFlaw(m: UMessage, r: Readings, flaw: Flaw) {
    var at := m.attributes;
    match flaw
    case BadId => IsUuid(IdOf(m), r.a) != None
    case IdExpired => HasTtl(at) && !Unexpired(m, r)
    case PriorityOutOfRange => !IsPriority(at.priority) || (IsRpc(at.kind) && at.priority < PRIORITY_CS4)
    case PayloadFormatOutOfRange => !IsPayloadFormat(at.payloadFormat)
    case BadSourceUri => !SourceFits(at.kind, at.source)
    case BadSinkUri => !SinkFits(at.kind, at.sink)
    case InvalidTtl => at.kind == Request && !HasTtl(at)
    case ReqidMismatch => at.kind == Response && (at.reqid.None? || IsUuid(at.reqid.value, r.d) != None)
    case DisallowedFieldSet => !FieldsFit(at) || (at.kind == Publish && at.sink.Some?)
    case UnspecifiedMessageType => at.kind == Unspecified
    case InvalidMessageType => at.kind == Unknown
    case _ => false
  }

  lemma CommonFlaw(m: UMessage, r: Readings)
    requires Ordered(r) && CommonAttributes(m, r).Some?
    ensures IsFlaw(m, r, CommonAttributes(m, r).value)
  {
    if IsUuid(IdOf(m), r.a) == None { ExpiryTest(IdOf(m), m.attributes.ttl, r.a, r.b, r.c); }
  }

  lemma RequestFlaw(m: UMessage, r: Readings)
    requires m.attributes.kind == Request && CommonAttributes(m, r) == None && IsValidRpcRequest(m, r).Some?
    ensures IsFlaw(m, r, IsValidRpcRequest(m, r).value)
  {
  }

  lemma ResponseFlaw(m: UMessage, r: Readings)
    requires Ordered(r) && m.attributes.kind == Response
    requires CommonAttributes(m, r) == None && IsValidRpcResponse(m, r).Some?
    ensures IsFlaw(m, r, IsValidRpcResponse(m, r).value)
  {
    var reqid := m.attributes.reqid;
    if reqid.Some? && IsUuid(reqid.value, r.d) == None {
      ExpiryTest(reqid.value, m.attributes.ttl, r.d, r.e, r.f);
    }
  }

  lemma TopicFlaw(m: UMessage, r: Readings)
    requires m.attributes.kind == Publish || m.attributes.kind == Notification
    requires CommonAttributes(m, r) == None && IsValid(m, r).Some?
    ensures IsFlaw(m, r, IsValid(m, r).value)
  {
  }

  lemma FlawIsReal(m: UMessage, r: Readings)
    requires Ordered(r) && IsValid(m, r).Some?
    ensures IsFlaw(m, r, IsValid(m, r).value)
  {
    match m.attributes.kind
    case Unspecified =>
    case Unknown =>
    case Request => if CommonAttributes(m, r).Some? { CommonFlaw(m, r); } else { RequestFlaw(m, r); }
    case Response => if CommonAttributes(m, r).Some? { CommonFlaw(m, r); } else { ResponseFlaw(m, r); }
    case Publish => if CommonAttributes(m, r).Some? { CommonFlaw(m, r); } else { TopicFlaw(m, r); }
    case Notification => if CommonAttributes(m, r).Some? { CommonFlaw(m, r); } else { TopicFlaw(m, r); }
  }

  // ---------------------------------------------------------------- which flaw is reported

  /** A check: whether it fails, and what it then reports. */
  datatype Check = Check(fails: bool, flaw: Flaw)

  function First(checks: seq<Check>): Verdict {
    if checks == [] then None else if checks[0].fails then Some(checks[0].flaw) else First(checks[1..])
  }

  /** What all types have in common: id, age, priority and format, in this order. */
  function CommonChecks(m: UMessage, r: Readings): seq<Check> {
    var at := m.attributes;
    [Check(IsUuid(IdOf(m), r.a) != None, BadId),
     Check(HasTtl(at) && r.c - Ticks(IdOf(m)) > at.ttl.value * TICKS_PER_MS, IdExpired),
     Check(!IsPriority(at.priority), PriorityOutOfRange),
     Check(!IsPayloadFormat(at.payloadFormat), PayloadFormatOutOfRange)]
  }

  /** What the type adds: URIs set, URIs right, request id, priority, TTL, fields out of place. */
  function TypeChecks(m: UMessage, r: Readings): seq<Check> {
    var at := m.attributes;
    match at.kind
    case Unspecified => [Check(true, UnspecifiedMessageType)]
    case Unknown => [Check(true, InvalidMessageType)]
    case Publish =>
      [Check(!SourceFits(Publish, at.source), BadSourceUri), Check(at.sink.Some? || !FieldsFit(at), DisallowedFieldSet)]
    case Notification =>
      [Check(at.source.None?, BadSourceUri), Check(at.sink.None?, BadSinkUri),
       Check(!SourceFits(Notification, at.source), BadSourceUri), Check(!SinkFits(Notification, at.sink), BadSinkUri),
       Check(!FieldsFit(at), DisallowedFieldSet)]
    case Request =>
      [Check(at.source.None?, BadSourceUri), Check(at.sink.None?, BadSinkUri),
       Check(!SourceFits(Request, at.source), BadSourceUri), Check(!SinkFits(Request, at.sink), BadSinkUri),
       Check(at.priority < PRIORITY_CS4, PriorityOutOfRange), Check(!HasTtl(at), InvalidTtl),
       Check(!FieldsFit(at), DisallowedFieldSet)]
    case Response =>
      [Check(at.source.None?, BadSourceUri), Check(at.sink.None?, BadSinkUri),
       Check(!SourceFits(Response, at.source), BadSourceUri), Check(!SinkFits(Response, at.sink), BadSinkUri),
       Check(at.reqid.None? || IsUuid(at.reqid.value, r.d) != None, ReqidMismatch),
       Check(HasTtl(at) && r.f - Ticks(ReqidOf(m)) > at.ttl.value * TICKS_PER_MS, IdExpired),
       Check(at.priority < PRIORITY_CS4, PriorityOutOfRange), Check(!FieldsFit(at), DisallowedFieldSet)]
  }

  lemma {:induction false} FirstOfTwo(a: seq<Check>, b: seq<Check>)
    ensures First(a + b) == if First(a).Some? then First(a) else First(b)
  {
    if a == [] {
      assert a + b == b;
    } else {
      FirstOfTwo(a[1..], b);
      assert (a + b)[1..] == a[1..] + b;
    }
  }

  /** `First` looks at its list from the front. */
  predicate LooksAt(checks: seq<Check>, k: nat)
    requires k < |checks|
  {
    First(checks[k..]) == if checks[k].fails then Some(checks[k].flaw) else First(checks[k + 1..])
  }

  lemma LooksFromFront(checks: seq<Check>)
    ensures checks[0..] == checks
    ensures forall k: nat | k < |checks| :: LooksAt(checks, k)
  {
    forall k: nat | k < |checks| ensures LooksAt(checks, k) {
      assert checks[k..][1..] == checks[k + 1..];
    }
  }

  lemma CommonVerdict(m: UMessage, r: Readings)
    requires Ordered(r)
    ensures CommonAttributes(m, r) == First(CommonChecks(m, r))
  {
    if IsUuid(IdOf(m), r.a) == None { ExpiryTest(IdOf(m), m.attributes.ttl, r.a, r.b, r.c); }
    var checks := CommonChecks(m, r);
    LooksFromFront(checks);
    assert LooksAt(checks, 0) && LooksAt(checks, 1) && LooksAt(checks, 2) && LooksAt(checks, 3);
  }

  lemma TopicVerdict(m: UMessage, r: Readings)
    requires m.attributes.kind == Publish || m.attributes.kind == Notification
    requires CommonAttributes(m, r) == None
    ensures IsValid(m, r) == First(TypeChecks(m, r))
  {
    var checks := TypeChecks(m, r);
    LooksFromFront(checks);
    assert LooksAt(checks, 0) && LooksAt(checks, 1);
    if m.attributes.kind == Notification { assert LooksAt(checks, 2) && LooksAt(checks, 3) && LooksAt(checks, 4); }
  }

  lemma RequestVerdict(m: UMessage, r: Readings)
    requires m.attributes.kind == Request && CommonAttributes(m, r) == None
    ensures IsValidRpcRequest(m, r) == First(TypeChecks(m, r))
  {
    var checks := TypeChecks(m, r);
    LooksFromFront(checks);
    assert LooksAt(checks, 0) && LooksAt(checks, 1) && LooksAt(checks, 2) && LooksAt(checks, 3);
    assert LooksAt(checks, 4) && LooksAt(checks, 5) && LooksAt(checks, 6);
  }

  lemma ResponseVerdict(m: UMessage, r: Readings)
    requires Ordered(r) && m.attributes.kind == Response && CommonAttributes(m, r) == None
    ensures IsValidRpcResponse(m, r) == First(TypeChecks(m, r))
  {
    var reqid := m.attributes.reqid;
    if reqid.Some? && IsUuid(reqid.value, r.d) == None {
      ExpiryTest(reqid.value, m.attributes.ttl, r.d, r.e, r.f);
    }
    var checks := TypeChecks(m, r);
    LooksFromFront(checks);
    assert LooksAt(checks, 0) && LooksAt(checks, 1) && LooksAt(checks, 2) && LooksAt(checks, 3);
    assert LooksAt(checks, 4) && LooksAt(checks, 5) && LooksAt(checks, 6) && LooksAt(checks, 7);
  }

  predicate HasType(kind: MessageType) {
    kind != Unspecified && kind != Unknown
  }

  /** The verdict is the first failing check: those common to all types, then those of the type. */
  lemma VerdictIsFirstFlaw(m: UMessage, r: Readings)
    requires Ordered(r)
    ensures IsValid(m, r) == First((if HasType(m.attributes.kind) then CommonChecks(m, r) else []) + TypeChecks(m, r))
  {
    var kind, checks := m.attributes.kind, TypeChecks(m, r);
    FirstOfTwo(if HasType(kind) then CommonChecks(m, r) else [], checks);
    CommonVerdict(m, r);
    if HasType(kind) && CommonAttributes(m, r) == None {
      match kind
      case Request => RequestVerdict(m, r);
      case Response => ResponseVerdict(m, r);
      case _ => TopicVerdict(m, r);
    }
  }

  /** A check for one type is the general check on that type and refuses every other. */
  lemma TypedChecks(m: UMessage, r: Readings)
    ensures IsValidRpcRequest(m, r) == None <==> m.attributes.kind == Request && IsValid(m, r) == None
    ensures IsValidRpcResponse(m, r) == None <==> m.attributes.kind == Response && IsValid(m, r) == None
    ensures IsValidPublish(m, r) == None <==> m.attributes.kind == Publish && IsValid(m, r) == None
    ensures IsValidNotification(m, r) == None <==> m.attributes.kind == Notification && IsValid(m, r) == None
  {
  }

  /** A response answers a request exactly if it is well formed, goes the opposite way, and
      carries the request's id and priority. */
  lemma ResponseForIff(request: UMessage, m: UMessage, r: Readings)
    requires Ordered(r)
    ensures IsValidRpcResponseFor(request, m, r) == None <==>
      && m.attributes.kind == Response && WellFormed(m, r)
      && m.attributes.source == Some(SinkOf(request)) && m.attributes.sink == Some(SourceOf(request))
      && m.attributes.reqid == Some(IdOf(request)) && m.attributes.priority == request.attributes.priority
  {
    TypedChecks(m, r);
    ValidIff(m, r);
  }

  /** What is reported of a response that is well formed but answers another request. */
  lemma MismatchIsReported(request: UMessage, m: UMessage, r: Readings)
    ensures IsValidRpcResponse(m, r).Some? ==> IsValidRpcResponseFor(request, m, r) == IsValidRpcResponse(m, r)
    ensures IsValidRpcResponse(m, r) == None ==>
      match IsValidRpcResponseFor(request, m, r)
      case Some(UriMismatch) => SourceOf(m) != SinkOf(request) || SinkOf(m) != SourceOf(request)
      case Some(ReqidMismatch) => SourceOf(m) == SinkOf(request) && ReqidOf(m) != IdOf(request)
      case Some(PriorityMismatch) =>
        ReqidOf(m) == IdOf(request) && m.attributes.priority != request.attributes.priority
      case Some(_) => false
      case None => true
  {
  }
}
