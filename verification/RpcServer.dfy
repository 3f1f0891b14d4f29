/** The RPC server's request handler and the reply it sends. */
module RpcServer {
  import opened Datamodel
  import opened UuidTime
  import opened MessageValidator
  import opened MessageBuilder
  import Uri = UriValidator
  import R = RpcRequest

  /** What the handler does with a message: nothing, an exception, or a reply to send. */
  datatype Handled = Ignored | Thrown | Replied(reply: UMessage)

  /** The reply a server with this TTL and payload format configured builds. */
  function Configured(b: Builder, ttl: Option<int>, format: Option<int>): Builder {
    var b1 := if ttl.Some? then After(b, WithTtl(ttl.value)) else b;
    if format.Some? then After(b1, WithPayloadFormat(format.value)) else b1
  }

  predicate Configurable(ttl: Option<int>, format: Option<int>) {
    (ttl.Some? ==> IsTtl(ttl.value)) && (format.Some? ==> IsPayloadFormat(format.value))
  }

  /** The callback's result has the format the server was told to expect. */
  predicate Respects(format: Option<int>, payload: Option<Payload>) {
    format.Some? ==> payload.Some? && payload.value.format == format.value
  }

  datatype Created = Server(server: RpcServer) | Status(code: int) | InvalidUri

  /** The source filter: requests from anywhere. */
  const ANY_URI := UUri("*", 0xFFFF_FFFF, 0xFF, 0xFFFF)

  /** What the server refuses before it registers anything. */
  predicate Acceptable(method_: UUri, format: Option<int>) {
    Uri.IsValidRpcMethod(method_).ok && (format.Some? ==> IsPayloadFormat(format.value))
  }

  const INVALID_ARGUMENT := 3
  const OUT_OF_RANGE := 11

  class RpcServer {
    const ttl: Option<int>
    const format: Option<int>
    var listener: Option<nat>     // callback_handle_

    constructor (format: Option<int>, ttl: Option<int>)
      ensures this.format == format && this.ttl == ttl && listener == None
    {
      this.format, this.ttl, listener := format, ttl, None;
    }

    /** `registration` is what the transport answers: a listener or an error code.  None is
        the InvalidUUri exception. */
    method Connect(method_: UUri, registration: Option<nat>, code: int) returns (status: Option<int>)
      requires registration.None? ==> code != UCODE_OK
      modifies this
      ensures status == None <==> !Uri.IsValidFilter(method_).ok
      ensures status == Some(UCODE_OK) <==> Uri.IsValidFilter(method_).ok && registration.Some?
      ensures listener == if status == Some(UCODE_OK) then registration else old(listener)
      ensures status.Some? && registration.None? ==> status == Some(code)
    {
      if !Uri.IsValidFilter(ANY_URI).ok || !Uri.IsValidFilter(method_).ok {
        return None;
      }
      if registration.Some? {
        listener := registration;
        return Some(UCODE_OK);
      }
      return Some(code);
    }

    /** The factory: refuses a bad method or format before it touches the transport. */
    static method Create(method_: UUri, format: Option<int>, ttl: Option<int>, registration: Option<nat>, code: int)
      returns (r: Created)
      requires registration.None? ==> code != UCODE_OK
      ensures r.Server? <==> Acceptable(method_, format) && Uri.IsValidFilter(method_).ok && registration.Some?
      ensures r.Server? ==> r.server.format == format && r.server.ttl == ttl && r.server.listener == registration
      ensures r == InvalidUri <==> Acceptable(method_, format) && !Uri.IsValidFilter(method_).ok
      ensures !Uri.IsValidRpcMethod(method_).ok ==> r == Status(INVALID_ARGUMENT)
      ensures Uri.IsValidRpcMethod(method_).ok && !Acceptable(method_, format) ==> r == Status(OUT_OF_RANGE)
      ensures r.Status? && Acceptable(method_, format) ==> r == Status(code) && registration.None?
    {
      if !Uri.IsValidRpcMethod(method_).ok {
        return Status(INVALID_ARGUMENT);
      }
      if format.Some? && !IsPayloadFormat(format.value) {
        return Status(OUT_OF_RANGE);
      }
      var server := new RpcServer(format, ttl);
      var status := server.Connect(method_, registration, code);
      if status == None {
        return InvalidUri;
      }
      if status.value == UCODE_OK {
        return Server(server);
      }
      return Status(status.value);
    }

    /** The listener: `r` are the readings of the request check, `t` the one of the
        response factory, `payload` the callback's result, `id` the reply's new id, and
        `sent` the readings of the check that send() makes. */
    method OnRequest(request: UMessage, r: Readings, t: int, payload: Option<Payload>, id: UUID, sent: Readings)
      returns (h: Handled)
      requires Ordered(r) && r.f <= t
      ensures h == Reply(request, ttl, format, r, t, payload, id, sent)
    {
      if IsValidRpcRequest(request, r).Some? {
        return Ignored;
      }
      ValidRequestIsAnswerable(request, r, t);
      var from := ResponseToMessage(request, t).value;
      var builder := new UMessageBuilder(Response, SinkOf(request), Some(SourceOf(request)), Some(IdOf(request)));
      var ok := builder.With(WithPriority(request.attributes.priority));
      assert builder.State() == from;
      if ttl.Some? {
        ok := builder.With(WithTtl(ttl.value));
        if !ok { return Thrown; }
      }
      if format.Some? {
        ok := builder.With(WithPayloadFormat(format.value));
        if !ok { return Thrown; }
      }
      var response := builder.Build(None, payload, id);
      if response.None? || IsValid(response.value, sent).Some? { return Thrown; }
      return Replied(response.value);
    }
  }

  /** The reply the handler builds, if nothing throws before it is sent. */
  function Composed(request: UMessage, ttl: Option<int>, format: Option<int>, t: int,
                    payload: Option<Payload>, id: UUID): Option<UMessage> {
    match ResponseToMessage(request, t)
    case None => None
    case Some(b) =>
      if Configurable(ttl, format) && Respects(format, payload)
      then Some(Built(Configured(b, ttl, format), None, payload, id)) else None
  }

  function Reply(request: UMessage, ttl: Option<int>, format: Option<int>, r: Readings, t: int,
                 payload: Option<Payload>, id: UUID, sent: Readings): Handled {
    if IsValidRpcRequest(request, r).Some? then Ignored
    else
      match Composed(request, ttl, format, t, payload, id)
      case None => Thrown
      case Some(m) => if IsValid(m, sent).Some? then Thrown else Replied(m)
  }

  /** The response factory accepts every request that passed the request check. */
  lemma ValidRequestIsAnswerable(request: UMessage, r: Readings, t: int)
    requires IsValidRpcRequest(request, r) == None && Ordered(r) && r.f <= t
    ensures ResponseToMessage(request, t).Some? && Good(ResponseToMessage(request, t).value, t)
  {
  }

  lemma ConfiguredIsGood(b: Builder, ttl: Option<int>, format: Option<int>, since: int)
    requires Good(b, since)
    ensures Good(Configured(b, ttl, format), since)
    ensures var at, at' := b.attributes, Configured(b, ttl, format).attributes;
      && at'.source == at.source && at'.sink == at.sink && at'.reqid == at.reqid
      && at'.priority == at.priority && at'.kind == at.kind && at'.commstatus == at.commstatus
  {
    if ttl.Some? { CallKeepsSound(b, WithTtl(ttl.value), since); }
    var b1 := if ttl.Some? then After(b, WithTtl(ttl.value)) else b;
    if format.Some? { CallKeepsSound(b1, WithPayloadFormat(format.value), since); }
  }

  /** What the handler composes passes the check against its request, at all later readings,
      exactly while unexpired. */
  lemma ComposedIsCorrect(request: UMessage, ttl: Option<int>, format: Option<int>, r: Readings, t: int,
                          payload: Option<Payload>, now: int, randA: nat, randB: nat, later: Readings)
    requires IsValidRpcRequest(request, r) == None && Ordered(r) && r.f <= t <= now <= later.a && Ordered(later)
    requires 0 <= now && ToMs(now) < 0x1_0000_0000_0000
    ensures var m := Composed(request, ttl, format, t, payload, V7(ToMs(now), randA, randB));
      && (m.Some? <==> Configurable(ttl, format) && Respects(format, payload))
      && (m.Some? ==>
            && (IsValid(m.value, later) == None <==> Unexpired(m.value, later))
            && (IsValidRpcResponseFor(request, m.value, later) == None <==> Unexpired(m.value, later))
            && ReqidOf(m.value) == IdOf(request) && CommStatusOf(m.value) == UCODE_OK)
  {
    ValidRequestIsAnswerable(request, r, t);
    var b := ResponseToMessage(request, t).value;
    ConfiguredIsGood(b, ttl, format, t);
    BuiltIsValidIff(Configured(b, ttl, format), t, None, payload, now, randA, randB, later);
  }

  /** An invalid request gets no reply; a valid one gets exactly one, provided the server's
      TTL is in range, the callback keeps to the configured format and the reply has not expired
      by the time it is sent; and that reply passes the check against its request, at all later
      readings, exactly while unexpired. */
  lemma ReplyIsCorrect(request: UMessage, ttl: Option<int>, format: Option<int>, r: Readings, t: int,
                       payload: Option<Payload>, now: int, randA: nat, randB: nat, sent: Readings, later: Readings)
    requires Ordered(r) && r.f <= t <= now <= sent.a && Ordered(sent) && sent.f <= later.a && Ordered(later)
    requires 0 <= now && ToMs(now) < 0x1_0000_0000_0000
    ensures var id := V7(ToMs(now), randA, randB);
      var h, m := Reply(request, ttl, format, r, t, payload, id, sent), Composed(request, ttl, format, t, payload, id);
      && (h == Ignored <==> IsValidRpcRequest(request, r) != None)
      && (h.Replied? <==>
            && IsValidRpcRequest(request, r) == None && Configurable(ttl, format) && Respects(format, payload)
            && m.Some? && Unexpired(m.value, sent))
      && (h.Replied? ==>
            && (IsValidRpcResponseFor(request, h.reply, later) == None <==> Unexpired(h.reply, later))
            && ReqidOf(h.reply) == IdOf(request) && CommStatusOf(h.reply) == UCODE_OK)
  {
    if IsValidRpcRequest(request, r) == None {
      ComposedIsCorrect(request, ttl, format, r, t, payload, now, randA, randB, sent);
      ComposedIsCorrect(request, ttl, format, r, t, payload, now, randA, randB, later);
    }
  }

  /** A reply carries the callback's payload, bytes and format, the server's TTL and the request's
      priority and id, and goes back where the request came from. */
  lemma ReplyCarries(request: UMessage, ttl: Option<int>, format: Option<int>, r: Readings, t: int,
                     payload: Option<Payload>, id: UUID, sent: Readings)
    ensures var h := Reply(request, ttl, format, r, t, payload, id, sent);
      h.Replied? ==>
        var at := h.reply.attributes;
        && h.reply.payload == (if payload.Some? then Some(payload.value.bytes) else None)
        && at.payloadFormat == (if payload.Some? then payload.value.format else 0)
        && (ttl.None? ==> at.ttl.None?) && (ttl.Some? ==> at.ttl.Some? && at.ttl.value == ttl.value)
        && at.source == Some(SinkOf(request)) && at.sink == Some(SourceOf(request)) && at.id == Some(id)
        && at.reqid == Some(IdOf(request)) && at.priority == request.attributes.priority && at.kind == Response
        && at.commstatus.None? && at.token.None? && at.permissionLevel.None?
  {
  }

  /** Among requests with distinct ids, the client matches the reply to the one it answers
      and to no other; acting on it resolves exactly that request with exactly that reply. */
  lemma ReplyAnswersOneRequest(reqs: seq<R.Invocation>, k: nat, j: nat, request: UMessage,
                               ttl: Option<int>, format: Option<int>, r: Readings, t: int,
                               payload: Option<Payload>, now: int, randA: nat, randB: nat, sent: Readings)
    requires forall a, b | 0 <= a < b < |reqs| :: reqs[a].reqid != reqs[b].reqid
    requires k < |reqs| && j < |reqs| && reqs[k].reqid == IdOf(request)
    requires Ordered(r) && r.f <= t <= now <= sent.a && Ordered(sent) && 0 <= now && ToMs(now) < 0x1_0000_0000_0000
    ensures var h := Reply(request, ttl, format, r, t, payload, V7(ToMs(now), randA, randB), sent);
      h.Replied? ==>
        && (R.Matches(reqs[j], h.reply) <==> j == k)
        && (j != k ==> R.Answering(reqs[j], h.reply) == reqs[j])
        && (reqs[k].once == None ==> R.Answering(reqs[k], h.reply).once == Some(R.Answer(h.reply)))
  {
    if IsValidRpcRequest(request, r) == None {
      ComposedIsCorrect(request, ttl, format, r, t, payload, now, randA, randB, sent);
    }
  }
}
