/**
One RPC request, from `invokeMethod` to the resolution of its callback.  The events
below are everything any thread ever does to it: the invoking thread, the transport
threads that run the response wrapper, the expiry worker, the thread that discards the
client, and the thread that shuts the worker down.
*/
module RpcRequest {
  import opened Datamodel

  /** What the user's callback is (or would be) called with. */
  datatype Outcome =
    | Answer(m: UMessage)             // an OK response
    | Refusal(m: UMessage)            // a response with a non-OK commstatus
    | DeadlineExceeded | Cancelled | Internal
    | TransportFailure(code: int)     // registerListener or send failed

  /** One execution of the response wrapper. */
  datatype Body = Body(m: UMessage, phase: BodyPhase)
  datatype BodyPhase = Begun | Acted | Ended

  /** How far the destruction of a listener handle has come.  `atRisk` says that a wrapper
      ran when the handle let go of it, so that the wait for it may miss its wake-up. */
  datatype Stage =
    | Intact                  // the handle still keeps the wrapper
    | Severed(atRisk: bool)   // the wrapper is let go; reset() waits for it to drain
    | Missed                  // reset() waits for a notify that will not come
    | Drained                 // reset() has returned
    | Orphaned                // overwritten by move assignment; nobody waits

  /** Why invokeMethod destroys the listener handle. */
  datatype Failure =
    | Refused(code: int)      // registerListener failed; expire is called afterwards
    | SendFailed              // send failed; expire has been called
    | SendThrew               // send threw; expire is never called

  datatype Place =
    | Created                 // invokeMethod has built the wrapper
    | Registering             // the connection is established; the transport registers it
    | Registered              // registerListener succeeded
    | Sent                    // send succeeded
    | Pending                 // in the expiry queue
    | Held(stage: Stage)      // taken from the queue by the worker
    | Collected(stage: Stage) // taken out by scrub
    | Fired                   // its expire function has been called
    | Closing(stage: Stage, why: Failure)
    | Failed                  // invokeMethod returned after a failure
    | Threw                   // invokeMethod threw

  /** `once` is the shared std::once_flag with what it was spent on, `runs` counts the
      executions of the user's callback, `kept` says the user still keeps the
      InvokeHandle, and `listening` that the listener handle keeps the wrapper. */
  datatype Invocation = Invocation(
    client: nat, deadline: int, reqid: UUID,
    place: Place, once: Option<Outcome>, runs: nat, kept: bool,
    listening: bool, bodies: seq<Body>)

  datatype Event =
    | RegisterThrows | Establish | RegisterFails(code: int) | RegisterWorks
    | SendThrows | SendFails(code: int) | SendWorks
    | CloseListener | CloseDone | Enqueued
    | BodyBegins(m: UMessage) | BodyActs(k: nat) | BodyEnds(k: nat)
    | DropInvokeHandle
    | Hold | DropListener | ListenerDrained | Miss | WakeUp | Expire
    | Collect(destroyed: bool) | Cancel | ShutDown | DropFired

  function New(client: nat, deadline: int, reqid: UUID): Invocation {
    Invocation(client, deadline, reqid, Created, None, 0, true, false, [])
  }

  /** No execution of the wrapper is under way. */
  predicate Quiet(q: Invocation) {
    forall k | 0 <= k < |q.bodies| :: q.bodies[k].phase == Ended
  }

  predicate Matches(q: Invocation, m: UMessage) {
    ReqidOf(m) == q.reqid
  }

  predicate Invoking(p: Place) {
    p == Created || p == Registering || p == Registered || p == Sent || p.Closing?
  }

  function StageOf(p: Place): Option<Stage> {
    if p.Held? || p.Collected? || p.Closing? then Some(p.stage) else None
  }

  function AtStage(p: Place, stage: Stage): Place
    requires StageOf(p).Some?
  {
    p.(stage := stage)
  }

  /** reset() waits in sever(), with its wake-up not missed. */
  predicate Waits(p: Place) {
    StageOf(p).Some? && p.stage.Severed?
  }

  predicate Enabled(q: Invocation, e: Event) {
    match e
    case RegisterThrows => q.place == Created
    case Establish => q.place == Created
    case RegisterFails(_) => q.place == Registering
    case RegisterWorks => q.place == Registering
    case SendThrows => q.place == Registered
    case SendFails(_) => q.place == Registered
    case SendWorks => q.place == Registered
    case CloseListener => q.place.Closing? && q.place.stage == Intact
    case CloseDone => q.place.Closing? && Waits(q.place) && Quiet(q)
    case Enqueued => q.place == Sent
    // A body may start while the handle, or another body, keeps the wrapper alive.
    case BodyBegins(_) => q.listening || !Quiet(q)
    case BodyActs(k) => k < |q.bodies| && q.bodies[k].phase == Begun
    case BodyEnds(k) => k < |q.bodies| && q.bodies[k].phase == Acted
    // The InvokeHandle reaches the user when invokeMethod returns.
    case DropInvokeHandle => !Invoking(q.place) && q.kept
    case Hold => q.place == Pending
    case DropListener => q.place == Held(Intact) || q.place == Collected(Intact)
    case ListenerDrained => (q.place.Held? || q.place.Collected?) && Waits(q.place) && Quiet(q)
    case Miss => StageOf(q.place) == Some(Severed(true)) && Quiet(q)
    case WakeUp => StageOf(q.place) == Some(Missed)
    case Expire => q.place == Held(Drained)
    case Collect(_) => q.place == Pending
    case Cancel => q.place == Collected(Drained) || q.place == Collected(Orphaned)
    case ShutDown => q.place == Pending
    case DropFired => q.place == Fired && q.listening
  }

  /** std::call_once around the user's callback; a dropped InvokeHandle makes the
      callback itself a no-op. */
  function CallOnce(q: Invocation, o: Outcome): Invocation {
    if q.once.Some? then q
    else q.(once := Some(o), runs := if q.kept then q.runs + 1 else q.runs)
  }

  function Answering(q: Invocation, m: UMessage): Invocation {
    if !Matches(q, m) then q
    else CallOnce(q, if CommStatusOf(m) == UCODE_OK then Answer(m) else Refusal(m))
  }

  /** The listener handle lets go of the wrapper. */
  function LetGo(q: Invocation): Invocation
    requires StageOf(q.place).Some?
  {
    q.(place := AtStage(q.place, Severed(!Quiet(q))), listening := false)
  }

  /** invokeMethod after the listener handle is gone; an exception takes the InvokeHandle
      along. */
  function Leave(q: Invocation, why: Failure): Invocation {
    match why
    case Refused(code) => CallOnce(q, TransportFailure(code)).(place := Failed)
    case SendFailed => q.(place := Failed)
    case SendThrew => q.(place := Threw, kept := false)
  }

  function Next(q: Invocation, e: Event): Invocation
    requires Enabled(q, e)
  {
    match e
    case RegisterThrows => q.(place := Threw, kept := false)
    case Establish => q.(place := Registering, listening := true)
    case RegisterFails(code) => q.(place := Closing(Intact, Refused(code)))
    case RegisterWorks => q.(place := Registered)
    case SendThrows => q.(place := Closing(Intact, SendThrew))
    case SendFails(code) => CallOnce(q, TransportFailure(code)).(place := Closing(Intact, SendFailed))
    case SendWorks => q.(place := Sent)
    case CloseListener => LetGo(q)
    case CloseDone => Leave(q, q.place.why)
    case Enqueued => q.(place := Pending)
    case BodyBegins(m) => q.(bodies := q.bodies + [Body(m, Begun)])
    case BodyActs(k) =>
      Answering(q, q.bodies[k].m).(bodies := q.bodies[k := q.bodies[k].(phase := Acted)])
    case BodyEnds(k) => q.(bodies := q.bodies[k := q.bodies[k].(phase := Ended)])
    case DropInvokeHandle => q.(kept := false)
    case Hold => q.(place := Held(Intact))
    case DropListener => LetGo(q)
    case ListenerDrained => q.(place := AtStage(q.place, Drained))
    case Miss => q.(place := AtStage(q.place, Missed))
    case WakeUp => q.(place := AtStage(q.place, Severed(false)))
    case Expire => CallOnce(q, DeadlineExceeded).(place := Fired)
    case Collect(destroyed) =>
      q.(place := Collected(if destroyed then Intact else Orphaned), listening := q.listening && destroyed)
    case Cancel => CallOnce(q, Cancelled).(place := Fired)
    case ShutDown => CallOnce(q, Internal).(place := Fired)
    case DropFired => q.(listening := false)
  }

  // ---------------------------------------------------------------- invariant

  ghost predicate Heard(q: Invocation, m: UMessage) {
    exists k :: 0 <= k < |q.bodies| && q.bodies[k].m == m
  }

  predicate AfterSendFailed(p: Place) {
    p.Closing? && p.why == SendFailed
  }

  /** At most one run; exactly one if the flag is spent and the handle still kept. */
  ghost predicate OnceInv(q: Invocation) {
    && q.runs <= 1
    && (q.once == None ==> q.runs == 0)
    && (q.once.Some? && q.kept ==> q.runs == 1)
    && (Invoking(q.place) ==> q.kept)
    && (q.place == Threw ==> !q.kept)
    && (forall k | 0 <= k < |q.bodies| && q.bodies[k].phase != Begun && Matches(q, q.bodies[k].m) :: q.once.Some?)
    && (q.place == Fired || q.place == Failed || AfterSendFailed(q.place) ==> q.once.Some?)
  }

  ghost predicate ListenerInv(q: Invocation) {
    && (q.place == Created ==> !q.listening && q.bodies == [] && q.once == None)
    && (q.place == Registering || q.place == Registered || q.place == Sent || q.place == Pending ==> q.listening)
    && (StageOf(q.place).Some? ==> StageInv(q, q.place.stage))
    && (q.place.Held? || q.place.Closing? ==> q.place.stage != Orphaned)
    && (q.place == Failed || q.place == Threw ==> !q.listening && Quiet(q))
  }

  ghost predicate StageInv(q: Invocation, stage: Stage) {
    && (stage == Intact <==> q.listening)
    && (stage == Severed(false) || stage == Missed || stage == Drained ==> Quiet(q))
  }

  /** Where an outcome can come from. */
  ghost predicate OutcomeInv(q: Invocation) {
    q.once.Some? ==>
      match q.once.value
      case Answer(m) => Heard(q, m) && Matches(q, m) && CommStatusOf(m) == UCODE_OK
      case Refusal(m) => Heard(q, m) && Matches(q, m) && CommStatusOf(m) != UCODE_OK
      case DeadlineExceeded =>
        && q.place == Fired && !q.listening && Quiet(q)
        && forall k | 0 <= k < |q.bodies| :: !Matches(q, q.bodies[k].m)
      case Cancelled => q.place == Fired
      case Internal => q.place == Fired
      case TransportFailure(_) => AfterSendFailed(q.place) || q.place == Failed
  }

  ghost predicate RequestInv(q: Invocation) {
    OnceInv(q) && ListenerInv(q) && OutcomeInv(q)
  }

  predicate IsBodyEvent(e: Event) {
    e.BodyBegins? || e.BodyActs? || e.BodyEnds?
  }

  lemma BodyKeepsOnce(q: Invocation, e: Event)
    requires RequestInv(q) && Enabled(q, e) && IsBodyEvent(e)
    ensures OnceInv(Next(q, e))
  {
  }

  lemma EventKeepsOnce(q: Invocation, e: Event)
    requires RequestInv(q) && Enabled(q, e)
    ensures OnceInv(Next(q, e))
  {
    if IsBodyEvent(e) {
      BodyKeepsOnce(q, e);
    } else {
      assert Next(q, e).bodies == q.bodies;
    }
  }

  /** A wrapper execution moves nothing but itself and the outcome. */
  lemma BodyStaysInPlace(q: Invocation, e: Event)
    requires Enabled(q, e) && IsBodyEvent(e)
    ensures Next(q, e).place == q.place && Next(q, e).listening == q.listening
    ensures !q.listening && Quiet(q) ==> !e.BodyBegins? && Quiet(Next(q, e))
  {
  }

  lemma EventKeepsListener(q: Invocation, e: Event)
    requires RequestInv(q) && Enabled(q, e)
    ensures ListenerInv(Next(q, e))
  {
    if IsBodyEvent(e) {
      BodyStaysInPlace(q, e);
    } else {
      assert Next(q, e).bodies == q.bodies;
    }
  }

  lemma HeardStays(q: Invocation, e: Event, m: UMessage)
    requires Enabled(q, e) && Heard(q, m)
    ensures Heard(Next(q, e), m)
  {
    var k :| 0 <= k < |q.bodies| && q.bodies[k].m == m;
    assert Next(q, e).bodies[k].m == m;
  }

  lemma BodyKeepsOutcome(q: Invocation, e: Event)
    requires RequestInv(q) && Enabled(q, e) && IsBodyEvent(e)
    ensures OutcomeInv(Next(q, e))
  {
    BodyStaysInPlace(q, e);
    if q.once.Some? && (q.once.value.Answer? || q.once.value.Refusal?) {
      HeardStays(q, e, q.once.value.m);
    }
    if e.BodyActs? {
      assert Next(q, e).bodies[e.k].m == q.bodies[e.k].m;
    }
  }

  lemma EventKeepsOutcome(q: Invocation, e: Event)
    requires RequestInv(q) && Enabled(q, e)
    ensures OutcomeInv(Next(q, e))
  {
    if q.once.Some? && (q.once.value.Answer? || q.once.value.Refusal?) {
      HeardStays(q, e, q.once.value.m);
    }
    if IsBodyEvent(e) {
      BodyKeepsOutcome(q, e);
    } else {
      assert Next(q, e).bodies == q.bodies;
    }
  }

  lemma EventKeepsInv(q: Invocation, e: Event)
    requires RequestInv(q) && Enabled(q, e)
    ensures RequestInv(Next(q, e))
  {
    EventKeepsOnce(q, e);
    EventKeepsListener(q, e);
    EventKeepsOutcome(q, e);
  }

  // ---------------------------------------------------------------- one event further

  /** No wrapper execution runs and none can start: the listener is shut for good. */
  predicate Shut(q: Invocation) {
    q.place != Created && !q.listening && Quiet(q)
  }

  lemma ShutStays(q: Invocation, e: Event)
    requires Shut(q) && Enabled(q, e)
    ensures Shut(Next(q, e)) && Next(q, e).bodies == q.bodies
  {
  }

  /** The flag is spent once, bodies and identity are never forgotten. */
  lemma EventIsMonotone(q: Invocation, e: Event)
    requires Enabled(q, e)
    ensures var q' := Next(q, e);
      && q'.client == q.client && q'.deadline == q.deadline && q'.reqid == q.reqid
      && (q.once.Some? ==> q'.once == q.once && q'.runs == q.runs)
      && q.runs <= q'.runs
      && (!q.kept ==> !q'.kept && q'.runs == q.runs)
      && |q.bodies| <= |q'.bodies|
      && forall k | 0 <= k < |q.bodies| :: q'.bodies[k].m == q.bodies[k].m
  {
  }

  /** Every event that calls the expire function, and every matching response that is
      acted on, leaves the callback resolved. */
  lemma ResolvingEventResolves(q: Invocation, e: Event)
    requires RequestInv(q) && Enabled(q, e)
    requires e.SendFails? || e.Expire? || e.Cancel? || e.ShutDown?
      || (e.CloseDone? && q.place.why.Refused?)
      || (e.BodyActs? && Matches(q, q.bodies[e.k].m))
    ensures var q' := Next(q, e); q'.once.Some? && (q'.kept ==> q'.runs == 1)
  {
  }

  /** The outcome is a response. */
  predicate Answered(q: Invocation) {
    q.once.Some? && (q.once.value.Answer? || q.once.value.Refusal?)
  }

  /** What the worker's hands leave open: a request it took ends by a response or by the
      deadline, and is shut when it does. */
  ghost predicate Worked(q: Invocation) {
    || (q.place.Held? && (q.once == None || Answered(q)))
    || (q.place == Fired && Shut(q) && (Answered(q) || q.once == Some(DeadlineExceeded)))
  }

  lemma HeldIsWorked(q: Invocation)
    requires RequestInv(q) && q.place.Held?
    ensures Worked(q)
  {
  }

  lemma WorkedStays(q: Invocation, e: Event)
    requires RequestInv(q) && Worked(q) && Enabled(q, e)
    ensures Worked(Next(q, e))
  {
  }

  /** Likewise for a request that a scrub took: a response or the cancellation. */
  ghost predicate Scrubbed(q: Invocation) {
    || (q.place.Collected? && (q.once == None || Answered(q)))
    || (q.place == Fired && (Answered(q) || q.once == Some(Cancelled)))
  }

  lemma CollectedIsScrubbed(q: Invocation)
    requires RequestInv(q) && q.place.Collected?
    ensures Scrubbed(q)
  {
  }

  lemma ScrubbedStays(q: Invocation, e: Event)
    requires RequestInv(q) && Scrubbed(q) && Enabled(q, e)
    ensures Scrubbed(Next(q, e))
  {
  }

  // ---------------------------------------------------------------- transport failures

  predicate IsRefused(p: Place, code: int) {
    p.Closing? && p.why == Refused(code)
  }

  /** Where a transport failure with a given code can come from. */
  lemma FailureEvent(q: Invocation, e: Event, code: int)
    requires Enabled(q, e)
    ensures Next(q, e).once == Some(TransportFailure(code)) && Next(q, e).once != q.once ==>
      e == SendFails(code) || (e == CloseDone && IsRefused(q.place, code))
    ensures IsRefused(Next(q, e).place, code) ==> e == RegisterFails(code) || IsRefused(q.place, code)
    ensures IsRefused(q.place, code) ==> IsRefused(Next(q, e).place, code) || Next(q, e).place == Failed
    ensures q.place == Failed ==> Next(q, e).place == Failed
  {
  }

  /** What a failing transport leaves on an unresolved request. */
  lemma FailureReported(q: Invocation, code: int)
    requires q.once == None
    ensures Enabled(q, SendFails(code)) ==> Next(q, SendFails(code)).once == Some(TransportFailure(code))
    ensures Enabled(q, CloseDone) && IsRefused(q.place, code) ==>
      Next(q, CloseDone).once == Some(TransportFailure(code))
    ensures Enabled(q, RegisterFails(code)) ==> IsRefused(Next(q, RegisterFails(code)).place, code)
  {
  }
}
