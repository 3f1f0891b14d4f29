/** The response listener of a request behaves as the callback protocol specifies. */
module ListenerGate {
  import opened CallbackTheorems
  import opened Datamodel
  import opened RpcRequest

  function Open(bodies: seq<Body>): nat {
    if bodies == [] then 0
    else Open(bodies[..|bodies| - 1]) + if bodies[|bodies| - 1].phase == Ended then 0 else 1
  }

  /** The listener's connection as the protocol's gate. */
  function GateOf(q: Invocation): Gate {
    Gate(q.listening, Open(q.bodies), false, StageOf(q.place) == Some(Severed(true)), StageOf(q.place) == Some(Missed))
  }

  lemma {:induction false} OpenZero(bodies: seq<Body>)
    ensures Open(bodies) == 0 <==> forall k | 0 <= k < |bodies| :: bodies[k].phase == Ended
  {
    if bodies != [] {
      var n := |bodies| - 1;
      OpenZero(bodies[..n]);
      assert forall k | 0 <= k < n :: bodies[..n][k] == bodies[k];
    }
  }

  lemma {:induction false} OpenUpdate(bodies: seq<Body>, k: nat, b: Body)
    requires k < |bodies|
    ensures Open(bodies[k := b]) + (if bodies[k].phase == Ended then 0 else 1)
         == Open(bodies) + if b.phase == Ended then 0 else 1
  {
    var n := |bodies| - 1;
    if k < n {
      OpenUpdate(bodies[..n], k, b);
      assert bodies[k := b][..n] == bodies[..n][k := b];
    } else {
      assert bodies[k := b][..n] == bodies[..n];
    }
  }

  lemma BodyFollowsGate(q: Invocation, e: Event)
    requires Enabled(q, e) && IsBodyEvent(e)
    ensures GateMove(GateOf(q), GateOf(Next(q, e)))
  {
    var q' := Next(q, e);
    OpenZero(q.bodies);
    BodyStaysInPlace(q, e);
    if e.BodyBegins? {
      assert q'.bodies[..|q.bodies|] == q.bodies;
      assert GateOf(q') == GateOf(q).(running := GateOf(q).running + 1);
    } else {
      OpenUpdate(q.bodies, e.k, q'.bodies[e.k]);
      assert GateOf(q') == GateOf(q).(running := Open(q'.bodies));
    }
  }

  /** The handle lets go of the wrapper, or is overwritten. */
  predicate LetsGo(e: Event) {
    e.CloseListener? || e.DropListener? || e.Collect? || e.DropFired?
  }

  lemma LettingGoFollowsGate(q: Invocation, e: Event)
    requires RequestInv(q) && Enabled(q, e) && LetsGo(e)
    ensures GateStep(GateOf(q), GateOf(Next(q, e)))
  {
    var g, g' := GateOf(q), GateOf(Next(q, e));
    OpenZero(q.bodies);
    assert Next(q, e).bodies == q.bodies && g.held && !g.atRisk && !g.stuck && !g'.stuck;
    assert g' == g.(held := g'.held, atRisk := g'.atRisk);
  }

  /** Everything else moves at most the wait in sever(). */
  lemma OthersFollowGate(q: Invocation, e: Event)
    requires RequestInv(q) && Enabled(q, e) && q.place != Created && !IsBodyEvent(e) && !LetsGo(e)
    ensures GateStep(GateOf(q), GateOf(Next(q, e)))
  {
    var g, g' := GateOf(q), GateOf(Next(q, e));
    OpenZero(q.bodies);
    assert Next(q, e).bodies == q.bodies && Next(q, e).listening == q.listening;
    assert g' == g.(atRisk := g'.atRisk, stuck := g'.stuck);
  }

  /** Once established, every event moves the listener as the gate allows. */
  lemma ListenerFollowsGate(q: Invocation, e: Event)
    requires RequestInv(q) && Enabled(q, e) && q.place != Created
    ensures GateStep(GateOf(q), GateOf(Next(q, e)))
  {
    if IsBodyEvent(e) {
      BodyFollowsGate(q, e);
    } else if LetsGo(e) {
      LettingGoFollowsGate(q, e);
    } else {
      OthersFollowGate(q, e);
    }
  }

  /** reset() is inside sever(). */
  predicate InSever(p: Place) {
    Waits(p) || StageOf(p) == Some(Missed)
  }

  lemma SeverEndsWithGate(q: Invocation)
    requires RequestInv(q)
    ensures Enabled(q, ListenerDrained) <==>
      (q.place.Held? || q.place.Collected?) && InSever(q.place) && MayClose(GateOf(q))
    ensures Enabled(q, CloseDone) <==> q.place.Closing? && InSever(q.place) && MayClose(GateOf(q))
  {
    OpenZero(q.bodies);
    assert InSever(q.place) ==> !q.listening;
  }

  /** A body may begin exactly when the gate lets one begin; whoever waits in sever() for the
      listener is let through exactly when the gate may close, which takes a wake-up that was
      not missed; and it misses one, or is woken after that, exactly as the gate does. */
  lemma ListenerWaitsForGate(q: Invocation, m: UMessage)
    requires RequestInv(q)
    ensures Enabled(q, BodyBegins(m)) <==> GateOf(q).held || GateOf(q).running > 0
    ensures Enabled(q, ListenerDrained) || Enabled(q, CloseDone) <==> InSever(q.place) && MayClose(GateOf(q))
    ensures Enabled(q, Miss) <==> MayMiss(GateOf(q))
    ensures Enabled(q, WakeUp) <==> GateOf(q).stuck
  {
    SeverEndsWithGate(q);
    OpenZero(q.bodies);
    assert InSever(q.place) ==> !q.listening;
  }
}
