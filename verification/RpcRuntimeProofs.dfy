/** Every step of the RPC runtime keeps its invariant. */
module RpcRuntimeProofs {
  import opened Datamodel
  import opened PendingQueue
  import opened RpcRuntime
  import R = RpcRequest

  // ---------------------------------------------------------------- lists of requests

  lemma Listed(list: seq<Pending>, reqs: seq<R.Invocation>, here: R.Invocation -> bool, p: Pending)
    requires Lists(list, reqs, here) && p in list
    ensures p.id < |reqs| && p == Entry(reqs, p.id) && here(reqs[p.id])
  {
    assert multiset(list)[Entry(reqs, p.id)] > 0;
  }

  /** `reqs'` has the same requests, possibly changed, and possibly more. */
  ghost predicate Extends(reqs: seq<R.Invocation>, reqs': seq<R.Invocation>) {
    && |reqs| <= |reqs'|
    && forall r | 0 <= r < |reqs| :: Entry(reqs', r) == Entry(reqs, r)
  }

  lemma ListsFrame(list: seq<Pending>, reqs: seq<R.Invocation>, reqs': seq<R.Invocation>, here: R.Invocation -> bool)
    requires Lists(list, reqs, here) && Extends(reqs, reqs')
    requires forall r | 0 <= r < |reqs| :: here(reqs'[r]) == here(reqs[r])
    requires forall r | |reqs| <= r < |reqs'| :: !here(reqs'[r])
    ensures Lists(list, reqs', here)
  {
    forall r | 0 <= r < |reqs'|
      ensures multiset(list)[Entry(reqs', r)] == if here(reqs'[r]) then 1 else 0
    {
      if r >= |reqs| { assert Entry(reqs', r) !in list; }
    }
  }

  lemma ListsAdd(list: seq<Pending>, list': seq<Pending>, reqs: seq<R.Invocation>, reqs': seq<R.Invocation>,
                 here: R.Invocation -> bool, q: nat)
    requires Lists(list, reqs, here) && Extends(reqs, reqs') && |reqs'| == |reqs| && q < |reqs|
    requires multiset(list') == multiset(list) + multiset{Entry(reqs, q)}
    requires forall r | 0 <= r < |reqs| && r != q :: here(reqs'[r]) == here(reqs[r])
    requires !here(reqs[q]) && here(reqs'[q])
    ensures Lists(list', reqs', here)
  {
    forall p | p in list' ensures p.id < |reqs'| && p == Entry(reqs', p.id) {
      assert p in multiset(list');
    }
  }

  lemma ListsRemove(list: seq<Pending>, list': seq<Pending>, reqs: seq<R.Invocation>, reqs': seq<R.Invocation>,
                    here: R.Invocation -> bool, q: nat)
    requires Lists(list, reqs, here) && Extends(reqs, reqs') && |reqs'| == |reqs| && q < |reqs|
    requires multiset(list') == multiset(list) - multiset{Entry(reqs, q)}
    requires forall r | 0 <= r < |reqs| && r != q :: here(reqs'[r]) == here(reqs[r])
    requires here(reqs[q]) && !here(reqs'[q])
    ensures Lists(list', reqs', here)
  {
    forall p | p in list' ensures p.id < |reqs'| && p == Entry(reqs', p.id) {
      assert p in multiset(list');
      assert p in multiset(list);
    }
  }

  lemma TailOf(list: seq<Pending>)
    requires list != []
    ensures multiset(list[1..]) == multiset(list) - multiset{list[0]}
  {
    assert list == [list[0]] + list[1..];
  }

  lemma ScrubCounts(c: seq<Pending>, i: nat, p: Pending)
    ensures multiset(Keep(c, i))[p] == if p.client == i then 0 else multiset(c)[p]
    ensures multiset(Take(c, i))[p] == if p.client == i then multiset(c)[p] else 0
  {
    ScrubSplits(c, i);
    assert p.client == i ==> p !in Keep(c, i);
    assert p.client != i ==> p !in Take(c, i);
    assert multiset(c)[p] == multiset(Keep(c, i))[p] + multiset(Take(c, i))[p];
  }

  // ---------------------------------------------------------------- requests

  lemma FrontListed(s: System)
    requires QueueInv(s) && s.c != []
    ensures s.c[0].id < |s.reqs| && s.c[0] == Entry(s.reqs, s.c[0].id) && s.reqs[s.c[0].id].place == R.Pending
  {
    Listed(s.c, s.reqs, InQueue(), s.c[0]);
  }

  lemma NextToCancel(s: System, i: nat)
    requires TodoInv(s) && LeftInv(s) && i < |s.clients| && s.clients[i].Cancelling? && s.clients[i].todo != []
    ensures var p := s.clients[i].todo[0];
      && p.id < |s.reqs| && p == Entry(s.reqs, p.id) && s.reqs[p.id].client == i
      && (s.reqs[p.id].place == R.Collected(R.Drained) || s.reqs[p.id].place == R.Collected(R.Orphaned))
  {
    var p := s.clients[i].todo[0];
    Listed(Todo(s, i), s.reqs, TakenFrom(i), p);
    assert multiset(Left(s, i))[Entry(s.reqs, p.id)] == 0;
  }

  lemma NextToSweep(s: System, i: nat)
    requires LeftInv(s) && Sweeps(s, i)
    ensures var p := s.clients[i].left[0];
      p == Entry(s.reqs, p.id) && InTail(i)(s.reqs[p.id])
  {
    Listed(Left(s, i), s.reqs, InTail(i), s.clients[i].left[0]);
  }

  lemma HandleEventEnabled(q: R.Invocation)
    requires HandleMoves(q) && (q.place.Held? || q.place.Collected?)
    ensures R.Enabled(q, HandleEvent(q))
  {
  }

  /** The runtime only ever asks of a request what the request can do there. */
  lemma EventNeverMasked(s: System, step: Step, r: nat)
    requires QueueInv(s) && TodoInv(s) && LeftInv(s) && HeldInv(s)
    requires Enabled(s, step) && r < |s.reqs| && EventOf(s, step, r).Some?
    ensures R.Enabled(s.reqs[r], EventOf(s, step, r).value)
  {
    match step
    case SweepNext(i) => HandleEventEnabled(s.reqs[r]);
    case CancelNext(i) => NextToCancel(s, i);
    case Work(_) =>
      if FrontDue(s) {
        FrontListed(s);
      } else if s.reqs[r].place != R.Held(R.Drained) {
        HandleEventEnabled(s.reqs[r]);
      }
    case ShutDownNext => FrontListed(s);
    case _ =>
  }

  lemma RequestStep(s: System, step: Step, r: nat)
    requires Inv(s) && Enabled(s, step) && r < |s.reqs|
    ensures |s.reqs| <= |Apply(s, step).reqs|
    ensures var q' := Apply(s, step).reqs[r];
      match EventOf(s, step, r)
      case None => q' == s.reqs[r]
      case Some(e) => R.Enabled(s.reqs[r], e) && q' == R.Next(s.reqs[r], e)
  {
    if EventOf(s, step, r).Some? { EventNeverMasked(s, step, r); }
  }

  lemma NewRequest(s: System, step: Step)
    requires Enabled(s, step)
    ensures Apply(s, step).reqs == Requests(s, step)
    ensures |Apply(s, step).reqs| == |s.reqs| + if step.Invoke? then 1 else 0
    ensures step.Invoke? ==> Apply(s, step).reqs[|s.reqs|] == R.New(step.client, s.clock + step.ttl, step.reqid)
  {
  }

  lemma StepExtends(s: System, step: Step)
    requires Inv(s) && Enabled(s, step)
    ensures Extends(s.reqs, Apply(s, step).reqs)
  {
    NewRequest(s, step);
    var s' := Apply(s, step);
    forall r | 0 <= r < |s.reqs| ensures Entry(s'.reqs, r) == Entry(s.reqs, r) {
      RequestStep(s, step, r);
      if EventOf(s, step, r).Some? { R.EventIsMonotone(s.reqs[r], EventOf(s, step, r).value); }
    }
  }

  lemma StepKeepsRequests(s: System, step: Step)
    requires Inv(s) && Enabled(s, step)
    ensures RequestsInv(Apply(s, step))
  {
    NewRequest(s, step);
    var s' := Apply(s, step);
    forall r | 0 <= r < |s'.reqs| ensures R.RequestInv(s'.reqs[r]) {
      if r < |s.reqs| {
        RequestStep(s, step, r);
        assert R.RequestInv(s.reqs[r]);
        if EventOf(s, step, r).Some? { R.EventKeepsInv(s.reqs[r], EventOf(s, step, r).value); }
      }
    }
  }

  /** Where an event takes a request. */
  lemma EventPlaces(q: R.Invocation, e: R.Event)
    requires R.Enabled(q, e)
    ensures var q' := R.Next(q, e);
      && (q'.place == R.Pending <==>
            e == R.Enqueued || (q.place == R.Pending && e != R.Hold && !e.Collect? && e != R.ShutDown))
      && (q'.place.Collected? <==> e.Collect? || (q.place.Collected? && e != R.Cancel))
      && (q'.place.Held? <==> e == R.Hold || (q.place.Held? && e != R.Expire))
      && (q.place == R.Fired || q.place == R.Failed || q.place == R.Threw ==> q'.place == q.place)
      && (e == R.Expire || e == R.Cancel || e == R.ShutDown ==> q'.place == R.Fired)
  {
  }

  /** What an event may spend the flag on. */
  lemma EventOutcomes(q: R.Invocation, e: R.Event)
    requires R.Enabled(q, e)
    ensures var q' := R.Next(q, e);
      q'.once == q.once
      || (match q'.once.value
          case DeadlineExceeded => e == R.Expire
          case Cancelled => e == R.Cancel
          case Internal => e == R.ShutDown
          case _ => q.once == None)
  {
  }

  /** A step that leaves a request alone keeps its context. */
  lemma UntouchedContext(s: System, step: Step, q: R.Invocation)
    requires Enabled(s, step) && ContextInv(s, q) && WorkerInv(s)
    requires step.Discard? && q.client == step.i ==> q.place != R.Pending && !R.Invoking(q.place)
    ensures ContextInv(Apply(s, step), q)
  {
  }

  /** What concerns a request alone changes nothing its context speaks of. */
  lemma LocalContext(s: System, r: nat, e: R.Event)
    requires Inv(s) && Enabled(s, Local(r, e))
    ensures ContextInv(Apply(s, Local(r, e)), R.Next(s.reqs[r], e))
  {
    var q := s.reqs[r];
    assert ContextInv(s, q);
    EventPlaces(q, e);
    EventOutcomes(q, e);
    R.EventIsMonotone(q, e);
  }

  lemma TouchedContext(s: System, step: Step, r: nat, e: R.Event)
    requires Inv(s) && Enabled(s, step) && r < |s.reqs| && EventOf(s, step, r) == Some(e) && R.Enabled(s.reqs[r], e)
    requires !step.Local?
    ensures ContextInv(Apply(s, step), R.Next(s.reqs[r], e))
  {
    var q := s.reqs[r];
    assert ContextInv(s, q);
    EventPlaces(q, e);
    EventOutcomes(q, e);
    R.EventIsMonotone(q, e);
    if step.CancelNext? {
      NextToCancel(s, step.i);
    } else if step.Work? && FrontDue(s) {
      FrontListed(s);
    }
  }

  lemma StepKeepsContext(s: System, step: Step, r: nat)
    requires Inv(s) && Enabled(s, step) && r < |s.reqs|
    ensures r < |Apply(s, step).reqs| && ContextInv(Apply(s, step), Apply(s, step).reqs[r])
  {
    RequestStep(s, step, r);
    assert ContextInv(s, s.reqs[r]);
    match EventOf(s, step, r)
    case None => UntouchedContext(s, step, s.reqs[r]);
    case Some(e) =>
      if step.Local? {
        LocalContext(s, r, e);
      } else {
        TouchedContext(s, step, r, e);
      }
  }

  lemma StepKeepsContexts(s: System, step: Step)
    requires Inv(s) && Enabled(s, step)
    ensures ContextsInv(Apply(s, step))
  {
    NewRequest(s, step);
    var s' := Apply(s, step);
    forall r | 0 <= r < |s'.reqs| ensures ContextInv(s', s'.reqs[r]) {
      if r < |s.reqs| { StepKeepsContext(s, step, r); }
    }
  }

  // ---------------------------------------------------------------- queue and cancel lists

  /** Which steps move a request into or out of the queue. */
  lemma InQueueStep(s: System, step: Step, r: nat)
    requires Inv(s) && Enabled(s, step) && r < |s.reqs|
    ensures |s.reqs| <= |Apply(s, step).reqs|
    ensures Apply(s, step).reqs[r].place == R.Pending <==>
      || (step.Enqueue? && step.r == r)
      || (s.reqs[r].place == R.Pending
          && !(step.Discard? && s.reqs[r].client == step.i)
          && !(step.Work? && FrontDue(s) && s.c[0].id == r)
          && !(step.ShutDownNext? && s.c[0].id == r))
  {
    RequestStep(s, step, r);
    var ev := EventOf(s, step, r);
    if ev.Some? { EventPlaces(s.reqs[r], ev.value); }
    if s.c != [] { FrontListed(s); }
  }

  /** The front entry leaves. */
  lemma RemovalKeepsQueue(s: System, step: Step)
    requires Inv(s) && Enabled(s, step) && (step.ShutDownNext? || (step.Work? && FrontDue(s)))
    ensures QueueInv(Apply(s, step))
  {
    var s' := Apply(s, step);
    NewRequest(s, step);
    StepExtends(s, step);
    FrontListed(s);
    TailOf(s.c);
    forall r: nat | r < |s.reqs|
      ensures InQueue()(s'.reqs[r]) <==> InQueue()(s.reqs[r]) && r != s.c[0].id
    {
      InQueueStep(s, step, r);
    }
    ListsRemove(s.c, s'.c, s.reqs, s'.reqs, InQueue(), s.c[0].id);
  }

  lemma EnqueueKeepsQueue(s: System, step: Step)
    requires Inv(s) && Enabled(s, step) && step.Enqueue?
    ensures QueueInv(Apply(s, step))
  {
    var s' := Apply(s, step);
    NewRequest(s, step);
    StepExtends(s, step);
    forall r: nat | r < |s.reqs|
      ensures InQueue()(s'.reqs[r]) <==> InQueue()(s.reqs[r]) || r == step.r
    {
      InQueueStep(s, step, r);
    }
    ListsAdd(s.c, s'.c, s.reqs, s'.reqs, InQueue(), step.r);
  }

  lemma StepKeepsQueue(s: System, step: Step)
    requires Inv(s) && Enabled(s, step)
    ensures QueueInv(Apply(s, step))
  {
    if step.Enqueue? {
      EnqueueKeepsQueue(s, step);
    } else if step.Discard? {
      DiscardKeepsQueue(s, step);
    } else if step.ShutDownNext? || (step.Work? && FrontDue(s)) {
      RemovalKeepsQueue(s, step);
    } else {
      OtherKeepsQueue(s, step);
    }
  }

  lemma OtherKeepsQueue(s: System, step: Step)
    requires Inv(s) && Enabled(s, step) && !step.Enqueue? && !step.Discard? && !step.ShutDownNext?
    requires !(step.Work? && FrontDue(s))
    ensures QueueInv(Apply(s, step))
  {
    var s' := Apply(s, step);
    NewRequest(s, step);
    StepExtends(s, step);
    forall r: nat | r < |s.reqs| ensures InQueue()(s'.reqs[r]) <==> InQueue()(s.reqs[r]) {
      InQueueStep(s, step, r);
    }
    ListsFrame(s.c, s.reqs, s'.reqs, InQueue());
  }

  lemma DiscardKeepsQueue(s: System, step: Step)
    requires Inv(s) && Enabled(s, step) && step.Discard?
    ensures QueueInv(Apply(s, step))
  {
    var s' := Apply(s, step);
    NewRequest(s, step);
    StepExtends(s, step);
    ScrubSplits(s.c, step.i);
    forall r | 0 <= r < |s'.reqs|
      ensures multiset(s'.c)[Entry(s'.reqs, r)] == if InQueue()(s'.reqs[r]) then 1 else 0
    {
      InQueueStep(s, step, r);
      ScrubCounts(s.c, step.i, Entry(s.reqs, r));
    }
    forall p | p in s'.c ensures p.id < |s'.reqs| && p == Entry(s'.reqs, p.id) {
      Listed(s.c, s.reqs, InQueue(), p);
    }
  }

  lemma CollectedStep(s: System, step: Step, r: nat)
    requires Inv(s) && Enabled(s, step) && r < |s.reqs|
    ensures |s.reqs| <= |Apply(s, step).reqs|
    ensures Apply(s, step).reqs[r].place.Collected? <==>
      || (step.Discard? && s.reqs[r].place == R.Pending && s.reqs[r].client == step.i)
      || (s.reqs[r].place.Collected? && !(step.CancelNext? && s.clients[step.i].todo[0].id == r))
    ensures Apply(s, step).reqs[r].client == s.reqs[r].client
  {
    RequestStep(s, step, r);
    var ev := EventOf(s, step, r);
    if ev.Some? {
      EventPlaces(s.reqs[r], ev.value);
      R.EventIsMonotone(s.reqs[r], ev.value);
    }
  }

  lemma DiscardFillsTodo(s: System, i: nat)
    requires Inv(s) && Enabled(s, Discard(i))
    ensures Lists(Take(s.c, i), Apply(s, Discard(i)).reqs, TakenFrom(i))
  {
    var s' := Apply(s, Discard(i));
    NewRequest(s, Discard(i));
    StepExtends(s, Discard(i));
    ScrubSplits(s.c, i);
    forall r | 0 <= r < |s'.reqs|
      ensures multiset(Take(s.c, i))[Entry(s'.reqs, r)] == if TakenFrom(i)(s'.reqs[r]) then 1 else 0
    {
      CollectedStep(s, Discard(i), r);
      ScrubCounts(s.c, i, Entry(s.reqs, r));
      assert Lists(Todo(s, i), s.reqs, TakenFrom(i));
      assert multiset(Todo(s, i))[Entry(s.reqs, r)] == 0;
    }
    forall p | p in Take(s.c, i) ensures p.id < |s'.reqs| && p == Entry(s'.reqs, p.id) {
      Listed(s.c, s.reqs, InQueue(), p);
    }
  }

  lemma CancelShortensTodo(s: System, i: nat)
    requires Inv(s) && Enabled(s, CancelNext(i))
    ensures Lists(s.clients[i].todo[1..], Apply(s, CancelNext(i)).reqs, TakenFrom(i))
  {
    var s' := Apply(s, CancelNext(i));
    NewRequest(s, CancelNext(i));
    StepExtends(s, CancelNext(i));
    forall r: nat | r < |s.reqs| { CollectedStep(s, CancelNext(i), r); }
    NextToCancel(s, i);
    TailOf(s.clients[i].todo);
    assert Lists(Todo(s, i), s.reqs, TakenFrom(i));
    ListsRemove(s.clients[i].todo, s.clients[i].todo[1..], s.reqs, s'.reqs, TakenFrom(i), s.clients[i].todo[0].id);
  }

  lemma OtherTodo(s: System, step: Step, i: nat)
    requires Inv(s) && Enabled(s, step) && i < |s.clients|
    requires !(step.Discard? && step.i == i) && !(step.CancelNext? && step.i == i)
    ensures Lists(Todo(s, i), Apply(s, step).reqs, TakenFrom(i))
  {
    var s' := Apply(s, step);
    NewRequest(s, step);
    StepExtends(s, step);
    if step.CancelNext? { NextToCancel(s, step.i); }
    forall r: nat | r < |s.reqs| ensures TakenFrom(i)(s'.reqs[r]) == TakenFrom(i)(s.reqs[r]) {
      CollectedStep(s, step, r);
    }
    assert Lists(Todo(s, i), s.reqs, TakenFrom(i));
    ListsFrame(Todo(s, i), s.reqs, s'.reqs, TakenFrom(i));
  }

  lemma NewClientLists(s: System, i: nat)
    requires Inv(s) && i == |s.clients|
    ensures Lists([], Apply(s, NewClient).reqs, TakenFrom(i)) && Lists([], Apply(s, NewClient).reqs, InTail(i))
  {
    var s' := Apply(s, NewClient);
    NewRequest(s, NewClient);
    forall r | 0 <= r < |s'.reqs| ensures !TakenFrom(i)(s'.reqs[r]) && !InTail(i)(s'.reqs[r]) {
      CollectedStep(s, NewClient, r);
      assert ContextInv(s, s.reqs[r]);
    }
  }

  /** What a step makes of the cancel list. */
  lemma TodoAfter(s: System, step: Step, i: nat)
    requires Enabled(s, step) && i < |s.clients| <= |Apply(s, step).clients|
    ensures Todo(Apply(s, step), i) ==
      if step == Discard(i) then Take(s.c, i)
      else if step == CancelNext(i) then s.clients[i].todo[1..]
      else Todo(s, i)
  {
  }

  lemma ClientsGrow(s: System, step: Step)
    requires Enabled(s, step)
    ensures |Apply(s, step).clients| == |s.clients| + if step == NewClient then 1 else 0
    ensures step == NewClient ==> Apply(s, step).clients == s.clients + [Live]
  {
  }

  lemma StepKeepsTodoOf(s: System, step: Step, i: nat)
    requires Inv(s) && Enabled(s, step) && i < |Apply(s, step).clients|
    ensures Lists(Todo(Apply(s, step), i), Apply(s, step).reqs, TakenFrom(i))
  {
    ClientsGrow(s, step);
    if i >= |s.clients| {
      NewClientLists(s, i);
    } else {
      TodoAfter(s, step, i);
      if step == Discard(i) {
        DiscardFillsTodo(s, i);
      } else if step == CancelNext(i) {
        CancelShortensTodo(s, i);
      } else {
        OtherTodo(s, step, i);
      }
    }
  }

  lemma StepKeepsTodo(s: System, step: Step)
    requires Inv(s) && Enabled(s, step)
    ensures TodoInv(Apply(s, step))
  {
    var s' := Apply(s, step);
    forall i | 0 <= i < |s'.clients| ensures Lists(Todo(s', i), s'.reqs, TakenFrom(i)) {
      StepKeepsTodoOf(s, step, i);
    }
  }

  // ---------------------------------------------------------------- what erase has yet to destroy

  /** Which events put a request into the tail or take it out. */
  lemma TailEvent(q: R.Invocation, e: R.Event, i: nat)
    requires R.Enabled(q, e)
    ensures InTail(i)(R.Next(q, e)) <==>
      || (e == R.Collect(true) && q.client == i)
      || (InTail(i)(q) && e != R.ListenerDrained)
  {
  }

  lemma TailStep(s: System, step: Step, i: nat, r: nat)
    requires Inv(s) && Enabled(s, step) && r < |s.reqs|
    ensures |s.reqs| <= |Apply(s, step).reqs|
    ensures InTail(i)(Apply(s, step).reqs[r]) <==>
      || (step.Discard? && s.reqs[r].place == R.Pending && s.reqs[r].client == step.i == i
          && Entry(s.reqs, r) in Destroyed(s.c, i))
      || (InTail(i)(s.reqs[r]) && !SweptBy(s, step, r))
  {
    RequestStep(s, step, r);
    var ev := EventOf(s, step, r);
    if ev.Some? {
      TailEvent(s.reqs[r], ev.value, i);
      if ev.value == R.ListenerDrained { DrainedBy(s, step, r); }
    }
  }

  /** A taken request drains by a sweep. */
  lemma DrainedBy(s: System, step: Step, r: nat)
    requires HeldInv(s) && Enabled(s, step) && r < |s.reqs| && EventOf(s, step, r) == Some(R.ListenerDrained)
    ensures step.SweepNext? || s.reqs[r].place.Held?
  {
  }

  /** The step ends the destruction of the handle of request `r` by erase. */
  predicate SweptBy(s: System, step: Step, r: nat)
    requires r < |s.reqs|
  {
    step.SweepNext? && EventOf(s, step, r) == Some(R.ListenerDrained)
  }

  /** Each of the client's pending requests stands in the tail at most once, no other does. */
  lemma TailCounts(s: System, i: nat, r: nat)
    requires QueueInv(s) && r < |s.reqs|
    ensures var p := Entry(s.reqs, r);
      && multiset(Destroyed(s.c, i))[p] <= 1
      && (p in Destroyed(s.c, i) ==> s.reqs[r].place == R.Pending && s.reqs[r].client == i)
  {
    var p := Entry(s.reqs, r);
    ScrubFates(s.c, i);
    ScrubCounts(s.c, i, p);
    assert multiset(Take(s.c, i))[p] == multiset(Overwritten(s.c, i))[p] + multiset(Destroyed(s.c, i))[p];
    assert InQueue()(s.reqs[r]) <==> s.reqs[r].place == R.Pending;
  }

  lemma DiscardFillsLeft(s: System, i: nat)
    requires Inv(s) && Enabled(s, Discard(i))
    ensures Lists(Destroyed(s.c, i), Apply(s, Discard(i)).reqs, InTail(i))
  {
    var s' := Apply(s, Discard(i));
    NewRequest(s, Discard(i));
    StepExtends(s, Discard(i));
    var tail := Destroyed(s.c, i);
    forall r | 0 <= r < |s'.reqs| ensures multiset(tail)[Entry(s'.reqs, r)] == if InTail(i)(s'.reqs[r]) then 1 else 0 {
      TailStep(s, Discard(i), i, r);
      TailCounts(s, i, r);
      assert Lists(Left(s, i), s.reqs, InTail(i));
      assert multiset(Left(s, i))[Entry(s.reqs, r)] == 0;
    }
    forall p | p in tail ensures p.id < |s'.reqs| && p == Entry(s'.reqs, p.id) {
      TakeHas(s.c[|Keep(s.c, i)|..], i, p);
      Listed(s.c, s.reqs, InQueue(), p);
    }
  }

  lemma SweepShortensLeft(s: System, i: nat)
    requires Inv(s) && Enabled(s, SweepNext(i)) && s.reqs[s.clients[i].left[0].id].place != R.Collected(R.Intact)
    ensures Lists(s.clients[i].left[1..], Apply(s, SweepNext(i)).reqs, InTail(i))
  {
    var s' := Apply(s, SweepNext(i));
    NewRequest(s, SweepNext(i));
    StepExtends(s, SweepNext(i));
    forall r: nat | r < |s.reqs| { TailStep(s, SweepNext(i), i, r); }
    NextToSweep(s, i);
    TailOf(s.clients[i].left);
    ListsRemove(Left(s, i), s.clients[i].left[1..], s.reqs, s'.reqs, InTail(i), s.clients[i].left[0].id);
  }

  lemma OtherLeft(s: System, step: Step, i: nat)
    requires Inv(s) && Enabled(s, step) && i < |s.clients| && step != Discard(i)
    requires forall r: nat | r < |s.reqs| && InTail(i)(s.reqs[r]) :: !SweptBy(s, step, r)
    ensures Lists(Left(s, i), Apply(s, step).reqs, InTail(i))
  {
    var s' := Apply(s, step);
    NewRequest(s, step);
    StepExtends(s, step);
    forall r: nat | r < |s.reqs| ensures InTail(i)(s'.reqs[r]) == InTail(i)(s.reqs[r]) {
      TailStep(s, step, i, r);
    }
    ListsFrame(Left(s, i), s.reqs, s'.reqs, InTail(i));
  }

  /** What a step makes of the tail. */
  lemma LeftAfter(s: System, step: Step, i: nat)
    requires Enabled(s, step) && i < |s.clients| <= |Apply(s, step).clients|
    ensures Left(Apply(s, step), i) ==
      if step == Discard(i) then Destroyed(s.c, i)
      else if step == SweepNext(i) && s.reqs[s.clients[i].left[0].id].place != R.Collected(R.Intact)
      then s.clients[i].left[1..]
      else Left(s, i)
  {
  }

  /** Another client's sweep, and a sweep that only lets go, end no destruction for this one. */
  lemma NotSwept(s: System, step: Step, i: nat, r: nat)
    requires Inv(s) && Enabled(s, step) && i < |s.clients| && r < |s.reqs| && InTail(i)(s.reqs[r])
    requires step == SweepNext(i) ==> s.reqs[s.clients[i].left[0].id].place == R.Collected(R.Intact)
    ensures !SweptBy(s, step, r)
  {
    if step.SweepNext? { NextToSweep(s, step.i); }
  }

  lemma StepKeepsLeftOf(s: System, step: Step, i: nat)
    requires Inv(s) && Enabled(s, step) && i < |Apply(s, step).clients|
    ensures Lists(Left(Apply(s, step), i), Apply(s, step).reqs, InTail(i))
  {
    ClientsGrow(s, step);
    if i >= |s.clients| {
      NewClientLists(s, i);
    } else {
      LeftAfter(s, step, i);
      if step == Discard(i) {
        DiscardFillsLeft(s, i);
      } else if step == SweepNext(i) && s.reqs[s.clients[i].left[0].id].place != R.Collected(R.Intact) {
        SweepShortensLeft(s, i);
      } else {
        forall r: nat | r < |s.reqs| && InTail(i)(s.reqs[r]) ensures !SweptBy(s, step, r) {
          NotSwept(s, step, i, r);
        }
        OtherLeft(s, step, i);
      }
    }
  }

  lemma StepKeepsLeft(s: System, step: Step)
    requires Inv(s) && Enabled(s, step)
    ensures LeftInv(Apply(s, step))
  {
    var s' := Apply(s, step);
    forall i | 0 <= i < |s'.clients| ensures Lists(Left(s', i), s'.reqs, InTail(i)) {
      StepKeepsLeftOf(s, step, i);
    }
  }

  lemma StepKeepsMutex(s: System, step: Step)
    requires MutexInv(s) && Enabled(s, step)
    ensures MutexInv(Apply(s, step))
  {
  }

  // ---------------------------------------------------------------- worker and wake-ups

  lemma HandlingStep(s: System, step: Step, r: nat)
    requires HeldInv(s) && Enabled(s, step) && r < |s.reqs|
    ensures Apply(s, step).worker == Handling(r) <==>
      || (step.Work? && FrontDue(s) && s.c[0].id == r)
      || (s.worker == Handling(r) && !(step.Work? && EventOf(s, step, r) == Some(R.Expire)))
  {
  }

  lemma HeldStep(s: System, step: Step, r: nat)
    requires Inv(s) && Enabled(s, step) && r < |s.reqs|
    ensures r < |Apply(s, step).reqs|
    ensures Apply(s, step).reqs[r].place.Held? <==> Apply(s, step).worker == Handling(r)
  {
    RequestStep(s, step, r);
    HandlingStep(s, step, r);
    var ev := EventOf(s, step, r);
    if ev.Some? { EventPlaces(s.reqs[r], ev.value); }
  }

  lemma StepKeepsHeld(s: System, step: Step)
    requires Inv(s) && Enabled(s, step)
    ensures HeldInv(Apply(s, step))
  {
    var s' := Apply(s, step);
    NewRequest(s, step);
    forall r | 0 <= r < |s'.reqs| ensures s'.reqs[r].place.Held? <==> s'.worker == Handling(r) {
      if r < |s.reqs| { HeldStep(s, step, r); }
    }
    if s'.worker.Handling? { HandledExists(s, step); }
  }

  lemma HandledExists(s: System, step: Step)
    requires QueueInv(s) && HeldInv(s) && Enabled(s, step) && Apply(s, step).worker.Handling?
    ensures Apply(s, step).worker.r < |Apply(s, step).reqs|
  {
    NewRequest(s, step);
    if s.c != [] { FrontListed(s); }
  }

  lemma StepKeepsWorker(s: System, step: Step)
    requires WorkerInv(s) && Enabled(s, step)
    ensures WorkerInv(Apply(s, step))
  {
  }

  lemma WorkKeepsWake(s: System, step: Step)
    requires WorkerInv(s) && WakeInv(s) && Enabled(s, step) && step.Work?
    ensures WakeInv(Apply(s, step))
  {
    assert Apply(s, step).worker == WorkerNext(s);
  }

  lemma StepKeepsWake(s: System, step: Step)
    requires WorkerInv(s) && WakeInv(s) && Enabled(s, step)
    ensures WakeInv(Apply(s, step))
  {
    if step.Work? { WorkKeepsWake(s, step); }
  }

  lemma StepKeepsInv(s: System, step: Step)
    requires Inv(s) && Enabled(s, step)
    ensures Inv(Apply(s, step))
  {
    StepKeepsRequests(s, step);
    StepKeepsContexts(s, step);
    StepKeepsQueue(s, step);
    StepKeepsTodo(s, step);
    StepKeepsLeft(s, step);
    StepKeepsMutex(s, step);
    StepKeepsHeld(s, step);
    StepKeepsWorker(s, step);
    StepKeepsWake(s, step);
  }

  lemma {:induction false} RunKeepsInv(steps: seq<Step>, t: seq<System>, k: nat)
    requires IsRun(steps, t) && k < |t|
    ensures Inv(t[k])
    decreases k
  {
    if k > 0 {
      assert Goes(steps, t, k - 1);
      RunKeepsInv(steps, t, k - 1);
      StepKeepsInv(t[k - 1], steps[k - 1]);
    }
  }
}
