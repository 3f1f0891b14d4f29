/** Building runs of the RPC runtime step by step, for the results that need one. */
module RpcRuns {
  import opened Datamodel
  import opened PendingQueue
  import opened RpcRuntime
  import opened RpcRuntimeProofs
  import R = RpcRequest

  ghost predicate Reachable(s: System) {
    exists steps, t :: IsRun(steps, t) && t[|t| - 1] == s
  }

  lemma Extend(s: System, step: Step) returns (s': System)
    requires Reachable(s) && Enabled(s, step)
    ensures s' == Apply(s, step) && Reachable(s')
  {
    var steps, t :| IsRun(steps, t) && t[|t| - 1] == s;
    s' := Apply(s, step);
    var steps', t' := steps + [step], t + [s'];
    forall k: nat | k < |steps'| ensures Goes(steps', t', k) {
      if k < |steps| { assert Goes(steps, t, k); }
    }
    assert IsRun(steps', t') && t'[|t'| - 1] == s';
  }

  lemma RequestsMoved(s: System, step: Step, r: nat, e: R.Event)
    requires !step.Invoke? && r < |s.reqs| && R.Enabled(s.reqs[r], e)
    requires forall q | 0 <= q < |s.reqs| :: EventOf(s, step, q) == if q == r then Some(e) else None
    ensures Requests(s, step) == s.reqs[r := R.Next(s.reqs[r], e)]
  {
    forall q | 0 <= q < |s.reqs|
      ensures After(s.reqs[q], EventOf(s, step, q)) == s.reqs[r := R.Next(s.reqs[r], e)][q]
    {
      assert EventOf(s, step, q) == if q == r then Some(e) else None;
    }
  }

  /** Steps that move request `r` by `e`, or no request at all. */
  lemma MovedRequests(s: System, step: Step, r: nat, e: R.Event)
    requires Enabled(s, step) && !step.Invoke? && r < |s.reqs| && R.Enabled(s.reqs[r], e)
    requires forall q | 0 <= q < |s.reqs| :: EventOf(s, step, q) == if q == r then Some(e) else None
    ensures Apply(s, step).reqs == s.reqs[r := R.Next(s.reqs[r], e)]
  {
    NewRequest(s, step);
    RequestsMoved(s, step, r, e);
  }

  lemma UnmovedRequests(s: System, step: Step)
    requires Enabled(s, step)
    requires forall q | 0 <= q < |s.reqs| :: EventOf(s, step, q) == None
    ensures Apply(s, step).reqs ==
      s.reqs + if step.Invoke? then [R.New(step.client, s.clock + step.ttl, step.reqid)] else []
  {
    assert Apply(s, step).reqs == Requests(s, step);
  }

  /** Something that concerns request `r` alone. */
  lemma Move(s: System, r: nat, e: R.Event) returns (s': System)
    requires Reachable(s) && r < |s.reqs| && IsLocal(e) && R.Enabled(s.reqs[r], e)
    ensures Reachable(s') && s' == s.(reqs := s.reqs[r := R.Next(s.reqs[r], e)])
  {
    MovedRequests(s, Local(r, e), r, e);
    s' := Extend(s, Local(r, e));
  }

  /** The worker's step when it moves no request. */
  lemma WorkOnly(s: System) returns (s': System)
    requires Reachable(s) && Enabled(s, Work(s.c)) && !FrontDue(s) && !s.worker.Handling?
    ensures Reachable(s') && s' == s.(worker := WorkerNext(s))
  {
    UnmovedRequests(s, Work(s.c));
    s' := Extend(s, Work(s.c));
  }

  /** The worker's step on the request in its hands. */
  lemma Handle(s: System, r: nat, e: R.Event) returns (s': System)
    requires Reachable(s) && r < |s.reqs| && s.worker == Handling(r) && s.reqs[r].place.Held?
    requires EventOf(s, Work(s.c), r) == Some(e) && Enabled(s, Work(s.c)) && R.Enabled(s.reqs[r], e)
    ensures Reachable(s') && s' == s.(reqs := s.reqs[r := R.Next(s.reqs[r], e)], worker := WorkerNext(s))
  {
    MovedRequests(s, Work(s.c), r, e);
    s' := Extend(s, Work(s.c));
  }

  /** A new client. */
  lemma AddClient(s: System) returns (s': System)
    requires Reachable(s)
    ensures Reachable(s') && s' == s.(clients := s.clients + [Live])
  {
    UnmovedRequests(s, NewClient);
    s' := Extend(s, NewClient);
  }

  lemma InitialIsReachable()
    ensures Reachable(Initial)
  {
    assert IsRun([], [Initial]);
    assert [Initial][|[Initial]| - 1] == Initial;
  }

  /** A request as it stands in the queue, nothing received yet. */
  function Waiting(i: nat, deadline: int, reqid: UUID): R.Invocation {
    R.New(i, deadline, reqid).(place := R.Pending, listening := true)
  }

  /** invokeMethod registers its listener. */
  lemma Register(s: System, i: nat, ttl: nat, reqid: UUID) returns (s': System)
    requires Reachable(s) && i < |s.clients| && s.clients[i] == Live && ttl > 0
    ensures Reachable(s')
    ensures s' == s.(reqs := s.reqs + [R.New(i, s.clock + ttl, reqid).(place := R.Registered, listening := true)])
  {
    var r := |s.reqs|;
    UnmovedRequests(s, Invoke(i, ttl, reqid));
    var s1 := Extend(s, Invoke(i, ttl, reqid));
    var s2 := Move(s1, r, R.Establish);
    s' := Move(s2, r, R.RegisterWorks);
  }

  /** invokeMethod up to its return, with a transport that answers OK. */
  lemma Submit(s: System, i: nat, ttl: nat, reqid: UUID, c': seq<Pending>) returns (s': System)
    requires Reachable(s) && i < |s.clients| && s.clients[i] == Live && ttl > 0
    requires s.shutdown == Alive && s.worker == Top && s.mutex == None
    requires Pushed(s.c, Pending(|s.reqs|, s.clock + ttl, i), c')
    ensures Reachable(s') && s' == s.(reqs := s.reqs + [Waiting(i, s.clock + ttl, reqid)], c := c')
  {
    var r := |s.reqs|;
    var s2 := Register(s, i, ttl, reqid);
    var s3 := Move(s2, r, R.SendWorks);
    MovedRequests(s3, Enqueue(r, c'), r, R.Enqueued);
    s' := Extend(s3, Enqueue(r, c'));
  }
}
