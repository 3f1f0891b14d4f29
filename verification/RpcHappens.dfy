/** Runs that end in each of the outcomes, with the callback run once. */
module RpcHappens {
  import opened Datamodel
  import opened PendingQueue
  import opened RpcRuntime
  import opened RpcRuns
  import R = RpcRequest

  const Only := Pending(0, 1, 0)

  /** One client with one request in the queue. */
  lemma OneRequest(u: UUID) returns (s: System)
    ensures Reachable(s)
    ensures s == Initial.(clients := [Live], c := [Only], reqs := [Waiting(0, 1, u)])
  {
    InitialIsReachable();
    s := AddClient(Initial);
    assert s.clients == [Live];
    assert [] + [Only] == [Only];
    s := Submit(s, 0, 1, u, [Only]);
    assert s.reqs == [Waiting(0, 1, u)];
  }

  /** A response arrives. */
  lemma AnswerHappens(m: UMessage) returns (s: System)
    requires CommStatusOf(m) == UCODE_OK
    ensures Reachable(s) && |s.reqs| == 1 && s.reqs[0].once == Some(R.Answer(m)) && s.reqs[0].runs == 1
  {
    s := OneRequest(ReqidOf(m));
    s := Move(s, 0, R.BodyBegins(m));
    s := Move(s, 0, R.BodyActs(0));
  }

  lemma PopOnly(u: UUID) returns (s: System)
    ensures Reachable(s) && s.worker == Handling(0) && s.c == []
    ensures s.reqs == [Waiting(0, 1, u).(place := R.Held(R.Intact))]
  {
    s := OneRequest(u);
    UnmovedRequests(s, Tick(1));
    s := Extend(s, Tick(1));
    s := WorkOnly(s);
    assert s.worker == Clocked(1) && FrontDue(s) && Popped([Only], []);
    MovedRequests(s, Work([]), 0, R.Hold);
    s := Extend(s, Work([]));
  }

  /** Nothing arrives, and the worker expires the request. */
  lemma DeadlineHappens(u: UUID) returns (s: System)
    ensures Reachable(s) && |s.reqs| == 1 && s.reqs[0].once == Some(R.DeadlineExceeded) && s.reqs[0].runs == 1
  {
    s := PopOnly(u);
    s := Handle(s, 0, R.DropListener);
    assert s.reqs[0].place == R.Held(R.Severed(false));
    s := Handle(s, 0, R.ListenerDrained);
    s := Handle(s, 0, R.Expire);
  }

  lemma OnlyIsDestroyed()
    ensures Keep([Only], 0) == [] && Take([Only], 0) == [Only] && Destroyed([Only], 0) == [Only]
  {
    assert [Only][..0] == [] && Keep([], 0) == [] && Take([], 0) == [] && [Only][0..] == [Only];
  }

  lemma DiscardOnly(u: UUID) returns (s: System)
    ensures Reachable(s) && s.clients == [Scrubbing([Only], [Only])] && s.mutex == Some(0)
    ensures s.reqs == [Waiting(0, 1, u).(place := R.Collected(R.Intact))]
  {
    s := OneRequest(u);
    OnlyIsDestroyed();
    MovedRequests(s, Discard(0), 0, R.Collect(true));
    s := Extend(s, Discard(0));
  }

  lemma LetOnlyGo(u: UUID) returns (s: System)
    ensures Reachable(s) && s.clients == [Scrubbing([Only], [Only])] && s.mutex == Some(0)
    ensures s.reqs == [Waiting(0, 1, u).(place := R.Collected(R.Severed(false)), listening := false)]
  {
    s := DiscardOnly(u);
    MovedRequests(s, SweepNext(0), 0, R.DropListener);
    s := Extend(s, SweepNext(0));
  }

  lemma SweepOnly(u: UUID) returns (s: System)
    ensures Reachable(s) && s.clients == [Scrubbing([Only], [])] && s.mutex == Some(0)
    ensures s.reqs == [Waiting(0, 1, u).(place := R.Collected(R.Drained), listening := false)]
  {
    s := LetOnlyGo(u);
    MovedRequests(s, SweepNext(0), 0, R.ListenerDrained);
    s := Extend(s, SweepNext(0));
  }

  /** The client is discarded. */
  lemma CancelHappens(u: UUID) returns (s: System)
    ensures Reachable(s) && s.clients == [Gone] && s.mutex == None
    ensures |s.reqs| == 1 && s.reqs[0].once == Some(R.Cancelled) && s.reqs[0].runs == 1
  {
    s := SweepOnly(u);
    UnmovedRequests(s, Unlock(0));
    s := Extend(s, Unlock(0));
    MovedRequests(s, CancelNext(0), 0, R.Cancel);
    s := Extend(s, CancelNext(0));
    UnmovedRequests(s, DiscardDone(0));
    s := Extend(s, DiscardDone(0));
  }

  lemma Joins(u: UUID) returns (s: System)
    ensures Reachable(s) && s.shutdown == Joined && s.c == [Only] && s.reqs == [Waiting(0, 1, u)]
  {
    s := OneRequest(u);
    UnmovedRequests(s, SetStop);
    s := Extend(s, SetStop);
    UnmovedRequests(s, NotifyStop);
    s := Extend(s, NotifyStop);
    s := WorkOnly(s);
    UnmovedRequests(s, Join);
    s := Extend(s, Join);
  }

  /** The worker shuts down first. */
  lemma InternalHappens(u: UUID) returns (s: System)
    ensures Reachable(s) && s.c == [] && |s.reqs| == 1 && s.reqs[0].once == Some(R.Internal) && s.reqs[0].runs == 1
  {
    s := Joins(u);
    MovedRequests(s, ShutDownNext, 0, R.ShutDown);
    s := Extend(s, ShutDownNext);
  }

  /** The transport refuses to send. */
  lemma FailureHappens(u: UUID, code: int) returns (s: System)
    ensures Reachable(s) && |s.reqs| == 1 && s.reqs[0].place == R.Failed
    ensures s.reqs[0].once == Some(R.TransportFailure(code)) && s.reqs[0].runs == 1
  {
    InitialIsReachable();
    s := AddClient(Initial);
    s := Register(s, 0, 1, u);
    s := Move(s, 0, R.SendFails(code));
    s := Move(s, 0, R.CloseListener);
    s := Move(s, 0, R.CloseDone);
  }
}
