/**
Where a scrub does not meet its condition the worker can oversleep: a run in which
discarding one client puts a later deadline in front of an earlier one.
*/
module RpcOversleep {
  import opened Datamodel
  import opened PendingQueue
  import opened RpcRuntime
  import opened RpcRuns
  import R = RpcRequest

  lemma ThreeClients() returns (s: System)
    ensures Reachable(s) && s == Initial.(clients := [Live, Live, Live])
  {
    InitialIsReachable();
    s := AddClient(Initial);
    s := AddClient(s);
    s := AddClient(s);
    assert s.clients == [Live, Live, Live];
  }

  const First := Pending(0, 1, 0)
  const Late := Pending(1, 5, 1)
  const Early := Pending(2, 2, 2)

  lemma TwoRequests(u: UUID) returns (s: System)
    ensures Reachable(s)
    ensures s == Initial.(clients := [Live, Live, Live], c := [First, Late],
                          reqs := [Waiting(0, 1, u), Waiting(1, 5, u)])
  {
    s := ThreeClients();
    assert [] + [First] == [First] && [First] + [Late] == [First, Late];
    s := Submit(s, 0, 1, u, [First]);
    assert s.reqs == [Waiting(0, 1, u)];
    s := Submit(s, 1, 5, u, [First, Late]);
    assert s.reqs == [Waiting(0, 1, u), Waiting(1, 5, u)];
  }

  lemma ThreeRequests(u: UUID) returns (s: System)
    ensures Reachable(s)
    ensures s == Initial.(clients := [Live, Live, Live], c := [First, Late, Early],
                          reqs := [Waiting(0, 1, u), Waiting(1, 5, u), Waiting(2, 2, u)])
  {
    s := TwoRequests(u);
    assert [First, Late] + [Early] == [First, Late, Early];
    s := Submit(s, 2, 2, u, [First, Late, Early]);
    assert s.reqs == [Waiting(0, 1, u), Waiting(1, 5, u), Waiting(2, 2, u)];
  }

  lemma KeepLateEarly()
    ensures Keep([First, Late, Early], 0) == [Late, Early]
  {
    assert [First, Late, Early][..2] == [First, Late] && [First, Late][..1] == [First] && [First][..0] == [];
    assert Keep([], 0) == [] && Keep([First], 0) == [] && Keep([First, Late], 0) == [Late];
  }

  lemma NothingDestroyed()
    ensures Destroyed([First, Late, Early], 0) == []
  {
    KeepLateEarly();
    assert [First, Late, Early][2..] == [Early] && [Early][..0] == [];
    assert Take([], 0) == [];
  }

  /** The discarded request's listener handle is overwritten, so the scrub has nothing to wait for. */
  lemma AfterDiscard(u: UUID) returns (s: System)
    ensures Reachable(s) && s.c == [Late, Early] && s.worker == Top && s.clock == 0 && !s.stop && s.mutex == None
    ensures |s.reqs| == 3 && s.reqs[2] == Waiting(2, 2, u)
  {
    var s0 := ThreeRequests(u);
    KeepLateEarly();
    NothingDestroyed();
    assert s0.reqs[0].place == R.Pending && s0.reqs[1].place == R.Pending && s0.reqs[2].place == R.Pending;
    var s1 := Extend(s0, Discard(0));
    assert s1.reqs == Requests(s0, Discard(0));
    UnmovedRequests(s1, Unlock(0));
    s := Extend(s1, Unlock(0));
  }

  /** The worker sleeps until 5 while a pending request is due at 2. */
  lemma WorkerCanOversleep(u: UUID) returns (s: System)
    ensures Reachable(s) && !s.stop && s.mutex == None && s.worker == Timed(5)
    ensures |s.reqs| == 3 && s.reqs[2].place == R.Pending && s.reqs[2].deadline == 2
  {
    s := AfterDiscard(u);
    s := WorkOnly(s);
    assert s.worker == Clocked(0) && !FrontDue(s);
    s := WorkOnly(s);
    s := WorkOnly(s);
  }
}
