/**
How expiry comes to a halt.  sever() notifies without its mutex, so a wake-up can be missed;
a worker, or a scrub that holds pending_mtx_, then hangs with no wrapper running at all.
*/
module RpcHangs {
  import opened Datamodel
  import opened PendingQueue
  import opened RpcRuntime
  import opened RpcRuntimeProofs
  import opened RpcRuns
  import opened RpcProgress
  import R = RpcRequest

  // ---------------------------------------------------------------- a hang lasts

  predicate Missed(s: System, r: nat) {
    r < |s.reqs| && R.StageOf(s.reqs[r].place) == Some(R.Missed)
  }

  /** The scrub that holds the mutex is at the handle of request `r`. */
  predicate ScrubAt(s: System, r: nat) {
    s.mutex.Some? && Sweeps(s, s.mutex.value) && s.clients[s.mutex.value].left[0].id == r
  }

  /** The worker, or a scrub with the mutex, waits for a wake-up it has missed. */
  predicate Hung(s: System, r: nat) {
    Missed(s, r) && (s.worker == Handling(r) || ScrubAt(s, r))
  }

  lemma MissedEvent(q: R.Invocation, e: R.Event)
    requires R.RequestInv(q) && R.Enabled(q, e) && R.StageOf(q.place) == Some(R.Missed) && e != R.WakeUp
    ensures R.Next(q, e).place == q.place
  {
  }

  lemma MissedStep(s: System, step: Step, r: nat)
    requires Inv(s) && Missed(s, r) && Enabled(s, step) && step != Local(r, R.WakeUp)
    ensures r < |Apply(s, step).reqs| && Apply(s, step).reqs[r].place == s.reqs[r].place
  {
    RequestStep(s, step, r);
    assert R.RequestInv(s.reqs[r]);
    var ev := EventOf(s, step, r);
    if ev.Some? { MissedEvent(s.reqs[r], ev.value); }
  }

  lemma ScrubbingStays(s: System, step: Step, r: nat)
    requires MutexInv(s) && Missed(s, r) && ScrubAt(s, r) && Enabled(s, step)
    ensures var i := s.mutex.value;
      Apply(s, step).mutex == s.mutex && i < |Apply(s, step).clients| && Apply(s, step).clients[i] == s.clients[i]
  {
  }

  lemma ScrubStays(s: System, step: Step, r: nat)
    requires Inv(s) && Missed(s, r) && ScrubAt(s, r) && Enabled(s, step) && step != Local(r, R.WakeUp)
    ensures ScrubAt(Apply(s, step), r)
  {
    MissedStep(s, step, r);
    ScrubbingStays(s, step, r);
  }

  lemma HungStep(s: System, step: Step, r: nat)
    requires Inv(s) && Hung(s, r) && Enabled(s, step) && step != Local(r, R.WakeUp)
    ensures Hung(Apply(s, step), r)
  {
    MissedStep(s, step, r);
    StepKeepsInv(s, step);
    if ScrubAt(s, r) { ScrubStays(s, step, r); }
  }

  /** Only a spurious wake-up of that very wait ends a hang. */
  lemma {:induction false} HangLasts(steps: seq<Step>, t: seq<System>, j: nat, k: nat, r: nat)
    requires IsRun(steps, t) && j <= k < |t| && Hung(t[j], r)
    requires forall m | j <= m < k :: steps[m] != Local(r, R.WakeUp)
    ensures Hung(t[k], r)
    decreases k
  {
    if j < k {
      HangLasts(steps, t, j, k - 1, r);
      assert Goes(steps, t, k - 1);
      assert steps[k - 1] != Local(r, R.WakeUp);
      RunKeepsInv(steps, t, k - 1);
      HungStep(t[k - 1], steps[k - 1], r);
    }
  }

  /** A hung worker expires nothing; a hung scrub lets nobody enqueue, discard, pop, fall asleep or
      be told to stop. */
  lemma HangBlocks(s: System, r: nat, step: Step)
    requires Inv(s) && Hung(s, r)
    ensures s.worker == Handling(r) && IsWorkerStep(step) ==> !Enabled(s, step)
    ensures ScrubAt(s, r) && (TakesMutexNow(s, step) || step.SweepNext? || step.Unlock?) ==> !Enabled(s, step)
  {
  }

  /** The step takes pending_mtx_. */
  predicate TakesMutexNow(s: System, step: Step) {
    || step.Enqueue? || step.Discard? || step.Timeout? || step.NotifyStop?
    || (step.Work? && TakesMutex(s.worker))
  }

  // ---------------------------------------------------------------- a hang happens

  lemma TwoClients() returns (s: System)
    ensures Reachable(s) && s == Initial.(clients := [Live, Live])
  {
    InitialIsReachable();
    s := AddClient(Initial);
    s := AddClient(s);
    assert s.clients == [Live, Live];
  }

  /** A request of each client, due at `d0` and `d1`. */
  lemma TwoRequests(u: UUID, d0: nat, d1: nat, c: seq<Pending>) returns (s: System)
    requires d0 > 0 && d1 > 0 && Pushed([Pending(0, d0, 0)], Pending(1, d1, 1), c)
    ensures Reachable(s)
    ensures s == Initial.(clients := [Live, Live], c := c, reqs := [Waiting(0, d0, u), Waiting(1, d1, u)])
  {
    s := TwoClients();
    assert [] + [Pending(0, d0, 0)] == [Pending(0, d0, 0)];
    s := Submit(s, 0, d0, u, [Pending(0, d0, 0)]);
    assert s.reqs == [Waiting(0, d0, u)];
    s := Submit(s, 1, d1, u, c);
    assert s.reqs == [Waiting(0, d0, u), Waiting(1, d1, u)];
  }

  /** Time passes and the worker reads the clock. */
  lemma ReadClock(s: System, dt: nat) returns (s': System)
    requires Reachable(s) && s.worker == Top && !s.stop
    ensures Reachable(s') && s' == s.(clock := s.clock + dt, worker := Clocked(s.clock + dt))
  {
    UnmovedRequests(s, Tick(dt));
    var s1 := Extend(s, Tick(dt));
    s' := WorkOnly(s1);
  }

  /** The one wrapper execution of request `r` acts and ends, and its notify is missed. */
  lemma EndAndMiss(s: System, r: nat) returns (s': System)
    requires Reachable(s) && r < |s.reqs| && |s.reqs[r].bodies| == 1 && s.reqs[r].bodies[0].phase == R.Begun
    requires R.StageOf(s.reqs[r].place) == Some(R.Severed(true))
    ensures Reachable(s') && |s'.reqs| == |s.reqs| && s' == s.(reqs := s'.reqs)
    ensures forall q | 0 <= q < |s.reqs| && q != r :: s'.reqs[q] == s.reqs[q]
    ensures R.StageOf(s'.reqs[r].place) == Some(R.Missed) && R.Quiet(s'.reqs[r])
    ensures s'.reqs[r].place == R.AtStage(s.reqs[r].place, R.Missed) && s'.reqs[r].client == s.reqs[r].client
  {
    s' := Move(s, r, R.BodyActs(0));
    s' := Move(s', r, R.BodyEnds(0));
    s' := Move(s', r, R.Miss);
  }

  ghost predicate AllQuiet(s: System) {
    forall q | 0 <= q < |s.reqs| :: R.Quiet(s.reqs[q])
  }

  lemma ReachableInv(s: System)
    requires Reachable(s)
    ensures Inv(s)
  {
    var steps, t :| IsRun(steps, t) && t[|t| - 1] == s;
    RunKeepsInv(steps, t, |t| - 1);
  }

  const Sooner := Pending(0, 1, 0)
  const Later := Pending(1, 2, 1)

  /** The worker has popped request 0, and lets go of its listener while a wrapper runs. */
  lemma SeverWhileRunning(u: UUID, m: UMessage) returns (s: System)
    ensures Reachable(s) && s.worker == Handling(0) && s.clock == 2 && !s.stop && s.mutex == None
    ensures |s.reqs| == 2 && s.reqs[1] == Waiting(1, 2, u)
    ensures s.reqs[0] == Waiting(0, 1, u).(place := R.Held(R.Severed(true)), listening := false,
                                           bodies := [R.Body(m, R.Begun)])
  {
    s := PopWhileRunning(u, m);
    var held := s.reqs[0];
    assert !R.Quiet(held) by { assert held.bodies[0].phase == R.Begun; }
    MovedRequests(s, Work(s.c), 0, R.DropListener);
    s := Extend(s, Work(s.c));
  }

  /** Both requests are queued and due, and the worker has read the clock. */
  lemma BothDue(u: UUID) returns (s: System)
    ensures Reachable(s) && s.worker == Clocked(2) && s.clock == 2 && !s.stop && s.mutex == None
    ensures s.c == [Sooner, Later] && s.reqs == [Waiting(0, 1, u), Waiting(1, 2, u)]
  {
    assert [Sooner] + [Later] == [Sooner, Later];
    s := TwoRequests(u, 1, 2, [Sooner, Later]);
    s := ReadClock(s, 2);
  }

  lemma PopFirst(u: UUID) returns (s: System)
    ensures Reachable(s) && s.worker == Handling(0) && s.clock == 2 && !s.stop && s.mutex == None
    ensures s.reqs == [Waiting(0, 1, u).(place := R.Held(R.Intact)), Waiting(1, 2, u)]
  {
    s := BothDue(u);
    assert [Sooner, Later] == [Sooner] + [Later];
    assert Popped(s.c, [Later]) && FrontDue(s);
    MovedRequests(s, Work([Later]), 0, R.Hold);
    s := Extend(s, Work([Later]));
  }

  lemma PopWhileRunning(u: UUID, m: UMessage) returns (s: System)
    ensures Reachable(s) && s.worker == Handling(0) && s.clock == 2 && !s.stop && s.mutex == None
    ensures |s.reqs| == 2 && s.reqs[1] == Waiting(1, 2, u)
    ensures s.reqs[0] == Waiting(0, 1, u).(place := R.Held(R.Intact), bodies := [R.Body(m, R.Begun)])
  {
    s := PopFirst(u);
    s := Move(s, 0, R.BodyBegins(m));
  }

  /** The worker hangs in the sever() of request 0, whose wrapper has long returned, while
      request 1 is due. */
  lemma WorkerCanHang(u: UUID, m: UMessage) returns (s: System)
    ensures Reachable(s) && !s.stop && Hung(s, 0) && s.worker == Handling(0) && s.mutex == None && AllQuiet(s)
    ensures |s.reqs| == 2 && s.reqs[1].place == R.Pending && s.reqs[1].deadline <= s.clock
    ensures !WorkerMoves(s)
  {
    s := SeverWhileRunning(u, m);
    s := EndAndMiss(s, 0);
    ReachableInv(s);
    forall step | IsWorkerStep(step) ensures !Enabled(s, step) {
      HangBlocks(s, 0, step);
    }
  }

  const Own := Pending(0, 2, 0)
  const Other := Pending(1, 1, 1)

  lemma OwnIsDestroyed()
    ensures Keep([Other, Own], 0) == [Other] && Take([Other, Own], 0) == [Own] && Destroyed([Other, Own], 0) == [Own]
  {
    assert [Other, Own][..1] == [Other] && [Other][..0] == [] && [Other, Own][1..] == [Own] && [Own][..0] == [];
    assert Keep([], 0) == [] && Take([], 0) == [];
    assert Keep([Other], 0) == [Other] && Take([Other], 0) == [];
  }

  lemma RunFirst(u: UUID, m: UMessage) returns (s: System)
    ensures Reachable(s) && s.worker == Top && s.clock == 0 && !s.stop && s.mutex == None && s.shutdown == Alive
    ensures s.clients == [Live, Live] && s.c == [Other, Own]
    ensures s.reqs == [Waiting(0, 2, u).(bodies := [R.Body(m, R.Begun)]), Waiting(1, 1, u)]
  {
    assert [Other, Own] == [Other] + [Own];
    s := TwoRequests(u, 2, 1, [Other, Own]);
    s := Move(s, 0, R.BodyBegins(m));
    assert s.reqs[0].bodies == [R.Body(m, R.Begun)];
  }

  /** A wrapper of request 0 runs when its client is discarded. */
  lemma DiscardWhileRunning(u: UUID, m: UMessage) returns (s: System)
    ensures Reachable(s) && s.worker == Top && s.clock == 0 && !s.stop && s.mutex == Some(0)
    ensures s.clients == [Scrubbing([Own], [Own]), Live]
    ensures |s.reqs| == 2 && s.reqs[1] == Waiting(1, 1, u)
    ensures s.reqs[0] == Waiting(0, 2, u).(place := R.Collected(R.Intact), bodies := [R.Body(m, R.Begun)])
  {
    s := RunFirst(u, m);
    OwnIsDestroyed();
    MovedRequests(s, Discard(0), 0, R.Collect(true));
    s := Extend(s, Discard(0));
    assert s.clients == [Scrubbing([Own], [Own]), Live];
  }

  lemma ScrubWhileRunning(u: UUID, m: UMessage) returns (s: System)
    ensures Reachable(s) && s.worker == Top && s.clock == 0 && !s.stop && s.mutex == Some(0)
    ensures s.clients == [Scrubbing([Own], [Own]), Live]
    ensures |s.reqs| == 2 && s.reqs[1] == Waiting(1, 1, u)
    ensures s.reqs[0] == Waiting(0, 2, u).(place := R.Collected(R.Severed(true)), listening := false,
                                           bodies := [R.Body(m, R.Begun)])
  {
    s := DiscardWhileRunning(u, m);
    assert !R.Quiet(s.reqs[0]) by { assert s.reqs[0].bodies[0].phase == R.Begun; }
    MovedRequests(s, SweepNext(0), 0, R.DropListener);
    s := Extend(s, SweepNext(0));
  }

  /** A scrub hangs in the sever() of a listener whose wrapper has long returned, holding the
      mutex, while a request of another client is due. */
  lemma ScrubCanHang(u: UUID, m: UMessage) returns (s: System)
    ensures Reachable(s) && !s.stop && Hung(s, 0) && ScrubAt(s, 0) && AllQuiet(s)
    ensures |s.reqs| == 2 && s.reqs[1].client == 1 && s.reqs[1].place == R.Pending && s.reqs[1].deadline <= s.clock
    ensures !WorkerMoves(s) && !ScrubMoves(s)
  {
    s := ScrubWhileRunning(u, m);
    s := EndAndMiss(s, 0);
    s := ReadClock(s, 2);
    ReachableInv(s);
    forall step: Step | IsWorkerStep(step) || step.SweepNext? || step.Unlock? ensures !Enabled(s, step) {
      HangBlocks(s, 0, step);
    }
  }
}
