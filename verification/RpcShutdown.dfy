/** Shutting the worker down: it exits within a bounded number of its steps, and what is still
    pending then ends with INTERNAL. */
module RpcShutdown {
  import opened Datamodel
  import opened PendingQueue
  import opened RpcRuntime
  import opened RpcRuntimeProofs
  import opened RpcTheorems
  import opened RpcProgress
  import R = RpcRequest

  // ---------------------------------------------------------------- the worker exits

  /** The steps, at most, until a worker that is told to stop exits. */
  function StopSteps(s: System): nat {
    match s.worker
    case Exited => 0
    case Top => 1
    case Clocked(_) => 5
    case Handling(h) => if h < |s.reqs| then HandleSteps(s.reqs[h].place) - 1 else 4
    case Deciding => 2
    case IdleWoken => 2
    case TimedWoken(_) => 2
    case Idle => 3
    case Timed(_) => 3
  }

  lemma FreeStoppedStep(s: System, step: Step)
    requires Inv(s) && s.stop && Enabled(s, step) && IsWorkerStep(step) && !s.worker.Handling? && !FrontDue(s)
    ensures StopSteps(Apply(s, step)) + 1 <= StopSteps(s)
  {
    assert Apply(s, step).worker == if step.Timeout? then Top else WorkerNext(s);
  }

  lemma PopStoppedStep(s: System, step: Step)
    requires Inv(s) && Enabled(s, step) && step.Work? && FrontDue(s)
    ensures StopSteps(Apply(s, step)) + 1 <= StopSteps(s)
  {
    FrontIsHeld(s, step);
  }

  lemma HandlingStoppedStep(s: System, step: Step)
    requires Inv(s) && Enabled(s, step) && IsWorkerStep(step) && s.worker.Handling?
    ensures StopSteps(Apply(s, step)) + 1 <= StopSteps(s)
  {
    RequestStep(s, step, s.worker.r);
    assert Apply(s, step).worker == WorkerNext(s);
  }

  lemma OtherStoppedStep(s: System, step: Step)
    requires Inv(s) && Enabled(s, step) && !IsWorkerStep(step)
    ensures StopSteps(Apply(s, step)) <= StopSteps(s)
  {
    OtherStepWorker(s, step);
    if s.worker.Handling? { OtherStepHeld(s, step); }
  }

  lemma StoppedStep(s: System, step: Step)
    requires Inv(s) && s.stop && Enabled(s, step)
    ensures StopSteps(Apply(s, step)) + (if IsWorkerStep(step) then 1 else 0) <= StopSteps(s)
  {
    if !IsWorkerStep(step) {
      OtherStoppedStep(s, step);
    } else if s.worker.Handling? {
      HandlingStoppedStep(s, step);
    } else if step.Work? && FrontDue(s) {
      PopStoppedStep(s, step);
    } else {
      FreeStoppedStep(s, step);
    }
  }

  lemma StoppedAt(steps: seq<Step>, t: seq<System>, j: nat, i: nat)
    requires IsRun(steps, t) && j <= i < |steps| && t[j].stop
    ensures StopSteps(t[i + 1]) + (if IsWorkerStep(steps[i]) then 1 else 0) <= StopSteps(t[i])
  {
    assert Goes(steps, t, i);
    RunKeepsInv(steps, t, i);
    StillGoing(steps, t, j, i);
    StoppedStep(t[i], steps[i]);
  }

  /** From the moment stop_ is set the worker takes at most five more steps, whatever every other
      thread does, and has exited when it has taken them all. */
  lemma StopIsBounded(steps: seq<Step>, t: seq<System>, j: nat, k: nat)
    requires IsRun(steps, t) && j <= k < |t| && t[j].stop
    ensures WorkerSteps(steps, j, k) + StopSteps(t[k]) <= StopSteps(t[j]) <= 5
    ensures WorkerSteps(steps, j, k) >= StopSteps(t[j]) ==> t[k].worker == Exited
  {
    var left: seq<nat> := seq(|t|, i requires 0 <= i < |t| => StopSteps(t[i]));
    forall i | j <= i < k ensures left[i + 1] + (if IsWorkerStep(steps[i]) then 1 else 0) <= left[i] {
      StoppedAt(steps, t, j, i);
    }
    Telescope(steps, left, j, k);
    ZeroIsExited(t[k]);
    ZeroIsExited(t[j]);
  }

  lemma ZeroIsExited(s: System)
    ensures StopSteps(s) == 0 ==> s.worker == Exited
    ensures StopSteps(s) <= 5
  {
  }

  /** Once the stop is notified the worker can move until it has exited, except while it waits in
      a sever() or for the mutex that a scrub holds. */
  lemma StoppedWorkerMovesIff(steps: seq<Step>, t: seq<System>, k: nat)
    requires IsRun(steps, t) && k < |t| && (t[k].shutdown == Notified || t[k].shutdown == Joined)
    ensures WorkerMoves(t[k]) <==> t[k].worker != Exited && !WorkerWaits(t[k])
  {
    RunKeepsInv(steps, t, k);
    var s := t[k];
    if s.worker != Exited && !WorkerWaits(s) {
      var c' := s.c;
      if FrontDue(s) { c' := CanPop(s.c); }
      if s.worker.Handling? { HeldHandle(s); }
      assert IsWorkerStep(Work(c')) && Enabled(s, Work(c'));
    }
    if step :| IsWorkerStep(step) && Enabled(s, step) {
      if WorkerWaits(s) { WaitingWorkerStays(s, step); }
    }
  }

  // ---------------------------------------------------------------- what is still pending

  /** A request the queue's destructor is to fire, or has fired. */
  ghost predicate Abandoned(q: R.Invocation) {
    || (q.place == R.Pending && (q.once == None || R.Answered(q)))
    || (q.place == R.Fired && (R.Answered(q) || q.once == Some(R.Internal)))
  }

  lemma AbandonedStays(q: R.Invocation, e: R.Event)
    requires R.RequestInv(q) && Abandoned(q) && R.Enabled(q, e) && (IsLocal(e) || e == R.ShutDown)
    ensures Abandoned(R.Next(q, e))
  {
  }

  /** Nobody but the queue's destructor touches the queue once the worker is joined. */
  lemma JoinedEvents(s: System, step: Step, r: nat)
    requires Inv(s) && s.shutdown == Joined && Enabled(s, step) && r < |s.reqs|
    requires s.reqs[r].place == R.Pending || s.reqs[r].place == R.Fired
    ensures Apply(s, step).shutdown == Joined
    ensures match EventOf(s, step, r) case None => true case Some(e) => IsLocal(e) || e == R.ShutDown
  {
    if step.CancelNext? {
      NextToCancel(s, step.i);
    } else if step.SweepNext? {
      NextToSweep(s, step.i);
    }
  }

  lemma AbandonedAt(s: System, step: Step, r: nat)
    requires Inv(s) && s.shutdown == Joined && Enabled(s, step) && r < |s.reqs| && Abandoned(s.reqs[r])
    ensures Apply(s, step).shutdown == Joined
    ensures r < |Apply(s, step).reqs| && Abandoned(Apply(s, step).reqs[r])
  {
    JoinedEvents(s, step, r);
    RequestStep(s, step, r);
    assert R.RequestInv(s.reqs[r]);
    var ev := EventOf(s, step, r);
    if ev.Some? { AbandonedStays(s.reqs[r], ev.value); }
  }

  lemma {:induction false} AbandonedAlong(steps: seq<Step>, t: seq<System>, j: nat, k: nat, r: nat)
    requires IsRun(steps, t) && j <= k < |t| && t[j].shutdown == Joined
    requires r < |t[j].reqs| && t[j].reqs[r].place == R.Pending
    ensures t[k].shutdown == Joined && r < |t[k].reqs| && Abandoned(t[k].reqs[r])
    decreases k
  {
    if j < k {
      AbandonedAlong(steps, t, j, k - 1, r);
      assert Goes(steps, t, k - 1);
      RunKeepsInv(steps, t, k - 1);
      AbandonedAt(t[k - 1], steps[k - 1], r);
    } else {
      RequestAt(steps, t, j, r);
    }
  }

  /** A request still pending when the worker was joined is fired once the queue's destructor is
      through, with INTERNAL unless a response came first; and until then it can go on. */
  lemma PendingEndsWithInternal(steps: seq<Step>, t: seq<System>, j: nat, k: nat, r: nat)
    requires IsRun(steps, t) && j <= k < |t| && t[j].shutdown == Joined
    requires r < |t[j].reqs| && t[j].reqs[r].place == R.Pending
    ensures r < |t[k].reqs|
    ensures t[k].c == [] ==>
      t[k].reqs[r].place == R.Fired && (R.Answered(t[k].reqs[r]) || t[k].reqs[r].once == Some(R.Internal))
    ensures t[k].c != [] ==> Enabled(t[k], ShutDownNext)
  {
    AbandonedAlong(steps, t, j, k, r);
    RunKeepsInv(steps, t, k);
    if t[k].reqs[r].place == R.Pending { PendingIsListed(t[k], r); }
  }
}
