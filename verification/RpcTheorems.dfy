/** What the RPC runtime guarantees over whole runs. */
module RpcTheorems {
  import opened Datamodel
  import opened PendingQueue
  import opened RpcRuntime
  import opened RpcRuntimeProofs
  import R = RpcRequest

  lemma RequestAt(steps: seq<Step>, t: seq<System>, k: nat, r: nat)
    requires IsRun(steps, t) && k < |t| && r < |t[k].reqs|
    ensures R.RequestInv(t[k].reqs[r]) && ContextInv(t[k], t[k].reqs[r])
  {
    RunKeepsInv(steps, t, k);
  }

  /** From one state of a run to the next, a request stays or takes one of its events. */
  lemma RunEvent(steps: seq<Step>, t: seq<System>, k: nat, r: nat) returns (e: Option<R.Event>)
    requires IsRun(steps, t) && k < |steps| && r < |t[k].reqs|
    ensures r < |t[k + 1].reqs|
    ensures match e
      case None => t[k + 1].reqs[r] == t[k].reqs[r]
      case Some(v) => R.Enabled(t[k].reqs[r], v) && t[k + 1].reqs[r] == R.Next(t[k].reqs[r], v)
  {
    assert Goes(steps, t, k);
    RunKeepsInv(steps, t, k);
    RequestStep(t[k], steps[k], r);
    e := EventOf(t[k], steps[k], r);
  }

  // ---------------------------------------------------------------- once and only once

  /** Something that resolves the request has happened to it: its expire function was
      called, its invocation failed, or a matching response was acted on. */
  ghost predicate Resolved(q: R.Invocation) {
    || q.place == R.Fired || q.place == R.Failed || R.AfterSendFailed(q.place)
    || exists k :: 0 <= k < |q.bodies| && q.bodies[k].phase != R.Begun && R.Matches(q, q.bodies[k].m)
  }

  /** In every interleaving the callback runs at most once, and exactly once as soon as
      the request is resolved while its handle is kept. */
  lemma CallbackRunsOnce(steps: seq<Step>, t: seq<System>, k: nat, r: nat)
    requires IsRun(steps, t) && k < |t| && r < |t[k].reqs|
    ensures t[k].reqs[r].runs <= 1
    ensures Resolved(t[k].reqs[r]) && t[k].reqs[r].kept ==> t[k].reqs[r].runs == 1
    ensures Resolved(t[k].reqs[r]) ==> t[k].reqs[r].once.Some?
  {
    RequestAt(steps, t, k, r);
  }

  /** Once resolved, the outcome and the number of runs never change. */
  lemma {:induction false} OutcomeIsFinal(steps: seq<Step>, t: seq<System>, j: nat, k: nat, r: nat)
    requires IsRun(steps, t) && j <= k < |t| && r < |t[j].reqs|
    ensures r < |t[k].reqs| && t[k].reqs[r].reqid == t[j].reqs[r].reqid
    ensures t[j].reqs[r].once.Some? ==> t[k].reqs[r].once == t[j].reqs[r].once && t[k].reqs[r].runs == t[j].reqs[r].runs
    ensures |t[j].reqs[r].bodies| <= |t[k].reqs[r].bodies|
    ensures forall b | 0 <= b < |t[j].reqs[r].bodies| :: t[k].reqs[r].bodies[b].m == t[j].reqs[r].bodies[b].m
    decreases k
  {
    if j < k {
      OutcomeIsFinal(steps, t, j, k - 1, r);
      var e := RunEvent(steps, t, k - 1, r);
      if e.Some? { R.EventIsMonotone(t[k - 1].reqs[r], e.value); }
    }
  }

  /** The code behind an outcome: a deadline only after the clock reached it, a
      cancellation only from the client's own discard, a response only if it was
      received with the request's id, an internal error only after shutdown. */
  lemma OutcomeIsAttributed(steps: seq<Step>, t: seq<System>, k: nat, r: nat)
    requires IsRun(steps, t) && k < |t| && r < |t[k].reqs| && t[k].reqs[r].once.Some?
    ensures var q := t[k].reqs[r];
      match q.once.value
      case Answer(m) => R.Heard(q, m) && ReqidOf(m) == q.reqid && CommStatusOf(m) == UCODE_OK
      case Refusal(m) => R.Heard(q, m) && ReqidOf(m) == q.reqid && CommStatusOf(m) != UCODE_OK
      case DeadlineExceeded => q.deadline <= t[k].clock && q.place == R.Fired
      case Cancelled => q.client < |t[k].clients| && t[k].clients[q.client] != Live && q.place == R.Fired
      case Internal => t[k].shutdown == Joined && t[k].worker == Exited
      case TransportFailure(_) => R.AfterSendFailed(q.place) || q.place == R.Failed
  {
    RequestAt(steps, t, k, r);
    RunKeepsInv(steps, t, k);
  }

  // ---------------------------------------------------------------- expiry against response

  lemma {:induction false} ShutForGood(steps: seq<Step>, t: seq<System>, j: nat, k: nat, r: nat)
    requires IsRun(steps, t) && j <= k < |t| && r < |t[j].reqs| && R.Shut(t[j].reqs[r])
    ensures r < |t[k].reqs| && R.Shut(t[k].reqs[r]) && t[k].reqs[r].bodies == t[j].reqs[r].bodies
    decreases k
  {
    if j < k {
      ShutForGood(steps, t, j, k - 1, r);
      var e := RunEvent(steps, t, k - 1, r);
      if e.Some? { R.ShutStays(t[k - 1].reqs[r], e.value); }
    }
  }

  /** When the worker is about to attempt DEADLINE_EXCEEDED, no wrapper of the request
      runs, and none runs at any later point. */
  lemma NoWrapperOnceExpiring(steps: seq<Step>, t: seq<System>, j: nat, k: nat, r: nat)
    requires IsRun(steps, t) && j <= k < |t| && r < |t[j].reqs|
    requires t[j].reqs[r].place == R.Held(R.Drained) || t[j].reqs[r].once == Some(R.DeadlineExceeded)
    ensures r < |t[k].reqs| && R.Quiet(t[k].reqs[r]) && t[k].reqs[r].bodies == t[j].reqs[r].bodies
  {
    RequestAt(steps, t, j, r);
    ShutForGood(steps, t, j, k, r);
  }

  /** A matching response whose wrapper has started, however late, is never overtaken by
      the deadline: once the request is fired its outcome is something else. */
  lemma StartedWrapperBeatsDeadline(steps: seq<Step>, t: seq<System>, j: nat, k: nat, r: nat, b: nat)
    requires IsRun(steps, t) && j <= k < |t| && r < |t[j].reqs|
    requires b < |t[j].reqs[r].bodies| && ReqidOf(t[j].reqs[r].bodies[b].m) == t[j].reqs[r].reqid
    ensures r < |t[k].reqs| && t[k].reqs[r].once != Some(R.DeadlineExceeded)
    ensures t[k].reqs[r].place == R.Fired ==> t[k].reqs[r].once.Some?
  {
    OutcomeIsFinal(steps, t, j, k, r);
    RequestAt(steps, t, k, r);
    assert R.Matches(t[k].reqs[r], t[k].reqs[r].bodies[b].m);
  }

  lemma {:induction false} WorkedAlong(steps: seq<Step>, t: seq<System>, j: nat, k: nat, r: nat)
    requires IsRun(steps, t) && j <= k < |t| && r < |t[j].reqs| && t[j].reqs[r].place.Held?
    ensures r < |t[k].reqs| && R.Worked(t[k].reqs[r])
    decreases k
  {
    if j < k {
      WorkedAlong(steps, t, j, k - 1, r);
      RequestAt(steps, t, k - 1, r);
      var e := RunEvent(steps, t, k - 1, r);
      if e.Some? { R.WorkedStays(t[k - 1].reqs[r], e.value); }
    } else {
      RequestAt(steps, t, k, r);
      R.HeldIsWorked(t[k].reqs[r]);
    }
  }

  /** Some wrapper execution of the request, whatever became of it, got its response. */
  ghost predicate GotResponse(q: R.Invocation) {
    exists b :: 0 <= b < |q.bodies| && R.Matches(q, q.bodies[b].m)
  }

  lemma GotResponseStays(steps: seq<Step>, t: seq<System>, j: nat, k: nat, r: nat)
    requires IsRun(steps, t) && j <= k < |t| && r < |t[j].reqs| && GotResponse(t[j].reqs[r])
    ensures r < |t[k].reqs| && GotResponse(t[k].reqs[r])
  {
    OutcomeIsFinal(steps, t, j, k, r);
    var b :| 0 <= b < |t[j].reqs[r].bodies| && R.Matches(t[j].reqs[r], t[j].reqs[r].bodies[b].m);
    assert R.Matches(t[k].reqs[r], t[k].reqs[r].bodies[b].m);
  }

  lemma FiredByWorker(q: R.Invocation)
    requires R.RequestInv(q) && R.Worked(q) && q.place == R.Fired
    ensures if GotResponse(q) then R.Answered(q) else q.once == Some(R.DeadlineExceeded)
  {
    if R.Answered(q) {
      assert R.Heard(q, q.once.value.m);
      assert GotResponse(q);
    }
  }

  /** Expiry and response are linearised: a request the worker took at `j` and has fired by
      `k` ends with DEADLINE_EXCEEDED exactly if no wrapper of it ever got its response, and
      with such a response otherwise; in particular with one if a wrapper had it at the pop. */
  lemma PopIsLinearised(steps: seq<Step>, t: seq<System>, j: nat, k: nat, m: nat, r: nat)
    requires IsRun(steps, t) && j <= k <= m < |t| && r < |t[j].reqs| && t[j].reqs[r].place.Held?
    requires r < |t[k].reqs| && t[k].reqs[r].place == R.Fired
    ensures r < |t[m].reqs|
    ensures t[k].reqs[r].once == Some(R.DeadlineExceeded) <==> !GotResponse(t[m].reqs[r])
    ensures R.Answered(t[k].reqs[r]) <==> GotResponse(t[m].reqs[r])
    ensures GotResponse(t[j].reqs[r]) ==> R.Answered(t[k].reqs[r])
  {
    WorkedAlong(steps, t, j, k, r);
    RequestAt(steps, t, k, r);
    FiredByWorker(t[k].reqs[r]);
    ShutForGood(steps, t, k, m, r);
    OutcomeIsFinal(steps, t, k, m, r);
    if GotResponse(t[k].reqs[r]) {
      GotResponseStays(steps, t, k, m, r);
    } else {
      assert forall b | 0 <= b < |t[m].reqs[r].bodies| :: !R.Matches(t[m].reqs[r], t[m].reqs[r].bodies[b].m) by {
        forall b | 0 <= b < |t[m].reqs[r].bodies| ensures !R.Matches(t[m].reqs[r], t[m].reqs[r].bodies[b].m) {
          assert !R.Matches(t[k].reqs[r], t[k].reqs[r].bodies[b].m);
        }
      }
    }
    if GotResponse(t[j].reqs[r]) { GotResponseStays(steps, t, j, k, r); }
  }

  // ---------------------------------------------------------------- the worker's sleep

  /** Whenever the worker sleeps with no notify pending, a timed sleep has a non-empty
      queue whose front is due exactly at the wake time, an untimed sleep has an empty
      queue, and a requested stop has yet to be notified.  A scrub that holds the mutex has
      its notify pending. */
  lemma NoLostWakeUp(steps: seq<Step>, t: seq<System>, k: nat)
    requires IsRun(steps, t) && k < |t|
    ensures t[k].worker == Idle ==> t[k].c == []
    ensures t[k].worker.Timed? && t[k].mutex.None? ==> t[k].c != [] && t[k].c[0].deadline == t[k].worker.wake
    ensures t[k].worker == Idle || t[k].worker.Timed? ==> t[k].stop ==> t[k].shutdown == StopSet
  {
    RunKeepsInv(steps, t, k);
  }

  predicate NothingDue(s: System) {
    s.c == [] || s.clock < s.c[0].deadline
  }

  /** A worker that finds nothing due and is not told to stop goes to sleep: until the front
      deadline, or without limit if there is none. */
  lemma NothingDueSleeps(s: System) returns (s1: System, s2: System, s3: System)
    requires s.worker == Top && !s.stop && s.mutex.None? && NothingDue(s)
    ensures Enabled(s, Work(s.c)) && s1 == Apply(s, Work(s.c))
    ensures Enabled(s1, Work(s.c)) && s2 == Apply(s1, Work(s.c))
    ensures Enabled(s2, Work(s.c)) && s3 == Apply(s2, Work(s.c))
    ensures s3.c == s.c && s3.worker == if s.c == [] then Idle else Timed(s.c[0].deadline)
  {
    s1 := Apply(s, Work(s.c));
    s2 := Apply(s1, Work(s.c));
    s3 := Apply(s2, Work(s.c));
  }

  /** A spurious wake-up with nothing due and nobody stopping sends the worker back to the sleep it
      was in. */
  lemma SpuriousIsHarmless(s: System)
    requires WakeInv(s) && (s.worker == Idle || s.worker.Timed?) && !s.stop && s.mutex.None? && NothingDue(s)
    ensures Enabled(s, Spurious)
    ensures var s1 := Apply(s, Spurious); Enabled(s1, Work(s.c)) && Apply(s1, Work(s.c)).worker == s.worker
  {
  }

  lemma PendingIsListed(s: System, r: nat)
    requires QueueInv(s) && r < |s.reqs| && s.reqs[r].place == R.Pending
    ensures Entry(s.reqs, r) in s.c
  {
    assert InQueue()(s.reqs[r]);
    assert multiset(s.c)[Entry(s.reqs, r)] == 1;
  }

  /** Every scrub up to state `k` met, when it was called, the condition under which it
      keeps the heap order. */
  ghost predicate ScrubsOrdered(steps: seq<Step>, t: seq<System>, k: nat)
    requires k <= |steps| <= |t|
  {
    forall m | 0 <= m < k && steps[m].Discard? :: SurvivorsOrdered(t[m].c, steps[m].i)
  }

  /** The queue is a heap, and a timed sleep ends in time for everything in it. */
  ghost predicate InOrder(s: System) {
    IsHeap(s.c) && (s.worker.Timed? ==> forall p | p in s.c :: s.worker.wake <= p.deadline)
  }

  lemma HeapStep(s: System, step: Step)
    requires Enabled(s, step) && IsHeap(s.c) && Apply(s, step).shutdown != Joined
    requires step.Discard? ==> SurvivorsOrdered(s.c, step.i)
    ensures s.shutdown != Joined && IsHeap(Apply(s, step).c)
  {
    if step.Discard? { ScrubLeavesHeapIff(s.c, step.i); }
  }

  /** Falling asleep, the worker looks at the front; a push wakes it; nothing else but a scrub
      changes the queue under it. */
  lemma SleepStep(s: System, step: Step)
    requires Enabled(s, step) && InOrder(s) && Apply(s, step).worker.Timed? && s.shutdown != Joined
    ensures forall p | p in Apply(s, step).c :: Apply(s, step).worker.wake <= p.deadline
  {
    HeapFrontIsLeast(s.c);
    if step.Discard? { ScrubSplits(s.c, step.i); }
  }

  lemma {:induction false} OrderedScrubsKeepHeap(steps: seq<Step>, t: seq<System>, k: nat)
    requires IsRun(steps, t) && k < |t| && t[k].shutdown != Joined && ScrubsOrdered(steps, t, k)
    ensures InOrder(t[k])
    decreases k
  {
    if k > 0 {
      var s, step := t[k - 1], steps[k - 1];
      assert Goes(steps, t, k - 1);
      NotJoinedBefore(steps, t, k - 1, k);
      OrderedScrubsKeepHeap(steps, t, k - 1);
      HeapStep(s, step);
      if t[k].worker.Timed? { SleepStep(s, step); }
    }
  }

  lemma {:induction false} NotJoinedBefore(steps: seq<Step>, t: seq<System>, m: nat, k: nat)
    requires IsRun(steps, t) && m <= k < |t| && t[k].shutdown != Joined
    ensures t[m].shutdown != Joined
    decreases k
  {
    if m < k {
      assert Goes(steps, t, k - 1);
      NotJoinedBefore(steps, t, m, k - 1);
    }
  }

  /** The queue has been a heap all along exactly when every scrub met its condition. */
  lemma AlwaysHeapIff(steps: seq<Step>, t: seq<System>, k: nat)
    requires IsRun(steps, t) && k < |t| && t[k].shutdown != Joined
    ensures (forall m | 0 <= m <= k :: IsHeap(t[m].c)) <==> ScrubsOrdered(steps, t, k)
  {
    if ScrubsOrdered(steps, t, k) {
      forall m | 0 <= m <= k ensures IsHeap(t[m].c) {
        NotJoinedBefore(steps, t, m, k);
        OrderedScrubsKeepHeap(steps, t, m);
      }
    }
    if forall m | 0 <= m <= k :: IsHeap(t[m].c) {
      forall m | 0 <= m < k && steps[m].Discard? ensures SurvivorsOrdered(t[m].c, steps[m].i) {
        assert Goes(steps, t, m);
        assert IsHeap(t[m + 1].c);
        ScrubLeavesHeapIff(t[m].c, steps[m].i);
      }
    }
  }

  /** As long as every scrub met its condition, the front request is due first. */
  lemma FrontIsDueFirst(steps: seq<Step>, t: seq<System>, k: nat, r: nat)
    requires IsRun(steps, t) && k < |t| && ScrubsOrdered(steps, t, k) && t[k].shutdown != Joined
    requires r < |t[k].reqs| && t[k].reqs[r].place == R.Pending
    ensures t[k].c != [] && t[k].c[0].deadline <= t[k].reqs[r].deadline
  {
    RunKeepsInv(steps, t, k);
    OrderedScrubsKeepHeap(steps, t, k);
    PendingIsListed(t[k], r);
    HeapFrontIsLeast(t[k].c);
  }

  /** The worker then pops requests in deadline order and never oversleeps one. */
  lemma SchedulerOrder(steps: seq<Step>, t: seq<System>, k: nat, r: nat)
    requires IsRun(steps, t) && k < |t| && ScrubsOrdered(steps, t, k)
    requires r < |t[k].reqs| && t[k].reqs[r].place == R.Pending
    ensures FrontDue(t[k]) ==>
      var p := t[k].c[0].id;
      && p < |t[k].reqs| && t[k].reqs[p].place == R.Pending
      && t[k].reqs[p].deadline <= t[k].reqs[r].deadline && t[k].reqs[p].deadline <= t[k].clock
    ensures t[k].worker.Timed? ==> t[k].worker.wake <= t[k].reqs[r].deadline
  {
    RunKeepsInv(steps, t, k);
    if FrontDue(t[k]) || t[k].worker.Timed? {
      FrontIsDueFirst(steps, t, k, r);
      FrontListed(t[k]);
      PendingIsListed(t[k], r);
      OrderedScrubsKeepHeap(steps, t, k);
    }
  }

  /** A worker with a due request is then awake, or its sleep has timed out and ends as soon
      as no scrub holds the mutex. */
  lemma DueRequestWakesWorker(steps: seq<Step>, t: seq<System>, k: nat, r: nat)
    requires IsRun(steps, t) && k < |t| && ScrubsOrdered(steps, t, k)
    requires r < |t[k].reqs| && t[k].reqs[r].place == R.Pending && t[k].reqs[r].deadline <= t[k].clock
    ensures t[k].worker != Idle
    ensures t[k].worker.Timed? ==> t[k].worker.wake <= t[k].clock && (t[k].mutex.None? ==> Enabled(t[k], Timeout))
  {
    RunKeepsInv(steps, t, k);
    PendingIsListed(t[k], r);
    SchedulerOrder(steps, t, k, r);
  }

  /** Heap or not: the front request is due first among the pending ones. */
  ghost predicate FrontFirst(s: System) {
    forall r | 0 <= r < |s.reqs| && s.reqs[r].place == R.Pending :: s.c != [] && s.c[0].deadline <= s.reqs[r].deadline
  }

  lemma FrontFirstIff(s: System)
    requires QueueInv(s)
    ensures FrontFirst(s) <==> FrontIsLeast(s.c)
  {
    if FrontIsLeast(s.c) {
      forall r | 0 <= r < |s.reqs| && s.reqs[r].place == R.Pending
        ensures s.c != [] && s.c[0].deadline <= s.reqs[r].deadline
      {
        PendingIsListed(s, r);
      }
    }
    if FrontFirst(s) {
      forall i | 0 <= i < |s.c| ensures s.c[0].deadline <= s.c[i].deadline {
        Listed(s.c, s.reqs, InQueue(), s.c[i]);
      }
    }
  }

  /** The step leaves the queue as it is. */
  predicate LeavesQueue(s: System, step: Step) {
    !step.Enqueue? && !step.Discard? && !step.ShutDownNext? && !(step.Work? && FrontDue(s))
  }

  lemma {:induction false} QueueSince(steps: seq<Step>, t: seq<System>, m: nat, k: nat)
    requires IsRun(steps, t) && m <= k < |t|
    requires forall n | m <= n < k :: LeavesQueue(t[n], steps[n])
    ensures t[k].c == t[m].c
    decreases k
  {
    if m < k {
      QueueSince(steps, t, m, k - 1);
      assert LeavesQueue(t[k - 1], steps[k - 1]) && Goes(steps, t, k - 1);
    }
  }

  ghost predicate SleepsInTime(s: System) {
    s.worker.Timed? ==>
      forall r | 0 <= r < |s.reqs| && s.reqs[r].place == R.Pending :: s.worker.wake <= s.reqs[r].deadline
  }

  lemma SleepFollowsFront(s: System)
    requires QueueInv(s) && WakeInv(s) && s.worker.Timed? && s.mutex.None?
    ensures SleepsInTime(s) <==> FrontFirst(s)
  {
  }

  /** Whatever scrubs came before: from a scrub until the queue changes again, the front
      request is due first, and a timed sleep entered since ends in time for every pending
      request, exactly when the first survivor was due before all others as the scrub was called. */
  lemma SleepEndsInTimeIff(steps: seq<Step>, t: seq<System>, m: nat, k: nat)
    requires IsRun(steps, t) && m < k < |t| && steps[m].Discard?
    requires forall n | m < n < k :: LeavesQueue(t[n], steps[n])
    ensures FrontFirst(t[k]) <==> FirstSurvivorIsLeast(t[m].c, steps[m].i)
    ensures t[k].worker.Timed? && t[k].mutex.None? ==>
      (SleepsInTime(t[k]) <==> FirstSurvivorIsLeast(t[m].c, steps[m].i))
  {
    RunKeepsInv(steps, t, k);
    assert Goes(steps, t, m);
    QueueSince(steps, t, m + 1, k);
    ScrubLeavesFrontLeastIff(t[m].c, steps[m].i);
    FrontFirstIff(t[k]);
    if t[k].worker.Timed? && t[k].mutex.None? { SleepFollowsFront(t[k]); }
  }

  lemma {:induction false} FrontLeastSince(steps: seq<Step>, t: seq<System>, m: nat, k: nat)
    requires IsRun(steps, t) && m <= k < |t| && FrontIsLeast(t[m].c)
    requires forall n | m <= n < k :: LeavesQueue(t[n], steps[n]) || steps[n].Enqueue?
    ensures FrontIsLeast(t[k].c)
    decreases k
  {
    if m < k {
      FrontLeastSince(steps, t, m, k - 1);
      assert LeavesQueue(t[k - 1], steps[k - 1]) || steps[k - 1].Enqueue?;
      assert Goes(steps, t, k - 1);
    }
  }

  /** A first survivor due before all others is enough until the next pop or scrub, whatever is
      enqueued meanwhile and whether or not the vector is a heap. */
  lemma SleepsInTimeUntilPop(steps: seq<Step>, t: seq<System>, m: nat, k: nat)
    requires IsRun(steps, t) && m < k < |t| && steps[m].Discard? && FirstSurvivorIsLeast(t[m].c, steps[m].i)
    requires forall n | m < n < k :: LeavesQueue(t[n], steps[n]) || steps[n].Enqueue?
    ensures FrontFirst(t[k])
    ensures t[k].mutex.None? ==> SleepsInTime(t[k])
  {
    RunKeepsInv(steps, t, k);
    assert Goes(steps, t, m);
    ScrubLeavesFrontLeastIff(t[m].c, steps[m].i);
    FrontLeastSince(steps, t, m + 1, k);
    FrontFirstIff(t[k]);
    if t[k].worker.Timed? && t[k].mutex.None? { SleepFollowsFront(t[k]); }
  }

  // ---------------------------------------------------------------- conservation

  predicate Enqueued(p: R.Place) {
    p == R.Pending || p.Held? || p.Collected? || p == R.Fired
  }

  /** A request once enqueued is always exactly one of: once in the queue, held by the
      worker, once in its own client's cancel list, or fired. */
  lemma RequestsAreConserved(steps: seq<Step>, t: seq<System>, k: nat, r: nat)
    requires IsRun(steps, t) && k < |t| && r < |t[k].reqs|
    ensures var s, q := t[k], t[k].reqs[r];
      && q.client < |s.clients|
      && multiset(s.c)[Entry(s.reqs, r)] == (if q.place == R.Pending then 1 else 0)
      && (s.worker == Handling(r) <==> q.place.Held?)
      && multiset(Todo(s, q.client))[Entry(s.reqs, r)] == (if q.place.Collected? then 1 else 0)
  {
    RunKeepsInv(steps, t, k);
    var s, q := t[k], t[k].reqs[r];
    assert ContextInv(s, q);
    assert Lists(Todo(s, q.client), s.reqs, TakenFrom(q.client));
    assert TakenFrom(q.client)(q) <==> q.place.Collected?;
    assert InQueue()(q) <==> q.place == R.Pending;
  }

  lemma EnqueuedStep(q: R.Invocation, e: R.Event)
    requires R.Enabled(q, e) && Enqueued(q.place)
    ensures Enqueued(R.Next(q, e).place)
    ensures q.place == R.Fired ==> R.Next(q, e).place == R.Fired
  {
  }

  lemma {:induction false} EnqueuedStays(steps: seq<Step>, t: seq<System>, j: nat, k: nat, r: nat)
    requires IsRun(steps, t) && j <= k < |t| && r < |t[j].reqs| && Enqueued(t[j].reqs[r].place)
    ensures r < |t[k].reqs| && Enqueued(t[k].reqs[r].place)
    ensures t[j].reqs[r].place == R.Fired ==> t[k].reqs[r].place == R.Fired
    decreases k
  {
    if j < k {
      EnqueuedStays(steps, t, j, k - 1, r);
      var e := RunEvent(steps, t, k - 1, r);
      if e.Some? { EnqueuedStep(t[k - 1].reqs[r], e.value); }
    }
  }

  /** After scrub(i) has returned, every enqueued request of client i is fired, except
      at most the one the worker holds. */
  lemma DiscardLeavesOnlyHeld(steps: seq<Step>, t: seq<System>, k: nat, r: nat)
    requires IsRun(steps, t) && k < |t| && r < |t[k].reqs|
    requires t[k].reqs[r].client < |t[k].clients| && t[k].clients[t[k].reqs[r].client] == Gone
    requires Enqueued(t[k].reqs[r].place)
    ensures t[k].reqs[r].place == R.Fired || t[k].worker == Handling(r)
  {
    RunKeepsInv(steps, t, k);
    RequestsAreConserved(steps, t, k, r);
    assert ContextInv(t[k], t[k].reqs[r]);
  }

  lemma QueueIsDistinct(s: System)
    requires QueueInv(s)
    ensures Distinct(s.c)
  {
    forall i, j | 0 <= i < j < |s.c| ensures s.c[i] != s.c[j] {
      Listed(s.c, s.reqs, InQueue(), s.c[i]);
      if s.c[i] == s.c[j] { TwiceCounted(s.c, i, j); }
    }
  }

  /** scrub(i) takes exactly the pending requests of client i out of the queue; the listener
      handle of one of them is still to be destroyed if it stands behind the number of
      survivors, and is lost to a move assignment otherwise. */
  lemma ScrubTakesOwnRequests(s: System, i: nat, r: nat)
    requires Inv(s) && Enabled(s, Discard(i)) && r < |s.reqs|
    ensures var s' := Apply(s, Discard(i));
      && r < |s'.reqs|
      && (s.reqs[r].client == i && s.reqs[r].place == R.Pending ==>
            && s'.reqs[r].place.Collected? && Entry(s.reqs, r) in s'.clients[i].todo && Entry(s.reqs, r) !in s'.c
            && forall p | 0 <= p < |s.c| && s.c[p] == Entry(s.reqs, r) ::
                 s'.reqs[r].place.stage == if p >= |Keep(s.c, i)| then R.Intact else R.Orphaned)
      && (s.reqs[r].client != i ==>
            s'.reqs[r] == s.reqs[r] && (Entry(s.reqs, r) in s'.c <==> Entry(s.reqs, r) in s.c))
  {
    RequestStep(s, Discard(i), r);
    ScrubCounts(s.c, i, Entry(s.reqs, r));
    if s.reqs[r].place == R.Pending { PendingIsListed(s, r); }
    ScrubSplits(s.c, i);
    QueueIsDistinct(s);
    forall p | 0 <= p < |s.c| && s.c[p] == Entry(s.reqs, r) && s.reqs[r].client == i
      ensures s.c[p] in Destroyed(s.c, i) <==> p >= |Keep(s.c, i)|
    {
      DestroyedIff(s.c, i, p);
    }
  }
}
