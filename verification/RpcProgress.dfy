/**
How long a due request waits.  While scrubs meet their condition, the worker needs at most
five steps for each request ahead of it, whatever every other thread does meanwhile.
*/
module RpcProgress {
  import opened Datamodel
  import opened PendingQueue
  import opened RpcRuntime
  import opened RpcRuntimeProofs
  import opened RpcTheorems
  import R = RpcRequest

  // ---------------------------------------------------------------- requests ahead

  /** A request due by `limit` that may be in the queue now or later. */
  predicate IsAhead(q: R.Invocation, limit: int) {
    && q.deadline <= limit
    && (q.place == R.Created || q.place == R.Registering || q.place == R.Registered || q.place == R.Sent
        || q.place == R.Pending)
  }

  function Ahead(reqs: seq<R.Invocation>, n: nat, limit: int): nat
    requires n <= |reqs|
  {
    if n == 0 then 0 else Ahead(reqs, n - 1, limit) + if IsAhead(reqs[n - 1], limit) then 1 else 0
  }

  lemma {:induction false} AheadShrinks(reqs: seq<R.Invocation>, reqs': seq<R.Invocation>, n: nat, limit: int, p: nat)
    requires n <= |reqs| && n <= |reqs'|
    requires forall q | 0 <= q < n :: IsAhead(reqs'[q], limit) ==> IsAhead(reqs[q], limit)
    ensures Ahead(reqs', n, limit) <= Ahead(reqs, n, limit)
    ensures p < n && IsAhead(reqs[p], limit) && !IsAhead(reqs'[p], limit) ==>
      Ahead(reqs', n, limit) < Ahead(reqs, n, limit)
  {
    if n > 0 { AheadShrinks(reqs, reqs', n - 1, limit, p); }
  }

  lemma {:induction false} AheadAtMost(reqs: seq<R.Invocation>, n: nat, limit: int)
    requires n <= |reqs|
    ensures Ahead(reqs, n, limit) <= n
  {
    if n > 0 { AheadAtMost(reqs, n - 1, limit); }
  }

  // ---------------------------------------------------------------- the worker's way to a pop

  predicate IsWorkerStep(step: Step) {
    step.Work? || step.Timeout?
  }

  /** The steps from a pop to the next look at the clock. */
  function HandleSteps(p: R.Place): nat {
    match R.StageOf(p)
    case Some(Intact) => 5
    case Some(Severed(_)) => 4
    case Some(Missed) => 4
    case _ => 3
  }

  /** The steps the worker takes, at most, until it pops a request due by `limit`. */
  function Distance(s: System, limit: int): nat {
    match s.worker
    case Top => 2
    case Clocked(now) => if limit <= now then 1 else 4
    case Handling(h) =>
      if h < |s.reqs| then HandleSteps(s.reqs[h].place) else 0
    case Deciding => 3
    case Idle => 4
    case IdleWoken => 3
    case Timed(_) => 4
    case TimedWoken(_) => 3
    case Exited => 0
  }

  function Wait(s: System, n: nat, limit: int): nat
    requires n <= |s.reqs|
  {
    5 * Ahead(s.reqs, n, limit) + Distance(s, limit)
  }

  /** A request due by `limit` waits in a queue in order, and the worker is not told to stop. */
  ghost predicate Due(s: System, r: nat, limit: int) {
    && Inv(s) && !s.stop && IsHeap(s.c)
    && r < |s.reqs| && s.reqs[r].place == R.Pending && s.reqs[r].deadline <= limit <= s.clock
  }

  lemma DueFront(s: System, r: nat, limit: int)
    requires Due(s, r, limit)
    ensures s.c != [] && s.c[0].deadline <= s.reqs[r].deadline
    ensures s.c[0].id < |s.reqs| && s.reqs[s.c[0].id].place == R.Pending
    ensures s.reqs[s.c[0].id].deadline == s.c[0].deadline
  {
    PendingIsListed(s, r);
    HeapFrontIsLeast(s.c);
    FrontListed(s);
  }

  lemma AheadEvent(q: R.Invocation, e: R.Event, limit: int)
    requires R.Enabled(q, e)
    ensures IsAhead(R.Next(q, e), limit) ==> IsAhead(q, limit)
  {
  }

  lemma AheadStep(s: System, step: Step, n: nat, limit: int, p: nat)
    requires Inv(s) && Enabled(s, step) && n <= |s.reqs|
    ensures |s.reqs| <= |Apply(s, step).reqs|
    ensures Ahead(Apply(s, step).reqs, n, limit) <= Ahead(s.reqs, n, limit)
    ensures p < n && IsAhead(s.reqs[p], limit) && !IsAhead(Apply(s, step).reqs[p], limit) ==>
      Ahead(Apply(s, step).reqs, n, limit) < Ahead(s.reqs, n, limit)
  {
    NewRequest(s, step);
    var s' := Apply(s, step);
    forall q | 0 <= q < n ensures IsAhead(s'.reqs[q], limit) ==> IsAhead(s.reqs[q], limit) {
      RequestStep(s, step, q);
      if EventOf(s, step, q).Some? { AheadEvent(s.reqs[q], EventOf(s, step, q).value, limit); }
    }
    AheadShrinks(s.reqs, s'.reqs, n, limit, p);
  }

  /** The worker's own steps bring it nearer to a pop. */
  lemma FreeWorkerStep(s: System, step: Step, r: nat, limit: int)
    requires Due(s, r, limit) && Enabled(s, step) && IsWorkerStep(step)
    requires !s.worker.Handling? && !FrontDue(s)
    ensures Distance(Apply(s, step), limit) + 1 <= Distance(s, limit)
  {
    DueFront(s, r, limit);
    assert Apply(s, step).worker == if step.Timeout? then Top else WorkerNext(s);
  }

  lemma HandlingWorkerStep(s: System, step: Step, limit: int)
    requires Inv(s) && Enabled(s, step) && IsWorkerStep(step) && s.worker.Handling?
    ensures Distance(Apply(s, step), limit) + 1 <= Distance(s, limit)
  {
    var h := s.worker.r;
    RequestStep(s, step, h);
    assert Apply(s, step).worker == WorkerNext(s);
  }

  /** Nobody else's steps take the worker away from it. */
  lemma HandleStepsStay(q: R.Invocation, e: R.Event)
    requires R.Enabled(q, e) && IsLocal(e) && q.place.Held?
    ensures HandleSteps(R.Next(q, e).place) == HandleSteps(q.place)
  {
  }

  lemma OtherStepWorker(s: System, step: Step)
    requires Enabled(s, step) && !IsWorkerStep(step)
    ensures Apply(s, step).worker == s.worker || Apply(s, step).worker == Wake(s.worker)
  {
  }

  lemma OtherStepHeld(s: System, step: Step)
    requires Inv(s) && Enabled(s, step) && !IsWorkerStep(step) && s.worker.Handling?
    ensures var h := s.worker.r;
      h < |Apply(s, step).reqs| && HandleSteps(Apply(s, step).reqs[h].place) == HandleSteps(s.reqs[h].place)
  {
    var h := s.worker.r;
    RequestStep(s, step, h);
    match EventOf(s, step, h)
    case None =>
    case Some(e) => HandleStepsStay(s.reqs[h], e);
  }

  lemma WakeKeepsDistance(s: System, s': System, limit: int)
    requires s'.worker == s.worker || s'.worker == Wake(s.worker)
    requires s.worker.Handling? ==>
      && s.worker.r < |s.reqs| && s.worker.r < |s'.reqs|
      && HandleSteps(s'.reqs[s.worker.r].place) == HandleSteps(s.reqs[s.worker.r].place)
    ensures Distance(s', limit) <= Distance(s, limit)
  {
  }

  lemma OtherStep(s: System, step: Step, limit: int)
    requires Inv(s) && Enabled(s, step) && !IsWorkerStep(step)
    ensures Distance(Apply(s, step), limit) <= Distance(s, limit)
  {
    OtherStepWorker(s, step);
    if s.worker.Handling? { OtherStepHeld(s, step); }
    WakeKeepsDistance(s, Apply(s, step), limit);
  }

  lemma DistanceStep(s: System, step: Step, r: nat, limit: int)
    requires Due(s, r, limit) && Enabled(s, step) && step != SetStop && !(step.Work? && FrontDue(s))
    ensures Distance(Apply(s, step), limit) + (if IsWorkerStep(step) then 1 else 0) <= Distance(s, limit)
  {
    if !IsWorkerStep(step) {
      OtherStep(s, step, limit);
    } else if s.worker.Handling? {
      HandlingWorkerStep(s, step, limit);
    } else {
      FreeWorkerStep(s, step, r, limit);
    }
  }

  lemma FrontIsHeld(s: System, step: Step)
    requires Inv(s) && Enabled(s, step) && step.Work? && FrontDue(s)
    ensures var p := s.c[0].id;
      p < |Apply(s, step).reqs| && Apply(s, step).reqs[p].place.Held? && Apply(s, step).worker == Handling(p)
  {
    FrontListed(s);
    RequestStep(s, step, s.c[0].id);
  }

  /** A pop takes one request from those ahead. */
  lemma PopStep(s: System, step: Step, r: nat, n: nat, limit: int)
    requires Due(s, r, limit) && Enabled(s, step) && step.Work? && FrontDue(s) && n <= |s.reqs|
    requires AllLater(s, n, limit)
    ensures n <= |Apply(s, step).reqs| && Ahead(Apply(s, step).reqs, n, limit) < Ahead(s.reqs, n, limit)
  {
    DueFront(s, r, limit);
    FrontIsHeld(s, step);
    var p := s.c[0].id;
    assert p < n;
    AheadStep(s, step, n, limit, p);
  }

  lemma PopDistance(s: System, step: Step, limit: int)
    requires Inv(s) && Enabled(s, step) && step.Work? && FrontDue(s)
    ensures Distance(Apply(s, step), limit) <= 5 && Distance(s, limit) >= 1
  {
    FrontIsHeld(s, step);
  }

  predicate AllLater(s: System, n: nat, limit: int) {
    forall q | n <= q < |s.reqs| :: limit < s.reqs[q].deadline
  }

  /** Requests made once `limit` has passed are due after it. */
  lemma LaterRequests(s: System, step: Step, n: nat, limit: int)
    requires Inv(s) && Enabled(s, step) && n <= |s.reqs| && limit <= s.clock
    requires AllLater(s, n, limit)
    ensures AllLater(Apply(s, step), n, limit)
  {
    NewRequest(s, step);
    var s' := Apply(s, step);
    forall q | n <= q < |s'.reqs| ensures limit < s'.reqs[q].deadline {
      if q < |s.reqs| {
        StepExtends(s, step);
        assert Entry(s'.reqs, q) == Entry(s.reqs, q);
      }
    }
  }

  lemma WaitStep(s: System, step: Step, r: nat, n: nat, limit: int)
    requires Due(s, r, limit) && Enabled(s, step) && step != SetStop && n <= |s.reqs|
    requires AllLater(s, n, limit)
    ensures n <= |Apply(s, step).reqs|
    ensures Wait(Apply(s, step), n, limit) + (if IsWorkerStep(step) then 1 else 0) <= Wait(s, n, limit)
  {
    AheadStep(s, step, n, limit, n);
    if step.Work? && FrontDue(s) {
      PopStep(s, step, r, n, limit);
      PopDistance(s, step, limit);
    } else {
      DistanceStep(s, step, r, limit);
    }
  }

  // ---------------------------------------------------------------- over whole runs

  function WorkerSteps(steps: seq<Step>, j: nat, k: nat): nat
    requires k <= |steps|
  {
    if k <= j then 0 else WorkerSteps(steps, j, k - 1) + if IsWorkerStep(steps[k - 1]) then 1 else 0
  }

  predicate LeftQueue(p: R.Place) {
    Enqueued(p) && p != R.Pending
  }

  lemma LeftQueueStep(q: R.Invocation, e: R.Event)
    requires R.Enabled(q, e) && LeftQueue(q.place)
    ensures LeftQueue(R.Next(q, e).place)
  {
  }

  lemma {:induction false} LeftQueueForGood(steps: seq<Step>, t: seq<System>, j: nat, k: nat, r: nat)
    requires IsRun(steps, t) && j <= k < |t| && r < |t[j].reqs| && LeftQueue(t[j].reqs[r].place)
    ensures r < |t[k].reqs| && LeftQueue(t[k].reqs[r].place)
    decreases k
  {
    if j < k {
      LeftQueueForGood(steps, t, j, k - 1, r);
      var e := RunEvent(steps, t, k - 1, r);
      if e.Some? { LeftQueueStep(t[k - 1].reqs[r], e.value); }
    }
  }

  /** A request that is enqueued at `j` and pending at `k` is pending in between. */
  lemma PendingBetween(steps: seq<Step>, t: seq<System>, j: nat, m: nat, k: nat, r: nat)
    requires IsRun(steps, t) && j <= m <= k < |t| && r < |t[j].reqs| && Enqueued(t[j].reqs[r].place)
    requires r < |t[k].reqs| && t[k].reqs[r].place == R.Pending
    ensures r < |t[m].reqs| && t[m].reqs[r].place == R.Pending
  {
    EnqueuedStays(steps, t, j, m, r);
    if LeftQueue(t[m].reqs[r].place) { LeftQueueForGood(steps, t, m, k, r); }
  }

  lemma {:induction false} StillGoing(steps: seq<Step>, t: seq<System>, j: nat, k: nat)
    requires IsRun(steps, t) && j <= k < |t|
    ensures t[j].clock <= t[k].clock && (t[j].stop ==> t[k].stop)
    decreases k
  {
    if j < k {
      StillGoing(steps, t, j, k - 1);
      assert Goes(steps, t, k - 1);
    }
  }

  lemma {:induction false} SameDeadline(steps: seq<Step>, t: seq<System>, j: nat, k: nat, r: nat)
    requires IsRun(steps, t) && j <= k < |t| && r < |t[j].reqs|
    ensures r < |t[k].reqs| && t[k].reqs[r].deadline == t[j].reqs[r].deadline
    decreases k
  {
    if j < k {
      SameDeadline(steps, t, j, k - 1, r);
      var e := RunEvent(steps, t, k - 1, r);
      if e.Some? { R.EventIsMonotone(t[k - 1].reqs[r], e.value); }
    }
  }

  lemma LaterNext(steps: seq<Step>, t: seq<System>, k: nat, n: nat, limit: int)
    requires IsRun(steps, t) && k < |steps| && n <= |t[k].reqs| && limit <= t[k].clock && AllLater(t[k], n, limit)
    ensures n <= |t[k + 1].reqs| && AllLater(t[k + 1], n, limit)
  {
    assert Goes(steps, t, k);
    RunKeepsInv(steps, t, k);
    StepExtends(t[k], steps[k]);
    LaterRequests(t[k], steps[k], n, limit);
  }

  lemma {:induction false} LaterAlong(steps: seq<Step>, t: seq<System>, j: nat, k: nat, limit: int)
    requires IsRun(steps, t) && j <= k < |t| && limit <= t[j].clock
    ensures |t[j].reqs| <= |t[k].reqs| && AllLater(t[k], |t[j].reqs|, limit)
    decreases k
  {
    if j < k {
      LaterAlong(steps, t, j, k - 1, limit);
      StillGoing(steps, t, j, k - 1);
      LaterNext(steps, t, k - 1, |t[j].reqs|, limit);
    }
  }

  lemma DueAt(steps: seq<Step>, t: seq<System>, k: nat, r: nat, limit: int)
    requires IsRun(steps, t) && k < |t| && ScrubsOrdered(steps, t, k) && !t[k].stop
    requires r < |t[k].reqs| && t[k].reqs[r].place == R.Pending && t[k].reqs[r].deadline <= limit <= t[k].clock
    ensures Due(t[k], r, limit)
  {
    RunKeepsInv(steps, t, k);
    OrderedScrubsKeepHeap(steps, t, k);
  }

  /** One step of a run, taken out of it. */
  lemma WaitAt(steps: seq<Step>, t: seq<System>, k: nat, r: nat, n: nat, limit: int)
    requires IsRun(steps, t) && k < |steps| && !t[k + 1].stop && ScrubsOrdered(steps, t, k)
    requires r < |t[k].reqs| && t[k].reqs[r].place == R.Pending && t[k].reqs[r].deadline <= limit <= t[k].clock
    requires n <= |t[k].reqs| && AllLater(t[k], n, limit)
    ensures n <= |t[k + 1].reqs|
    ensures Wait(t[k + 1], n, limit) + (if IsWorkerStep(steps[k]) then 1 else 0) <= Wait(t[k], n, limit)
  {
    var s, step := t[k], steps[k];
    assert Goes(steps, t, k);
    assert !s.stop && step != SetStop;
    DueAt(steps, t, k, r, limit);
    WaitStep(s, step, r, n, limit);
  }

  lemma {:induction false} Telescope(steps: seq<Step>, wait: seq<nat>, j: nat, k: nat)
    requires |wait| == |steps| + 1 && j <= k < |wait|
    requires forall i | j <= i < k :: wait[i + 1] + (if IsWorkerStep(steps[i]) then 1 else 0) <= wait[i]
    ensures WorkerSteps(steps, j, k) + wait[k] <= wait[j]
    decreases k
  {
    if j < k {
      Telescope(steps, wait, j, k - 1);
      assert wait[k - 1 + 1] + (if IsWorkerStep(steps[k - 1]) then 1 else 0) <= wait[k - 1];
    }
  }

  function WaitOr0(s: System, n: nat, limit: int): nat {
    if n <= |s.reqs| then Wait(s, n, limit) else 0
  }

  lemma WaitBetween(steps: seq<Step>, t: seq<System>, j: nat, i: nat, k: nat, r: nat)
    requires IsRun(steps, t) && j <= i < k < |t| && ScrubsOrdered(steps, t, k) && !t[k].stop
    requires r < |t[j].reqs| && t[j].reqs[r].place == R.Pending && t[j].reqs[r].deadline <= t[j].clock
    requires r < |t[k].reqs| && t[k].reqs[r].place == R.Pending
    ensures var n, limit := |t[j].reqs|, t[j].reqs[r].deadline;
      WaitOr0(t[i + 1], n, limit) + (if IsWorkerStep(steps[i]) then 1 else 0) <= WaitOr0(t[i], n, limit)
  {
    PendingBetween(steps, t, j, i, k, r);
    StillGoing(steps, t, j, i);
    StillGoing(steps, t, i + 1, k);
    SameDeadline(steps, t, j, i, r);
    LaterAlong(steps, t, j, i, t[j].reqs[r].deadline);
    WaitAt(steps, t, i, r, |t[j].reqs|, t[j].reqs[r].deadline);
  }

  /** Bounded waiting: whatever all other threads do, and however many requests arrive, as long
      as a request that is due at `j` is still pending the worker has taken at most five steps
      for each request due by then that existed at `j`, and five more. */
  lemma DueRequestIsServed(steps: seq<Step>, t: seq<System>, j: nat, k: nat, r: nat)
    requires IsRun(steps, t) && j <= k < |t| && ScrubsOrdered(steps, t, k) && !t[k].stop
    requires r < |t[j].reqs| && t[j].reqs[r].place == R.Pending && t[j].reqs[r].deadline <= t[j].clock
    requires r < |t[k].reqs| && t[k].reqs[r].place == R.Pending
    ensures WorkerSteps(steps, j, k) <= 5 * Ahead(t[j].reqs, |t[j].reqs|, t[j].reqs[r].deadline) + 5
    ensures WorkerSteps(steps, j, k) <= 5 * |t[j].reqs| + 5
  {
    var n, limit := |t[j].reqs|, t[j].reqs[r].deadline;
    var wait: seq<nat> := seq(|t|, i requires 0 <= i < |t| => WaitOr0(t[i], n, limit));
    forall i | j <= i < k ensures wait[i + 1] + (if IsWorkerStep(steps[i]) then 1 else 0) <= wait[i] {
      WaitBetween(steps, t, j, i, k, r);
    }
    Telescope(steps, wait, j, k);
    AheadAtMost(t[j].reqs, |t[j].reqs|, t[j].reqs[r].deadline);
  }

  // ---------------------------------------------------------------- who can move

  /** The destruction of the handle of `q` waits: a wrapper of it still runs, or none does and
      the wake-up was missed. */
  predicate HandleWaits(q: R.Invocation) {
    R.StageOf(q.place).Some? && ((q.place.stage.Severed? && !R.Quiet(q)) || q.place.stage == R.Missed)
  }

  /** The worker waits in the sever() of the request in its hands, or for the mutex that a
      scrub holds. */
  predicate WorkerWaits(s: System) {
    || (s.worker.Handling? && s.worker.r < |s.reqs| && HandleWaits(s.reqs[s.worker.r]))
    || (s.mutex.Some? && (TakesMutex(s.worker) || s.worker.Timed?))
  }

  /** The scrub that holds the mutex waits in the sever() of the handle erase is at. */
  predicate ScrubWaits(s: System) {
    s.mutex.Some? && Sweeps(s, s.mutex.value) && HandleWaits(s.reqs[s.clients[s.mutex.value].left[0].id])
  }

  ghost predicate WorkerMoves(s: System) {
    exists step :: IsWorkerStep(step) && Enabled(s, step)
  }

  ghost predicate ScrubMoves(s: System) {
    exists step: Step :: (step.SweepNext? || step.Unlock?) && Enabled(s, step)
  }

  /** A handle on its way is waited for exactly when it cannot go on. */
  lemma HandleMovesIff(q: R.Invocation)
    requires R.StageOf(q.place).Some? && q.place.stage != R.Drained && q.place.stage != R.Orphaned
    ensures HandleMoves(q) <==> !HandleWaits(q)
  {
  }

  lemma HeldHandle(s: System)
    requires RequestsInv(s) && HeldInv(s) && s.worker.Handling?
    ensures var q := s.reqs[s.worker.r];
      q.place.Held? && (HandleMoves(q) || q.place == R.Held(R.Drained) <==> !HandleWaits(q))
  {
    var q := s.reqs[s.worker.r];
    assert R.RequestInv(q);
    if q.place != R.Held(R.Drained) { HandleMovesIff(q); }
  }

  lemma FreeWorkerMoves(s: System, r: nat, limit: int) returns (step: Step)
    requires Due(s, r, limit) && !WorkerWaits(s)
    ensures IsWorkerStep(step) && Enabled(s, step)
  {
    DueFront(s, r, limit);
    var c' := CanPop(s.c);
    step := if s.worker.Timed? then Timeout else Work(c');
    if s.worker.Handling? { HeldHandle(s); }
  }

  lemma WaitingWorkerStays(s: System, step: Step)
    requires RequestsInv(s) && HeldInv(s) && WorkerWaits(s) && IsWorkerStep(step)
    ensures !Enabled(s, step)
  {
    if s.worker.Handling? { HeldHandle(s); }
  }

  /** With a due request pending the worker can take its next step, except while a wrapper of
      the request in its hands runs, or its wake-up from that wrapper was missed, or it needs the
      mutex and a scrub holds it. */
  lemma WorkerMayMoveIff(steps: seq<Step>, t: seq<System>, k: nat, r: nat)
    requires IsRun(steps, t) && k < |t| && ScrubsOrdered(steps, t, k) && !t[k].stop
    requires r < |t[k].reqs| && t[k].reqs[r].place == R.Pending && t[k].reqs[r].deadline <= t[k].clock
    ensures WorkerMoves(t[k]) <==> !WorkerWaits(t[k])
  {
    DueAt(steps, t, k, r, t[k].reqs[r].deadline);
    if !WorkerWaits(t[k]) {
      var step := FreeWorkerMoves(t[k], r, t[k].reqs[r].deadline);
    }
    if step :| IsWorkerStep(step) && Enabled(t[k], step) {
      if WorkerWaits(t[k]) { WaitingWorkerStays(t[k], step); }
    }
  }

  /** A scrub that holds the mutex goes on, except while a wrapper runs whose listener erase is
      destroying, or its wake-up was missed. */
  lemma ScrubMayMoveIff(s: System)
    requires Inv(s)
    ensures ScrubMoves(s) <==> s.mutex.Some? && !ScrubWaits(s)
  {
    if s.mutex.Some? {
      var i := s.mutex.value;
      if s.clients[i].left == [] {
        assert Enabled(s, Unlock(i));
      } else {
        var p := s.clients[i].left[0];
        Listed(Left(s, i), s.reqs, InTail(i), p);
        HandleMovesIff(s.reqs[p.id]);
        assert Enabled(s, SweepNext(i)) <==> HandleMoves(s.reqs[p.id]);
      }
    }
  }

  /** Expiry comes to a halt with a due request pending exactly when the worker waits in a
      sever(), or for a scrub that does. */
  lemma HaltedIff(steps: seq<Step>, t: seq<System>, k: nat, r: nat)
    requires IsRun(steps, t) && k < |t| && ScrubsOrdered(steps, t, k) && !t[k].stop
    requires r < |t[k].reqs| && t[k].reqs[r].place == R.Pending && t[k].reqs[r].deadline <= t[k].clock
    ensures !WorkerMoves(t[k]) && !ScrubMoves(t[k]) <==>
      WorkerWaits(t[k]) && (t[k].mutex.Some? ==> ScrubWaits(t[k]))
  {
    WorkerMayMoveIff(steps, t, k, r);
    RunKeepsInv(steps, t, k);
    ScrubMayMoveIff(t[k]);
  }
}
