/**
What the callback protocol guarantees over whole runs: nothing runs after reset(),
when sever() can hang, how long it can take, and the small specification
(`Gate`) that the rest of the runtime relies on.
*/
module CallbackTheorems {
  import opened CallbackProtocol

  // ---------------------------------------------------------------- safety of reset()

  lemma FinishedStep(d: Discipline, s: State, step: Step)
    requires Enabled(d, s, step) && s.callee == Finished
    ensures Apply(d, s, step).callee == Finished && Apply(d, s, step).cleanups == s.cleanups
  {
  }

  lemma DisconnectedStep(d: Discipline, s: State, step: Step)
    requires Enabled(d, s, step) && !Connected(s)
    ensures !Connected(Apply(d, s, step))
  {
  }

  lemma {:induction false} FinishedIsFinal(d: Discipline, steps: seq<Step>, t: seq<State>, j: nat, k: nat)
    requires IsRun(d, steps, t) && j <= k < |t| && t[j].callee == Finished
    ensures t[k].callee == Finished && t[k].cleanups == t[j].cleanups
    decreases k
  {
    if j < k {
      assert Goes(d, steps, t, k - 1);
      FinishedIsFinal(d, steps, t, j, k - 1);
      FinishedStep(d, t[k - 1], steps[k - 1]);
    }
  }

  /** Once reset() has returned, no callback body is running and none ever runs again. */
  lemma NothingRunsAfterReset(d: Discipline, steps: seq<Step>, t: seq<State>, j: nat, k: nat)
    requires IsRun(d, steps, t) && j <= k < |t| && t[j].callee == Finished
    ensures forall i | 0 <= i < |t[k].calls| :: t[k].calls[i] != Running
    ensures t[k].strong == 0
  {
    FinishedIsFinal(d, steps, t, j, k);
    RunKeepsInv(d, steps, t, k);
    TotalZero(t[k].calls, IsRunning);
  }

  /** The cleanup function runs at most once, after every body has returned. */
  lemma CleanupOnceAndDrained(d: Discipline, steps: seq<Step>, t: seq<State>, k: nat)
    requires IsRun(d, steps, t) && k < |t|
    ensures t[k].cleanups <= 1
    ensures t[k].cleanups == 1 ==> forall m, i | k <= m < |t| && 0 <= i < |t[m].calls| :: t[m].calls[i] != Running
  {
    RunKeepsInv(d, steps, t, k);
    if t[k].cleanups == 1 {
      forall m, i | k <= m < |t| && 0 <= i < |t[m].calls| ensures t[m].calls[i] != Running {
        NothingRunsAfterReset(d, steps, t, k, m);
      }
    }
  }

  /** reset() has looked the connection up while some CallerHandle kept it. */
  ghost predicate FoundBetween(steps: seq<Step>, t: seq<State>, k: nat)
    requires k <= |steps| <= |t|
  {
    exists m :: 0 <= m < k && steps[m] == Locate && t[m].linked
  }

  lemma LookupStep(d: Discipline, s: State, step: Step)
    requires PhaseInv(s) && Enabled(d, s, step)
    ensures var s' := Apply(d, s, step);
      && s'.hasCleanup == s.hasCleanup
      && (LookedUp(s') <==> LookedUp(s) || (step == Locate && s.linked))
  {
  }

  predicate LookedUp(s: State) {
    s.callee == Located || s.severRequested
  }

  lemma FoundStep(steps: seq<Step>, t: seq<State>, k: nat)
    requires k < |steps| <= |t|
    ensures FoundBetween(steps, t, k + 1) <==> FoundBetween(steps, t, k) || (steps[k] == Locate && t[k].linked)
  {
    if FoundBetween(steps, t, k) {
      var m :| 0 <= m < k && steps[m] == Locate && t[m].linked;
      assert steps[m] == Locate && t[m].linked;
    }
  }

  lemma LookupAt(d: Discipline, steps: seq<Step>, t: seq<State>, k: nat)
    requires IsRun(d, steps, t) && k < |steps|
    ensures t[k + 1].hasCleanup == t[k].hasCleanup
    ensures LookedUp(t[k + 1]) <==> LookedUp(t[k]) || (steps[k] == Locate && t[k].linked)
  {
    assert Goes(d, steps, t, k);
    RunKeepsInv(d, steps, t, k);
    LookupStep(d, t[k], steps[k]);
  }

  lemma {:induction false} LookedUpIff(d: Discipline, steps: seq<Step>, t: seq<State>, k: nat)
    requires IsRun(d, steps, t) && k < |t|
    ensures t[k].hasCleanup == t[0].hasCleanup
    ensures LookedUp(t[k]) <==> FoundBetween(steps, t, k)
    decreases k
  {
    if k > 0 {
      LookedUpIff(d, steps, t, k - 1);
      LookupAt(d, steps, t, k - 1);
      FoundStep(steps, t, k - 1);
    }
  }

  /** A reset() that has returned has run the cleanup function exactly once if the connection
      was made with one and was still there when reset() looked it up, and not at all otherwise;
      before it returns the function has not run. */
  lemma CleanupRunsIff(d: Discipline, steps: seq<Step>, t: seq<State>, k: nat, c: bool)
    requires IsRun(d, steps, t) && k < |t| && t[0] == Initial(c)
    ensures t[k].callee == Finished ==> t[k].cleanups == if c && FoundBetween(steps, t, k) then 1 else 0
    ensures t[k].callee != Finished ==> t[k].cleanups == 0
  {
    RunKeepsInv(d, steps, t, k);
    LookedUpIff(d, steps, t, k);
  }

  /** What `isConnected()` reports, reading the flag and the weak pointer together. */
  predicate Connected(s: State) {
    !s.severRequested && s.strong > 0
  }

  lemma {:induction false} DisconnectedIsFinal(d: Discipline, steps: seq<Step>, t: seq<State>, j: nat, k: nat)
    requires IsRun(d, steps, t) && j <= k < |t| && !Connected(t[j])
    ensures !Connected(t[k])
    decreases k
  {
    if j < k {
      assert Goes(d, steps, t, k - 1);
      DisconnectedIsFinal(d, steps, t, j, k - 1);
      DisconnectedStep(d, t[k - 1], steps[k - 1]);
    }
  }

  // ---------------------------------------------------------------- reachable states

  ghost predicate Reachable(d: Discipline, s: State) {
    exists steps, t :: IsRun(d, steps, t) && t[|t| - 1] == s
  }

  lemma ReachableInv(d: Discipline, s: State)
    requires Reachable(d, s)
    ensures Inv(d, s)
  {
    var steps, t :| IsRun(d, steps, t) && t[|t| - 1] == s;
    RunKeepsInv(d, steps, t, |t| - 1);
  }

  lemma InitialReachable(d: Discipline, c: bool)
    ensures Reachable(d, Initial(c))
  {
    assert IsRun(d, [], [Initial(c)]);
  }

  lemma Extend(d: Discipline, s: State, step: Step) returns (s': State)
    requires Reachable(d, s) && Enabled(d, s, step)
    ensures s' == Apply(d, s, step) && Reachable(d, s')
  {
    var steps, t :| IsRun(d, steps, t) && t[|t| - 1] == s;
    s' := Apply(d, s, step);
    var steps', t' := steps + [step], t + [s'];
    assert t'[0] == t[0];
    forall k: nat | k < |steps'| ensures Goes(d, steps', t', k) {
      if k < |steps| { assert Goes(d, steps, t, k); }
    }
    assert IsRun(d, steps', t');
    assert t'[|t'| - 1] == s';
  }

  /** Call 0 enters, passes the flag test, copies the weak pointer and starts the body. */
  lemma StartFirstCall(d: Discipline, c: bool) returns (s: State)
    ensures Reachable(d, s)
    ensures s == Initial(c).(calls := [Running], strong := 2)
  {
    InitialReachable(d, c);
    s := Extend(d, Initial(c), Enter);
    assert s.calls == [Entered];
    s := Extend(d, s, TestFlag(0));
    s := Extend(d, s, LockCopy(0));
    s := Extend(d, s, UnlockCopy(0));
    s := Extend(d, s, Acquire(0));
  }

  /** With no CallerHandle left reset() returns at once, without cleanup. */
  lemma UnlinkedResetReturns(d: Discipline) returns (s: State)
    ensures Reachable(d, s) && s.callee == Finished && !s.severRequested && s.hasCleanup && s.cleanups == 0
  {
    InitialReachable(d, true);
    s := Extend(d, Initial(true), Unlink);
    s := Extend(d, s, Drop);
    s := Extend(d, s, Locate);
  }

  /** A call that passed the flag test can still start its body after sever was
      requested, as long as another call keeps the callback alive. */
  lemma BodyMayStartAfterSeverRequested(d: Discipline, c: bool) returns (s: State, s': State)
    ensures Reachable(d, s) && Enabled(d, s, Acquire(1)) && s' == Apply(d, s, Acquire(1))
    ensures s.severRequested && s'.calls[1] == Running
  {
    s := StartFirstCall(d, c);
    s := Extend(d, s, Enter);
    s := Extend(d, s, TestFlag(1));
    s := Extend(d, s, Drop);
    s := Extend(d, s, Locate);
    s := Extend(d, s, SetFlag);
    s := Extend(d, s, LockCopy(1));
    s := Extend(d, s, UnlockCopy(1));
    s' := Extend(d, s, Acquire(1));
  }

  // ---------------------------------------------------------------- when sever() hangs

  /** sever() waits for a notify that no call is left to send. */
  ghost predicate Stuck(s: State) {
    s.callee == Blocked && !SomeInFlight(s)
  }

  lemma NoWorkNoStrong(d: Discipline, s: State)
    requires Inv(d, s) && !SomeInFlight(s) && s.callee != Holding
    ensures s.strong == 0
  {
    TotalZero(s.calls, IsRunning);
    forall i | 0 <= i < |s.calls| ensures IsRunning(s.calls[i]) == 0 {
      assert !InFlight(s, i);
    }
  }

  /** In a reachable state with sever() blocked on an expired callback, some call
      past the flag test has yet to notify, or at least one notify was sent since
      the expiry and every one of them fell between the predicate test and the block. */
  lemma BlockedAndExpired(d: Discipline, s: State)
    requires Reachable(d, s) && s.callee == Blocked && s.strong == 0
    ensures SomeInFlight(s) || (d == Bare && s.missed > 0)
    ensures s.notified == s.missed
    ensures d == UnderMutex ==> SomeInFlight(s)
  {
    ReachableInv(d, s);
  }

  lemma MoverIsInFlight(d: Discipline, s: State, step: Step)
    requires Enabled(d, s, step)
    ensures IsCallStep(step) && !step.TestFlag? ==> InFlight(s, step.i)
  {
  }

  lemma StaysStuck(d: Discipline, s: State, step: Step)
    requires Inv(d, s) && Stuck(s) && Enabled(d, s, step) && step != Spurious
    ensures Stuck(Apply(d, s, step))
  {
    var s' := Apply(d, s, step);
    MoverIsInFlight(d, s, step);
    forall j: nat ensures !InFlight(s', j) {
      assert !InFlight(s, j);
    }
  }

  /** Only a spurious wake-up ends a stuck state. */
  lemma StuckStays(d: Discipline, s: State, step: Step)
    requires Reachable(d, s) && Stuck(s) && Enabled(d, s, step) && step != Spurious
    ensures Stuck(Apply(d, s, step))
  {
    ReachableInv(d, s);
    StaysStuck(d, s, step);
  }

  /** reset() has set the flag while the body of call 0 runs. */
  lemma RequestWhileRunning(d: Discipline, c: bool) returns (s: State)
    ensures Reachable(d, s)
    ensures s == State([Running], Flagged, true, 1, Free, true, c, 0, 0, 0)
  {
    s := StartFirstCall(d, c);
    s := Extend(d, s, Drop);
    s := Extend(d, s, Locate);
    s := Extend(d, s, SetFlag);
  }

  /** And reads "not expired". */
  lemma CommitWhileRunning(d: Discipline, c: bool) returns (s: State)
    ensures Reachable(d, s)
    ensures s == State([Running], Committed, true, 1, ByCallee, true, c, 0, 0, 0)
  {
    s := RequestWhileRunning(d, c);
    s := Extend(d, s, Take);
    s := Extend(d, s, Test);
  }

  /** The body returns and its call reads "expired" before reset() blocks. */
  lemma ExpireBeforeBlock(d: Discipline, c: bool) returns (s: State)
    ensures Reachable(d, s)
    ensures s == State([MustNotify], Committed, true, 0, ByCallee, true, c, 0, 0, 0)
  {
    s := CommitWhileRunning(d, c);
    s := Extend(d, s, Release(0));
    assert s.calls == [Released];
    s := Extend(d, s, TestExpired(0));
    assert s.calls == [MustNotify];
  }

  /** The hang is real: the notify of the only call lands between test and block. */
  lemma StuckIsReachable(c: bool) returns (s: State)
    ensures Reachable(Bare, s) && Stuck(s) && s.strong == 0 && s.missed == 1
  {
    s := ExpireBeforeBlock(Bare, c);
    s := Extend(Bare, s, Notify(0));
    assert s.calls == [Returned];
    s := Extend(Bare, s, Block);
    assert forall i: nat :: !InFlight(s, i);
  }

  // ---------------------------------------------------------------- how long sever() can take

  /** The steps of calls past the flag test and of the callee itself. */
  predicate IsProgress(step: Step) {
    !step.Enter? && !step.TestFlag? && !step.Unlink? && !step.Spurious?
  }

  function CalleeRank(p: CalleePhase): nat {
    match p
    case Flagged => 6
    case Woken => 6
    case Testing => 5
    case Committed => 4
    case Blocked => 3
    case Drained => 1
    case Finished => 0
    case Holding => 9
    case Dropped => 8
    case Located => 7
  }

  function Energy(s: State): nat {
    4 * Work(s) + CalleeRank(s.callee)
  }

  lemma ExpiredCallStep(d: Discipline, s: State, step: Step, i: nat)
    requires Enabled(d, s, step) && s.strong == 0 && InFlight(s, i)
    ensures Apply(d, s, step).strong == 0
    ensures InFlight(Apply(d, s, step), i) || step == Notify(i)
  {
  }

  ghost predicate NotifiedBetween(steps: seq<Step>, j: nat, k: nat, i: nat) {
    exists m :: j <= m < k && m < |steps| && steps[m] == Notify(i)
  }

  lemma StaysExpired(d: Discipline, s: State, step: Step)
    requires Enabled(d, s, step) && s.strong == 0
    ensures Apply(d, s, step).strong == 0
  {
  }

  lemma {:induction false} ExpiredCallAlong(d: Discipline, steps: seq<Step>, t: seq<State>, j: nat, k: nat, i: nat)
    requires IsRun(d, steps, t) && j <= k < |t| && t[j].strong == 0 && InFlight(t[j], i)
    ensures t[k].strong == 0
    ensures InFlight(t[k], i) || NotifiedBetween(steps, j, k, i)
    decreases k
  {
    if j < k {
      assert Goes(d, steps, t, k - 1);
      ExpiredCallAlong(d, steps, t, j, k - 1, i);
      StaysExpired(d, t[k - 1], steps[k - 1]);
      if InFlight(t[k - 1], i) {
        ExpiredCallStep(d, t[k - 1], steps[k - 1], i);
      }
    }
  }

  /** The call that drops the last strong reference goes on to notify, and so does every other
      call past the flag test once the callback has expired: at any later point it is still
      under way or has notified, so none of them has returned without. */
  lemma ExpiredCallGoesOnToNotify(d: Discipline, steps: seq<Step>, t: seq<State>, j: nat, k: nat, i: nat)
    requires IsRun(d, steps, t) && j <= k < |t|
    requires (t[j].strong == 0 && InFlight(t[j], i))
      || (j < |steps| && j < k && steps[j] == Release(i) && t[j + 1].strong == 0)
    ensures InFlight(t[k], i) || NotifiedBetween(steps, j, k, i)
    ensures At(t[k], i, Returned) ==> NotifiedBetween(steps, j, k, i)
  {
    if t[j].strong == 0 && InFlight(t[j], i) {
      ExpiredCallAlong(d, steps, t, j, k, i);
    } else {
      assert Goes(d, steps, t, j);
      ExpiredCallAlong(d, steps, t, j + 1, k, i);
    }
  }

  lemma CallStepWorks(d: Discipline, s: State, step: Step)
    requires Enabled(d, s, step) && s.severRequested && IsCallStep(step)
    ensures step.i < |s.calls| == |Apply(d, s, step).calls|
    ensures var r, r' := Remaining(s.calls[step.i]), Remaining(Apply(d, s, step).calls[step.i]);
      if step.TestFlag? then r == r' else r' < r
  {
  }

  /** After the flag is set no call passes the flag test. */
  lemma NoNewFlight(d: Discipline, s: State, step: Step, i: nat)
    requires Enabled(d, s, step) && s.severRequested
    ensures Apply(d, s, step).severRequested
    ensures InFlight(Apply(d, s, step), i) ==> InFlight(s, i)
  {
  }

  lemma CalleeStepRank(d: Discipline, s: State, step: Step)
    requires PhaseInv(s) && Enabled(d, s, step) && s.severRequested
    ensures var p, p' := CalleeRank(s.callee), CalleeRank(Apply(d, s, step).callee);
      if step.Notify? || step == Spurious then p' <= p + 3
      else if IsProgress(step) && !IsCallStep(step) then p' < p
      else p' == p
  {
  }

  /** Every progress step lowers the energy, no other step raises it, except that a
      spurious wake-up adds three. */
  lemma EnergyStep(d: Discipline, s: State, step: Step)
    requires Inv(d, s) && Enabled(d, s, step) && s.severRequested
    ensures Energy(Apply(d, s, step)) + Progress(step) <= Energy(s) + 3 * Spuriousness(step)
  {
    TotalsStep(d, s, step);
    CalleeStepRank(d, s, step);
    if IsCallStep(step) { CallStepWorks(d, s, step); }
  }

  function Progress(step: Step): nat { if IsProgress(step) then 1 else 0 }
  function Spuriousness(step: Step): nat { if step == Spurious then 1 else 0 }

  /** With no work left the weak pointer has expired. */
  lemma DrainedAtZero(d: Discipline, s: State)
    requires Reachable(d, s) && s.severRequested && Work(s) == 0
    ensures s.strong == 0
  {
    ReachableInv(d, s);
    TotalZero(s.calls, Remaining);
    NoWorkNoStrong(d, s);
  }

  /** The progress steps, and the spurious wake-ups, from state j to state k. */
  function ProgressBetween(steps: seq<Step>, j: nat, k: nat): nat
    requires k <= |steps|
  {
    if k <= j then 0 else ProgressBetween(steps, j, k - 1) + Progress(steps[k - 1])
  }

  function SpuriousBetween(steps: seq<Step>, j: nat, k: nat): nat
    requires k <= |steps|
  {
    if k <= j then 0 else SpuriousBetween(steps, j, k - 1) + Spuriousness(steps[k - 1])
  }

  lemma EnergyAlong(d: Discipline, steps: seq<Step>, t: seq<State>, k: nat)
    requires IsRun(d, steps, t) && 0 < k < |t| && t[k - 1].severRequested
    ensures t[k].severRequested
    ensures Energy(t[k]) + Progress(steps[k - 1]) <= Energy(t[k - 1]) + 3 * Spuriousness(steps[k - 1])
  {
    assert Goes(d, steps, t, k - 1);
    RunKeepsInv(d, steps, t, k - 1);
    EnergyStep(d, t[k - 1], steps[k - 1]);
    NoNewFlight(d, t[k - 1], steps[k - 1], 0);
  }

  lemma {:induction false} FlagStays(d: Discipline, steps: seq<Step>, t: seq<State>, j: nat, k: nat)
    requires IsRun(d, steps, t) && j <= k < |t| && t[j].severRequested
    ensures t[k].severRequested
    decreases k
  {
    if j < k {
      assert Goes(d, steps, t, k - 1);
      FlagStays(d, steps, t, j, k - 1);
      NoNewFlight(d, t[k - 1], steps[k - 1], 0);
    }
  }

  lemma {:induction false} Telescope(steps: seq<Step>, energy: seq<nat>, j: nat, k: nat)
    requires |energy| == |steps| + 1 && j <= k < |energy|
    requires forall i | j <= i < k :: energy[i + 1] + Progress(steps[i]) <= energy[i] + 3 * Spuriousness(steps[i])
    ensures ProgressBetween(steps, j, k) + energy[k] <= energy[j] + 3 * SpuriousBetween(steps, j, k)
    decreases k
  {
    if j < k {
      Telescope(steps, energy, j, k - 1);
      assert energy[k - 1 + 1] + Progress(steps[k - 1]) <= energy[k - 1] + 3 * Spuriousness(steps[k - 1]);
    }
  }

  /** From the moment the flag is set, the progress steps of the whole rest of the
      run are bounded by the energy at that moment plus three per spurious wake-up. */
  lemma ProgressIsBounded(d: Discipline, steps: seq<Step>, t: seq<State>, j: nat, k: nat)
    requires IsRun(d, steps, t) && j <= k < |t| && t[j].severRequested
    ensures ProgressBetween(steps, j, k) + Energy(t[k]) <= Energy(t[j]) + 3 * SpuriousBetween(steps, j, k)
  {
    var energy: seq<nat> := seq(|t|, i requires 0 <= i < |t| => Energy(t[i]));
    forall i | j <= i < k
      ensures energy[i + 1] + Progress(steps[i]) <= energy[i] + 3 * Spuriousness(steps[i])
    {
      FlagStays(d, steps, t, j, i);
      EnergyAlong(d, steps, t, i + 1);
    }
    Telescope(steps, energy, j, k);
  }

  ghost predicate SomeProgressEnabled(d: Discipline, s: State) {
    exists step :: IsProgress(step) && Enabled(d, s, step)
  }

  lemma InFlightMayMove(d: Discipline, s: State, i: nat)
    requires Inv(d, s) && s.severRequested && InFlight(s, i)
    ensures SomeProgressEnabled(d, s)
  {
    if s.mutex == ByCallee {
      assert IsProgress(Test) && IsProgress(Block);
      assert Enabled(d, s, Test) || Enabled(d, s, Block);
    } else {
      var o := if s.mutex == Free then i else s.mutex.i;
      var p := s.calls[o];
      var step := if p == PastFlag then LockCopy(o) else if p == Copying then UnlockCopy(o)
                  else if p == Copied then Acquire(o) else if p == Running then Release(o)
                  else if p == Released then TestExpired(o)
                  else if p == MustNotify && d == UnderMutex then LockNotify(o) else Notify(o);
      if p == Running {
        TotalZero(s.calls, IsRunning);
      }
      assert IsProgress(step) && Enabled(d, s, step);
    }
  }

  /** With no call in flight only the callee can make progress. */
  lemma CalleeMayMove(d: Discipline, s: State)
    requires Inv(d, s) && s.severRequested && !SomeInFlight(s)
    ensures SomeProgressEnabled(d, s) <==> s.callee != Finished && s.callee != Blocked
  {
    assert s.mutex.ByCaller? ==> InFlight(s, s.mutex.i);
    if s.callee != Finished && s.callee != Blocked {
      var step := if s.callee == Testing then Test else if s.callee == Committed then Block
                  else if s.callee == Drained then Cleanup else Take;
      assert IsProgress(step) && Enabled(d, s, step);
    } else if SomeProgressEnabled(d, s) {
      var p :| IsProgress(p) && Enabled(d, s, p);
      MoverIsInFlight(d, s, p);
      assert false;
    }
  }

  /** A reachable state after the sever request can take no further protocol step
      exactly when every call past the flag has returned and reset() has too, or
      sever() is stuck; with the notify under the mutex it is never stuck. */
  lemma QuiescentIsFinishedOrStuck(d: Discipline, s: State)
    requires Reachable(d, s) && s.severRequested
    ensures !SomeProgressEnabled(d, s) <==> !SomeInFlight(s) && (s.callee == Finished || s.callee == Blocked)
    ensures Stuck(s) ==> d == Bare && s.strong == 0 && s.missed > 0 && s.notified == s.missed
  {
    ReachableInv(d, s);
    if SomeInFlight(s) {
      var i: nat :| InFlight(s, i);
      InFlightMayMove(d, s, i);
    } else {
      CalleeMayMove(d, s);
      if s.callee == Blocked { NoWorkNoStrong(d, s); }
    }
  }

  // ---------------------------------------------------------------- what clients rely on

  /** The connection as its users see it: whether the handle still keeps the callback,
      how many bodies run, whether reset() got past its wait, whether that wait may still
      miss its wake-up, and whether it has. */
  datatype Gate = Gate(held: bool, running: nat, closed: bool, atRisk: bool, stuck: bool)

  const OpenGate := Gate(true, 0, false, false, false)

  ghost predicate GateMove(g: Gate, g': Gate) {
    || g' == g
    || ((g.held || g.running > 0) && g' == g.(running := g.running + 1))
    || (g.running > 0 && g' == g.(running := g.running - 1))
    // A wake-up can be missed only if a body runs when the handle lets go ...
    || (g.held && g' == g.(held := false, atRisk := g.running > 0))
    // ... is missed after the last body, and a missed one needs a spurious wake-up.
    || (MayMiss(g) && g' == g.(atRisk := false, stuck := true))
    || (g.stuck && g' == g.(stuck := false))
    || (MayClose(g) && g' == g.(closed := true))
  }

  predicate MayMiss(g: Gate) {
    !g.held && g.running == 0 && !g.closed && g.atRisk
  }

  predicate MayClose(g: Gate) {
    !g.held && g.running == 0 && !g.stuck
  }

  /** The risk may pass unseen. */
  ghost predicate GateStep(g: Gate, g': Gate) {
    GateMove(g, g') || (!g'.atRisk && GateMove(g, g'.(atRisk := true)))
  }

  predicate Closed(p: CalleePhase) {
    p == Drained || p == Finished
  }

  ghost function View(s: State): Gate {
    Gate(s.callee == Holding, RunningCalls(s), Closed(s.callee),
         s.callee != Holding && !Closed(s.callee) && (s.strong > 0 || s.callee == Committed), Stuck(s))
  }

  /** Only Block, with nobody left to notify, gets sever() stuck. */
  lemma BecomesStuck(d: Discipline, s: State, step: Step)
    requires Inv(d, s) && Enabled(d, s, step) && !Stuck(s) && Stuck(Apply(d, s, step))
    ensures step == Block
  {
    var s' := Apply(d, s, step);
    if step != Block {
      StepKeepsInv(d, s, step);
      NoWorkNoStrong(d, s');
      var i: nat :| InFlight(s, i);
      assert !InFlight(s', i);
      FlightStep(d, s, step, i);
    }
  }

  /** When sever() is stuck after a step. */
  lemma StuckStep(d: Discipline, s: State, step: Step)
    requires Inv(d, s) && Enabled(d, s, step)
    ensures var s' := Apply(d, s, step);
      && (Stuck(s) ==> s.strong == 0 && (Stuck(s') <==> step != Spurious))
      && (!Stuck(s) && Stuck(s') ==> step == Block && s.strong == 0)
  {
    var s' := Apply(d, s, step);
    if Stuck(s) {
      NoWorkNoStrong(d, s);
      if step != Spurious { StaysStuck(d, s, step); }
    } else if Stuck(s') {
      BecomesStuck(d, s, step);
      StepKeepsInv(d, s, step);
      NoWorkNoStrong(d, s');
    }
  }

  lemma CallStepRefines(d: Discipline, s: State, step: Step)
    requires Inv(d, s) && Enabled(d, s, step) && IsCallStep(step)
    ensures GateStep(View(s), View(Apply(d, s, step)))
  {
    TotalsStep(d, s, step);
    StuckStep(d, s, step);
  }

  lemma CalleeStepRefines(d: Discipline, s: State, step: Step)
    requires Inv(d, s) && Enabled(d, s, step) && !IsCallStep(step)
    ensures GateStep(View(s), View(Apply(d, s, step)))
  {
    StepKeepsInv(d, s, step);
    TotalsStep(d, s, step);
    StuckStep(d, s, step);
  }

  /** Every step of the protocol is a step of the small specification. */
  lemma ProtocolRefinesGate(d: Discipline, s: State, step: Step)
    requires Inv(d, s) && Enabled(d, s, step)
    ensures GateStep(View(s), View(Apply(d, s, step)))
  {
    if IsCallStep(step) {
      CallStepRefines(d, s, step);
    } else {
      CalleeStepRefines(d, s, step);
    }
  }

  /** A reset() that let go of the callback and has not got past its wait can go no further,
      together with all calls, exactly when the specification calls it stuck; otherwise what it
      waits for is on its way.  With the documented order it is never stuck. */
  lemma StuckIffNoProgress(d: Discipline, s: State)
    requires Reachable(d, s) && s.callee != Holding && !Closed(s.callee)
    ensures View(s).stuck <==> !SomeProgressEnabled(d, s)
    ensures d == UnderMutex ==> !View(s).stuck
  {
    ReachableInv(d, s);
    if s.severRequested {
      QuiescentIsFinishedOrStuck(d, s);
    } else {
      var step := if s.callee == Dropped then Locate else SetFlag;
      assert IsProgress(step) && Enabled(d, s, step);
    }
  }

  /** The stuck gate is real. */
  lemma StuckGateIsReachable(c: bool) returns (s: State)
    ensures Reachable(Bare, s) && View(s) == Gate(false, 0, false, false, true)
  {
    s := StuckIsReachable(c);
    ReachableInv(Bare, s);
  }
}
