/**
The caller/callee protocol of `Connection`: any number of calls race one
`CalleeHandle::reset()`.  Every statement that touches shared state is one step,
so the interleavings of the steps are the interleavings of the threads.
*/
module CallbackProtocol {

  /** How a caller notifies: without the mutex, as the code does, or holding it,
      as the design's sequence diagram draws it. */
  datatype Discipline = Bare | UnderMutex

  /** One call of `Connection::operator()`. */
  datatype CallPhase =
    | Entered      // about to read sever_requested_
    | PastFlag     // read false; about to take callback_mtx_
    | Copying      // owns callback_mtx_, copying the weak pointer
    | Copied       // has its weak copy; about to lock() it
    | Running      // owns a strong reference; the callback body runs
    | Released     // owns no strong reference; about to read expired()
    | MustNotify   // read expired() == true
    | Notifying    // UnderMutex only: owns callback_mtx_, about to notify
    | Returned

  /** The one call of `CalleeHandle::reset()`. */
  datatype CalleePhase =
    | Holding      // reset() not called yet; the handle owns a strong reference
    | Dropped      // callback_.reset() done
    | Located      // connection_.lock() succeeded
    | Flagged      // sever_requested_ = true done
    | Testing      // owns callback_mtx_, about to evaluate the wait predicate
    | Committed    // read expired() == false, still owns callback_mtx_
    | Blocked      // waits in sever_cv_, callback_mtx_ given back
    | Woken        // notified or spuriously awake, wants callback_mtx_ back
    | Drained      // sever() returned
    | Finished     // reset() returned

  datatype Owner = Free | ByCallee | ByCaller(i: nat)

  /** `strong` is the use count of the callback's shared pointer and `linked`
      says that some CallerHandle still exists.  `notified` and `missed` are
      history: the notifies since the callback expired, and those among them
      that fell between the predicate test and the block. */
  datatype State = State(
    calls: seq<CallPhase>,
    callee: CalleePhase,
    severRequested: bool,
    strong: nat,
    mutex: Owner,
    linked: bool,
    hasCleanup: bool,
    cleanups: nat,
    notified: nat,
    missed: nat)

  datatype Step =
    | Enter
    | TestFlag(i: nat) | LockCopy(i: nat) | UnlockCopy(i: nat) | Acquire(i: nat)
    | Release(i: nat) | TestExpired(i: nat) | LockNotify(i: nat) | Notify(i: nat)
    | Unlink
    | Drop | Locate | SetFlag | Take | Test | Block | Spurious | Cleanup

  function Initial(hasCleanup: bool): State {
    State([], Holding, false, 1, Free, true, hasCleanup, 0, 0, 0)
  }

  predicate At(s: State, i: nat, p: CallPhase) {
    i < |s.calls| && s.calls[i] == p
  }

  predicate Enabled(d: Discipline, s: State, step: Step) {
    match step
    case Enter => s.linked
    case TestFlag(i) => At(s, i, Entered)
    case LockCopy(i) => At(s, i, PastFlag) && s.mutex == Free
    case UnlockCopy(i) => At(s, i, Copying)
    case Acquire(i) => At(s, i, Copied)
    case Release(i) => At(s, i, Running) && s.strong > 0
    case TestExpired(i) => At(s, i, Released)
    case LockNotify(i) => d == UnderMutex && At(s, i, MustNotify) && s.mutex == Free
    case Notify(i) => At(s, i, if d == Bare then MustNotify else Notifying)
    // A CallerHandle outlives its own call, so the last one goes only when no call is open.
    case Unlink => s.linked && forall i | 0 <= i < |s.calls| :: s.calls[i] == Returned
    case Drop => s.callee == Holding && s.strong > 0
    case Locate => s.callee == Dropped
    case SetFlag => s.callee == Located
    case Take => (s.callee == Flagged || s.callee == Woken) && s.mutex == Free
    case Test => s.callee == Testing
    case Block => s.callee == Committed
    case Spurious => s.callee == Blocked
    case Cleanup => s.callee == Drained
  }

  function To(s: State, i: nat, p: CallPhase): State
    requires i < |s.calls|
  {
    s.(calls := s.calls[i := p])
  }

  function Apply(d: Discipline, s: State, step: Step): State
    requires Enabled(d, s, step)
  {
    match step
    case Enter => s.(calls := s.calls + [Entered])
    case TestFlag(i) => To(s, i, if s.severRequested then Returned else PastFlag)
    case LockCopy(i) => To(s, i, Copying).(mutex := ByCaller(i))
    case UnlockCopy(i) => To(s, i, Copied).(mutex := Free)
    case Acquire(i) =>
      if s.strong > 0 then To(s, i, Running).(strong := s.strong + 1) else To(s, i, Released)
    case Release(i) => To(s, i, Released).(strong := s.strong - 1)
    case TestExpired(i) => To(s, i, if s.strong == 0 then MustNotify else Returned)
    case LockNotify(i) => To(s, i, Notifying).(mutex := ByCaller(i))
    case Notify(i) =>
      var wake := To(s, i, Returned).(
        callee := if s.callee == Blocked then Woken else s.callee,
        notified := s.notified + 1,
        missed := if s.callee == Committed then s.missed + 1 else s.missed);
      if d == Bare then wake else wake.(mutex := Free)
    case Unlink => s.(linked := false)
    case Drop => s.(callee := Dropped, strong := s.strong - 1)
    case Locate => s.(callee := if s.linked then Located else Finished)
    case SetFlag => s.(callee := Flagged, severRequested := true)
    case Take => s.(callee := Testing, mutex := ByCallee)
    case Test => if s.strong == 0 then s.(callee := Drained, mutex := Free) else s.(callee := Committed)
    case Block => s.(callee := Blocked, mutex := Free)
    case Spurious => s.(callee := Woken)
    case Cleanup => s.(callee := Finished, cleanups := if s.hasCleanup then s.cleanups + 1 else s.cleanups)
  }

  /** `t` is the sequence of states a run of `steps` goes through. */
  ghost predicate IsRun(d: Discipline, steps: seq<Step>, t: seq<State>) {
    && |t| == |steps| + 1
    && (exists c :: t[0] == Initial(c))
    && forall k: nat | k < |steps| :: Goes(d, steps, t, k)
  }

  /** Step `k` is possible in state `k` and leads to the next one. */
  ghost predicate Goes(d: Discipline, steps: seq<Step>, t: seq<State>, k: nat) {
    k < |steps| < |t| && Enabled(d, t[k], steps[k]) && t[k + 1] == Apply(d, t[k], steps[k])
  }

  // ---------------------------------------------------------------- counting calls

  function Total(calls: seq<CallPhase>, weight: CallPhase -> nat): nat {
    if calls == [] then 0 else weight(calls[0]) + Total(calls[1..], weight)
  }

  lemma {:induction false} TotalUpdate(calls: seq<CallPhase>, weight: CallPhase -> nat, i: nat, p: CallPhase)
    requires i < |calls|
    ensures Total(calls[i := p], weight) + weight(calls[i]) == Total(calls, weight) + weight(p)
  {
    if i == 0 {
      assert calls[i := p][1..] == calls[1..];
    } else {
      TotalUpdate(calls[1..], weight, i - 1, p);
      assert calls[i := p][1..] == calls[1..][i - 1 := p];
    }
  }

  lemma {:induction false} TotalAppend(calls: seq<CallPhase>, weight: CallPhase -> nat, p: CallPhase)
    ensures Total(calls + [p], weight) == Total(calls, weight) + weight(p)
  {
    if calls == [] {
      assert [p][1..] == [];
    } else {
      TotalAppend(calls[1..], weight, p);
      assert (calls + [p])[1..] == calls[1..] + [p];
    }
  }

  lemma {:induction false} TotalZero(calls: seq<CallPhase>, weight: CallPhase -> nat)
    ensures Total(calls, weight) == 0 <==> forall i | 0 <= i < |calls| :: weight(calls[i]) == 0
  {
    if calls != [] {
      TotalZero(calls[1..], weight);
      assert forall i | 0 < i < |calls| :: calls[i] == calls[1..][i - 1];
    }
  }

  function IsRunning(p: CallPhase): nat { if p == Running then 1 else 0 }

  /** Steps a call past the flag test still has to take. */
  function Remaining(p: CallPhase): nat {
    match p
    case PastFlag => 7
    case Copying => 6
    case Copied => 5
    case Running => 4
    case Released => 3
    case MustNotify => 2
    case Notifying => 1
    case Entered => 0
    case Returned => 0
  }

  function RunningCalls(s: State): nat { Total(s.calls, IsRunning) }

  function Work(s: State): nat { Total(s.calls, Remaining) }

  predicate InFlight(s: State, i: nat) {
    i < |s.calls| && Remaining(s.calls[i]) > 0
  }

  ghost predicate SomeInFlight(s: State) {
    exists i: nat :: InFlight(s, i)
  }

  // ---------------------------------------------------------------- the invariant

  predicate AfterFlag(p: CalleePhase) {
    p == Flagged || p == Testing || p == Committed || p == Blocked || p == Woken || p == Drained
  }

  /** The use count of the callback is the handle's reference plus one per running body. */
  ghost predicate Counted(s: State) {
    s.strong == (if s.callee == Holding then 1 else 0) + RunningCalls(s)
  }

  ghost predicate CountInv(s: State) {
    && Counted(s)
    && (s.callee == Drained || s.callee == Finished ==> s.strong == 0)
    && (!s.linked ==> forall i | 0 <= i < |s.calls| :: s.calls[i] == Returned)
  }

  ghost predicate MutexInv(d: Discipline, s: State) {
    && (s.mutex == ByCallee <==> s.callee == Testing || s.callee == Committed)
    && (forall i | 0 <= i < |s.calls| ::
          s.mutex == ByCaller(i) <==> s.calls[i] == Copying || s.calls[i] == Notifying)
    && (s.mutex.ByCaller? ==> s.mutex.i < |s.calls|)
    && (d == Bare ==> forall i | 0 <= i < |s.calls| :: s.calls[i] != Notifying)
  }

  ghost predicate PhaseInv(s: State) {
    && (AfterFlag(s.callee) ==> s.severRequested)
    && (s.callee == Holding || s.callee == Dropped || s.callee == Located ==> !s.severRequested)
    && s.cleanups == (if s.callee == Finished && s.severRequested && s.hasCleanup then 1 else 0)
  }

  /** Every call reads expired() == true only once the callback has expired, and
      the history counters say where the notifies since then went. */
  ghost predicate HistoryInv(d: Discipline, s: State) {
    && (s.strong > 0 ==> s.notified == 0)
    && (forall i | 0 <= i < |s.calls| :: s.calls[i] == MustNotify || s.calls[i] == Notifying ==> s.strong == 0)
    && s.missed <= s.notified
    && (s.callee == Committed || s.callee == Blocked ==> s.notified == s.missed)
    && (d == UnderMutex ==> s.missed == 0)
  }

  /** A waiting callee has someone left to wake it, unless a notify was missed. */
  ghost predicate WaitInv(s: State) {
    s.callee == Committed || s.callee == Blocked ==> s.strong > 0 || SomeInFlight(s) || s.missed > 0
  }

  ghost predicate Inv(d: Discipline, s: State) {
    CountInv(s) && MutexInv(d, s) && PhaseInv(s) && HistoryInv(d, s) && WaitInv(s)
  }

  predicate IsCallStep(step: Step) {
    || step.TestFlag? || step.LockCopy? || step.UnlockCopy? || step.Acquire?
    || step.Release? || step.TestExpired? || step.LockNotify? || step.Notify?
  }

  /** Which call a step moves, if any. */
  lemma StepShape(d: Discipline, s: State, step: Step)
    requires Enabled(d, s, step)
    ensures var s' := Apply(d, s, step);
      if IsCallStep(step) then
        step.i < |s.calls| == |s'.calls| && s'.calls == s.calls[step.i := s'.calls[step.i]]
      else s'.calls == if step == Enter then s.calls + [Entered] else s.calls
  {
  }

  /** What a step does to the two totals. */
  lemma TotalsStep(d: Discipline, s: State, step: Step)
    requires Enabled(d, s, step)
    ensures var s' := Apply(d, s, step);
      if IsCallStep(step) then
        && step.i < |s.calls| == |s'.calls|
        && RunningCalls(s') + IsRunning(s.calls[step.i]) == RunningCalls(s) + IsRunning(s'.calls[step.i])
        && Work(s') + Remaining(s.calls[step.i]) == Work(s) + Remaining(s'.calls[step.i])
      else RunningCalls(s') == RunningCalls(s) && Work(s') == Work(s)
  {
    StepShape(d, s, step);
    var s' := Apply(d, s, step);
    if IsCallStep(step) {
      TotalUpdate(s.calls, IsRunning, step.i, s'.calls[step.i]);
      TotalUpdate(s.calls, Remaining, step.i, s'.calls[step.i]);
    } else if step == Enter {
      TotalAppend(s.calls, IsRunning, Entered);
      TotalAppend(s.calls, Remaining, Entered);
    }
  }

  lemma StepKeepsCounted(d: Discipline, s: State, step: Step)
    requires Counted(s) && Enabled(d, s, step)
    ensures Counted(Apply(d, s, step))
  {
    TotalsStep(d, s, step);
  }

  lemma StepKeepsCount(d: Discipline, s: State, step: Step)
    requires Inv(d, s) && Enabled(d, s, step)
    ensures CountInv(Apply(d, s, step))
  {
    StepKeepsCounted(d, s, step);
    if step == Locate { TotalZero(s.calls, IsRunning); }
  }

  lemma StepKeepsMutex(d: Discipline, s: State, step: Step)
    requires MutexInv(d, s) && Enabled(d, s, step)
    ensures MutexInv(d, Apply(d, s, step))
  {
    StepShape(d, s, step);
    var s' := Apply(d, s, step);
    forall i | 0 <= i < |s'.calls|
      ensures s'.mutex == ByCaller(i) <==> s'.calls[i] == Copying || s'.calls[i] == Notifying
    {
      assert i < |s.calls| ==> (s.mutex == ByCaller(i) <==> s.calls[i] == Copying || s.calls[i] == Notifying);
    }
  }

  lemma StepKeepsPhase(d: Discipline, s: State, step: Step)
    requires PhaseInv(s) && Enabled(d, s, step)
    ensures PhaseInv(Apply(d, s, step))
  {
  }

  lemma StepKeepsHistory(d: Discipline, s: State, step: Step)
    requires MutexInv(d, s) && HistoryInv(d, s) && Enabled(d, s, step)
    ensures HistoryInv(d, Apply(d, s, step))
  {
    StepShape(d, s, step);
    var s' := Apply(d, s, step);
    forall i | 0 <= i < |s'.calls| && (s'.calls[i] == MustNotify || s'.calls[i] == Notifying) ensures s'.strong == 0 {
      if !(IsCallStep(step) && step.i == i) { assert i < |s.calls| && s.calls[i] == s'.calls[i]; }
    }
  }

  /** A call past the flag test leaves only by notifying, or by reading "not expired". */
  lemma FlightStep(d: Discipline, s: State, step: Step, i: nat)
    requires Enabled(d, s, step) && InFlight(s, i)
    ensures InFlight(Apply(d, s, step), i) || step == Notify(i) || (step == TestExpired(i) && s.strong > 0)
    ensures step.Release? ==> InFlight(Apply(d, s, step), step.i)
  {
  }

  lemma StepKeepsWait(d: Discipline, s: State, step: Step)
    requires Inv(d, s) && Enabled(d, s, step)
    ensures WaitInv(Apply(d, s, step))
  {
    if SomeInFlight(s) {
      var i: nat :| InFlight(s, i);
      FlightStep(d, s, step, i);
    }
    if step.Release? {
      assert InFlight(s, step.i);
      FlightStep(d, s, step, step.i);
    }
  }

  lemma StepKeepsInv(d: Discipline, s: State, step: Step)
    requires Inv(d, s) && Enabled(d, s, step)
    ensures Inv(d, Apply(d, s, step))
  {
    StepKeepsCount(d, s, step);
    StepKeepsMutex(d, s, step);
    StepKeepsPhase(d, s, step);
    StepKeepsHistory(d, s, step);
    StepKeepsWait(d, s, step);
  }

  lemma {:induction false} RunKeepsInv(d: Discipline, steps: seq<Step>, t: seq<State>, k: nat)
    requires IsRun(d, steps, t) && k < |t|
    ensures Inv(d, t[k])
    decreases k
  {
    if k > 0 {
      assert Goes(d, steps, t, k - 1);
      RunKeepsInv(d, steps, t, k - 1);
      StepKeepsInv(d, t[k - 1], steps[k - 1]);
    }
  }
}
