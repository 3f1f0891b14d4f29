/** What became of a request, traced through whole runs to what caused it. */
module RpcOutcomes {
  import opened Datamodel
  import opened PendingQueue
  import opened RpcRuntime
  import opened RpcRuntimeProofs
  import opened RpcTheorems
  import R = RpcRequest

  /** What concerns a request alone is done to it by its own step. */
  lemma OwnEvent(s: System, step: Step, r: nat)
    requires r < |s.reqs| && Enabled(s, step)
    ensures EventOf(s, step, r).Some? && IsLocal(EventOf(s, step, r).value) ==>
      step == Local(r, EventOf(s, step, r).value)
    ensures step.Local? && step.r == r ==> EventOf(s, step, r) == Some(step.e)
  {
  }

  lemma RunOwnEvent(steps: seq<Step>, t: seq<System>, k: nat, r: nat) returns (e: Option<R.Event>)
    requires IsRun(steps, t) && k < |steps| && r < |t[k].reqs|
    ensures r < |t[k + 1].reqs|
    ensures match e
      case None => t[k + 1].reqs[r] == t[k].reqs[r]
      case Some(v) => R.Enabled(t[k].reqs[r], v) && t[k + 1].reqs[r] == R.Next(t[k].reqs[r], v)
    ensures e.Some? && IsLocal(e.value) ==> steps[k] == Local(r, e.value)
    ensures steps[k].Local? && steps[k].r == r ==> e == Some(steps[k].e)
  {
    assert Goes(steps, t, k);
    RunKeepsInv(steps, t, k);
    RequestStep(t[k], steps[k], r);
    OwnEvent(t[k], steps[k], r);
    e := EventOf(t[k], steps[k], r);
  }

  // ---------------------------------------------------------------- where a request comes from

  lemma InvokedStep(s: System, step: Step, r: nat)
    requires Inv(s) && Enabled(s, step) && r < |Apply(s, step).reqs|
    ensures if r < |s.reqs| then
        var q, q' := s.reqs[r], Apply(s, step).reqs[r];
        q'.client == q.client && q'.deadline == q.deadline && q'.reqid == q.reqid
      else step.Invoke? && r == |s.reqs| && Apply(s, step).reqs[r] == R.New(step.client, s.clock + step.ttl, step.reqid)
  {
    NewRequest(s, step);
    if r < |s.reqs| {
      RequestStep(s, step, r);
      var ev := EventOf(s, step, r);
      if ev.Some? { R.EventIsMonotone(s.reqs[r], ev.value); }
    }
  }

  /** Every request was made by one invokeMethod, of its client and with its id, and is due
      exactly its TTL after that. */
  lemma {:induction false} MadeBy(steps: seq<Step>, t: seq<System>, k: nat, r: nat) returns (m: nat)
    requires IsRun(steps, t) && k < |t| && r < |t[k].reqs|
    ensures m < k && steps[m].Invoke? && |t[m].reqs| == r
    ensures var q := t[k].reqs[r];
      q.client == steps[m].client && q.reqid == steps[m].reqid && q.deadline == t[m].clock + steps[m].ttl
    decreases k
  {
    assert Goes(steps, t, k - 1);
    RunKeepsInv(steps, t, k - 1);
    InvokedStep(t[k - 1], steps[k - 1], r);
    if r < |t[k - 1].reqs| {
      m := MadeBy(steps, t, k - 1, r);
    } else {
      m := k - 1;
    }
  }

  /** DEADLINE_EXCEEDED comes at least the TTL after the invocation. */
  lemma DeadlineTakesTtl(steps: seq<Step>, t: seq<System>, k: nat, r: nat) returns (m: nat)
    requires IsRun(steps, t) && k < |t| && r < |t[k].reqs| && t[k].reqs[r].once == Some(R.DeadlineExceeded)
    ensures m < k && steps[m].Invoke? && |t[m].reqs| == r && t[m].clock + steps[m].ttl <= t[k].clock
  {
    m := MadeBy(steps, t, k, r);
    OutcomeIsAttributed(steps, t, k, r);
  }

  // ---------------------------------------------------------------- transport failures

  ghost predicate Happened(steps: seq<Step>, k: nat, step: Step)
    requires k <= |steps|
  {
    exists m :: 0 <= m < k && steps[m] == step
  }

  lemma HappenedStays(steps: seq<Step>, j: nat, k: nat, step: Step)
    requires j <= k <= |steps| && Happened(steps, j, step)
    ensures Happened(steps, k, step)
  {
    var m :| 0 <= m < j && steps[m] == step;
    assert steps[m] == step;
  }

  lemma HappenedNow(steps: seq<Step>, k: nat)
    requires k < |steps|
    ensures Happened(steps, k + 1, steps[k])
  {
  }

  lemma {:induction false} RefusalHasCause(steps: seq<Step>, t: seq<System>, k: nat, r: nat, code: int)
    requires IsRun(steps, t) && k < |t| && r < |t[k].reqs| && R.IsRefused(t[k].reqs[r].place, code)
    ensures Happened(steps, k, Local(r, R.RegisterFails(code)))
    decreases k
  {
    var j := k - 1;
    FreshIsCreated(steps, t, k, r);
    var e := RunOwnEvent(steps, t, j, r);
    HappenedNow(steps, j);
    if e.Some? { R.FailureEvent(t[j].reqs[r], e.value, code); }
    if R.IsRefused(t[j].reqs[r].place, code) {
      RefusalHasCause(steps, t, j, r, code);
      HappenedStays(steps, j, k, Local(r, R.RegisterFails(code)));
    }
  }

  /** A request that has left `Created`, or is resolved, existed one step earlier. */
  lemma FreshIsCreated(steps: seq<Step>, t: seq<System>, k: nat, r: nat)
    requires IsRun(steps, t) && k < |t| && r < |t[k].reqs|
    requires t[k].reqs[r].place != R.Created || t[k].reqs[r].once.Some?
    ensures k > 0 && r < |t[k - 1].reqs|
  {
    assert k > 0;
    assert Goes(steps, t, k - 1);
    RunKeepsInv(steps, t, k - 1);
    InvokedStep(t[k - 1], steps[k - 1], r);
  }

  /** A transport failure is reported with the very code the transport gave. */
  lemma {:induction false} FailureHasCause(steps: seq<Step>, t: seq<System>, k: nat, r: nat, code: int)
    requires IsRun(steps, t) && k < |t| && r < |t[k].reqs| && t[k].reqs[r].once == Some(R.TransportFailure(code))
    ensures Happened(steps, k, Local(r, R.SendFails(code))) || Happened(steps, k, Local(r, R.RegisterFails(code)))
    decreases k
  {
    var j := k - 1;
    FreshIsCreated(steps, t, k, r);
    var e := RunOwnEvent(steps, t, j, r);
    HappenedNow(steps, j);
    if t[j].reqs[r].once == t[k].reqs[r].once {
      FailureHasCause(steps, t, j, r, code);
      if Happened(steps, j, Local(r, R.SendFails(code))) {
        HappenedStays(steps, j, k, Local(r, R.SendFails(code)));
      } else {
        HappenedStays(steps, j, k, Local(r, R.RegisterFails(code)));
      }
    } else {
      R.FailureEvent(t[j].reqs[r], e.value, code);
      if e == Some(R.CloseDone) {
        RefusalHasCause(steps, t, j, r, code);
        HappenedStays(steps, j, k, Local(r, R.RegisterFails(code)));
      }
    }
  }

  /** A failing send on an unresolved request ends it with the transport's code. */
  lemma SendFailureIsReported(steps: seq<Step>, t: seq<System>, m: nat, k: nat, r: nat, code: int)
    requires IsRun(steps, t) && m < k < |t| && steps[m] == Local(r, R.SendFails(code))
    requires r < |t[m].reqs| && t[m].reqs[r].once == None
    ensures r < |t[k].reqs| && t[k].reqs[r].once == Some(R.TransportFailure(code))
  {
    var e := RunOwnEvent(steps, t, m, r);
    R.FailureReported(t[m].reqs[r], code);
    OutcomeIsFinal(steps, t, m + 1, k, r);
  }

  lemma {:induction false} RefusalStays(steps: seq<Step>, t: seq<System>, m: nat, k: nat, r: nat, code: int)
    requires IsRun(steps, t) && m < k < |t| && steps[m] == Local(r, R.RegisterFails(code)) && r < |t[m].reqs|
    ensures r < |t[k].reqs| && (R.IsRefused(t[k].reqs[r].place, code) || t[k].reqs[r].place == R.Failed)
    decreases k
  {
    var j := k - 1;
    if m < j {
      RefusalStays(steps, t, m, j, r, code);
    }
    var e := RunOwnEvent(steps, t, j, r);
    if e.Some? { R.FailureEvent(t[j].reqs[r], e.value, code); }
  }

  /** A refused registration does so once the listener handle is gone. */
  lemma RefusalIsReported(steps: seq<Step>, t: seq<System>, m: nat, n: nat, k: nat, r: nat, code: int)
    requires IsRun(steps, t) && m < n < k < |t| && r < |t[m].reqs|
    requires steps[m] == Local(r, R.RegisterFails(code)) && steps[n] == Local(r, R.CloseDone)
    ensures r < |t[n].reqs| && r < |t[k].reqs|
    ensures t[n].reqs[r].once == None ==> t[k].reqs[r].once == Some(R.TransportFailure(code))
  {
    RefusalStays(steps, t, m, n, r, code);
    var e := RunOwnEvent(steps, t, n, r);
    if t[n].reqs[r].once == None { R.FailureReported(t[n].reqs[r], code); }
    OutcomeIsFinal(steps, t, n + 1, k, r);
  }

  // ---------------------------------------------------------------- cancellations, silence

  /** A request that a scrub took ends with a response that was acted on before, or CANCELLED. */
  lemma {:induction false} ScrubbedEnds(steps: seq<Step>, t: seq<System>, j: nat, k: nat, r: nat)
    requires IsRun(steps, t) && j <= k < |t| && r < |t[j].reqs| && t[j].reqs[r].place.Collected?
    ensures r < |t[k].reqs| && R.Scrubbed(t[k].reqs[r])
    decreases k
  {
    if j < k {
      ScrubbedEnds(steps, t, j, k - 1, r);
      RequestAt(steps, t, k - 1, r);
      var e := RunEvent(steps, t, k - 1, r);
      if e.Some? { R.ScrubbedStays(t[k - 1].reqs[r], e.value); }
    } else {
      RequestAt(steps, t, k, r);
      R.CollectedIsScrubbed(t[k].reqs[r]);
    }
  }

  lemma {:induction false} UnkeptIsSilent(steps: seq<Step>, t: seq<System>, j: nat, k: nat, r: nat)
    requires IsRun(steps, t) && j <= k < |t| && r < |t[j].reqs| && !t[j].reqs[r].kept
    ensures r < |t[k].reqs| && !t[k].reqs[r].kept && t[k].reqs[r].runs == t[j].reqs[r].runs
    decreases k
  {
    if j < k {
      UnkeptIsSilent(steps, t, j, k - 1, r);
      var e := RunEvent(steps, t, k - 1, r);
      if e.Some? { R.EventIsMonotone(t[k - 1].reqs[r], e.value); }
    }
  }

  /** Once the user drops the InvokeHandle, or invokeMethod has thrown, the callback does not run
      any more. */
  lemma DroppedIsSilent(steps: seq<Step>, t: seq<System>, j: nat, k: nat, r: nat)
    requires IsRun(steps, t) && j < k < |t| && r < |t[j].reqs|
    requires steps[j] == Local(r, R.DropInvokeHandle) || t[j].reqs[r].place == R.Threw
    ensures r < |t[k].reqs| && t[k].reqs[r].runs == t[j].reqs[r].runs
  {
    var e := RunOwnEvent(steps, t, j, r);
    RequestAt(steps, t, j, r);
    if t[j].reqs[r].place == R.Threw {
      UnkeptIsSilent(steps, t, j, k, r);
    } else {
      UnkeptIsSilent(steps, t, j + 1, k, r);
    }
  }
}
