/**
The RPC client runtime: any number of clients and requests, the transport threads,
the one expiry worker with its queue, mutex and condition variable, client discard and
worker shutdown.  What happens while `pending_mtx_` is held is one step, except for a scrub:
it destroys listener handles, and so may wait for running wrappers, with the mutex held.
*/
module RpcRuntime {
  import opened Datamodel
  import opened PendingQueue
  import R = RpcRequest

  /** An ExpireService instance.  `todo` is what its scrub took out and has yet to cancel,
      `left` what of it stands where erase has yet to destroy it. */
  datatype Client =
    | Live
    | Scrubbing(todo: seq<Pending>, left: seq<Pending>)   // holds pending_mtx_
    | Cancelling(todo: seq<Pending>)
    | Gone

  /** Where doWork() is. */
  datatype Worker =
    | Top                  // about to test stop_ and read the clock
    | Clocked(now: int)    // about to look at the front of the queue
    | Handling(r: nat)     // popped r: severs its listener, then expires it
    | Deciding             // found nothing due; about to choose how to sleep
    | Idle | IdleWoken     // wait()
    | Timed(wake: int) | TimedWoken(wake: int)   // wait_until(wake)
    | Exited

  /** ~ExpireWorker: stop_ set, then notified under the mutex, then joined. */
  datatype Shutdown = Alive | StopSet | Notified | Joined

  /** `mutex` is the client whose scrub holds pending_mtx_ across steps, if any. */
  datatype System = System(
    reqs: seq<R.Invocation>,
    c: seq<Pending>,
    clients: seq<Client>,
    clock: int,
    worker: Worker,
    stop: bool,
    shutdown: Shutdown,
    mutex: Option<nat>)

  /** Steps that push or pop carry the vector the heap operation leaves. */
  datatype Step =
    | NewClient
    | Invoke(client: nat, ttl: int, reqid: UUID)
    | Local(r: nat, e: R.Event)
    | Enqueue(r: nat, c': seq<Pending>)
    | Discard(i: nat) | SweepNext(i: nat) | Unlock(i: nat) | CancelNext(i: nat) | DiscardDone(i: nat)
    | Tick(dt: nat)
    | Work(c': seq<Pending>) | Spurious | Timeout
    | SetStop | NotifyStop | Join | ShutDownNext

  const Initial := System([], [], [], 0, Top, false, Alive, None)

  /** Events that concern the request alone. */
  predicate IsLocal(e: R.Event) {
    || e.RegisterThrows? || e.Establish? || e.RegisterFails? || e.RegisterWorks?
    || e.SendThrows? || e.SendFails? || e.SendWorks?
    || e.CloseListener? || e.CloseDone? || e.DropInvokeHandle? || e.DropFired?
    || e.BodyBegins? || e.BodyActs? || e.BodyEnds? || e.Miss? || e.WakeUp?
  }

  function Entry(reqs: seq<R.Invocation>, r: nat): Pending
    requires r < |reqs|
  {
    Pending(r, reqs[r].deadline, reqs[r].client)
  }

  /** The worker, having read `now`, finds the front request due. */
  predicate FrontDue(s: System) {
    s.worker.Clocked? && s.c != [] && s.c[0].deadline <= s.worker.now
  }

  /** The next action of the worker takes pending_mtx_. */
  predicate TakesMutex(w: Worker) {
    w.Clocked? || w == Deciding || w == IdleWoken || w.TimedWoken?
  }

  /** Whoever destroys the handle of `q` can go on. */
  predicate HandleMoves(q: R.Invocation) {
    R.StageOf(q.place).Some? && (q.place.stage == R.Intact || (q.place.stage.Severed? && R.Quiet(q)))
  }

  /** What scrub's erase is to destroy next. */
  predicate Sweeps(s: System, i: nat) {
    && i < |s.clients| && s.clients[i].Scrubbing? && s.clients[i].left != []
    && s.clients[i].left[0].id < |s.reqs| && s.reqs[s.clients[i].left[0].id].place.Collected?
  }

  predicate Enabled(s: System, step: Step) {
    match step
    case NewClient => true
    case Invoke(i, ttl, _) => i < |s.clients| && s.clients[i] == Live && ttl > 0
    case Local(r, e) => r < |s.reqs| && IsLocal(e) && R.Enabled(s.reqs[r], e)
    case Enqueue(r, c') =>
      && r < |s.reqs| && s.reqs[r].place == R.Sent && s.shutdown != Joined && s.mutex.None?
      && Pushed(s.c, Entry(s.reqs, r), c')
    // No invokeMethod of a client is under way when the client is destroyed.
    case Discard(i) =>
      && i < |s.clients| && s.clients[i] == Live && s.shutdown != Joined && s.mutex.None?
      && forall r | 0 <= r < |s.reqs| :: s.reqs[r].client == i ==> !R.Invoking(s.reqs[r].place)
    case SweepNext(i) => Sweeps(s, i) && HandleMoves(s.reqs[s.clients[i].left[0].id])
    case Unlock(i) => i < |s.clients| && s.clients[i].Scrubbing? && s.clients[i].left == []
    case CancelNext(i) => i < |s.clients| && s.clients[i].Cancelling? && s.clients[i].todo != []
    case DiscardDone(i) => i < |s.clients| && s.clients[i] == Cancelling([])
    case Tick(_) => true
    case Work(c') =>
      && (TakesMutex(s.worker) ==> s.mutex.None?)
      && (match s.worker
          case Clocked(_) => FrontDue(s) ==> Popped(s.c, c')
          case Handling(r) => r < |s.reqs| && (HandleMoves(s.reqs[r]) || s.reqs[r].place == R.Held(R.Drained))
          case Idle => false
          case Timed(_) => false
          case Exited => false
          case _ => true)
    case Spurious => s.worker.Idle? || s.worker.Timed?
    case Timeout => s.worker.Timed? && s.worker.wake <= s.clock && s.mutex.None?
    case SetStop => s.shutdown == Alive
    case NotifyStop => s.shutdown == StopSet && s.mutex.None?
    case Join => s.shutdown == Notified && s.worker == Exited && s.mutex.None?
    case ShutDownNext => s.shutdown == Joined && s.c != []
  }

  function HandleEvent(q: R.Invocation): R.Event {
    if R.StageOf(q.place) == Some(R.Intact) then R.DropListener else R.ListenerDrained
  }

  /** What a step does to request `r`, if anything. */
  function EventOf(s: System, step: Step, r: nat): Option<R.Event>
    requires r < |s.reqs|
  {
    match step
    case Local(q, e) => if q == r then Some(e) else None
    case Enqueue(q, _) => if q == r then Some(R.Enqueued) else None
    case Discard(i) =>
      if s.reqs[r].client == i && s.reqs[r].place == R.Pending
      then Some(R.Collect(Entry(s.reqs, r) in Destroyed(s.c, i))) else None
    case SweepNext(i) =>
      if Sweeps(s, i) && s.clients[i].left[0].id == r then Some(HandleEvent(s.reqs[r])) else None
    case CancelNext(i) =>
      if i < |s.clients| && s.clients[i].Cancelling? && s.clients[i].todo != [] && s.clients[i].todo[0].id == r
      then Some(R.Cancel) else None
    case Work(_) =>
      if FrontDue(s) && s.c[0].id == r then Some(R.Hold)
      else if s.worker == Handling(r) then
        Some(if s.reqs[r].place == R.Held(R.Drained) then R.Expire else HandleEvent(s.reqs[r]))
      else None
    case ShutDownNext => if s.c != [] && s.c[0].id == r then Some(R.ShutDown) else None
    case _ => None
  }

  function After(q: R.Invocation, e: Option<R.Event>): R.Invocation {
    if e.Some? && R.Enabled(q, e.value) then R.Next(q, e.value) else q
  }

  function Requests(s: System, step: Step): seq<R.Invocation> {
    var moved := seq(|s.reqs|, r requires 0 <= r < |s.reqs| => After(s.reqs[r], EventOf(s, step, r)));
    match step
    case Invoke(i, ttl, reqid) => moved + [R.New(i, s.clock + ttl, reqid)]
    case _ => moved
  }

  function Wake(w: Worker): Worker {
    match w
    case Idle => IdleWoken
    case Timed(t) => TimedWoken(t)
    case _ => w
  }

  /** doWork() from where it is to its next atomic action. */
  function WorkerNext(s: System): Worker {
    match s.worker
    case Top => if s.stop then Exited else Clocked(s.clock)
    case Clocked(_) => if FrontDue(s) then Handling(s.c[0].id) else Deciding
    case Handling(r) =>
      if r < |s.reqs| && s.reqs[r].place == R.Held(R.Drained) then Top else s.worker
    case Deciding =>
      if s.c == [] then (if s.stop then Top else Idle)
      else if s.stop || s.c[0].deadline <= s.clock then Top
      else Timed(s.c[0].deadline)
    case IdleWoken => if s.stop || s.c != [] then Top else Idle
    case TimedWoken(w) =>
      if s.stop || s.c == [] || s.c[0].deadline != w || s.c[0].deadline <= s.clock then Top else Timed(w)
    case _ => s.worker
  }

  function Apply(s: System, step: Step): System
    requires Enabled(s, step)
  {
    var t := s.(reqs := Requests(s, step));
    match step
    case NewClient => t.(clients := s.clients + [Live])
    case Invoke(_, _, _) => t
    case Local(_, _) => t
    case Enqueue(_, c') => t.(c := c', worker := Wake(s.worker))
    case Discard(i) =>
      t.(c := Keep(s.c, i),
         clients := s.clients[i := Scrubbing(Take(s.c, i), Destroyed(s.c, i))],
         mutex := Some(i))
    case SweepNext(i) =>
      var k := s.clients[i];
      t.(clients := s.clients[i := k.(left :=
        if s.reqs[k.left[0].id].place == R.Collected(R.Intact) then k.left else k.left[1..])])
    case Unlock(i) =>
      t.(clients := s.clients[i := Cancelling(s.clients[i].todo)], worker := Wake(s.worker), mutex := None)
    case CancelNext(i) => t.(clients := s.clients[i := Cancelling(s.clients[i].todo[1..])])
    case DiscardDone(i) => t.(clients := s.clients[i := Gone])
    case Tick(dt) => t.(clock := s.clock + dt)
    case Work(c') => t.(c := if FrontDue(s) then c' else s.c, worker := WorkerNext(s))
    case Spurious => t.(worker := Wake(s.worker))
    case Timeout => t.(worker := Top)
    case SetStop => t.(stop := true, shutdown := StopSet)
    case NotifyStop => t.(shutdown := Notified, worker := Wake(s.worker))
    case Join => t.(shutdown := Joined)
    case ShutDownNext => t.(c := s.c[1..])
  }

  /** `t` is the sequence of states a run of `steps` goes through. */
  ghost predicate IsRun(steps: seq<Step>, t: seq<System>) {
    && |t| == |steps| + 1
    && t[0] == Initial
    && forall k: nat | k < |steps| :: Goes(steps, t, k)
  }

  /** Step `k` is possible in state `k` and leads to the next one. */
  ghost predicate Goes(steps: seq<Step>, t: seq<System>, k: nat) {
    k < |steps| < |t| && Enabled(t[k], steps[k]) && t[k + 1] == Apply(t[k], steps[k])
  }

  // ---------------------------------------------------------------- invariant

  ghost predicate RequestsInv(s: System) {
    forall r | 0 <= r < |s.reqs| :: R.RequestInv(s.reqs[r])
  }

  /** What a request's state says about the clock, its client and the shutdown. */
  ghost predicate ContextInv(s: System, q: R.Invocation) {
    && q.client < |s.clients|
    && (q.place.Held? || q.once == Some(R.DeadlineExceeded) ==> q.deadline <= s.clock)
    && (q.once == Some(R.Cancelled) || q.place.Collected? ==> s.clients[q.client] != Live)
    && (q.once == Some(R.Internal) ==> s.shutdown == Joined)
    && (s.clients[q.client] != Live ==>
          q.place.Held? || q.place.Collected? || q.place == R.Fired || q.place == R.Failed || q.place == R.Threw)
  }

  ghost predicate ContextsInv(s: System) {
    forall r | 0 <= r < |s.reqs| :: ContextInv(s, s.reqs[r])
  }

  /** `list` holds exactly the requests of `reqs` that satisfy `here`, each once. */
  ghost predicate Lists(list: seq<Pending>, reqs: seq<R.Invocation>, here: R.Invocation -> bool) {
    && (forall p | p in list :: p.id < |reqs| && p == Entry(reqs, p.id))
    && (forall r | 0 <= r < |reqs| :: multiset(list)[Entry(reqs, r)] == if here(reqs[r]) then 1 else 0)
  }

  function InQueue(): R.Invocation -> bool {
    (q: R.Invocation) => q.place == R.Pending
  }

  function TakenFrom(i: nat): R.Invocation -> bool {
    (q: R.Invocation) => q.place.Collected? && q.client == i
  }

  /** Taken out, with its handle yet to be destroyed. */
  function InTail(i: nat): R.Invocation -> bool {
    (q: R.Invocation) =>
      q.place.Collected? && q.client == i && q.place.stage != R.Drained && q.place.stage != R.Orphaned
  }

  function Todo(s: System, i: nat): seq<Pending>
    requires i < |s.clients|
  {
    if s.clients[i].Scrubbing? || s.clients[i].Cancelling? then s.clients[i].todo else []
  }

  function Left(s: System, i: nat): seq<Pending>
    requires i < |s.clients|
  {
    if s.clients[i].Scrubbing? then s.clients[i].left else []
  }

  ghost predicate QueueInv(s: System) {
    Lists(s.c, s.reqs, InQueue())
  }

  ghost predicate TodoInv(s: System) {
    forall i | 0 <= i < |s.clients| :: Lists(Todo(s, i), s.reqs, TakenFrom(i))
  }

  ghost predicate LeftInv(s: System) {
    forall i | 0 <= i < |s.clients| :: Lists(Left(s, i), s.reqs, InTail(i))
  }

  ghost predicate MutexInv(s: System) {
    && (forall i | 0 <= i < |s.clients| :: s.clients[i].Scrubbing? <==> s.mutex == Some(i))
    && (s.mutex.Some? ==> s.mutex.value < |s.clients|)
  }

  /** The worker holds exactly the request it handles. */
  ghost predicate HeldInv(s: System) {
    && (forall r | 0 <= r < |s.reqs| :: s.reqs[r].place.Held? <==> s.worker == Handling(r))
    && (s.worker.Handling? ==> s.worker.r < |s.reqs|)
  }

  ghost predicate WorkerInv(s: System) {
    && (s.worker.Clocked? ==> s.worker.now <= s.clock)
    && (s.shutdown == Joined ==> s.worker == Exited)
    && (s.stop <==> s.shutdown != Alive)
    && (s.worker == Exited ==> s.stop)
  }

  /** A sleeping worker has missed nothing, once a scrub that holds the mutex has notified. */
  ghost predicate WakeInv(s: System) {
    && (s.worker == Idle ==> s.c == [])
    && (s.worker.Timed? && s.mutex.None? ==> s.c != [] && s.c[0].deadline == s.worker.wake)
    && (s.worker == Idle || s.worker.Timed? ==> s.shutdown == Alive || s.shutdown == StopSet)
  }

  ghost predicate Inv(s: System) {
    RequestsInv(s) && ContextsInv(s) && QueueInv(s) && TodoInv(s) && LeftInv(s) && MutexInv(s)
    && HeldInv(s) && WorkerInv(s) && WakeInv(s)
  }
}
