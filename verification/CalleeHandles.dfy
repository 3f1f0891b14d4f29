/**
Ownership of connections by `CalleeHandle`s: establish, default construction, move
construction, move assignment, reset() and destruction on any number of handles,
interleaved with the callback bodies of every connection.
*/
module CalleeHandles {
  import opened CallbackTheorems

  import opened Datamodel

  /** A connection: its gate, the sever flag, whether a CallerHandle still exists, and how
      often its cleanup function has run.  `made` is history: made with a cleanup function. */
  datatype Connection = Connection(gate: Gate, severed: bool, linked: bool, cleanups: nat, made: bool)

  /** A handle: connection_, whether callback_ is set, whether cleanup_ is engaged,
      and the reset() it is inside of, if any.  `located` records that
      connection_.lock() succeeded: that reset() severs and cleans up. */
  datatype Handle = Handle(conn: Option<nat>, keeps: bool, cleanup: bool, reset: Reset)
  datatype Reset = Idle | Waiting(dying: bool, located: bool)

  datatype World = World(conns: seq<Connection>, handles: map<nat, Handle>)

  datatype Op =
    | Establish(h: nat, withCleanup: bool)
    | Default(h: nat)
    | MoveConstruct(h: nat, from: nat)
    | MoveAssign(h: nat, from: nat)
    | ResetBegin(h: nat, dying: bool)
    | ResetEnd(h: nat)
    | Miss(h: nat) | WakeUp(h: nat)
    | CallStart(c: nat) | CallEnd(c: nat) | Unlink(c: nat)

  const Unconnected := Handle(None, false, false, Idle)

  predicate Drained(g: Gate) {
    !g.held && g.running == 0
  }

  predicate IdleHandle(w: World, h: nat) {
    h in w.handles && w.handles[h].reset == Idle
  }

  /** The handle is inside the sever() of its connection. */
  predicate Severs(w: World, h: nat) {
    && h in w.handles && w.handles[h].reset.Waiting? && w.handles[h].reset.located
    && w.handles[h].conn.Some? && w.handles[h].conn.value < |w.conns|
  }

  predicate Enabled(w: World, op: Op) {
    match op
    case Establish(h, _) => h !in w.handles
    case Default(h) => h !in w.handles
    case MoveConstruct(h, from) => h !in w.handles && IdleHandle(w, from)
    case MoveAssign(h, from) => h != from && IdleHandle(w, h) && IdleHandle(w, from)
    case ResetBegin(h, _) => IdleHandle(w, h)
    case ResetEnd(h) =>
      && h in w.handles && w.handles[h].reset.Waiting?
      && (w.handles[h].reset.located ==> Severs(w, h) && MayClose(w.conns[w.handles[h].conn.value].gate))
    case Miss(h) => Severs(w, h) && MayMiss(w.conns[w.handles[h].conn.value].gate)
    case WakeUp(h) => Severs(w, h) && w.conns[w.handles[h].conn.value].gate.stuck
    case CallStart(c) => c < |w.conns| && w.conns[c].linked && (w.conns[c].gate.held || w.conns[c].gate.running > 0)
    case CallEnd(c) => c < |w.conns| && w.conns[c].gate.running > 0
    case Unlink(c) => c < |w.conns| && w.conns[c].gate.running == 0
  }

  function Regate(w: World, c: nat, gate: Gate): World
    requires c < |w.conns|
  {
    w.(conns := w.conns[c := w.conns[c].(gate := gate)])
  }

  /** `callback_.reset()` or its overwriting: the strong reference goes, nothing else.  Only
      a reset() then waits, and can miss a wake-up if a body runs. */
  function LetGo(w: World, h: nat, waits: bool): World
    requires h in w.handles
  {
    match w.handles[h].conn
    case Some(c) =>
      if w.handles[h].keeps && c < |w.conns|
      then Regate(w, c, w.conns[c].gate.(held := false, atRisk := waits && w.conns[c].gate.running > 0))
      else w
    case None => w
  }

  /** A moved-from handle keeps its (engaged) cleanup_ optional. */
  function MovedFrom(x: Handle): Handle {
    x.(conn := None, keeps := false)
  }

  function Finish(w: World, h: nat): World
    requires Enabled(w, ResetEnd(h))
  {
    var x := w.handles[h];
    var cleans := x.reset.located;
    var conns' :=
      if cleans then
        var c := w.conns[x.conn.value];
        w.conns[x.conn.value := c.(gate := c.gate.(closed := true, atRisk := false),
                                   cleanups := if x.cleanup then c.cleanups + 1 else c.cleanups)]
      else w.conns;
    World(conns',
          if x.reset.dying then w.handles - {h}
          else w.handles[h := x.(cleanup := x.cleanup && !cleans, reset := Idle)])
  }

  function Apply(w: World, op: Op): World
    requires Enabled(w, op)
  {
    match op
    case Establish(h, withCleanup) =>
      World(w.conns + [Connection(OpenGate, false, true, 0, withCleanup)],
            w.handles[h := Handle(Some(|w.conns|), true, withCleanup, Idle)])
    case Default(h) => w.(handles := w.handles[h := Unconnected])
    case MoveConstruct(h, from) =>
      w.(handles := w.handles[h := w.handles[from]][from := MovedFrom(w.handles[from])])
    case MoveAssign(h, from) =>
      LetGo(w, h, false).(handles := w.handles[h := w.handles[from]][from := MovedFrom(w.handles[from])])
    case ResetBegin(h, dying) =>
      var w' := LetGo(w, h, true);
      var conn := w.handles[h].conn;
      var located := conn.Some? && conn.value < |w'.conns| && w'.conns[conn.value].linked;
      World(if located then w'.conns[conn.value := w'.conns[conn.value].(severed := true)] else w'.conns,
            w'.handles[h := w.handles[h].(keeps := false, reset := Waiting(dying, located))])
    case ResetEnd(h) => Finish(w, h)
    case Miss(h) =>
      var c := w.handles[h].conn.value;
      Regate(w, c, w.conns[c].gate.(atRisk := false, stuck := true))
    case WakeUp(h) =>
      var c := w.handles[h].conn.value;
      Regate(w, c, w.conns[c].gate.(stuck := false))
    case CallStart(c) =>
      Regate(w, c, w.conns[c].gate.(running := w.conns[c].gate.running + 1))
    case CallEnd(c) =>
      Regate(w, c, w.conns[c].gate.(running := w.conns[c].gate.running - 1))
    case Unlink(c) => w.(conns := w.conns[c := w.conns[c].(linked := false)])
  }

  const Nothing := World([], map[])

  ghost predicate IsRun(ops: seq<Op>, t: seq<World>) {
    && |t| == |ops| + 1
    && t[0] == Nothing
    && forall k: nat | k < |ops| :: Goes(ops, t, k)
  }

  /** Operation `k` is possible in state `k` and leads to the next one. */
  ghost predicate Goes(ops: seq<Op>, t: seq<World>, k: nat) {
    k < |ops| < |t| && Enabled(t[k], ops[k]) && t[k + 1] == Apply(t[k], ops[k])
  }

  // ---------------------------------------------------------------- invariant

  predicate Refers(w: World, h: nat, c: nat) {
    h in w.handles && w.handles[h].conn == Some(c)
  }

  ghost predicate HandleInv(w: World, x: Handle) {
    && (x.keeps ==> x.conn.Some? && x.reset == Idle)
    && (x.conn.Some? ==> x.conn.value < |w.conns|)
    && (x.conn.Some? ==> (x.keeps <==> w.conns[x.conn.value].gate.held))
    && (x.conn.Some? ==> (x.cleanup <==> w.conns[x.conn.value].made && w.conns[x.conn.value].cleanups == 0))
    && (x.reset.Waiting? && x.reset.located ==>
          x.conn.Some? && !w.conns[x.conn.value].gate.held && w.conns[x.conn.value].severed)
  }

  ghost predicate HandlesInv(w: World) {
    forall h | h in w.handles :: HandleInv(w, w.handles[h])
  }

  ghost predicate Exclusive(w: World) {
    forall h: nat, g: nat, c: nat | Refers(w, h, c) && Refers(w, g, c) :: h == g
  }

  ghost predicate ConnInv(k: Connection) {
    && k.cleanups == (if k.gate.closed && k.made then 1 else 0)
    && (k.gate.closed ==> Drained(k.gate) && k.severed && !k.gate.atRisk)
    && (k.gate.stuck ==> Drained(k.gate) && !k.gate.closed)
  }

  ghost predicate ConnsInv(w: World) {
    forall c | 0 <= c < |w.conns| :: ConnInv(w.conns[c])
  }

  ghost predicate Inv(w: World) {
    Exclusive(w) && HandlesInv(w) && ConnsInv(w)
  }

  /** The handle whose connection `h` has after the step. */
  function Origin(op: Op, h: nat): nat {
    if (op.MoveConstruct? || op.MoveAssign?) && h == op.h then op.from else h
  }

  lemma ReferenceOrigin(w: World, op: Op, h: nat, c: nat)
    requires HandlesInv(w) && Enabled(w, op) && Refers(Apply(w, op), h, c)
    ensures if op.Establish? && h == op.h then c == |w.conns| else c < |w.conns| && Refers(w, Origin(op, h), c)
    ensures op.MoveConstruct? || op.MoveAssign? ==> h != op.from
  {
    var g := Origin(op, h);
    assert g in w.handles ==> HandleInv(w, w.handles[g]);
  }

  lemma StepKeepsExclusive(w: World, op: Op)
    requires Inv(w) && Enabled(w, op)
    ensures Exclusive(Apply(w, op))
  {
    var w' := Apply(w, op);
    forall h: nat, g: nat, c: nat | Refers(w', h, c) && Refers(w', g, c) ensures h == g {
      ReferenceOrigin(w, op, h, c);
      ReferenceOrigin(w, op, g, c);
    }
  }

  lemma StepKeepsConns(w: World, op: Op)
    requires Inv(w) && Enabled(w, op)
    ensures ConnsInv(Apply(w, op))
  {
  }

  /** An operation on one handle leaves the connection of another alone. */
  lemma OtherConnection(w: World, op: Op, g: nat, c: nat)
    requires Inv(w) && Enabled(w, op) && Refers(w, g, c)
    requires op.MoveAssign? || op.ResetBegin? || op.ResetEnd? || op.Miss? || op.WakeUp?
    ensures c < |w.conns| && c < |Apply(w, op).conns|
    ensures g != op.h ==> Apply(w, op).conns[c] == w.conns[c]
  {
    assert HandleInv(w, w.handles[g]);
    assert w.handles[op.h].conn.Some? ==> Refers(w, op.h, w.handles[op.h].conn.value);
  }

  lemma HandleKept(w: World, op: Op, h: nat)
    requires Inv(w) && Enabled(w, op) && h in Apply(w, op).handles
    ensures HandleInv(Apply(w, op), Apply(w, op).handles[h])
  {
    var g := Origin(op, h);
    assert h in w.handles ==> HandleInv(w, w.handles[h]);
    assert g in w.handles ==> HandleInv(w, w.handles[g]);
    if g in w.handles && w.handles[g].conn.Some?
      && (op.MoveAssign? || op.ResetBegin? || op.ResetEnd? || op.Miss? || op.WakeUp?)
    {
      OtherConnection(w, op, g, w.handles[g].conn.value);
    }
  }

  lemma StepKeepsHandles(w: World, op: Op)
    requires Inv(w) && Enabled(w, op)
    ensures HandlesInv(Apply(w, op))
  {
    forall h | h in Apply(w, op).handles ensures HandleInv(Apply(w, op), Apply(w, op).handles[h]) {
      HandleKept(w, op, h);
    }
  }

  lemma StepKeepsInv(w: World, op: Op)
    requires Inv(w) && Enabled(w, op)
    ensures Inv(Apply(w, op))
  {
    StepKeepsExclusive(w, op);
    StepKeepsConns(w, op);
    StepKeepsHandles(w, op);
  }

  lemma {:induction false} RunKeepsInv(ops: seq<Op>, t: seq<World>, k: nat)
    requires IsRun(ops, t) && k < |t|
    ensures Inv(t[k])
    decreases k
  {
    if k > 0 {
      assert Goes(ops, t, k - 1);
      RunKeepsInv(ops, t, k - 1);
      StepKeepsInv(t[k - 1], ops[k - 1]);
    }
  }

  // ---------------------------------------------------------------- whole runs

  /** Every operation moves every connection as the callback protocol allows; only a
      reset() that has drained the connection runs its cleanup. */
  lemma ConnectionStep(w: World, op: Op, c: nat)
    requires Inv(w) && Enabled(w, op) && c < |w.conns|
    ensures c < |Apply(w, op).conns| && GateStep(w.conns[c].gate, Apply(w, op).conns[c].gate)
    ensures w.conns[c].gate.closed ==> Apply(w, op).conns[c].gate.closed
    ensures w.conns[c].cleanups <= Apply(w, op).conns[c].cleanups
    ensures Apply(w, op).conns[c].cleanups > w.conns[c].cleanups ==>
              op.ResetEnd? && Refers(w, op.h, c) && Drained(w.conns[c].gate)
    ensures !Reported(w.conns[c]) ==> !Reported(Apply(w, op).conns[c])
  {
  }

  /** What `isConnected()` reports for a connection. */
  predicate Reported(k: Connection) {
    !k.severed && !Drained(k.gate)
  }

  lemma {:induction false} ConnectionGrows(ops: seq<Op>, t: seq<World>, j: nat, k: nat, c: nat)
    requires IsRun(ops, t) && j <= k < |t| && c < |t[j].conns|
    ensures c < |t[k].conns| && t[j].conns[c].cleanups <= t[k].conns[c].cleanups
    ensures t[j].conns[c].gate.closed ==> t[k].conns[c].gate.closed
    decreases k
  {
    if j < k {
      ConnectionGrows(ops, t, j, k - 1, c);
      assert Goes(ops, t, k - 1);
      RunKeepsInv(ops, t, k - 1);
      ConnectionStep(t[k - 1], ops[k - 1], c);
    }
  }

  lemma ConnectionAt(ops: seq<Op>, t: seq<World>, k: nat, c: nat)
    requires IsRun(ops, t) && k < |t| && c < |t[k].conns|
    ensures ConnInv(t[k].conns[c])
  {
    RunKeepsInv(ops, t, k);
  }

  /** Over any sequence of handle operations the cleanup of a connection runs at most
      once, and from then on no body of that connection runs. */
  lemma CleanupRunsOnce(ops: seq<Op>, t: seq<World>, j: nat, k: nat, c: nat)
    requires IsRun(ops, t) && j <= k < |t| && c < |t[j].conns|
    ensures c < |t[k].conns| && t[j].conns[c].cleanups <= t[k].conns[c].cleanups <= 1
    ensures t[j].conns[c].cleanups == 1 ==> Drained(t[k].conns[c].gate)
  {
    ConnectionGrows(ops, t, j, k, c);
    ConnectionAt(ops, t, j, c);
    ConnectionAt(ops, t, k, c);
  }

  lemma MadeStep(w: World, op: Op, c: nat)
    requires Enabled(w, op) && c < |Apply(w, op).conns|
    ensures if c < |w.conns| then Apply(w, op).conns[c].made == w.conns[c].made
            else op.Establish? && c == |w.conns| && Apply(w, op).conns[c].made == op.withCleanup
  {
  }

  /** The operation that made a connection. */
  lemma {:induction false} MadeBy(ops: seq<Op>, t: seq<World>, k: nat, c: nat) returns (m: nat)
    requires IsRun(ops, t) && k < |t| && c < |t[k].conns|
    ensures m < k && ops[m].Establish? && |t[m].conns| == c && t[k].conns[c].made == ops[m].withCleanup
    decreases k
  {
    assert Goes(ops, t, k - 1);
    MadeStep(t[k - 1], ops[k - 1], c);
    if c < |t[k - 1].conns| {
      m := MadeBy(ops, t, k - 1, c);
    } else {
      m := k - 1;
    }
  }

  /** Whatever moves came between: a connection that some reset() got past has had its cleanup
      run exactly once if it was established with one, and not at all otherwise; one that no
      reset() got past has not been cleaned up. */
  lemma CleanupRunsIff(ops: seq<Op>, t: seq<World>, k: nat, c: nat) returns (m: nat)
    requires IsRun(ops, t) && k < |t| && c < |t[k].conns|
    ensures m < k && ops[m].Establish? && |t[m].conns| == c
    ensures t[k].conns[c].cleanups == if t[k].conns[c].gate.closed && ops[m].withCleanup then 1 else 0
  {
    m := MadeBy(ops, t, k, c);
    ConnectionAt(ops, t, k, c);
  }

  /** A reset() that found the connection closes it, with its cleanup if it was made with one, and
      a reset() that did not changes no connection; the handle then keeps nothing, and is gone if it
      was being destroyed. */
  lemma ResetEnds(w: World, h: nat)
    requires Inv(w) && Enabled(w, ResetEnd(h))
    ensures var w', x := Apply(w, ResetEnd(h)), w.handles[h];
      && (h in w'.handles <==> !x.reset.dying)
      && (h in w'.handles ==> !w'.handles[h].keeps && w'.handles[h].reset == Idle && w'.handles[h].conn == x.conn)
      && (!x.reset.located ==> w'.conns == w.conns)
      && (x.reset.located ==>
            x.conn.Some? && x.conn.value < |w'.conns| && |w'.conns| == |w.conns| && IsCleanedUp(w'.conns[x.conn.value]))
  {
    StepKeepsInv(w, ResetEnd(h));
    assert HandleInv(w, w.handles[h]);
    if w.handles[h].reset.located {
      assert ConnInv(Apply(w, ResetEnd(h)).conns[w.handles[h].conn.value]);
    }
  }

  predicate IsCleanedUp(k: Connection) {
    k.gate.closed && !k.gate.held && k.severed && k.cleanups == if k.made then 1 else 0
  }

  lemma LostStep(w: World, op: Op, c: nat)
    requires Inv(w) && Enabled(w, op) && c < |w.conns| && !w.conns[c].linked && !w.conns[c].severed
    ensures c < |Apply(w, op).conns| && !Apply(w, op).conns[c].linked && !Apply(w, op).conns[c].severed
  {
    if op.ResetEnd? && w.handles[op.h].conn.Some? { assert HandleInv(w, w.handles[op.h]); }
  }

  /** A connection whose last CallerHandle goes before anyone severs it is never severed, and its
      cleanup never runs. */
  lemma {:induction false} UnlinkedNeverCleaned(ops: seq<Op>, t: seq<World>, m: nat, k: nat, c: nat)
    requires IsRun(ops, t) && m < k < |t| && ops[m] == Unlink(c) && c < |t[m].conns| && !t[m].conns[c].severed
    ensures c < |t[k].conns| && !t[k].conns[c].linked && !t[k].conns[c].severed && t[k].conns[c].cleanups == 0
    decreases k
  {
    if m < k - 1 {
      UnlinkedNeverCleaned(ops, t, m, k - 1, c);
      assert Goes(ops, t, k - 1);
      RunKeepsInv(ops, t, k - 1);
      LostStep(t[k - 1], ops[k - 1], c);
    } else {
      assert Goes(ops, t, m);
    }
    ConnectionAt(ops, t, k, c);
  }

  /** Move construction hands the connection over untouched and leaves the source without. */
  lemma MoveConstructTransfers(w: World, h: nat, from: nat, c: nat)
    requires Inv(w) && Enabled(w, MoveConstruct(h, from)) && Refers(w, from, c)
    ensures var w' := Apply(w, MoveConstruct(h, from));
      && w'.conns == w.conns && Refers(w', h, c) && w'.handles[h].cleanup == w.handles[from].cleanup
      && from in w'.handles && w'.handles[from].conn == None
      && forall g | g in w'.handles && g != h :: w'.handles[g].conn != Some(c)
  {
    var w' := Apply(w, MoveConstruct(h, from));
    StepKeepsInv(w, MoveConstruct(h, from));
    assert Refers(w', h, c);
    forall g | g in w'.handles && g != h ensures w'.handles[g].conn != Some(c) {
      assert Exclusive(w');
      assert !Refers(w', g, c);
    }
  }

  /** A connection reported as disconnected is never reported as connected again. */
  lemma {:induction false} DisconnectedForGood(ops: seq<Op>, t: seq<World>, j: nat, k: nat, c: nat)
    requires IsRun(ops, t) && j <= k < |t| && c < |t[j].conns| && !Reported(t[j].conns[c])
    ensures c < |t[k].conns| && !Reported(t[k].conns[c])
    decreases k
  {
    if j < k {
      DisconnectedForGood(ops, t, j, k - 1, c);
      assert Goes(ops, t, k - 1);
      RunKeepsInv(ops, t, k - 1);
      ConnectionStep(t[k - 1], ops[k - 1], c);
    }
  }

  predicate Orphan(w: World, c: nat) {
    c < |w.conns| && forall h | h in w.handles :: w.handles[h].conn != Some(c)
  }

  /** Move assignment over a connected handle orphans the old connection without
      severing it and without running its cleanup. */
  lemma MoveAssignOrphans(w: World, h: nat, from: nat, c: nat)
    requires Inv(w) && Enabled(w, MoveAssign(h, from)) && Refers(w, h, c)
    ensures var w' := Apply(w, MoveAssign(h, from));
      && Orphan(w', c) && !w'.conns[c].gate.held
      && w'.conns[c].severed == w.conns[c].severed && w'.conns[c].cleanups == w.conns[c].cleanups
      && w'.conns[c].gate.running == w.conns[c].gate.running
  {
    StepKeepsInv(w, MoveAssign(h, from));
    var w' := Apply(w, MoveAssign(h, from));
    assert HandleInv(w, w.handles[h]);
    forall g | g in w'.handles ensures w'.handles[g].conn != Some(c) {
      if w'.handles[g].conn == Some(c) {
        ReferenceOrigin(w, MoveAssign(h, from), g, c);
        assert false;
      }
    }
  }

  lemma OrphanStays(w: World, op: Op, c: nat)
    requires Inv(w) && Enabled(w, op) && Orphan(w, c)
    ensures Orphan(Apply(w, op), c) && Apply(w, op).conns[c].cleanups == w.conns[c].cleanups
  {
    var w' := Apply(w, op);
    ConnectionStep(w, op, c);
    forall g | g in w'.handles ensures w'.handles[g].conn != Some(c) {
      if w'.handles[g].conn == Some(c) {
        ReferenceOrigin(w, op, g, c);
        assert false;
      }
    }
  }

  /** ... and that cleanup never runs later either. */
  lemma {:induction false} OrphanNeverCleaned(ops: seq<Op>, t: seq<World>, j: nat, k: nat, c: nat)
    requires IsRun(ops, t) && j <= k < |t| && Orphan(t[j], c)
    ensures Orphan(t[k], c) && t[k].conns[c].cleanups == t[j].conns[c].cleanups
    decreases k
  {
    if j < k {
      OrphanNeverCleaned(ops, t, j, k - 1, c);
      assert Goes(ops, t, k - 1);
      RunKeepsInv(ops, t, k - 1);
      OrphanStays(t[k - 1], ops[k - 1], c);
    }
  }

  /** Both in one run: with two connections, moving the second handle over the first leaves
      the first connection without owner, unsevered and uncleaned for good. */
  lemma MoveAssignForgets() returns (ops: seq<Op>, t: seq<World>)
    ensures IsRun(ops, t) && |ops| == 3 && ops[2] == MoveAssign(0, 1)
    ensures |t[2].conns| == 2 && Reported(t[2].conns[0]) && Refers(t[2], 0, 0) && t[2].handles[0].cleanup
    ensures Orphan(t[3], 0) && !t[3].conns[0].severed && t[3].conns[0].cleanups == 0
  {
    ops := [Establish(0, true), Establish(1, true), MoveAssign(0, 1)];
    var w1 := Apply(Nothing, ops[0]);
    var w2 := Apply(w1, ops[1]);
    var w3 := Apply(w2, ops[2]);
    t := [Nothing, w1, w2, w3];
    assert Goes(ops, t, 0) && Goes(ops, t, 1) && Goes(ops, t, 2);
    RunKeepsInv(ops, t, 2);
    MoveAssignOrphans(w2, 0, 1, 0);
  }
}
