/**
What a scrub does to the listener handles in the vector.  remove_if moves the handles of the
survivors down by move assignment, and erase destroys the handles behind them; handle `k` is
the one at place `k`.
*/
module ScrubbedListeners {
  import opened Datamodel
  import opened PendingQueue
  import opened CalleeHandles

  /** The handles at the places of `c` own the connections `conn`. */
  ghost predicate Owns(w: World, c: seq<Pending>, conn: seq<nat>) {
    && Inv(w) && |conn| == |c|
    && forall k: nat | k < |c| :: IdleHandle(w, k) && Refers(w, k, conn[k])
  }

  /** The handles after remove_if has gone over the first `r` entries. */
  function Shifted(w: World, c: seq<Pending>, client: nat, r: nat): World
    requires r <= |c|
  {
    if r == 0 then w
    else
      var v, k := Shifted(w, c, client, r - 1), Rank(c, client, r - 1);
      var move := MoveAssign(k, r - 1);
      if c[r - 1].client != client && k < r - 1 && Enabled(v, move) then Apply(v, move) else v
  }

  predicate Scrubbed(c: seq<Pending>, client: nat, p: nat) {
    p < |c| && c[p].client == client
  }

  /** Nobody owns the connection any more; it was not severed and its cleanup did not run. */
  ghost predicate Forgotten(w: World, v: World, c: nat) {
    && Orphan(v, c) && c < |w.conns| && !v.conns[c].gate.held
    && SameFlag(w, v, c)
  }

  predicate SameFlag(w: World, v: World, a: nat) {
    && a < |w.conns| && a < |v.conns|
    && v.conns[a].severed == w.conns[a].severed && v.conns[a].cleanups == w.conns[a].cleanups
  }

  ghost predicate SameFlags(w: World, v: World) {
    forall a: nat | a < |w.conns| :: SameFlag(w, v, a)
  }

  /** Whose connection is where once `r` entries have been gone over, `k` of them kept. */
  ghost predicate Placed(v: World, c: seq<Pending>, conn: seq<nat>, client: nat, r: nat, k: nat)
    requires k <= r <= |c| == |conn|
  {
    && (forall p: nat | p < |c| :: IdleHandle(v, p))
    && (forall p: nat | r <= p < |c| :: Refers(v, p, conn[p]))
    && (forall j: nat | j < r && Survives(c, client, j) :: Refers(v, Rank(c, client, j), conn[j]))
    && (forall p: nat | k <= p < r && Scrubbed(c, client, p) :: Refers(v, p, conn[p]))
  }

  /** And what has become of the connections. */
  ghost predicate Progress(w: World, v: World, c: seq<Pending>, conn: seq<nat>, client: nat, r: nat, k: nat)
    requires k <= r <= |c| == |conn|
  {
    && Inv(v) && Placed(v, c, conn, client, r, k)
    && (forall p: nat | p < k && Scrubbed(c, client, p) :: Forgotten(w, v, conn[p]))
    && SameFlags(w, v)
  }

  lemma RankStep(c: seq<Pending>, client: nat, r: nat)
    requires r < |c|
    ensures Rank(c, client, r + 1) == Rank(c, client, r) + if Survives(c, client, r) then 1 else 0
    ensures Rank(c, client, r) <= r
  {
    PrefixStep(c, client, r);
  }

  lemma {:induction false} RankGrows(c: seq<Pending>, client: nat, j: nat, r: nat)
    requires j < r <= |c| && Survives(c, client, j)
    ensures Rank(c, client, j) < Rank(c, client, r)
    decreases r
  {
    RankStep(c, client, r - 1);
    if j < r - 1 { RankGrows(c, client, j, r - 1); }
  }

  /** A handle neither assigned to nor from stays as it is. */
  lemma OtherHandle(v: World, h: nat, from: nat, p: nat)
    requires Enabled(v, MoveAssign(h, from)) && p != h && p != from && p in v.handles
    ensures p in Apply(v, MoveAssign(h, from)).handles
    ensures Apply(v, MoveAssign(h, from)).handles[p] == v.handles[p]
  {
  }

  lemma MoveKeepsFlags(w: World, v: World, h: nat, from: nat)
    requires SameFlags(w, v) && Enabled(v, MoveAssign(h, from))
    ensures SameFlags(w, Apply(v, MoveAssign(h, from)))
  {
    forall a: nat | a < |w.conns| ensures SameFlag(w, Apply(v, MoveAssign(h, from)), a) {
      assert SameFlag(w, v, a);
    }
  }

  lemma StillForgotten(w: World, v: World, h: nat, from: nat, c: nat)
    requires Inv(v) && SameFlags(w, v) && Enabled(v, MoveAssign(h, from)) && Forgotten(w, v, c)
    ensures Forgotten(w, Apply(v, MoveAssign(h, from)), c)
  {
    OrphanStays(v, MoveAssign(h, from), c);
    MoveKeepsFlags(w, v, h, from);
  }

  lemma ForgetStep(w: World, v: World, c: seq<Pending>, conn: seq<nat>, client: nat, r: nat, k: nat, p: nat)
    requires p <= k < r < |c| == |conn| && Scrubbed(c, client, p) && Progress(w, v, c, conn, client, r, k)
    requires Enabled(v, MoveAssign(k, r)) && conn[p] < |w.conns|
    ensures Forgotten(w, Apply(v, MoveAssign(k, r)), conn[p])
  {
    if p < k {
      StillForgotten(w, v, k, r, conn[p]);
    } else {
      MoveAssignOrphans(v, k, r, conn[k]);
      MoveKeepsFlags(w, v, k, r);
    }
  }

  lemma PlaceStep(v: World, c: seq<Pending>, conn: seq<nat>, client: nat, r: nat, k: nat)
    requires k < r < |c| == |conn| && k == Rank(c, client, r) && Survives(c, client, r)
    requires Placed(v, c, conn, client, r, k)
    ensures Enabled(v, MoveAssign(k, r)) && Placed(Apply(v, MoveAssign(k, r)), c, conn, client, r + 1, k + 1)
  {
    assert IdleHandle(v, k) && IdleHandle(v, r) && Refers(v, r, conn[r]);
    var v' := Apply(v, MoveAssign(k, r));
    forall p: nat | p < |c|
      ensures IdleHandle(v', p) && p in v.handles && (p == k || p == r || v'.handles[p] == v.handles[p])
    {
      assert IdleHandle(v, p);
      if p != k && p != r { OtherHandle(v, k, r, p); }
    }
    forall j: nat | j < r + 1 && Survives(c, client, j) ensures Refers(v', Rank(c, client, j), conn[j]) {
      if j < r { RankGrows(c, client, j, r); }
    }
  }

  /** A survivor moves over what stands at place `k`. */
  lemma ShiftStep(w: World, v: World, c: seq<Pending>, conn: seq<nat>, client: nat, r: nat, k: nat)
    requires k < r < |c| == |conn| && k == Rank(c, client, r) && Survives(c, client, r)
    requires Progress(w, v, c, conn, client, r, k) && conn[k] < |w.conns|
    ensures Enabled(v, MoveAssign(k, r)) && Progress(w, Apply(v, MoveAssign(k, r)), c, conn, client, r + 1, k + 1)
  {
    PlaceStep(v, c, conn, client, r, k);
    StepKeepsInv(v, MoveAssign(k, r));
    MoveKeepsFlags(w, v, k, r);
    forall p: nat | p < k + 1 && Scrubbed(c, client, p) ensures Forgotten(w, Apply(v, MoveAssign(k, r)), conn[p]) {
      ForgetStep(w, v, c, conn, client, r, k, p);
    }
  }

  /** An entry that is not moved changes nothing. */
  lemma SkipStep(w: World, v: World, c: seq<Pending>, conn: seq<nat>, client: nat, r: nat, k: nat)
    requires k <= r < |c| == |conn| && k == Rank(c, client, r) && (Survives(c, client, r) ==> k == r)
    requires Progress(w, v, c, conn, client, r, k)
    ensures Progress(w, v, c, conn, client, r + 1, if Survives(c, client, r) then k + 1 else k)
  {
    assert Refers(v, r, conn[r]);
  }

  lemma {:induction false} ShiftedProgress(w: World, c: seq<Pending>, conn: seq<nat>, client: nat, r: nat)
    requires Owns(w, c, conn) && r <= |c|
    ensures Rank(c, client, r) <= r && Progress(w, Shifted(w, c, client, r), c, conn, client, r, Rank(c, client, r))
  {
    if r > 0 {
      var j := r - 1;
      ShiftedProgress(w, c, conn, client, j);
      RankStep(c, client, j);
      var v, k := Shifted(w, c, client, j), Rank(c, client, j);
      if Survives(c, client, j) && k < j {
        OwnedExists(w, c, conn, k);
        ShiftStep(w, v, c, conn, client, j, k);
      } else {
        SkipStep(w, v, c, conn, client, j, k);
      }
    }
  }

  lemma OwnedExists(w: World, c: seq<Pending>, conn: seq<nat>, k: nat)
    requires Owns(w, c, conn) && k < |c|
    ensures conn[k] < |w.conns|
  {
    assert Refers(w, k, conn[k]) && HandleInv(w, w.handles[k]);
  }

  /** After remove_if, the connection of a scrubbed entry at a place below the number of
      survivors has no owner, unsevered and uncleaned; one at a place behind still has the handle
      there, which erase then destroys; and every survivor owns its connection at its new place. */
  lemma ScrubbedHandles(w: World, c: seq<Pending>, conn: seq<nat>, client: nat, p: nat)
    requires Owns(w, c, conn) && p < |c|
    ensures var v, n := Shifted(w, c, client, |c|), |Keep(c, client)|;
      if Survives(c, client, p) then Refers(v, Rank(c, client, p), conn[p])
      else if p < n then Forgotten(w, v, conn[p])
      else IdleHandle(v, p) && Refers(v, p, conn[p])
  {
    ShiftedProgress(w, c, conn, client, |c|);
    assert c[..|c|] == c;
  }

  /** Destroying a handle severs its connection if a caller is left. */
  lemma DestroyedIsSevered(v: World, p: nat, a: nat)
    requires Inv(v) && IdleHandle(v, p) && Refers(v, p, a)
    ensures a < |v.conns|
    ensures var v' := Apply(v, ResetBegin(p, true));
      a < |v'.conns| && !v'.conns[a].gate.held && v'.conns[a].severed == (v.conns[a].severed || v.conns[a].linked)
  {
    assert HandleInv(v, v.handles[p]);
  }

  /** An overwritten listener's cleanup never runs, whatever happens after the scrub. */
  lemma OverwrittenNeverCleaned(ops: seq<Op>, t: seq<World>, j: nat, k: nat, w: World,
                                c: seq<Pending>, conn: seq<nat>, client: nat, p: nat)
    requires IsRun(ops, t) && j <= k < |t| && Owns(w, c, conn) && t[j] == Shifted(w, c, client, |c|)
    requires Scrubbed(c, client, p) && p < |Keep(c, client)|
    ensures conn[p] < |w.conns| && conn[p] < |t[k].conns|
    ensures t[k].conns[conn[p]].cleanups == w.conns[conn[p]].cleanups
  {
    ScrubbedHandles(w, c, conn, client, p);
    OrphanNeverCleaned(ops, t, j, k, conn[p]);
  }
}
