/**
`ScrubablePendingQueue`: a binary heap of pending requests kept in a vector, with an
in-place filter (`scrub`) that does not restore the heap order.
*/
module PendingQueue {

  /** A pending request: which request, when it expires, and whose it is. */
  datatype Pending = Pending(id: nat, deadline: int, client: nat)

  function Parent(i: nat): nat
    requires i > 0
  {
    (i - 1) / 2
  }

  predicate IsHeap(c: seq<Pending>) {
    forall i | 0 < i < |c| :: c[Parent(i)].deadline <= c[i].deadline
  }

  /** No pending request is due before the front one. */
  predicate FrontIsLeast(c: seq<Pending>) {
    forall i | 0 <= i < |c| :: c[0].deadline <= c[i].deadline
  }

  lemma {:induction false} HeapFrontAt(c: seq<Pending>, i: nat)
    requires IsHeap(c) && i < |c|
    ensures c[0].deadline <= c[i].deadline
  {
    if i > 0 {
      HeapFrontAt(c, Parent(i));
    }
  }

  lemma HeapFrontIsLeast(c: seq<Pending>)
    requires IsHeap(c)
    ensures FrontIsLeast(c)
  {
    forall i | 0 <= i < |c| ensures c[0].deadline <= c[i].deadline {
      HeapFrontAt(c, i);
    }
  }

  /** What pushing `x` and popping the front may do to the vector. */
  predicate Pushed(c: seq<Pending>, x: Pending, c': seq<Pending>) {
    && multiset(c') == multiset(c) + multiset{x}
    && (IsHeap(c) ==> IsHeap(c'))
    && (FrontIsLeast(c) ==> FrontIsLeast(c'))
  }

  predicate Popped(c: seq<Pending>, c': seq<Pending>)
    requires c != []
  {
    multiset(c') == multiset(c) - multiset{c[0]} && (IsHeap(c) ==> IsHeap(c'))
  }

  // ---------------------------------------------------------------- scrub as a function

  /** What scrubbing leaves, and what it takes out, in vector order. */
  function Keep(c: seq<Pending>, client: nat): (kept: seq<Pending>)
    ensures |kept| <= |c|
  {
    if c == [] then []
    else
      var n := |c| - 1;
      Keep(c[..n], client) + if c[n].client == client then [] else [c[n]]
  }

  function Take(c: seq<Pending>, client: nat): seq<Pending> {
    if c == [] then []
    else
      var n := |c| - 1;
      Take(c[..n], client) + if c[n].client == client then [c[n]] else []
  }

  lemma PrefixStep(c: seq<Pending>, client: nat, r: nat)
    requires r < |c|
    ensures Keep(c[..r + 1], client) == Keep(c[..r], client) + if c[r].client == client then [] else [c[r]]
    ensures Take(c[..r + 1], client) == Take(c[..r], client) + if c[r].client == client then [c[r]] else []
  {
    assert c[..r + 1][..r] == c[..r];
  }

  /** Scrubbing splits the vector: every entry of the client goes, no other does,
      and nothing is lost or duplicated. */
  lemma {:induction false} ScrubSplits(c: seq<Pending>, client: nat)
    ensures multiset(Keep(c, client)) + multiset(Take(c, client)) == multiset(c)
    ensures forall p | p in Keep(c, client) :: p in c && p.client != client
    ensures forall p | p in Take(c, client) :: p in c && p.client == client
  {
    if c != [] {
      var n := |c| - 1;
      ScrubSplits(c[..n], client);
      assert c == c[..n] + [c[n]];
    }
  }

  /** remove_if moves the survivors down over the first |Keep| places; what of the client's
      entries it overwrites there loses its listener handle by move assignment, and what
      stands behind is destroyed by erase, which severs its listener. */
  function Overwritten(c: seq<Pending>, client: nat): seq<Pending> {
    Take(c[..|Keep(c, client)|], client)
  }

  function Destroyed(c: seq<Pending>, client: nat): seq<Pending> {
    Take(c[|Keep(c, client)|..], client)
  }

  lemma {:induction false} TakeConcat(a: seq<Pending>, b: seq<Pending>, client: nat)
    ensures Take(a + b, client) == Take(a, client) + Take(b, client)
  {
    if b == [] {
      assert a + b == a;
    } else {
      var n := |b| - 1;
      TakeConcat(a, b[..n], client);
      assert (a + b)[..|a + b| - 1] == a + b[..n];
    }
  }

  /** Every scrubbed entry is one or the other. */
  lemma ScrubFates(c: seq<Pending>, client: nat)
    ensures Take(c, client) == Overwritten(c, client) + Destroyed(c, client)
  {
    var n := |Keep(c, client)|;
    assert c == c[..n] + c[n..];
    TakeConcat(c[..n], c[n..], client);
  }

  lemma {:induction false} TakeHas(c: seq<Pending>, client: nat, p: Pending)
    ensures p in Take(c, client) <==> p in c && p.client == client
  {
    if c != [] {
      var n := |c| - 1;
      TakeHas(c[..n], client, p);
      assert c == c[..n] + [c[n]];
    }
  }

  predicate Distinct(c: seq<Pending>) {
    forall i, j | 0 <= i < j < |c| :: c[i] != c[j]
  }

  lemma TwiceCounted(c: seq<Pending>, i: nat, j: nat)
    requires i < j < |c| && c[i] == c[j]
    ensures multiset(c)[c[i]] >= 2
  {
    assert c == c[..j] + [c[j]] + c[j + 1..];
    assert c[..j][i] == c[i];
  }

  /** Which it is depends on its place alone. */
  lemma DestroyedIff(c: seq<Pending>, client: nat, p: nat)
    requires Distinct(c) && p < |c| && c[p].client == client
    ensures c[p] in Destroyed(c, client) <==> p >= |Keep(c, client)|
    ensures c[p] in Overwritten(c, client) <==> p < |Keep(c, client)|
  {
    var n := |Keep(c, client)|;
    TakeHas(c[..n], client, c[p]);
    TakeHas(c[n..], client, c[p]);
    if p >= n {
      assert c[n..][p - n] == c[p];
    } else {
      assert c[..n][p] == c[p];
    }
  }

  // ---------------------------------------------------------------- when scrub keeps the order

  predicate Survives(c: seq<Pending>, client: nat, j: nat) {
    j < |c| && c[j].client != client
  }

  /** The place a surviving entry moves to: how many survivors stand before it. */
  function Rank(c: seq<Pending>, client: nat, j: nat): nat
    requires j <= |c|
  {
    |Keep(c[..j], client)|
  }

  lemma {:induction false} SurvivorMoves(c: seq<Pending>, client: nat, j: nat)
    requires Survives(c, client, j)
    ensures Rank(c, client, j) < |Keep(c, client)| && Keep(c, client)[Rank(c, client, j)] == c[j]
    decreases |c|
  {
    var n := |c| - 1;
    if j < n {
      SurvivorMoves(c[..n], client, j);
      assert c[..n][..j] == c[..j];
    }
  }

  lemma {:induction false} PlaceHasSurvivor(c: seq<Pending>, client: nat, m: nat) returns (j: nat)
    requires m < |Keep(c, client)|
    ensures Survives(c, client, j) && Rank(c, client, j) == m
    decreases |c|
  {
    var n := |c| - 1;
    if m < |Keep(c[..n], client)| {
      j := PlaceHasSurvivor(c[..n], client, m);
      assert c[..n][..j] == c[..j];
    } else {
      j := n;
    }
  }

  /** Checked on the vector before the call: survivors that will stand as parent and
      child are already in deadline order. */
  predicate SurvivorsOrdered(c: seq<Pending>, client: nat) {
    forall j, k | 0 <= j < |c| && 0 <= k < |c| && Survives(c, client, j) && Survives(c, client, k)
      && Rank(c, client, k) > 0 && Rank(c, client, j) == Parent(Rank(c, client, k)) ::
      c[j].deadline <= c[k].deadline
  }

  lemma ScrubLeavesHeapIff(c: seq<Pending>, client: nat)
    ensures IsHeap(Keep(c, client)) <==> SurvivorsOrdered(c, client)
  {
    var kept := Keep(c, client);
    if IsHeap(kept) {
      forall j: nat, k: nat | Survives(c, client, j) && Survives(c, client, k)
        && Rank(c, client, k) > 0 && Rank(c, client, j) == Parent(Rank(c, client, k))
        ensures c[j].deadline <= c[k].deadline
      {
        SurvivorMoves(c, client, j);
        SurvivorMoves(c, client, k);
      }
    }
    if SurvivorsOrdered(c, client) {
      forall i | 0 < i < |kept| ensures kept[Parent(i)].deadline <= kept[i].deadline {
        var k := PlaceHasSurvivor(c, client, i);
        var j := PlaceHasSurvivor(c, client, Parent(i));
        SurvivorMoves(c, client, k);
        SurvivorMoves(c, client, j);
      }
    }
  }

  /** Checked on the vector before the call: the first survivor is due before the others. */
  predicate FirstSurvivorIsLeast(c: seq<Pending>, client: nat) {
    forall j, k | 0 <= j < |c| && 0 <= k < |c| && Survives(c, client, j) && Survives(c, client, k)
      && Rank(c, client, j) == 0 ::
      c[j].deadline <= c[k].deadline
  }

  lemma ScrubLeavesFrontLeastIff(c: seq<Pending>, client: nat)
    ensures FrontIsLeast(Keep(c, client)) <==> FirstSurvivorIsLeast(c, client)
  {
    var kept := Keep(c, client);
    if FrontIsLeast(kept) {
      forall j: nat, k: nat | Survives(c, client, j) && Survives(c, client, k) && Rank(c, client, j) == 0
        ensures c[j].deadline <= c[k].deadline
      {
        SurvivorMoves(c, client, j);
        SurvivorMoves(c, client, k);
      }
    }
    if FirstSurvivorIsLeast(c, client) {
      forall i | 0 <= i < |kept| ensures kept[0].deadline <= kept[i].deadline {
        var j := PlaceHasSurvivor(c, client, 0);
        var k := PlaceHasSurvivor(c, client, i);
        SurvivorMoves(c, client, j);
        SurvivorMoves(c, client, k);
      }
    }
  }

  /** The condition is needed: scrubbing client 1 from the heap [1, 5, 2] leaves [5, 2]. */
  lemma ScrubCanBreakHeap()
    ensures var c := [Pending(0, 1, 1), Pending(1, 5, 2), Pending(2, 2, 3)];
      IsHeap(c) && !IsHeap(Keep(c, 1)) && !FrontIsLeast(Keep(c, 1))
  {
    var a, b, d := Pending(0, 1, 1), Pending(1, 5, 2), Pending(2, 2, 3);
    var c := [a, b, d];
    assert c[..2] == [a, b] && [a, b][..1] == [a] && [a][..0] == [];
    assert Keep([], 1) == [] && Keep([a], 1) == [] && Keep([a, b], 1) == [b];
    assert Keep(c, 1) == [b, d];
    assert Keep(c, 1)[Parent(1)].deadline > Keep(c, 1)[1].deadline;
  }

  // ---------------------------------------------------------------- the vector itself

  /** Heap order everywhere except between entry `i` and its parent. */
  predicate HeapExceptUp(c: seq<Pending>, i: nat) {
    && (forall j | 0 < j < |c| && j != i :: c[Parent(j)].deadline <= c[j].deadline)
    && (forall j | 0 < j < |c| && i > 0 && Parent(j) == i :: c[Parent(i)].deadline <= c[j].deadline)
  }

  /** Heap order everywhere except between entry `i` and its children. */
  predicate HeapExceptDown(c: seq<Pending>, i: nat) {
    && (forall j | 0 < j < |c| && Parent(j) != i :: c[Parent(j)].deadline <= c[j].deadline)
    && (forall j | 0 < j < |c| && i > 0 && Parent(j) == i :: c[Parent(i)].deadline <= c[j].deadline)
  }

  function Swap(c: seq<Pending>, i: nat, j: nat): seq<Pending>
    requires i < |c| && j < |c|
  {
    c[i := c[j]][j := c[i]]
  }

  lemma SwapKeepsEntries(c: seq<Pending>, i: nat, j: nat)
    requires i < |c| && j < |c|
    ensures multiset(Swap(c, i, j)) == multiset(c)
  {
  }

  lemma SwapUp(c: seq<Pending>, i: nat)
    requires 0 < i < |c| && HeapExceptUp(c, i) && c[Parent(i)].deadline > c[i].deadline
    ensures HeapExceptUp(Swap(c, Parent(i), i), Parent(i))
  {
    var p := Parent(i);
    var c' := Swap(c, p, i);
    forall j | 0 < j < |c| && j != p ensures c'[Parent(j)].deadline <= c'[j].deadline {
      assert j != i ==> c[Parent(j)].deadline <= c[j].deadline;
    }
    if p > 0 {
      assert c[Parent(p)].deadline <= c[p].deadline;
      forall j | 0 < j < |c| && Parent(j) == p ensures c'[Parent(p)].deadline <= c'[j].deadline {
        assert j != i ==> c[Parent(j)].deadline <= c[j].deadline;
      }
    }
  }

  /** While `x` sifts up from the back of a vector whose front was least: the others are not
      due before the old front, which stays in front until `x` passes it. */
  predicate RisesTo(was: seq<Pending>, x: Pending, c: seq<Pending>, i: nat) {
    && i < |c| && c[i] == x
    && (FrontIsLeast(was) && was != [] ==>
          && (forall j | 0 <= j < |c| && j != i :: was[0].deadline <= c[j].deadline)
          && (if i > 0 then c[0] == was[0] else x.deadline <= was[0].deadline))
  }

  lemma RiseStep(was: seq<Pending>, x: Pending, c: seq<Pending>, i: nat)
    requires 0 < i && RisesTo(was, x, c, i) && c[Parent(i)].deadline > c[i].deadline
    ensures RisesTo(was, x, Swap(c, Parent(i), i), Parent(i))
  {
  }

  lemma RiseEnds(was: seq<Pending>, x: Pending, c: seq<Pending>, i: nat)
    requires RisesTo(was, x, c, i) && FrontIsLeast(was) && |c| == |was| + 1
    requires i > 0 ==> c[Parent(i)].deadline <= c[i].deadline
    ensures FrontIsLeast(c)
  {
  }

  lemma SwapDown(c: seq<Pending>, i: nat, k: nat)
    requires 0 < k < |c| && Parent(k) == i && HeapExceptDown(c, i) && c[k].deadline < c[i].deadline
    requires forall j | 0 < j < |c| && Parent(j) == i :: c[k].deadline <= c[j].deadline
    ensures HeapExceptDown(Swap(c, i, k), k)
  {
  }

  lemma SwapDownAt(c: seq<Pending>, i: nat, k: nat)
    requires 2 * i + 1 < |c| && HeapExceptDown(c, i)
    requires k == if 2 * i + 2 < |c| && c[2 * i + 2].deadline < c[2 * i + 1].deadline then 2 * i + 2 else 2 * i + 1
    requires c[k].deadline < c[i].deadline
    ensures HeapExceptDown(Swap(c, i, k), k)
  {
    assert forall j | 0 < j < |c| && Parent(j) == i :: j == 2 * i + 1 || j == 2 * i + 2;
    SwapDown(c, i, k);
  }

  lemma SettledDown(c: seq<Pending>, i: nat)
    requires HeapExceptDown(c, i)
    requires 2 * i + 1 < |c| ==> c[i].deadline <= c[2 * i + 1].deadline
    requires 2 * i + 2 < |c| ==> c[i].deadline <= c[2 * i + 2].deadline
    ensures IsHeap(c)
  {
    assert forall j | 0 < j < |c| && Parent(j) == i :: j == 2 * i + 1 || j == 2 * i + 2;
  }

  /** The vector with its front entry replaced by the last one and shortened. */
  function LastToFront(c: seq<Pending>): seq<Pending>
    requires c != []
  {
    c[0 := c[|c| - 1]][..|c| - 1]
  }

  lemma LastToFrontEntries(c: seq<Pending>)
    requires c != []
    ensures multiset(LastToFront(c)) == multiset(c) - multiset{c[0]}
    ensures IsHeap(c) ==> HeapExceptDown(LastToFront(c), 0)
  {
    var n := |c| - 1;
    if n > 0 {
      var mid := c[1..n];
      assert c == [c[0]] + mid + [c[n]];
      assert LastToFront(c) == [c[n]] + mid;
    } else {
      assert c == [c[0]];
    }
  }

  lemma {:induction false} SiftDown(c: seq<Pending>, i: nat) returns (c': seq<Pending>)
    requires i <= |c| && HeapExceptDown(c, i)
    ensures multiset(c') == multiset(c) && IsHeap(c')
    decreases |c| - i
  {
    c' := c;
    if 2 * i + 1 < |c| {
      var k := if 2 * i + 2 < |c| && c[2 * i + 2].deadline < c[2 * i + 1].deadline then 2 * i + 2 else 2 * i + 1;
      if c[k].deadline < c[i].deadline {
        SwapDownAt(c, i, k);
        SwapKeepsEntries(c, i, k);
        c' := SiftDown(Swap(c, i, k), k);
        return;
      }
    }
    SettledDown(c, i);
  }

  /** A non-empty queue can always be popped. */
  lemma CanPop(c: seq<Pending>) returns (c': seq<Pending>)
    requires c != []
    ensures Popped(c, c')
  {
    LastToFrontEntries(c);
    c' := LastToFront(c);
    if IsHeap(c) { c' := SiftDown(c', 0); }
  }

  /** After `r` entries, `w` of them kept: what is ahead is untouched, and of what was passed
      over exactly the client's entries still stand with their handles. */
  ghost predicate Filtered(was: seq<Pending>, c: seq<Pending>, live: seq<bool>, w: nat, r: nat, client: nat)
    requires w <= r <= |c| == |was| == |live|
  {
    && (forall k | r <= k < |c| :: c[k] == was[k] && live[k])
    && (forall k | w <= k < r :: live[k] <==> was[k].client == client)
    && (forall k | w <= k < r && live[k] :: c[k] == was[k])
  }

  lemma FilterStep(was: seq<Pending>, c: seq<Pending>, live: seq<bool>, w: nat, r: nat, client: nat)
    requires w < r < |c| == |was| == |live| && Filtered(was, c, live, w, r, client) && c[r].client != client
    ensures Filtered(was, c[w := c[r]], live[w := true][r := false], w + 1, r + 1, client)
  {
  }

  /** The entry read next goes to place `w`. */
  lemma KeepNext(was: seq<Pending>, c: seq<Pending>, w: nat, r: nat, client: nat)
    requires w <= r < |c| == |was| && c[..w] == Keep(was[..r], client) && was[r].client != client
    ensures c[w := was[r]][..w + 1] == Keep(was[..r + 1], client)
  {
    PrefixStep(was, client, r);
    assert c[w := was[r]][..w + 1] == c[..w] + [was[r]];
  }

  class ScrubablePendingQueue {
    var c: seq<Pending>

    constructor ()
      ensures c == []
    {
      c := [];
    }

    method Top() returns (p: Pending)
      requires c != []
      ensures p == c[0]
      ensures IsHeap(c) ==> forall q | q in c :: p.deadline <= q.deadline
    {
      p := c[0];
      if IsHeap(c) { HeapFrontIsLeast(c); }
    }

    /** `emplace`: append, then sift the new entry up. */
    method Push(x: Pending)
      modifies this
      ensures Pushed(old(c), x, c)
    {
      ghost var was := c;
      c := c + [x];
      var i: nat := |c| - 1;
      while i > 0 && c[Parent(i)].deadline > c[i].deadline
        invariant i < |c|
        invariant multiset(c) == multiset(was) + multiset{x}
        invariant IsHeap(was) ==> HeapExceptUp(c, i)
        invariant |c| == |was| + 1 && RisesTo(was, x, c, i)
      {
        RiseStep(was, x, c, i);
        SwapKeepsEntries(c, Parent(i), i);
        if IsHeap(was) { SwapUp(c, i); }
        c := Swap(c, Parent(i), i);
        i := Parent(i);
      }
      if FrontIsLeast(was) { RiseEnds(was, x, c, i); }
    }

    /** `pop`: move the last entry to the front, shorten, then sift it down. */
    method Pop()
      requires c != []
      modifies this
      ensures Popped(old(c), c)
    {
      ghost var was := c;
      LastToFrontEntries(c);
      c := LastToFront(c);
      var n := |c|;
      ghost var cut := multiset(c);
      var i: nat := 0;
      while 2 * i + 1 < n
        invariant |c| == n && multiset(c) == cut
        invariant IsHeap(was) ==> HeapExceptDown(c, i)
        decreases n - i
      {
        var k := if 2 * i + 2 < n && c[2 * i + 2].deadline < c[2 * i + 1].deadline then 2 * i + 2 else 2 * i + 1;
        if c[i].deadline <= c[k].deadline {
          break;
        }
        SwapKeepsEntries(c, i, k);
        if IsHeap(was) { SwapDownAt(c, i, k); }
        c := Swap(c, i, k);
        i := k;
      }
      if IsHeap(was) { SettledDown(c, i); }
    }

    /** `scrub`: the in-place filter of std::remove_if followed by erase.  `live` says which
        places still own a listener handle; a moved-from place does not. */
    method Scrub(client: nat) returns (expired: seq<Pending>, orphaned: seq<Pending>, severed: seq<Pending>)
      modifies this
      ensures c == Keep(old(c), client)
      ensures expired == Take(old(c), client)
      ensures orphaned == Overwritten(old(c), client)
      ensures severed == Destroyed(old(c), client)
    {
      ghost var was := c;
      var live := seq(|c|, _ => true);
      var w, r := 0, 0;
      expired, orphaned, severed := [], [], [];
      while r < |c|
        invariant w <= r <= |c| == |was| == |live|
        invariant c[..w] == Keep(was[..r], client)
        invariant expired == Take(was[..r], client)
        invariant orphaned == Take(was[..w], client)
        invariant Filtered(was, c, live, w, r, client)
      {
        PrefixStep(was, client, r);
        if c[r].client == client {
          expired := expired + [c[r]];
        } else {
          KeepNext(was, c, w, r, client);
          PrefixStep(was, client, w);
          if w < r {
            FilterStep(was, c, live, w, r, client);
            if live[w] { orphaned := orphaned + [c[w]]; }
            c, live := c[w := c[r]], live[w := true][r := false];
          }
          w := w + 1;
        }
        r := r + 1;
      }
      assert was[..r] == was;
      severed := Erase(w, live, was, client);
    }

    /** `erase` destroys what stands from place `w` on. */
    method Erase(w: nat, live: seq<bool>, ghost was: seq<Pending>, ghost client: nat) returns (severed: seq<Pending>)
      requires w <= |c| == |was| == |live| && Filtered(was, c, live, w, |c|, client)
      modifies this
      ensures c == old(c)[..w]
      ensures severed == Take(was[w..], client)
    {
      severed := [];
      var k := w;
      while k < |c|
        invariant w <= k <= |c|
        invariant severed == Take(was[w..k], client)
      {
        assert was[w..k + 1][..k - w] == was[w..k];
        if live[k] { severed := severed + [c[k]]; }
        k := k + 1;
      }
      assert was[w..k] == was[w..];
      c := c[..w];
    }
  }
}
