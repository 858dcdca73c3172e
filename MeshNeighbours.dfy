/**
 * What MeshBuilder::SetNeighbourhood computes (Builder.cpp:136-180),
 * written as a recursive specification over (facet, edge) positions, and
 * the closed form of its result: every edge slot of a facet ends up
 * pointing at the first facet that had that edge, or, for that first
 * facet itself, at the last other facet that shares it.
 */
module MeshNeighbours {
  import opened Wrappers
  import opened MeshCore

  /** Every facet index recorded in the edge set is a facet of the array. */
  predicate EdgeTargetsBelow(edges: map<Edge, nat>, n: nat)
  {
    forall k :: k in edges ==> edges[k] < n
  }

  /** Two facet arrays that differ at most in their neighbour slots. */
  predicate SameFrame(fs: seq<MeshFacet>, gs: seq<MeshFacet>)
  {
    |fs| == |gs| &&
    forall g :: 0 <= g < |fs| ==>
      gs[g].corners == fs[g].corners && gs[g].flag == fs[g].flag && gs[g].prop == fs[g].prop
  }

  /**
   * One pass of the inner loop body for edge `i` of facet `f`: a new edge
   * is recorded with `f`; a known edge links the facet recorded for it and
   * `f` to each other.
   */
  function LinkStep(fs: seq<MeshFacet>, edges: map<Edge, nat>, f: nat, i: nat): (r: (seq<MeshFacet>, map<Edge, nat>))
    requires AllShaped(fs) && f < |fs| && i < 3 && EdgeTargetsBelow(edges, |fs|)
    ensures SameFrame(fs, r.0) && AllShaped(r.0) && EdgeTargetsBelow(r.1, |fs|)
  {
    var k := EdgeOf(fs[f], i);
    if k in edges then
      var e := edges[k];
      var fs1 := fs[e := fs[e].(neighbours := fs[e].neighbours[NeighbourSlot(fs[e], k) := Some(f)])];
      var fs2 := fs1[f := fs1[f].(neighbours := fs1[f].neighbours[i := Some(e)])];
      (fs2, edges)
    else
      (fs, edges[k := f])
  }

  /** The loop from position (`f`, `i`) to the end of the facet array. */
  function Run(fs: seq<MeshFacet>, edges: map<Edge, nat>, f: nat, i: nat): (r: seq<MeshFacet>)
    requires AllShaped(fs) && f <= |fs| && i <= 3 && EdgeTargetsBelow(edges, |fs|)
    ensures SameFrame(fs, r) && AllShaped(r)
    decreases |fs| - f, 3 - i
  {
    if f == |fs| then fs
    else if i == 3 then Run(fs, edges, f + 1, 0)
    else
      var (fs', edges') := LinkStep(fs, edges, f, i);
      Run(fs', edges', f, i + 1)
  }


  /** One edge of the loop: the step, then the rest of the run. */
  lemma RunEdge(fs: seq<MeshFacet>, edges: map<Edge, nat>, f: nat, i: nat)
    requires AllShaped(fs) && f < |fs| && i < 3 && EdgeTargetsBelow(edges, |fs|)
    ensures Run(fs, edges, f, i) == Run(LinkStep(fs, edges, f, i).0, LinkStep(fs, edges, f, i).1, f, i + 1)
  {
  }

  /** After the third edge the run goes on with the next facet. */
  lemma RunFacet(fs: seq<MeshFacet>, edges: map<Edge, nat>, f: nat)
    requires AllShaped(fs) && f < |fs| && EdgeTargetsBelow(edges, |fs|)
    ensures Run(fs, edges, f, 3) == Run(fs, edges, f + 1, 0)
  {
  }

  /** The facet array after SetNeighbourhood, starting from an empty edge set. */
  function Neighbourhood(fs: seq<MeshFacet>): (r: seq<MeshFacet>)
    requires AllShaped(fs)
    ensures SameFrame(fs, r) && AllShaped(r)
  {
    Run(fs, map[], 0, 0)
  }

  predicate HasEdge(mf: MeshFacet, k: Edge)
    requires Shaped(mf)
  {
    EdgeOf(mf, 0) == k || EdgeOf(mf, 1) == k || EdgeOf(mf, 2) == k
  }

  /** One of the edges before edge `i` of the facet is `k`. */
  predicate HasEdgeBefore(mf: MeshFacet, k: Edge, i: nat)
    requires Shaped(mf)
  {
    (0 < i && EdgeOf(mf, 0) == k) || (1 < i && EdgeOf(mf, 1) == k) || (2 < i && EdgeOf(mf, 2) == k)
  }

  /** The lowest-numbered facet among the first `n` that has edge `k`. */
  function FirstHolder(fs: seq<MeshFacet>, k: Edge, n: nat): (r: Option<nat>)
    requires AllShaped(fs) && n <= |fs|
    ensures r.Some? ==> r.value < n && HasEdge(fs[r.value], k)
    ensures r.Some? ==> forall g :: 0 <= g < r.value ==> !HasEdge(fs[g], k)
    ensures r.None? ==> forall g :: 0 <= g < n ==> !HasEdge(fs[g], k)
  {
    if n == 0 then None
    else
      var r := FirstHolder(fs, k, n - 1);
      if r.Some? then r
      else if HasEdge(fs[n - 1], k) then Some(n - 1)
      else None
  }

  /** The highest-numbered facet among the first `n` that has edge `k`. */
  function LastHolder(fs: seq<MeshFacet>, k: Edge, n: nat): (r: Option<nat>)
    requires AllShaped(fs) && n <= |fs|
    ensures r.Some? ==> r.value < n && HasEdge(fs[r.value], k)
    ensures r.Some? ==> forall g :: r.value < g < n ==> !HasEdge(fs[g], k)
    ensures r.None? ==> forall g :: 0 <= g < n ==> !HasEdge(fs[g], k)
  {
    if n == 0 then None
    else if HasEdge(fs[n - 1], k) then Some(n - 1)
    else LastHolder(fs, k, n - 1)
  }

  /** The first facet that has edge `k` among the positions before (`f`, `i`). */
  function FirstSeen(fs: seq<MeshFacet>, k: Edge, f: nat, i: nat): Option<nat>
    requires AllShaped(fs) && f <= |fs|
  {
    var r := FirstHolder(fs, k, f);
    if r.Some? then r
    else if f < |fs| && HasEdgeBefore(fs[f], k, i) then Some(f)
    else None
  }

  /** The last facet that has edge `k` among the positions before (`f`, `i`). */
  function LastSeen(fs: seq<MeshFacet>, k: Edge, f: nat, i: nat): Option<nat>
    requires AllShaped(fs) && f <= |fs|
  {
    if f < |fs| && HasEdgeBefore(fs[f], k, i) then Some(f)
    else LastHolder(fs, k, f)
  }

  predicate Processed(g: nat, j: nat, f: nat, i: nat)
  {
    g < f || (g == f && j < i)
  }

  /**
   * Neighbour slot `j` of facet `g` once the positions before (`f`, `i`)
   * have been processed, starting from the array `fs0`.
   */
  function Expected(fs0: seq<MeshFacet>, g: nat, j: nat, f: nat, i: nat): Option<nat>
    requires AllShaped(fs0) && g < |fs0| && j < 3 && f <= |fs0|
  {
    if !Processed(g, j, f, i) then fs0[g].neighbours[j]
    else
      var k := EdgeOf(fs0[g], j);
      var first := FirstSeen(fs0, k, f, i);
      var last := LastSeen(fs0, k, f, i);
      if first.Some? && first.value != g then first
      else if last.Some? && last.value != g then last
      else fs0[g].neighbours[j]
  }

  /** The state of the loop at position (`f`, `i`), relative to the initial array `fs0`. */
  ghost predicate Inv(fs0: seq<MeshFacet>, fs: seq<MeshFacet>, edges: map<Edge, nat>, f: nat, i: nat)
  {
    AllShaped(fs0) && AllNonDegenerate(fs0) && f <= |fs0| && i <= 3 &&
    SameFrame(fs0, fs) && AllShaped(fs) && EdgeTargetsBelow(edges, |fs|) &&
    (forall k :: FirstSeen(fs0, k, f, i) == (if k in edges then Some(edges[k]) else None)) &&
    (forall g, j :: 0 <= g < |fs| && 0 <= j < 3 ==> fs[g].neighbours[j] == Expected(fs0, g, j, f, i))
  }

  /** Passing the end of a facet's edges changes nothing that was seen. */
  lemma SeenNextFacet(fs: seq<MeshFacet>, k: Edge, f: nat)
    requires AllShaped(fs) && f < |fs|
    ensures FirstSeen(fs, k, f, 3) == FirstSeen(fs, k, f + 1, 0)
    ensures LastSeen(fs, k, f, 3) == LastSeen(fs, k, f + 1, 0)
  {
  }

  /** Processing edge `i` of facet `f` adds exactly that edge to what was seen. */
  lemma SeenNextEdge(fs: seq<MeshFacet>, k: Edge, f: nat, i: nat)
    requires AllShaped(fs) && f < |fs| && i < 3
    ensures FirstSeen(fs, k, f, i + 1) ==
      (if FirstSeen(fs, k, f, i).Some? then FirstSeen(fs, k, f, i)
       else if k == EdgeOf(fs[f], i) then Some(f) else None)
    ensures LastSeen(fs, k, f, i + 1) ==
      (if k == EdgeOf(fs[f], i) then Some(f) else LastSeen(fs, k, f, i))
  {
  }

  /** A non-degenerate facet has not met edge `i` among its earlier edges. */
  lemma NotBeforeItself(mf: MeshFacet, i: nat)
    requires NonDegenerate(mf) && i < 3
    ensures !HasEdgeBefore(mf, EdgeOf(mf, i), i)
  {
    if i > 0 { EdgesDistinct(mf, 0, i); }
    if i > 1 { EdgesDistinct(mf, 1, i); }
  }

  lemma {:induction false} InvNextFacet(fs0: seq<MeshFacet>, fs: seq<MeshFacet>, edges: map<Edge, nat>, f: nat)
    requires Inv(fs0, fs, edges, f, 3) && f < |fs0|
    ensures Inv(fs0, fs, edges, f + 1, 0)
  {
    forall k
      ensures FirstSeen(fs0, k, f + 1, 0) == (if k in edges then Some(edges[k]) else None)
    {
      SeenNextFacet(fs0, k, f);
    }
    forall g, j | 0 <= g < |fs| && 0 <= j < 3
      ensures fs[g].neighbours[j] == Expected(fs0, g, j, f + 1, 0)
    {
      SeenNextFacet(fs0, EdgeOf(fs0[g], j), f);
    }
  }

  /** The two slots LinkStep writes, and that it writes no other. */
  lemma LinkStepSlot(fs: seq<MeshFacet>, edges: map<Edge, nat>, f: nat, i: nat, g: nat, j: nat)
    requires AllShaped(fs) && f < |fs| && i < 3 && EdgeTargetsBelow(edges, |fs|)
    requires g < |fs| && j < 3
    ensures var K := EdgeOf(fs[f], i);
            LinkStep(fs, edges, f, i).0[g].neighbours[j] ==
              if K !in edges then fs[g].neighbours[j]
              else if g == f && j == i then Some(edges[K])
              else if g == edges[K] && j == NeighbourSlot(fs[edges[K]], K) then Some(f)
              else fs[g].neighbours[j]
  {
  }

  /** Slot `j` of facet `g` holds edge `k` and lies before (`f`, `i`), so `k` was seen. */
  lemma ProcessedIsSeen(fs: seq<MeshFacet>, g: nat, j: nat, f: nat, i: nat)
    requires AllShaped(fs) && f <= |fs| && g < |fs| && j < 3 && Processed(g, j, f, i)
    ensures FirstSeen(fs, EdgeOf(fs[g], j), f, i).Some?
  {
    var k := EdgeOf(fs[g], j);
    assert j == 0 || j == 1 || j == 2;
    if g < f {
      assert HasEdge(fs[g], k);
    } else {
      assert HasEdgeBefore(fs[f], k, i);
    }
  }

  /** The edge of the current position was already recorded with facet `e`. */
  lemma {:induction false} StepSlotLinked(fs0: seq<MeshFacet>, fs: seq<MeshFacet>, edges: map<Edge, nat>, f: nat, i: nat, g: nat, j: nat)
    requires AllShaped(fs0) && AllNonDegenerate(fs0) && SameFrame(fs0, fs) && AllShaped(fs)
    requires EdgeTargetsBelow(edges, |fs|) && f < |fs0| && i < 3 && g < |fs0| && j < 3
    requires EdgeOf(fs0[f], i) in edges
    requires FirstSeen(fs0, EdgeOf(fs0[f], i), f, i) == Some(edges[EdgeOf(fs0[f], i)])
    requires fs[g].neighbours[j] == Expected(fs0, g, j, f, i)
    ensures LinkStep(fs, edges, f, i).0[g].neighbours[j] == Expected(fs0, g, j, f, i + 1)
  {
    var K := EdgeOf(fs0[f], i);
    assert K == EdgeOf(fs[f], i);
    var e := edges[K];
    var k := EdgeOf(fs0[g], j);
    SeenNextEdge(fs0, k, f, i);
    SeenNextEdge(fs0, K, f, i);
    LinkStepSlot(fs, edges, f, i, g, j);
    NotBeforeItself(fs0[f], i);
    assert e < f;
    assert fs[e].corners == fs0[e].corners;
    var s := NeighbourSlot(fs[e], K);
    assert HasEdge(fs0[e], K);
    if EdgeOf(fs0[e], 0) == K { NeighbourSlotOfEdge(fs0[e], 0); }
    else if EdgeOf(fs0[e], 1) == K { NeighbourSlotOfEdge(fs0[e], 1); }
    else { NeighbourSlotOfEdge(fs0[e], 2); }
    assert EdgeOf(fs0[e], s) == K;
    if g == e && j != s {
      EdgesDistinct(fs0[e], j, s);
    }
  }

  /** The edge of the current position is new. */
  lemma {:induction false} StepSlotNew(fs0: seq<MeshFacet>, fs: seq<MeshFacet>, edges: map<Edge, nat>, f: nat, i: nat, g: nat, j: nat)
    requires AllShaped(fs0) && SameFrame(fs0, fs) && AllShaped(fs)
    requires EdgeTargetsBelow(edges, |fs|) && f < |fs0| && i < 3 && g < |fs0| && j < 3
    requires EdgeOf(fs0[f], i) !in edges
    requires FirstSeen(fs0, EdgeOf(fs0[f], i), f, i) == None
    requires fs[g].neighbours[j] == Expected(fs0, g, j, f, i)
    ensures LinkStep(fs, edges, f, i).0[g].neighbours[j] == Expected(fs0, g, j, f, i + 1)
  {
    var K := EdgeOf(fs0[f], i);
    assert K == EdgeOf(fs[f], i);
    var k := EdgeOf(fs0[g], j);
    SeenNextEdge(fs0, k, f, i);
    LinkStepSlot(fs, edges, f, i, g, j);
    if Processed(g, j, f, i) {
      ProcessedIsSeen(fs0, g, j, f, i);
      assert k != K;
    }
  }

  /** One slot after a step on edge `i` of facet `f`. */
  lemma {:induction false} StepSlot(fs0: seq<MeshFacet>, fs: seq<MeshFacet>, edges: map<Edge, nat>, f: nat, i: nat, g: nat, j: nat)
    requires Inv(fs0, fs, edges, f, i) && f < |fs0| && i < 3
    requires g < |fs0| && j < 3
    ensures LinkStep(fs, edges, f, i).0[g].neighbours[j] == Expected(fs0, g, j, f, i + 1)
  {
    var K := EdgeOf(fs0[f], i);
    assert FirstSeen(fs0, K, f, i) == (if K in edges then Some(edges[K]) else None);
    if K in edges {
      StepSlotLinked(fs0, fs, edges, f, i, g, j);
    } else {
      StepSlotNew(fs0, fs, edges, f, i, g, j);
    }
  }

  lemma {:induction false} InvNextEdge(fs0: seq<MeshFacet>, fs: seq<MeshFacet>, edges: map<Edge, nat>, f: nat, i: nat)
    requires Inv(fs0, fs, edges, f, i) && f < |fs0| && i < 3
    ensures Inv(fs0, LinkStep(fs, edges, f, i).0, LinkStep(fs, edges, f, i).1, f, i + 1)
  {
    var (fs', edges') := LinkStep(fs, edges, f, i);
    var K := EdgeOf(fs0[f], i);
    assert K == EdgeOf(fs[f], i);
    forall k
      ensures FirstSeen(fs0, k, f, i + 1) == (if k in edges' then Some(edges'[k]) else None)
    {
      SeenNextEdge(fs0, k, f, i);
    }
    forall g, j | 0 <= g < |fs'| && 0 <= j < 3
      ensures fs'[g].neighbours[j] == Expected(fs0, g, j, f, i + 1)
    {
      StepSlot(fs0, fs, edges, f, i, g, j);
    }
  }

  /** Every slot of `r` holds what the closed form expects once the loop is done. */
  ghost predicate Done(fs0: seq<MeshFacet>, r: seq<MeshFacet>)
    requires AllShaped(fs0) && AllShaped(r) && |r| == |fs0|
  {
    forall g, j :: 0 <= g < |fs0| && 0 <= j < 3 ==> r[g].neighbours[j] == Expected(fs0, g, j, |fs0|, 0)
  }

  /** At the end of the facet array the invariant is the closed form. */
  lemma InvAtEnd(fs0: seq<MeshFacet>, fs: seq<MeshFacet>, edges: map<Edge, nat>)
    requires Inv(fs0, fs, edges, |fs0|, 0)
    ensures Done(fs0, fs)
  {
  }

  /** The loop at the end of a facet's edges goes on with the next facet. */
  lemma DoneNextFacet(fs0: seq<MeshFacet>, fs: seq<MeshFacet>, edges: map<Edge, nat>, f: nat)
    requires AllShaped(fs0) && AllShaped(fs) && |fs| == |fs0| && f < |fs| && EdgeTargetsBelow(edges, |fs|)
    requires Done(fs0, Run(fs, edges, f + 1, 0))
    ensures Done(fs0, Run(fs, edges, f, 3))
  {
  }

  /** The loop at edge `i` of facet `f` goes on from the state LinkStep leaves. */
  lemma DoneNextEdge(fs0: seq<MeshFacet>, fs: seq<MeshFacet>, edges: map<Edge, nat>, f: nat, i: nat)
    requires AllShaped(fs0) && AllShaped(fs) && |fs| == |fs0| && f < |fs| && i < 3 && EdgeTargetsBelow(edges, |fs|)
    requires Done(fs0, Run(LinkStep(fs, edges, f, i).0, LinkStep(fs, edges, f, i).1, f, i + 1))
    ensures Done(fs0, Run(fs, edges, f, i))
  {
  }

  /** Running the loop from any state that satisfies `Inv` reaches the closed form. */
  lemma {:induction false} RunFromInv(fs0: seq<MeshFacet>, fs: seq<MeshFacet>, edges: map<Edge, nat>, f: nat, i: nat)
    requires Inv(fs0, fs, edges, f, i) && (f < |fs0| || i == 0)
    ensures Done(fs0, Run(fs, edges, f, i))
    decreases |fs0| - f, 3 - i, 1
  {
    if f == |fs0| {
      InvAtEnd(fs0, fs, edges);
    } else if i == 3 {
      RunFromNextFacet(fs0, fs, edges, f);
    } else {
      RunFromNextEdge(fs0, fs, edges, f, i);
    }
  }

  /** The step past the last edge of facet `f`. */
  lemma {:induction false} RunFromNextFacet(fs0: seq<MeshFacet>, fs: seq<MeshFacet>, edges: map<Edge, nat>, f: nat)
    requires Inv(fs0, fs, edges, f, 3) && f < |fs0|
    ensures Done(fs0, Run(fs, edges, f, 3))
    decreases |fs0| - f, 0, 0
  {
    InvNextFacet(fs0, fs, edges, f);
    RunFromInv(fs0, fs, edges, f + 1, 0);
    DoneNextFacet(fs0, fs, edges, f);
  }

  /** The step on edge `i` of facet `f`. */
  lemma {:induction false} RunFromNextEdge(fs0: seq<MeshFacet>, fs: seq<MeshFacet>, edges: map<Edge, nat>, f: nat, i: nat)
    requires Inv(fs0, fs, edges, f, i) && f < |fs0| && i < 3
    ensures Done(fs0, Run(fs, edges, f, i))
    decreases |fs0| - f, 3 - i, 0
  {
    InvNextEdge(fs0, fs, edges, f, i);
    var step := LinkStep(fs, edges, f, i);
    RunFromInv(fs0, step.0, step.1, f, i + 1);
    DoneNextEdge(fs0, fs, edges, f, i);
  }

  /** Before the loop nothing is seen and every slot is as it was. */
  lemma InitialInv(fs: seq<MeshFacet>)
    requires AllShaped(fs) && AllNonDegenerate(fs)
    ensures Inv(fs, fs, map[], 0, 0)
  {
    forall k ensures FirstSeen(fs, k, 0, 0) == None { }
  }

  /** Once every position is processed, a slot expects the first or last holder of its edge. */
  lemma ExpectedAtEnd(fs: seq<MeshFacet>, g: nat, j: nat)
    requires AllShaped(fs) && g < |fs| && j < 3
    ensures var k := EdgeOf(fs[g], j);
            var first := FirstHolder(fs, k, |fs|);
            var last := LastHolder(fs, k, |fs|);
            Expected(fs, g, j, |fs|, 0) ==
              if first.Some? && first.value != g then first
              else if last.Some? && last.value != g then last
              else fs[g].neighbours[j]
  {
    var k := EdgeOf(fs[g], j);
    assert Processed(g, j, |fs|, 0);
    assert FirstSeen(fs, k, |fs|, 0) == FirstHolder(fs, k, |fs|);
    assert LastSeen(fs, k, |fs|, 0) == LastHolder(fs, k, |fs|);
  }

  /**
   * The closed form of SetNeighbourhood on non-degenerate facets. Slot `j`
   * of facet `g` (edge `k`) points at the first facet that has `k` when
   * that is another facet. When `g` is itself the first, the slot points at
   * the last facet that has `k` if that is another facet. An edge no other
   * facet has leaves the slot as it was.
   */
  lemma NeighbourhoodClosedForm(fs: seq<MeshFacet>, g: nat, j: nat)
    requires AllShaped(fs) && AllNonDegenerate(fs)
    requires g < |fs| && j < 3
    ensures var k := EdgeOf(fs[g], j);
            var first := FirstHolder(fs, k, |fs|);
            var last := LastHolder(fs, k, |fs|);
            Neighbourhood(fs)[g].neighbours[j] ==
              if first.Some? && first.value != g then first
              else if last.Some? && last.value != g then last
              else fs[g].neighbours[j]
  {
    InitialInv(fs);
    RunFromInv(fs, fs, map[], 0, 0);
    var r := Neighbourhood(fs);
    assert Done(fs, r);
    assert r[g].neighbours[j] == Expected(fs, g, j, |fs|, 0);
    ExpectedAtEnd(fs, g, j);
  }

  /**
   * A facet edge that an earlier facet already had is linked to the
   * first such facet (Builder.cpp:170).
   */
  lemma NeighbourIsFirstHolder(fs: seq<MeshFacet>, g: nat, j: nat, h: nat)
    requires AllShaped(fs) && AllNonDegenerate(fs)
    requires g < |fs| && j < 3 && h < g && HasEdge(fs[h], EdgeOf(fs[g], j))
    ensures var first := FirstHolder(fs, EdgeOf(fs[g], j), |fs|);
            first.Some? && first.value <= h && Neighbourhood(fs)[g].neighbours[j] == first
  {
    NeighbourhoodClosedForm(fs, g, j);
  }

  /**
   * The facets are linked symmetrically: the first facet that has an edge
   * and the last that has it point at each other when they differ.
   */
  lemma FirstAndLastLinked(fs: seq<MeshFacet>, k: Edge, a: nat, ja: nat, b: nat, jb: nat)
    requires AllShaped(fs) && AllNonDegenerate(fs)
    requires FirstHolder(fs, k, |fs|) == Some(a) && LastHolder(fs, k, |fs|) == Some(b) && a != b
    requires ja < 3 && jb < 3 && EdgeOf(fs[a], ja) == k && EdgeOf(fs[b], jb) == k
    ensures Neighbourhood(fs)[a].neighbours[ja] == Some(b)
    ensures Neighbourhood(fs)[b].neighbours[jb] == Some(a)
  {
    NeighbourhoodClosedForm(fs, a, ja);
    NeighbourhoodClosedForm(fs, b, jb);
  }
}
