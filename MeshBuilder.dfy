/**
 * MeshCore::MeshBuilder (Builder.cpp:21-233): builds a mesh kernel facet by
 * facet. Points are deduplicated through an ordered set that remembers the
 * index each point was given; `_pointsIterator` remembers the points in
 * the order they were numbered, and `Finish` writes them back in that
 * order, links facets that share an edge and drops unused points.
 */
module MeshBuilder {
  import opened Wrappers
  import opened MeshCore
  import opened MeshNeighbours
  import opened MeshPrune

  function Positions(pts: seq<MeshPoint>): (r: seq<Vec3>)
    ensures |r| == |pts|
    ensures forall n :: 0 <= n < |pts| ==> r[n] == pts[n].pos
  {
    if pts == [] then [] else Positions(pts[..|pts| - 1]) + [pts[|pts| - 1].pos]
  }

  /**
   * The point set after adopting the kernel's points, with each point
   * stored under the index of its first occurrence (the intended reading
   * of Builder.cpp:60-65; see `AdoptedAsWritten`).
   */
  function Adopted(kpts: seq<MeshPoint>): (m: map<Vec3, nat>)
    ensures forall v :: v in m ==> m[v] < |kpts| && kpts[m[v]].pos == v
    ensures forall n :: 0 <= n < |kpts| ==> kpts[n].pos in m && m[kpts[n].pos] <= n
  {
    if kpts == [] then map[]
    else
      var m := Adopted(kpts[..|kpts| - 1]);
      var p := kpts[|kpts| - 1];
      if p.pos in m then m else m[p.pos := |kpts| - 1]
  }

  /**
   * Builder.cpp:60-65 as written: the set keeps each adopted point with
   * the `_ulProp` it already had, and `_ptIdx` becomes the size of the set.
   */
  function AdoptedAsWritten(kpts: seq<MeshPoint>): (r: (map<Vec3, nat>, seq<Vec3>, nat))
    ensures r.1 == Positions(kpts)
  {
    var m := AdoptedSetAsWritten(kpts);
    (m, Positions(kpts), |m.Keys|)
  }

  function AdoptedSetAsWritten(kpts: seq<MeshPoint>): (m: map<Vec3, nat>)
    ensures forall n :: 0 <= n < |kpts| ==> kpts[n].pos in m
  {
    if kpts == [] then map[]
    else
      var m := AdoptedSetAsWritten(kpts[..|kpts| - 1]);
      var p := kpts[|kpts| - 1];
      if p.pos in m then m else m[p.pos := p.prop]
  }

  /** The index AddFacet hands out for `v` (Builder.cpp:116-126). */
  function IndexFor(known: map<Vec3, nat>, ptIdx: nat, v: Vec3): nat
  {
    if v in known then known[v] else ptIdx
  }

  /**
   * As written, adoption misnumbers points. Take kernel points A and B, both
   * with property 0. A later facet corner at B is given index 0, which
   * `Finish` fills with A. With A adopted twice, the next new point is given
   * index 1, which is also A's slot.
   */
  lemma AdoptedAsWrittenMisnumbers()
    ensures var a := Vec3(0.0, 0.0, 0.0);
            var b := Vec3(1.0, 0.0, 0.0);
            var (known, order, ptIdx) := AdoptedAsWritten([MeshPoint(a, 0), MeshPoint(b, 0)]);
            IndexFor(known, ptIdx, b) == 0 && order[0] == a && a != b
    ensures var a := Vec3(0.0, 0.0, 0.0);
            var c := Vec3(0.0, 0.0, 1.0);
            var (known, order, ptIdx) := AdoptedAsWritten([MeshPoint(a, 0), MeshPoint(a, 0)]);
            c !in known && IndexFor(known, ptIdx, c) == 1 && order[1] == a
  {
    var a := Vec3(0.0, 0.0, 0.0);
    var b := Vec3(1.0, 0.0, 0.0);
    var kab := [MeshPoint(a, 0), MeshPoint(b, 0)];
    assert kab[..1] == [MeshPoint(a, 0)];
    assert [MeshPoint(a, 0)][..0] == [];
    var kaa := [MeshPoint(a, 0), MeshPoint(a, 0)];
    assert kaa[..1] == [MeshPoint(a, 0)];
    assert AdoptedSetAsWritten([MeshPoint(a, 0)]) == map[a := 0];
    var m := AdoptedSetAsWritten(kaa);
    assert m == map[a := 0];
    assert m.Keys == {a};
  }

  /** Point `v` and its index before and after resolving it. */
  function WrittenPoints(order: seq<Vec3>, known: map<Vec3, nat>): (r: seq<MeshPoint>)
    requires forall n :: 0 <= n < |order| ==> order[n] in known
    ensures |r| == |order|
    ensures forall n :: 0 <= n < |order| ==> r[n].pos == order[n]
  {
    seq(|order|, n requires 0 <= n < |order| => MeshPoint(order[n], known[order[n]]))
  }

  class MeshBuilder {
    const kernel: MeshKernel
    /** `_points`: every point numbered so far, with the index it was given. */
    var points: map<Vec3, nat>
    /** `_pointsIterator`: the points in the order of their indices. */
    var order: seq<Vec3>
    /** `_ptIdx`: the index the next new point gets. */
    var ptIdx: nat

    /** Index `n` names `order[n]`, and the set and the order agree. */
    ghost predicate Indexed()
      reads this
    {
      ptIdx == |order| &&
      (forall v :: v in points ==> points[v] < |order| && order[points[v]] == v) &&
      (forall n :: 0 <= n < |order| ==> order[n] in points)
    }

    /** The state between Initialize and Finish. */
    ghost predicate Valid()
      reads this, kernel
    {
      Indexed() && kernel.points == [] &&
      CornersBelow(kernel.facets, |order|)
    }

    /** A builder that holds no points (fresh, or after Finish). */
    predicate Idle()
      reads this
    {
      points == map[] && order == []
    }

    constructor(kernel: MeshKernel)
      ensures this.kernel == kernel && Idle() && ptIdx == 0
    {
      this.kernel := kernel;
      points := map[];
      order := [];
      ptIdx := 0;
    }

    /**
     * With `deletion` the kernel is emptied and numbering starts at 0.
     * Without it the kernel's points move into the set, in their order,
     * and the kernel's point array is emptied; its facets stay, whatever
     * they are, as long as their corners name kernel points.
     */
    method Initialize(deletion: bool)
      requires Idle()
      requires !deletion ==> CornersBelow(kernel.facets, |kernel.points|)
      modifies this, kernel
      ensures Valid()
      ensures deletion ==> kernel.facets == [] && order == []
      ensures !deletion ==> kernel.facets == old(kernel.facets)
      ensures !deletion ==> order == Positions(old(kernel.points)) && points == Adopted(old(kernel.points))
    {
      if deletion {
        kernel.points := [];
        kernel.facets := [];
        ptIdx := 0;
      } else {
        var kpts := kernel.points;
        var k := 0;
        while k < |kpts|
          invariant 0 <= k <= |kpts|
          invariant order == Positions(kpts[..k]) && points == Adopted(kpts[..k])
          invariant kernel.points == kpts && kernel.facets == old(kernel.facets)
        {
          assert kpts[..k + 1][..k] == kpts[..k];
          var pos := kpts[k].pos;
          if pos !in points {
            points := points[pos := |order|];
          }
          order := order + [pos];
          k := k + 1;
        }
        assert kpts[..k] == kpts;
        ptIdx := |order|;
        kernel.points := [];
      }
    }

    /**
     * Looks `v` up in the set: a known point keeps its index; a new point
     * gets `ptIdx`, which then goes up by one (Builder.cpp:113-127).
     */
    method ResolvePoint(v: Vec3) returns (idx: nat)
      requires Indexed()
      modifies this
      ensures Indexed() && v in points && idx == points[v] && order[idx] == v
      ensures v in old(points) ==>
        idx == old(points)[v] && points == old(points) && order == old(order) && ptIdx == old(ptIdx)
      ensures v !in old(points) ==>
        idx == old(ptIdx) && ptIdx == old(ptIdx) + 1 &&
        points == old(points)[v := idx] && order == old(order) + [v]
      ensures forall u :: u in points <==> u in old(points) || u == v
      ensures forall u :: u in old(points) ==> points[u] == old(points)[u]
      ensures old(order) <= order
    {
      if v !in points {
        idx := ptIdx;
        ptIdx := ptIdx + 1;
        points := points[v := idx];
        order := order + [v];
      } else {
        idx := points[v];
      }
    }

    /**
     * Adds a facet through three points; `flip` is the orientation test
     * (the normal points away from the corner circulation), which swaps
     * the second and third corner. The facet is appended when its corners
     * are three different points and dropped otherwise; the points are
     * numbered either way.
     */
    method AddFacet(p0: Vec3, p1: Vec3, p2: Vec3, flip: bool, flag: nat, prop: nat)
      requires Valid()
      modifies this, kernel
      ensures Valid()
      ensures AllNonDegenerate(old(kernel.facets)) ==> AllNonDegenerate(kernel.facets)
      ensures var q1 := if flip then p2 else p1;
              var q2 := if flip then p1 else p2;
              p0 in points && q1 in points && q2 in points &&
              (forall v :: v in points <==> v in old(points) || v == p0 || v == q1 || v == q2) &&
              (forall v :: v in old(points) ==> points[v] == old(points)[v]) &&
              old(order) <= order &&
              kernel.facets ==
                if p0 != q1 && p0 != q2 && q1 != q2
                then old(kernel.facets) + [NewFacet(points[p0], points[q1], points[q2], flag, prop)]
                else old(kernel.facets)
    {
      var q1, q2 := p1, p2;
      if flip {
        q1, q2 := p2, p1;
      }
      var c0, c1, c2 := ResolveCorners(p0, q1, q2);
      if c0 == c1 || c0 == c2 || c1 == c2 {
        return;
      }
      kernel.facets := kernel.facets + [NewFacet(c0, c1, c2, flag, prop)];
    }

    /** The corner loop of AddFacet (Builder.cpp:113-127), one point after the other. */
    method ResolveCorners(p0: Vec3, p1: Vec3, p2: Vec3) returns (c0: nat, c1: nat, c2: nat)
      requires Indexed()
      modifies this
      ensures Indexed() && old(order) <= order
      ensures p0 in points && p1 in points && p2 in points
      ensures c0 == points[p0] && c1 == points[p1] && c2 == points[p2]
      ensures forall v :: v in points <==> v in old(points) || v == p0 || v == p1 || v == p2
      ensures forall v :: v in old(points) ==> points[v] == old(points)[v]
    {
      c0 := ResolvePoint(p0);
      c1 := ResolvePoint(p1);
      c2 := ResolvePoint(p2);
    }

    /**
     * The MeshGeomFacet overload (Builder.cpp:80-90): the facet's own flag
     * and property are taken only when asked for, 0 otherwise, and its
     * three corners go to the point overload, so the points are numbered
     * and the facet is appended or dropped as `AddFacet` states.
     */
    method AddGeomFacet(corners: seq<Vec3>, facetFlag: nat, facetProp: nat, takeFlag: bool, takeProperty: bool, flip: bool)
      requires Valid() && |corners| == 3
      modifies this, kernel
      ensures Valid() && old(order) <= order
      ensures var q1 := if flip then corners[2] else corners[1];
              var q2 := if flip then corners[1] else corners[2];
              var flag := if takeFlag then facetFlag else 0;
              var prop := if takeProperty then facetProp else 0;
              corners[0] in points && q1 in points && q2 in points &&
              (forall v :: v in points <==> v in old(points) || v in corners) &&
              (forall v :: v in old(points) ==> points[v] == old(points)[v]) &&
              kernel.facets ==
                if corners[0] != q1 && corners[0] != q2 && q1 != q2
                then old(kernel.facets) + [NewFacet(points[corners[0]], points[q1], points[q2], flag, prop)]
                else old(kernel.facets)
      ensures |kernel.facets| == |old(kernel.facets)| || |kernel.facets| == |old(kernel.facets)| + 1
      ensures |kernel.facets| > |old(kernel.facets)| ==>
        kernel.facets[|old(kernel.facets)|].flag == (if takeFlag then facetFlag else 0) &&
        kernel.facets[|old(kernel.facets)|].prop == (if takeProperty then facetProp else 0)
    {
      var flag := if takeFlag then facetFlag else 0;
      var prop := if takeProperty then facetProp else 0;
      AddFacet(corners[0], corners[1], corners[2], flip, flag, prop);
    }

    /**
     * Links facets that share an edge (Builder.cpp:136-180); see
     * `MeshNeighbours.NeighbourhoodClosedForm` for what the result is.
     */
    method SetNeighbourhood()
      requires AllShaped(kernel.facets)
      modifies kernel
      ensures kernel.facets == Neighbourhood(old(kernel.facets))
      ensures kernel.points == old(kernel.points)
    {
      var edges: map<Edge, nat> := map[];
      var f := 0;
      while f < |kernel.facets|
        invariant 0 <= f <= |kernel.facets| && AllShaped(kernel.facets)
        invariant |kernel.facets| == |old(kernel.facets)| && EdgeTargetsBelow(edges, |kernel.facets|)
        invariant Run(kernel.facets, edges, f, 0) == Neighbourhood(old(kernel.facets))
        invariant kernel.points == old(kernel.points)
      {
        var i := 0;
        while i < 3
          invariant 0 <= i <= 3 && AllShaped(kernel.facets)
          invariant |kernel.facets| == |old(kernel.facets)| && EdgeTargetsBelow(edges, |kernel.facets|)
          invariant Run(kernel.facets, edges, f, i) == Neighbourhood(old(kernel.facets))
          invariant kernel.points == old(kernel.points)
        {
          RunEdge(kernel.facets, edges, f, i);
          edges := LinkEdge(f, i, edges);
          i := i + 1;
        }
        RunFacet(kernel.facets, edges, f);
        f := f + 1;
      }
    }

    /**
     * One edge of one facet (Builder.cpp:146-176): a new edge is recorded
     * with the facet; a known one links the facet recorded for it and this
     * one to each other, in the slot of the shared edge.
     */
    method LinkEdge(f: nat, i: nat, edges: map<Edge, nat>) returns (edges': map<Edge, nat>)
      requires AllShaped(kernel.facets) && f < |kernel.facets| && i < 3 && EdgeTargetsBelow(edges, |kernel.facets|)
      modifies kernel
      ensures (kernel.facets, edges') == LinkStep(old(kernel.facets), edges, f, i)
      ensures kernel.points == old(kernel.points)
    {
      var fs := kernel.facets;
      var mf := fs[f];
      var edge := MakeEdge(mf.corners[i], mf.corners[(i + 1) % 3]);
      edges' := edges;
      if edge in edges {
        var e := edges[edge];
        var mf1 := fs[e];
        var slot: nat;
        if mf1.corners[0] == edge.lo {
          slot := if mf1.corners[1] == edge.hi then 0 else 2;
        } else if mf1.corners[0] == edge.hi {
          slot := if mf1.corners[1] == edge.lo then 0 else 2;
        } else {
          slot := 1;
        }
        assert slot == NeighbourSlot(mf1, edge);
        fs := fs[e := mf1.(neighbours := mf1.neighbours[slot := Some(f)])];
        mf := fs[f];
        fs := fs[f := mf.(neighbours := mf.neighbours[i := Some(e)])];
        kernel.facets := fs;
      } else {
        edges' := edges[edge := f];
      }
    }

    /** Builder.cpp:182-194; see `MeshPrune.Prune` for what the result is. */
    method RemoveUnreferencedPoints()
      requires CornersBelow(kernel.facets, |kernel.points|)
      modifies kernel
      ensures (kernel.points, kernel.facets) == Prune(old(kernel.points), old(kernel.facets))
    {
      var valid := MarkUsed(kernel.facets, |kernel.points|);
      var count := CountValid(valid);
      if count < |kernel.points| {
        RemoveInvalids(valid);
      }
    }

    /**
     * Drops the points whose flag is cleared and renumbers the corners
     * (the part of MeshKernel::RemoveInvalids this builder relies on).
     */
    method RemoveInvalids(valid: array<bool>)
      requires valid.Length == |kernel.points| && CornersBelow(kernel.facets, valid.Length)
      modifies kernel
      ensures kernel.points == Compact(old(kernel.points), valid[..])
      ensures kernel.facets == Renumber(old(kernel.facets), valid[..])
    {
      var n := valid.Length;
      var pts := kernel.points;
      var fs := kernel.facets;
      var mask := valid[..];
      var newIndex := new nat[n](v => 0);
      var kept: seq<MeshPoint> := [];
      for v := 0 to n
        modifies newIndex
        invariant kept == Compact(pts[..v], mask[..v])
        invariant forall u :: 0 <= u < v ==> newIndex[u] == NewIndex(mask, u)
      {
        CompactStep(pts, mask, v);
        newIndex[v] := |kept|;
        if valid[v] {
          kept := kept + [pts[v]];
        }
      }
      assert pts[..n] == pts && mask[..n] == mask;
      ghost var table := newIndex[..];
      var renumbered: seq<MeshFacet> := [];
      for f := 0 to |fs|
        invariant renumbered == Renumber(fs, mask)[..f]
        invariant newIndex[..] == table
      {
        RenumberStep(fs, mask, f, table);
        var c := fs[f].corners;
        renumbered := renumbered + [fs[f].(corners := [newIndex[c[0]], newIndex[c[1]], newIndex[c[2]]])];
      }
      kernel.points := kept;
      kernel.facets := renumbered;
    }

    /**
     * Writes the points into the kernel in index order, empties the set,
     * links neighbours and drops unused points. Every facet corner still
     * names the point it was given, and every kernel point is used.
     */
    method Finish()
      requires Valid()
      modifies this, kernel
      ensures Idle() && ptIdx == old(ptIdx)
      ensures (kernel.points, kernel.facets) ==
        Prune(WrittenPoints(old(order), old(points)), Neighbourhood(old(kernel.facets)))
      ensures |kernel.facets| == |old(kernel.facets)| && CornersBelow(kernel.facets, |kernel.points|)
      ensures forall f, i :: 0 <= f < |kernel.facets| && 0 <= i < 3 ==>
        kernel.points[kernel.facets[f].corners[i]].pos == old(order)[old(kernel.facets)[f].corners[i]]
      ensures forall w :: 0 <= w < |kernel.points| ==> Referenced(kernel.facets, w)
    {
      var written: seq<MeshPoint> := [];
      for n := 0 to |order|
        invariant written == WrittenPoints(order, points)[..n]
      {
        written := written + [MeshPoint(order[n], points[order[n]])];
      }
      ghost var facets0 := kernel.facets;
      ghost var order0 := order;
      ghost var all := WrittenPoints(order, points);
      assert written == all;
      kernel.points := written;
      order := [];
      points := map[];
      SetNeighbourhood();
      ghost var linked := kernel.facets;
      assert CornersBelow(linked, |written|);
      RemoveUnreferencedPoints();
      PruneKeepsGeometry(written, linked);
      PruneLeavesOnlyReferenced(written, linked);
    }
  }

  /**
   * Sets the valid flag of every point some facet corner names, starting
   * from all points flagged invalid (Builder.cpp:184-189).
   */
  method MarkUsed(fs: seq<MeshFacet>, n: nat) returns (valid: array<bool>)
    requires CornersBelow(fs, n)
    ensures fresh(valid) && valid[..] == UsedMask(fs, n)
  {
    valid := new bool[n](v => false);
    for f := 0 to |fs|
      invariant forall v :: 0 <= v < n ==> (valid[v] <==> ReferencedBefore(fs, v, f, 0))
    {
      for i := 0 to 3
        invariant forall v :: 0 <= v < n ==> (valid[v] <==> ReferencedBefore(fs, v, f, i))
      {
        valid[fs[f].corners[i]] := true;
      }
    }
    forall v | 0 <= v < n
      ensures valid[v] == UsedMask(fs, n)[v]
    {
      ReferencedBeforeEnd(fs, v);
    }
  }

  /** The number of valid points (Builder.cpp:191). */
  method CountValid(valid: array<bool>) returns (count: nat)
    ensures count == CountTrue(valid[..])
  {
    count := 0;
    for v := 0 to valid.Length
      invariant count == CountTrue(valid[..v])
    {
      assert valid[..v + 1][..v] == valid[..v];
      if valid[v] {
        count := count + 1;
      }
    }
    assert valid[..valid.Length] == valid[..];
  }

  /** Some corner before position (`f`, `i`) names point `v`. */
  ghost predicate ReferencedBefore(fs: seq<MeshFacet>, v: nat, f: nat, i: nat)
  {
    exists g, j :: 0 <= g < |fs| && 0 <= j < 3 && (g < f || (g == f && j < i)) &&
      j < |fs[g].corners| && fs[g].corners[j] == v
  }

  lemma ReferencedBeforeEnd(fs: seq<MeshFacet>, v: nat)
    ensures ReferencedBefore(fs, v, |fs|, 0) <==> Referenced(fs, v)
  {
  }
}
