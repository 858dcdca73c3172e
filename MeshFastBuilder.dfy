/**
 * MeshCore::MeshFastBuilder (Builder.cpp:237-338): collects three vertices
 * per facet, then sorts all vertices, merges equal neighbours in place and
 * renumbers every facet corner to its merged vertex.
 */
module MeshFastBuilder {
  import opened MeshCore

  /** `Private::Vertex`: a position and the input slot `i` it came from. */
  datatype Vertex = Vertex(pos: Vec3, i: nat)

  predicate Sorted(s: seq<Vertex>)
  {
    forall a, b :: 0 <= a < b < |s| ==> VertexLessEq(s[a].pos, s[b].pos)
  }

  predicate StrictlyIncreasing(s: seq<Vec3>)
  {
    forall a, b :: 0 <= a < b < |s| ==> VertexLess(s[a], s[b])
  }

  /** Strictly increasing positions hold no point twice. */
  lemma StrictlyIncreasingDistinct(s: seq<Vec3>, a: nat, b: nat)
    requires StrictlyIncreasing(s) && a < |s| && b < |s| && a != b
    ensures s[a] != s[b]
  {
    if a < b {
      VertexLessStrictTotal(s[a], s[b], s[b]);
    } else {
      VertexLessStrictTotal(s[b], s[a], s[a]);
    }
  }

  /** Every element of `s` is at or above `p`. */
  predicate AllAtLeast(p: Vec3, s: seq<Vertex>)
  {
    forall x :: 0 <= x < |s| ==> VertexLessEq(p, s[x].pos)
  }

  lemma VertexLessEqTrans(a: Vec3, b: Vec3, c: Vec3)
    requires VertexLessEq(a, b) && VertexLessEq(b, c)
    ensures VertexLessEq(a, c)
  {
    VertexLessStrictTotal(a, b, c);
  }

  /** A bound on every element carries over to a rearrangement. */
  lemma AllAtLeastRearranged(p: Vec3, a: seq<Vertex>, b: seq<Vertex>)
    requires multiset(a) == multiset(b) && AllAtLeast(p, b)
    ensures AllAtLeast(p, a)
  {
    forall x | 0 <= x < |a|
      ensures VertexLessEq(p, a[x].pos)
    {
      assert a[x] in multiset(b);
      var y :| 0 <= y < |b| && b[y] == a[x];
    }
  }

  function Insert(v: Vertex, s: seq<Vertex>): (r: seq<Vertex>)
    requires Sorted(s)
    ensures Sorted(r) && multiset(r) == multiset(s) + multiset{v} && |r| == |s| + 1
  {
    if s == [] then [v]
    else if VertexLessEq(v.pos, s[0].pos) then
      assert forall b :: 0 < b < |s| ==> VertexLessEq(s[0].pos, s[b].pos);
      assert forall b :: 0 <= b < |s| ==> VertexLessEq(v.pos, s[b].pos) by {
        forall b | 0 <= b < |s| ensures VertexLessEq(v.pos, s[b].pos) {
          if b > 0 { VertexLessEqTrans(v.pos, s[0].pos, s[b].pos); }
        }
      }
      [v] + s
    else
      VertexLessStrictTotal(v.pos, s[0].pos, s[0].pos);
      var rest := Insert(v, s[1..]);
      assert s == [s[0]] + s[1..];
      assert multiset(rest) == multiset(s[1..] + [v]);
      assert AllAtLeast(s[0].pos, s[1..] + [v]);
      AllAtLeastRearranged(s[0].pos, rest, s[1..] + [v]);
      [s[0]] + rest
  }

  /** The ordering step of Finish (Builder.cpp:309), as a plain sort. */
  function Sort(s: seq<Vertex>): (r: seq<Vertex>)
    ensures Sorted(r) && multiset(r) == multiset(s) && |r| == |s|
  {
    if s == [] then []
    else
      assert s == s[..|s| - 1] + [s[|s| - 1]];
      Insert(s[|s| - 1], Sort(s[..|s| - 1]))
  }

  /** The input vertices, each tagged with its slot (Builder.cpp:303-305). */
  function Tagged(input: seq<Vec3>): (r: seq<Vertex>)
    ensures |r| == |input|
    ensures forall k :: 0 <= k < |input| ==> r[k] == Vertex(input[k], k)
  {
    seq(|input|, k requires 0 <= k < |input| => Vertex(input[k], k))
  }

  /**
   * The sorted tagged vertices are exactly the input: each names a slot of
   * the input and carries that slot's position, and every slot appears.
   */
  lemma SortedTagged(input: seq<Vec3>)
    ensures var s := Sort(Tagged(input));
            (forall k :: 0 <= k < |s| ==> s[k].i < |input| && s[k].pos == input[s[k].i]) &&
            (forall j :: 0 <= j < |input| ==> Vertex(input[j], j) in s)
  {
    var t := Tagged(input);
    var s := Sort(t);
    forall k | 0 <= k < |s|
      ensures s[k].i < |input| && s[k].pos == input[s[k].i]
    {
      assert s[k] in multiset(t);
      var y :| 0 <= y < |t| && t[y] == s[k];
    }
    forall j | 0 <= j < |input|
      ensures Vertex(input[j], j) in s
    {
      assert t[j] in multiset(s);
    }
  }

  /** Neighbours `k - 1` and `k` of `s` are in order. */
  predicate InOrderAt(s: seq<Vertex>, k: nat)
    requires 0 < k < |s|
  {
    VertexLessEq(s[k - 1].pos, s[k].pos)
  }

  lemma SortedInOrder(s: seq<Vertex>)
    requires Sorted(s)
    ensures forall k :: 0 < k < |s| ==> InOrderAt(s, k)
  {
  }

  /** A point above the last of a strictly increasing sequence extends it. */
  lemma ExtendIncreasing(kept: seq<Vec3>, p: Vec3)
    requires StrictlyIncreasing(kept) && (kept != [] ==> VertexLess(kept[|kept| - 1], p))
    ensures StrictlyIncreasing(kept + [p])
  {
    var r := kept + [p];
    forall x, y | 0 <= x < y < |r|
      ensures VertexLess(r[x], r[y])
    {
      if y == |kept| && x < |kept| - 1 {
        VertexLessStrictTotal(kept[x], kept[|kept| - 1], p);
      }
    }
  }

  /** Each sorted vertex names an input slot and carries its position. */
  ghost predicate FromInput(s: seq<Vertex>, input: seq<Vec3>)
  {
    forall k :: 0 <= k < |s| ==> s[k].i < |input| && s[k].pos == input[s[k].i]
  }

  /**
   * The state of the merge loop once the first `pos` sorted vertices have
   * been read: the first `count` slots of `ar` hold strictly increasing
   * positions (`kept`), the unread tail is untouched, every read vertex's
   * input slot maps to a kept vertex at its position, and every kept
   * vertex came from a read one (`from`).
   */
  ghost predicate Merged(s: seq<Vertex>, input: seq<Vec3>, pos: nat, ar: seq<Vertex>, ix: seq<nat>,
                         count: nat, from: seq<nat>, kept: seq<Vec3>)
  {
    FromInput(s, input) && |ar| == |s| && |ix| == |input| && pos <= |s| &&
    count <= pos && |from| == count && |kept| == count &&
    ar[pos..] == s[pos..] &&
    (pos == 0 ==> count == 0) &&
    (pos > 0 ==> count > 0 && ar[count - 1].pos == s[pos - 1].pos) &&
    StrictlyIncreasing(kept) &&
    (forall x :: 0 <= x < count ==> ar[x].pos == kept[x]) &&
    (forall k {:trigger ix[s[k].i]} :: 0 <= k < pos ==> ix[s[k].i] < count && ar[ix[s[k].i]].pos == s[k].pos) &&
    (forall x {:trigger from[x]} :: 0 <= x < count ==> from[x] < pos && s[from[x]].pos == ar[x].pos)
  }

  /** One iteration of the merge loop keeps `Merged`, whether it copies or not. */
  lemma MergeStep(s: seq<Vertex>, input: seq<Vec3>, pos: nat, ar: seq<Vertex>, ix: seq<nat>,
                  count: nat, from: seq<nat>, kept: seq<Vec3>)
    requires Merged(s, input, pos, ar, ix, count, from, kept) && pos < |s|
    requires forall k :: 0 < k < |s| ==> InOrderAt(s, k)
    ensures var v := s[pos];
            (count == 0 || v.pos != ar[count - 1].pos) ==>
              Merged(s, input, pos + 1, ar[count := v], ix[v.i := count], count + 1, from + [pos], kept + [v.pos])
    ensures var v := s[pos];
            !(count == 0 || v.pos != ar[count - 1].pos) ==>
              Merged(s, input, pos + 1, ar, ix[v.i := count - 1], count, from, kept)
  {
    var v := s[pos];
    if count == 0 || v.pos != ar[count - 1].pos {
      if count > 0 {
        assert InOrderAt(s, pos);
        VertexLessStrictTotal(kept[count - 1], v.pos, v.pos);
      }
      ExtendIncreasing(kept, v.pos);
      var ar', ix' := ar[count := v], ix[v.i := count];
      forall k | 0 <= k <= pos
        ensures ix'[s[k].i] < count + 1 && ar'[ix'[s[k].i]].pos == s[k].pos
      {
        if s[k].i == v.i {
          assert s[k].pos == input[v.i] == v.pos;
        }
      }
      forall x | 0 <= x < count + 1
        ensures (from + [pos])[x] < pos + 1 && s[(from + [pos])[x]].pos == ar'[x].pos
      {
        if x < count {
          assert (from + [pos])[x] == from[x];
        }
      }
      assert forall x :: 0 <= x < count + 1 ==> ar'[x].pos == (kept + [v.pos])[x];
    } else {
      var ix' := ix[v.i := count - 1];
      forall k | 0 <= k <= pos
        ensures ix'[s[k].i] < count && ar[ix'[s[k].i]].pos == s[k].pos
      {
        if s[k].i == v.i {
          assert s[k].pos == input[v.i] == v.pos;
        }
      }
    }
  }

  /**
   * The merge loop of Finish (Builder.cpp:313-319), in place on the sorted
   * array: each vertex that differs from the last kept one is copied down
   * to the next free slot, and its input slot is mapped to the kept vertex.
   * `from` names, for each kept vertex, a sorted position it came from.
   */
  method MergeEqual(a: array<Vertex>, indices: array<nat>, ghost s: seq<Vertex>, ghost input: seq<Vec3>)
    returns (count: nat, ghost from: seq<nat>)
    requires a[..] == s && indices.Length == |input| && FromInput(s, input)
    requires forall k :: 0 < k < |s| ==> InOrderAt(s, k)
    modifies a, indices
    ensures count <= a.Length && |from| == count
    ensures StrictlyIncreasing(Positions(a[..count]))
    ensures forall k {:trigger indices[s[k].i]} :: 0 <= k < |s| ==> indices[s[k].i] < count && a[indices[s[k].i]].pos == s[k].pos
    ensures forall x {:trigger from[x]} :: 0 <= x < count ==> from[x] < |s| && s[from[x]].pos == a[x].pos
  {
    count := 0;
    from := [];
    ghost var kept: seq<Vec3> := [];
    for pos := 0 to a.Length
      invariant Merged(s, input, pos, a[..], indices[..], count, from, kept)
    {
      var v := a[pos];
      assert v == s[pos];
      MergeStep(s, input, pos, a[..], indices[..], count, from, kept);
      if count == 0 || v.pos != a[count - 1].pos {
        a[count] := v;
        count := count + 1;
        from := from + [pos];
        kept := kept + [v.pos];
      }
      indices[v.i] := count - 1;
    }
    assert Merged(s, input, |s|, a[..], indices[..], count, from, kept);
    assert Positions(a[..count]) == kept;
  }

  /**
   * When every sorted vertex's slot maps to a kept vertex at its position,
   * and every input slot appears among the sorted vertices, every input
   * slot maps to a kept vertex at its own position.
   */
  lemma MergedCoversInput(s: seq<Vertex>, input: seq<Vec3>, ar: seq<Vertex>, ix: seq<nat>, count: nat)
    requires FromInput(s, input) && count <= |ar| && |ix| == |input|
    requires forall j :: 0 <= j < |input| ==> Vertex(input[j], j) in s
    requires forall k {:trigger ix[s[k].i]} :: 0 <= k < |s| ==> ix[s[k].i] < count && ar[ix[s[k].i]].pos == s[k].pos
    ensures forall j :: 0 <= j < |input| ==> ix[j] < |ar[..count]| && ar[..count][ix[j]].pos == input[j]
  {
    forall j | 0 <= j < |input|
      ensures ix[j] < count && ar[ix[j]].pos == input[j]
    {
      var k :| 0 <= k < |s| && s[k] == Vertex(input[j], j);
      assert ix[s[k].i] < count;
    }
  }

  /** Every kept vertex came from a sorted one, so its position is an input position. */
  lemma MergedFromInput(s: seq<Vertex>, input: seq<Vec3>, ar: seq<Vertex>, count: nat, from: seq<nat>)
    requires FromInput(s, input) && count <= |ar| && |from| == count
    requires forall x {:trigger from[x]} :: 0 <= x < count ==> from[x] < |s| && s[from[x]].pos == ar[x].pos
    ensures forall x :: 0 <= x < count ==> ar[..count][x].pos in input
  {
    forall x | 0 <= x < count
      ensures ar[x].pos in input
    {
      assert s[from[x]].pos == input[s[from[x]].i];
    }
  }

  /** The positions of the vertices, in order. */
  function Positions(s: seq<Vertex>): (r: seq<Vec3>)
    ensures |r| == |s| && forall k :: 0 <= k < |s| ==> r[k] == s[k].pos
  {
    seq(|s|, k requires 0 <= k < |s| => s[k].pos)
  }

  /**
   * When every input slot maps to a point at its position, every corner of
   * the facet built from slots 3f..3f+2 lies where the input vertex was.
   */
  lemma CornersLandOnInput(facets: seq<MeshFacet>, ix: seq<nat>, points: seq<MeshPoint>, input: seq<Vec3>)
    requires |ix| == |input| && |facets| == |ix| / 3
    requires forall f :: 0 <= f < |facets| ==> facets[f] == NewFacet(ix[3 * f], ix[3 * f + 1], ix[3 * f + 2], 0, 0)
    requires forall j :: 0 <= j < |ix| ==> ix[j] < |points| && points[ix[j]].pos == input[j]
    ensures CornersBelow(facets, |points|)
    ensures forall f, c :: 0 <= f < |facets| && 0 <= c < 3 ==> points[facets[f].corners[c]].pos == input[3 * f + c]
  {
    forall f, c | 0 <= f < |facets| && 0 <= c < 3
      ensures facets[f].corners[c] == ix[3 * f + c]
    {
      assert facets[f].corners == [ix[3 * f], ix[3 * f + 1], ix[3 * f + 2]];
    }
  }

  class MeshFastBuilder {
    const kernel: MeshKernel
    /** `p->verts`: three positions per added facet, in the order added. */
    var verts: seq<Vec3>

    constructor(kernel: MeshKernel)
      ensures this.kernel == kernel && verts == []
    {
      this.kernel := kernel;
      verts := [];
    }

    /** Appends the three corners of a facet (Builder.cpp:277-297). */
    method AddFacet(p0: Vec3, p1: Vec3, p2: Vec3)
      modifies this
      ensures verts == old(verts) + [p0, p1, p2]
    {
      verts := verts + [p0];
      verts := verts + [p1];
      verts := verts + [p2];
    }

    /**
     * Builder.cpp:299-338. The kernel receives the distinct vertices in
     * strictly increasing order and one facet per three input vertices
     * (counted before merging), each corner naming the merged vertex at
     * the input position it came from. The facets are not checked for
     * repeated corners.
     */
    method Finish()
      modifies this, kernel
      ensures StrictlyIncreasing(verts) && |kernel.points| == |verts|
      ensures forall x :: 0 <= x < |verts| ==> kernel.points[x] == MeshPoint(verts[x], 0)
      ensures |kernel.facets| == |old(verts)| / 3 && CornersBelow(kernel.facets, |kernel.points|)
      ensures forall f :: 0 <= f < |kernel.facets| ==>
        kernel.facets[f] == NewFacet(kernel.facets[f].corners[0], kernel.facets[f].corners[1], kernel.facets[f].corners[2], 0, 0)
      ensures forall f, c :: 0 <= f < |kernel.facets| && 0 <= c < 3 ==>
        kernel.points[kernel.facets[f].corners[c]].pos == old(verts)[3 * f + c]
      ensures forall x :: 0 <= x < |verts| ==> verts[x] in old(verts)
    {
      var input := verts;
      var unique, ix := MergedVertices(input);
      var facets := CornerFacets(ix);
      var points := PointsOf(unique);
      CornersLandOnInput(facets, ix, points, input);
      verts := Positions(unique);
      kernel.points := points;
      kernel.facets := facets;
    }

    /**
     * Tags, sorts and merges the input vertices (Builder.cpp:302-319): the
     * merged vertices are strictly increasing, each comes from the input,
     * and `ix` maps every input slot to the merged vertex at its position.
     */
    static method MergedVertices(input: seq<Vec3>) returns (unique: seq<Vertex>, ix: seq<nat>)
      ensures |ix| == |input| && StrictlyIncreasing(Positions(unique))
      ensures forall j :: 0 <= j < |input| ==> ix[j] < |unique| && unique[ix[j]].pos == input[j]
      ensures forall x :: 0 <= x < |unique| ==> unique[x].pos in input
    {
      var n := |input|;
      SortedTagged(input);
      ghost var s := Sort(Tagged(input));
      var a := SortVertices(input);
      var indices := new nat[n](j => 0);
      var count;
      ghost var from;
      SortedInOrder(s);
      count, from := MergeEqual(a, indices, s, input);
      MergedCoversInput(s, input, a[..], indices[..], count);
      MergedFromInput(s, input, a[..], count, from);
      unique := a[..count];
      ix := indices[..];
    }

    /** One fresh facet per three slots of `indices` (Builder.cpp:322-328). */
    static method CornerFacets(indices: seq<nat>) returns (facets: seq<MeshFacet>)
      ensures |facets| == |indices| / 3
      ensures forall f :: 0 <= f < |facets| ==>
        facets[f] == NewFacet(indices[3 * f], indices[3 * f + 1], indices[3 * f + 2], 0, 0)
    {
      facets := [];
      for f := 0 to |indices| / 3
        invariant |facets| == f
        invariant forall g :: 0 <= g < f ==> facets[g] == NewFacet(indices[3 * g], indices[3 * g + 1], indices[3 * g + 2], 0, 0)
      {
        facets := facets + [NewFacet(indices[3 * f], indices[3 * f + 1], indices[3 * f + 2], 0, 0)];
      }
    }

    /** A kernel point for each merged vertex (Builder.cpp:332-335). */
    static method PointsOf(unique: seq<Vertex>) returns (points: seq<MeshPoint>)
      ensures |points| == |unique|
      ensures forall x :: 0 <= x < |unique| ==> points[x] == MeshPoint(unique[x].pos, 0)
    {
      points := [];
      for x := 0 to |unique|
        invariant |points| == x
        invariant forall y :: 0 <= y < x ==> points[y] == MeshPoint(unique[y].pos, 0)
      {
        points := points + [MeshPoint(unique[x].pos, 0)];
      }
    }

    /**
     * Tags every vertex with its slot and sorts them (Builder.cpp:303-309);
     * `parallel_sort` is modelled as the sequential `Sort`.
     */
    static method SortVertices(input: seq<Vec3>) returns (a: array<Vertex>)
      ensures fresh(a) && a[..] == Sort(Tagged(input))
    {
      var sorted := Sort(Tagged(input));
      a := new Vertex[|input|](k requires 0 <= k < |input| => sorted[k]);
    }
  }
}
