/**
 * The mesh data structure the builders fill in (MeshCore::MeshKernel):
 * points, facets that name three corner points by index and hold three
 * neighbour slots, and the edge key the builder uses to pair facets.
 * Coordinates are exact reals; the float tolerance of the point set is
 * not part of this model.
 */
module MeshCore {
  import opened Wrappers

  datatype Vec3 = Vec3(x: real, y: real, z: real)

  /** MeshFastBuilder's Vertex::operator<: lexicographic on (x, y, z). */
  predicate VertexLess(a: Vec3, b: Vec3)
  {
    if a.x != b.x then a.x < b.x
    else if a.y != b.y then a.y < b.y
    else if a.z != b.z then a.z < b.z
    else false
  }

  predicate VertexLessEq(a: Vec3, b: Vec3)
  {
    VertexLess(a, b) || a == b
  }

  /** `VertexLess` is a strict total order, which std::sort needs of it. */
  lemma VertexLessStrictTotal(a: Vec3, b: Vec3, c: Vec3)
    ensures !VertexLess(a, a)
    ensures VertexLess(a, b) && VertexLess(b, c) ==> VertexLess(a, c)
    ensures a == b || VertexLess(a, b) || VertexLess(b, a)
    ensures !(VertexLess(a, b) && VertexLess(b, a))
  {
  }

  /** A kernel point: its position and the `_ulProp` word it carries. */
  datatype MeshPoint = MeshPoint(pos: Vec3, prop: nat)

  /**
   * A kernel facet: three corner indices, three neighbour facet indices
   * (`None` is the "no neighbour" value a fresh MeshFacet holds), and the
   * flag and property words.
   */
  datatype MeshFacet = MeshFacet(corners: seq<nat>, neighbours: seq<Option<nat>>, flag: nat, prop: nat)

  predicate Shaped(mf: MeshFacet)
  {
    |mf.corners| == 3 && |mf.neighbours| == 3
  }

  /** No two corners of the facet are the same point (Builder.cpp:130). */
  predicate NonDegenerate(mf: MeshFacet)
  {
    Shaped(mf) &&
    mf.corners[0] != mf.corners[1] && mf.corners[0] != mf.corners[2] && mf.corners[1] != mf.corners[2]
  }

  predicate AllShaped(fs: seq<MeshFacet>)
  {
    forall f :: 0 <= f < |fs| ==> Shaped(fs[f])
  }

  predicate AllNonDegenerate(fs: seq<MeshFacet>)
  {
    forall f :: 0 <= f < |fs| ==> NonDegenerate(fs[f])
  }

  /** Every corner of every facet names one of `n` points. */
  predicate CornersBelow(fs: seq<MeshFacet>, n: nat)
  {
    AllShaped(fs) &&
    forall f, i :: 0 <= f < |fs| && 0 <= i < 3 ==> fs[f].corners[i] < n
  }

  /** A facet as the builder creates it: no neighbours yet. */
  function NewFacet(c0: nat, c1: nat, c2: nat, flag: nat, prop: nat): (mf: MeshFacet)
    ensures Shaped(mf) && mf.corners == [c0, c1, c2]
    ensures forall i :: 0 <= i < 3 ==> mf.neighbours[i].None?
  {
    MeshFacet([c0, c1, c2], [None, None, None], flag, prop)
  }

  /**
   * The builder's Edge: the two end points in ascending order, so that an
   * edge and its reverse are the same key.
   */
  datatype Edge = Edge(lo: nat, hi: nat)

  function MakeEdge(a: nat, b: nat): (e: Edge)
    ensures e.lo <= e.hi
    ensures (e.lo == a && e.hi == b) || (e.lo == b && e.hi == a)
  {
    if a > b then Edge(b, a) else Edge(a, b)
  }

  /** Edge `i` of a facet runs from corner `i` to corner `(i + 1) % 3`. */
  function EdgeOf(mf: MeshFacet, i: nat): Edge
    requires Shaped(mf) && i < 3
  {
    MakeEdge(mf.corners[i], mf.corners[(i + 1) % 3])
  }

  /** The three edges of a non-degenerate facet are distinct. */
  lemma EdgesDistinct(mf: MeshFacet, i: nat, j: nat)
    requires NonDegenerate(mf) && i < 3 && j < 3 && i != j
    ensures EdgeOf(mf, i) != EdgeOf(mf, j)
  {
  }

  /**
   * The neighbour slot of an earlier facet that a shared edge selects
   * (Builder.cpp:153-168): slot 0 when corners 0 and 1 are the edge's
   * end points, slot 2 when only corner 0 is, slot 1 otherwise.
   */
  function NeighbourSlot(mf: MeshFacet, e: Edge): (s: nat)
    requires Shaped(mf)
    ensures s < 3
  {
    if mf.corners[0] == e.lo then (if mf.corners[1] == e.hi then 0 else 2)
    else if mf.corners[0] == e.hi then (if mf.corners[1] == e.lo then 0 else 2)
    else 1
  }

  /** On a non-degenerate facet the selected slot is the one holding that edge. */
  lemma NeighbourSlotOfEdge(mf: MeshFacet, j: nat)
    requires NonDegenerate(mf) && j < 3
    ensures NeighbourSlot(mf, EdgeOf(mf, j)) == j
  {
  }

  /** The mesh kernel the builders write into. */
  class MeshKernel {
    var points: seq<MeshPoint>
    var facets: seq<MeshFacet>

    /** An empty kernel. */
    constructor()
      ensures points == [] && facets == []
    {
      points := [];
      facets := [];
    }
  }
}
