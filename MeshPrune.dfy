/**
 * What MeshBuilder::RemoveUnreferencedPoints computes (Builder.cpp:182-194):
 * the points no facet uses are dropped, the others keep their order, and
 * every facet corner is renumbered to the new position of its point.
 * MeshKernel::RemoveInvalids is not part of this model; its effect on
 * points and corners is written out here as `Compact` and `Renumber`.
 */
module MeshPrune {
  import opened MeshCore

  /** Some facet corner names point `v`. */
  predicate Referenced(fs: seq<MeshFacet>, v: nat)
  {
    exists f, i | 0 <= f < |fs| && 0 <= i < 3 :: i < |fs[f].corners| && fs[f].corners[i] == v
  }

  /** The valid flag of each of `n` points once the facets have been walked. */
  function UsedMask(fs: seq<MeshFacet>, n: nat): (mask: seq<bool>)
    ensures |mask| == n
    ensures forall v :: 0 <= v < n ==> (mask[v] <==> Referenced(fs, v))
  {
    seq(n, v requires 0 <= v => Referenced(fs, v))
  }

  /** The number of `true` entries (std::count_if with MeshPoint::IsValid). */
  function CountTrue(b: seq<bool>): (c: nat)
    ensures c <= |b|
  {
    if b == [] then 0
    else CountTrue(b[..|b| - 1]) + (if b[|b| - 1] then 1 else 0)
  }

  /** The elements of `s` whose flag is set, in their original order. */
  function Compact<T>(s: seq<T>, keep: seq<bool>): (r: seq<T>)
    requires |keep| == |s|
    ensures |r| == CountTrue(keep)
  {
    if s == [] then []
    else Compact(s[..|s| - 1], keep[..|s| - 1]) + (if keep[|s| - 1] then [s[|s| - 1]] else [])
  }

  /** The new index of a kept point: how many kept points precede it. */
  function NewIndex(keep: seq<bool>, v: nat): nat
    requires v <= |keep|
  {
    CountTrue(keep[..v])
  }

  lemma CountTrueAllSet(b: seq<bool>)
    requires forall v :: 0 <= v < |b| ==> b[v]
    ensures CountTrue(b) == |b|
  {
    if b != [] { CountTrueAllSet(b[..|b| - 1]); }
  }

  /** A kept element lands at its new index. */
  lemma {:induction false} CompactAt<T>(s: seq<T>, keep: seq<bool>, v: nat)
    requires |keep| == |s| && v < |s| && keep[v]
    ensures NewIndex(keep, v) < |Compact(s, keep)|
    ensures Compact(s, keep)[NewIndex(keep, v)] == s[v]
    decreases |s|
  {
    var n := |s| - 1;
    assert keep[..n][..v] == keep[..v] by { if v < n { } }
    if v < n {
      CompactAt(s[..n], keep[..n], v);
      PrefixCountMonotone(keep[..n], v, n);
    } else {
      assert keep[..v] == keep[..n];
    }
  }

  lemma {:induction false} PrefixCountMonotone(b: seq<bool>, v: nat, w: nat)
    requires v <= w <= |b|
    ensures CountTrue(b[..v]) <= CountTrue(b[..w])
    decreases w - v
  {
    if v < w {
      PrefixCountMonotone(b, v, w - 1);
      assert b[..w][..w - 1] == b[..w - 1];
    }
  }

  /** Every position of the compacted sequence holds some kept element. */
  lemma {:induction false} CompactOnto(keep: seq<bool>, w: nat) returns (v: nat)
    requires w < CountTrue(keep)
    ensures v < |keep| && keep[v] && NewIndex(keep, v) == w
    decreases |keep|
  {
    var n := |keep| - 1;
    if w < CountTrue(keep[..n]) {
      v := CompactOnto(keep[..n], w);
      assert keep[..n][..v] == keep[..v];
    } else {
      v := n;
      assert keep[..v] == keep[..n];
    }
  }

  /** Corners renumbered for the compacted point array. */
  function Renumber(fs: seq<MeshFacet>, keep: seq<bool>): (r: seq<MeshFacet>)
    requires CornersBelow(fs, |keep|)
    ensures |r| == |fs| && AllShaped(r)
  {
    seq(|fs|, f requires 0 <= f < |fs| =>
      fs[f].(corners := [NewIndex(keep, fs[f].corners[0]), NewIndex(keep, fs[f].corners[1]), NewIndex(keep, fs[f].corners[2])]))
  }

  /** Reading one more element: it is kept when its flag is set, at the index counted so far. */
  lemma CompactStep<T>(s: seq<T>, keep: seq<bool>, v: nat)
    requires |keep| == |s| && v < |s|
    ensures Compact(s[..v + 1], keep[..v + 1]) == Compact(s[..v], keep[..v]) + (if keep[v] then [s[v]] else [])
    ensures |Compact(s[..v], keep[..v])| == NewIndex(keep, v)
  {
    assert s[..v + 1][..v] == s[..v] && keep[..v + 1][..v] == keep[..v];
  }

  /** Renumbering one more facet through a table of the new indices. */
  lemma RenumberStep(fs: seq<MeshFacet>, keep: seq<bool>, f: nat, table: seq<nat>)
    requires CornersBelow(fs, |keep|) && f < |fs| && |table| == |keep|
    requires forall u :: 0 <= u < |keep| ==> table[u] == NewIndex(keep, u)
    ensures var c := fs[f].corners;
            Renumber(fs, keep)[..f + 1] ==
              Renumber(fs, keep)[..f] + [fs[f].(corners := [table[c[0]], table[c[1]], table[c[2]]])]
  {
    var c := fs[f].corners;
    assert c[0] < |keep| && c[1] < |keep| && c[2] < |keep|;
    assert Renumber(fs, keep)[f] == fs[f].(corners := [table[c[0]], table[c[1]], table[c[2]]]);
  }

  /**
   * RemoveUnreferencedPoints: when some point is unreferenced, drop every
   * unreferenced point and renumber the corners; otherwise change nothing.
   */
  function Prune(pts: seq<MeshPoint>, fs: seq<MeshFacet>): (r: (seq<MeshPoint>, seq<MeshFacet>))
    requires CornersBelow(fs, |pts|)
  {
    var mask := UsedMask(fs, |pts|);
    if CountTrue(mask) < |pts| then (Compact(pts, mask), Renumber(fs, mask))
    else (pts, fs)
  }

  /**
   * After pruning, every corner still names the same point as before, and
   * facets keep their neighbours, flags and properties.
   */
  lemma PruneKeepsGeometry(pts: seq<MeshPoint>, fs: seq<MeshFacet>)
    requires CornersBelow(fs, |pts|)
    ensures var (pts', fs') := Prune(pts, fs);
            |fs'| == |fs| && CornersBelow(fs', |pts'|) &&
            (forall f, i :: 0 <= f < |fs| && 0 <= i < 3 ==> pts'[fs'[f].corners[i]] == pts[fs[f].corners[i]]) &&
            (forall f :: 0 <= f < |fs| ==>
               fs'[f].neighbours == fs[f].neighbours && fs'[f].flag == fs[f].flag && fs'[f].prop == fs[f].prop)
  {
    var mask := UsedMask(fs, |pts|);
    if CountTrue(mask) < |pts| {
      forall f, i | 0 <= f < |fs| && 0 <= i < 3
        ensures NewIndex(mask, fs[f].corners[i]) < |Compact(pts, mask)|
        ensures Compact(pts, mask)[NewIndex(mask, fs[f].corners[i])] == pts[fs[f].corners[i]]
      {
        CornerKept(pts, fs, f, i);
      }
    }
  }

  /** A corner names a used point, which keeps its place among the kept ones. */
  lemma CornerKept(pts: seq<MeshPoint>, fs: seq<MeshFacet>, f: nat, i: nat)
    requires CornersBelow(fs, |pts|) && f < |fs| && i < 3
    ensures var mask := UsedMask(fs, |pts|);
            var c := fs[f].corners[i];
            NewIndex(mask, c) < |Compact(pts, mask)| && Compact(pts, mask)[NewIndex(mask, c)] == pts[c]
  {
    assert Referenced(fs, fs[f].corners[i]);
    CompactAt(pts, UsedMask(fs, |pts|), fs[f].corners[i]);
  }

  /** After pruning, every point is used by some facet. */
  lemma PruneLeavesOnlyReferenced(pts: seq<MeshPoint>, fs: seq<MeshFacet>)
    requires CornersBelow(fs, |pts|)
    ensures var (pts', fs') := Prune(pts, fs);
            forall w :: 0 <= w < |pts'| ==> Referenced(fs', w)
  {
    var mask := UsedMask(fs, |pts|);
    var (pts', fs') := Prune(pts, fs);
    if CountTrue(mask) < |pts| {
      forall w | 0 <= w < |pts'|
        ensures Referenced(fs', w)
      {
        var v := CompactOnto(mask, w);
        assert Referenced(fs, v);
        var f, i :| 0 <= f < |fs| && 0 <= i < 3 && i < |fs[f].corners| && fs[f].corners[i] == v;
        assert fs'[f].corners[i] == w;
      }
    } else {
      CountTrueFull(mask);
    }
  }

  /** A count equal to the length means every flag is set. */
  lemma {:induction false} CountTrueFull(b: seq<bool>)
    requires CountTrue(b) == |b|
    ensures forall v :: 0 <= v < |b| ==> b[v]
  {
    if b != [] {
      var n := |b| - 1;
      CountTrueFull(b[..n]);
      assert forall v :: 0 <= v < n ==> b[..n][v] == b[v];
    }
  }

  /** When every point is used, pruning changes nothing. */
  lemma PruneNoOpWhenAllUsed(pts: seq<MeshPoint>, fs: seq<MeshFacet>)
    requires CornersBelow(fs, |pts|)
    requires forall v :: 0 <= v < |pts| ==> Referenced(fs, v)
    ensures Prune(pts, fs) == (pts, fs)
  {
    CountTrueAllSet(UsedMask(fs, |pts|));
  }
}
