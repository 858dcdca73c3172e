/**
 * A `std::map<std::string, V>` as the sorted list of its entries: keys in
 * strictly increasing lexicographic order, which is also the order the
 * map's iterators visit them.
 */
module StdMap {
  import opened Wrappers

  /** `std::string`'s `operator<`: a proper prefix, or smaller at the first difference. */
  predicate Less(a: string, b: string)
    decreases |a|
  {
    if a == [] then b != []
    else if b == [] then false
    else if a[0] != b[0] then a[0] < b[0]
    else Less(a[1..], b[1..])
  }

  lemma {:induction false} LessIrreflexive(a: string)
    ensures !Less(a, a)
    decreases |a|
  {
    if a != [] {
      LessIrreflexive(a[1..]);
    }
  }

  lemma {:induction false} LessTransitive(a: string, b: string, c: string)
    requires Less(a, b) && Less(b, c)
    ensures Less(a, c)
    decreases |a|
  {
    if a != [] && a[0] == b[0] && b[0] == c[0] {
      LessTransitive(a[1..], b[1..], c[1..]);
    }
  }

  lemma {:induction false} LessTotal(a: string, b: string)
    ensures a == b || Less(a, b) || Less(b, a)
    decreases |a|
  {
    if a != [] && b != [] && a[0] == b[0] {
      LessTotal(a[1..], b[1..]);
      if a[1..] == b[1..] {
        assert a == [a[0]] + a[1..] && b == [b[0]] + b[1..];
      }
    }
  }

  type Entries<V> = seq<(string, V)>

  /** The keys strictly increase along the list. */
  predicate Sorted<V>(es: Entries<V>)
  {
    forall i, j :: 0 <= i < j < |es| ==> Less(es[i].0, es[j].0)
  }

  /** The dictionary the list stands for. */
  function AsMap<V>(es: Entries<V>): (m: map<string, V>)
    ensures m.Keys == set i | 0 <= i < |es| :: es[i].0
  {
    if es == [] then map[] else AsMap(es[1..])[es[0].0 := es[0].1]
  }

  /** The value under a key of a sorted list is the one listed with it. */
  lemma {:induction false} AsMapAt<V>(es: Entries<V>, i: nat)
    requires Sorted(es) && i < |es|
    ensures es[i].0 in AsMap(es) && AsMap(es)[es[i].0] == es[i].1
  {
    if i > 0 {
      LessIrreflexive(es[0].0);
      assert Less(es[0].0, es[i].0);
      assert es[0].0 != es[i].0;
      assert Sorted(es[1..]);
      AsMapAt(es[1..], i - 1);
    }
  }

  /** A key below the first key of a sorted list is below all of them. */
  lemma PrependSorted<V>(es: Entries<V>, e: (string, V))
    requires Sorted(es) && es != [] && Less(e.0, es[0].0)
    ensures Sorted([e] + es)
  {
    forall j | 0 <= j < |es| ensures Less(e.0, es[j].0) {
      if j > 0 { LessTransitive(e.0, es[0].0, es[j].0); }
    }
  }

  /** Keeping the first entry in front of a sorted rest whose keys all lie above it. */
  lemma ConsSorted<V>(e: (string, V), rest: Entries<V>)
    requires Sorted(rest) && forall i :: 0 <= i < |rest| ==> Less(e.0, rest[i].0)
    ensures Sorted([e] + rest)
  {
  }

  /** Two updates under different keys commute. */
  lemma UpdatesCommute<V>(m: map<string, V>, a: string, x: V, b: string, y: V)
    requires a != b
    ensures m[a := x][b := y] == m[b := y][a := x]
  {
  }

  /** `m[k] = v`: insert or overwrite, keeping the order. */
  function Put<V>(es: Entries<V>, k: string, v: V): (r: Entries<V>)
    requires Sorted(es)
    ensures Sorted(r)
    ensures AsMap(r) == AsMap(es)[k := v]
    ensures forall i :: 0 <= i < |r| ==> r[i].0 == k || exists j :: 0 <= j < |es| && es[j] == r[i]
    decreases |es|
  {
    if es == [] then [(k, v)]
    else if es[0].0 == k then
      assert ([(k, v)] + es[1..])[1..] == es[1..];
      [(k, v)] + es[1..]
    else if Less(k, es[0].0) then
      PrependSorted(es, (k, v));
      assert ([(k, v)] + es)[1..] == es;
      [(k, v)] + es
    else
      LessTotal(k, es[0].0);
      var rest := Put(es[1..], k, v);
      assert forall i :: 0 <= i < |rest| ==> Less(es[0].0, rest[i].0) by {
        forall i | 0 <= i < |rest| ensures Less(es[0].0, rest[i].0) {
          if rest[i].0 != k {
            var j :| 0 <= j < |es[1..]| && es[1..][j] == rest[i];
            assert es[j + 1] == rest[i];
          }
        }
      }
      ConsSorted(es[0], rest);
      assert ([es[0]] + rest)[1..] == rest;
      UpdatesCommute(AsMap(es[1..]), k, v, es[0].0, es[0].1);
      [es[0]] + rest
  }

  /** `m.count(k)` and `m[k]` without insertion: the value under `k`, if any. */
  function Get<V>(es: Entries<V>, k: string): (r: Option<V>)
    requires Sorted(es)
    ensures r.Some? <==> k in AsMap(es)
    ensures r.Some? ==> r.value == AsMap(es)[k]
  {
    if es == [] then None
    else if es[0].0 == k then Some(es[0].1)
    else
      assert Sorted(es[1..]);
      Get(es[1..], k)
  }
}
