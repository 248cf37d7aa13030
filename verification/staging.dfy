/** The staging queues: writing each queued cone's distance to a reference
    point, sorting both queues by it, and clearing them.

    The scratch `dist` field holds the SQUARED distance. Squaring is monotone on
    non-negative reals, so a queue sorted by squared distance is sorted by
    distance, and the comparator decides every pair the same way. */
module Staging {
  import opened Geometry
  import opened Cones
  import opened PlannerState

  /** `compareConeDist`: the strict order on the scratch distance that the
      queues are sorted with. */
  function CompareConeDist(cones: seq<Cone>, a: nat, b: nat): (less: bool)
    requires a < |cones| && b < |cones|
    ensures a == b ==> !less
    ensures less ==> !(cones[b].dist < cones[a].dist)
  {
    cones[a].dist < cones[b].dist
  }

  /** The comparator is a strict weak ordering, as `std::sort` requires of it:
      irreflexive, transitive, and with transitive incomparability. */
  lemma CompareConeDistStrictWeakOrder(cones: seq<Cone>)
    ensures forall a: nat | a < |cones| :: !CompareConeDist(cones, a, a)
    ensures forall a: nat, b: nat, c: nat | a < |cones| && b < |cones| && c < |cones| ::
      (CompareConeDist(cones, a, b) && CompareConeDist(cones, b, c)) ==> CompareConeDist(cones, a, c)
    ensures forall a: nat, b: nat, c: nat | a < |cones| && b < |cones| && c < |cones| ::
      (!CompareConeDist(cones, a, b) && !CompareConeDist(cones, b, a) &&
       !CompareConeDist(cones, b, c) && !CompareConeDist(cones, c, b)) ==>
      !CompareConeDist(cones, a, c) && !CompareConeDist(cones, c, a)
  {
  }

  /** No later element of `q` compares less than an earlier one: the order
      `std::sort` establishes. */
  predicate SortedByDist(cones: seq<Cone>, q: seq<nat>)
  {
    && AllIn(cones, q)
    && forall i, j :: 0 <= i < j < |q| ==> !CompareConeDist(cones, q[j], q[i])
  }

  /** The cones of `q` appear in ascending distance from `ref`. */
  predicate SortedFrom(cones: seq<Cone>, q: seq<nat>, ref: Point)
  {
    && AllIn(cones, q)
    && forall i, j :: 0 <= i < j < |q| ==>
      SqDist(ref, cones[q[i]].position) <= SqDist(ref, cones[q[j]].position)
  }

  /** Insert `x` into `q` in front of the first element that is not closer. */
  function Insert(cones: seq<Cone>, x: nat, q: seq<nat>): (r: seq<nat>)
    requires x < |cones| && AllIn(cones, q)
    ensures multiset(r) == multiset(q) + multiset{x}
    ensures AllIn(cones, r)
  {
    if q == [] then [x]
    else if !CompareConeDist(cones, q[0], x) then [x] + q
    else
      assert q == [q[0]] + q[1..];
      [q[0]] + Insert(cones, x, q[1..])
  }

  /** Insertion keeps a queue sorted. */
  lemma {:induction false} InsertSorted(cones: seq<Cone>, x: nat, q: seq<nat>)
    requires x < |cones| && SortedByDist(cones, q)
    ensures SortedByDist(cones, Insert(cones, x, q))
  {
    if q != [] && CompareConeDist(cones, q[0], x) {
      var t := Insert(cones, x, q[1..]);
      InsertSorted(cones, x, q[1..]);
      assert forall k :: 0 <= k < |q[1..]| ==> !CompareConeDist(cones, q[1..][k], q[0]);
      NoneCloser(cones, q[0], t, q[1..], x);
      SortedCons(cones, q[0], t);
    }
  }

  /** If neither `x` nor any cone of `pool` compares less than `h`, no cone
      of a rearrangement of `pool` plus `x` does. */
  lemma NoneCloser(cones: seq<Cone>, h: nat, t: seq<nat>, pool: seq<nat>, x: nat)
    requires h < |cones| && x < |cones| && AllIn(cones, t) && AllIn(cones, pool)
    requires multiset(t) == multiset(pool) + multiset{x}
    requires !CompareConeDist(cones, x, h)
    requires forall k :: 0 <= k < |pool| ==> !CompareConeDist(cones, pool[k], h)
    ensures forall k :: 0 <= k < |t| ==> !CompareConeDist(cones, t[k], h)
  {
    forall k | 0 <= k < |t| ensures !CompareConeDist(cones, t[k], h) {
      assert t[k] in multiset(pool) + multiset{x};
      if t[k] != x {
        var j :| 0 <= j < |pool| && pool[j] == t[k];
      }
    }
  }

  /** A cone that no element of a sorted queue compares less than may go in
      front of it. */
  lemma SortedCons(cones: seq<Cone>, h: nat, t: seq<nat>)
    requires h < |cones| && SortedByDist(cones, t)
    requires forall k :: 0 <= k < |t| ==> !CompareConeDist(cones, t[k], h)
    ensures SortedByDist(cones, [h] + t)
  {
  }

  /** Some sorted permutation of `q`: `std::sort` is not stable, so nothing
      beyond sortedness and permutation is promised about the result. */
  function Sort(cones: seq<Cone>, q: seq<nat>): (r: seq<nat>)
    requires AllIn(cones, q)
    ensures multiset(r) == multiset(q)
    ensures |r| == |q|
    ensures SortedByDist(cones, r)
  {
    if q == [] then []
    else
      assert q == [q[0]] + q[1..];
      var t := Sort(cones, q[1..]);
      InsertSorted(cones, q[0], t);
      Insert(cones, q[0], t)
  }

  /** Write into every cone of `q` its squared distance to `ref`; nothing
      else in the store changes. */
  function SetDists(cones: seq<Cone>, q: seq<nat>, ref: Point): (r: seq<Cone>)
    requires AllIn(cones, q)
    ensures SameCones(cones, r)
    ensures forall k :: 0 <= k < |r| ==> r[k].mapped == cones[k].mapped
    ensures forall k :: 0 <= k < |r| && k !in q ==> r[k].dist == cones[k].dist
    ensures forall k :: k in q ==> r[k].dist == SqDist(ref, cones[k].position)
    decreases |q|
  {
    if q == [] then cones
    else
      var i := q[0];
      SetDists(cones[i := cones[i].(dist := SqDist(ref, cones[i].position))], q[1..], ref)
  }

  /** `sortConesByDist`: both queues end up as sorted permutations of their
      previous contents, the right queue ascending by distance to `rRef` and,
      when the queues share no cone, the left one ascending by distance to
      `lRef`; both sorted flags are set and nothing else changes. */
  function SortConesByDist(s: State, lRef: Point, rRef: Point): (r: State)
    requires Valid(s)
    ensures Valid(r)
    ensures SameCones(s.cones, r.cones)
    ensures forall k :: 0 <= k < |r.cones| ==> r.cones[k].mapped == s.cones[k].mapped
    ensures multiset(r.lQueue) == multiset(s.lQueue) && multiset(r.rQueue) == multiset(s.rQueue)
    ensures |r.lQueue| == |s.lQueue| && |r.rQueue| == |s.rQueue|
    ensures SortedByDist(r.cones, r.lQueue) && SortedByDist(r.cones, r.rQueue)
    ensures SortedFrom(r.cones, r.rQueue, rRef)
    ensures Disjoint(s.lQueue, s.rQueue) ==> SortedFrom(r.cones, r.lQueue, lRef)
    ensures r.lSorted && r.rSorted
    ensures r.(cones := s.cones, lQueue := s.lQueue, rQueue := s.rQueue,
               lSorted := s.lSorted, rSorted := s.rSorted) == s
  {
    var afterLeft := SetDists(s.cones, s.lQueue, lRef);
    var afterRight := SetDists(afterLeft, s.rQueue, rRef);
    var lq := Sort(afterRight, s.lQueue);
    var rq := Sort(afterRight, s.rQueue);
    SortedByDistFrom(afterRight, s.rQueue, rq, rRef);
    assert Disjoint(s.lQueue, s.rQueue) ==> SortedFrom(afterRight, lq, lRef) by {
      if Disjoint(s.lQueue, s.rQueue) {
        assert forall x :: x in s.lQueue ==> x !in s.rQueue;
        SortedByDistFrom(afterRight, s.lQueue, lq, lRef);
      }
    }
    s.(cones := afterRight, lQueue := lq, rQueue := rq, lSorted := true, rSorted := true)
  }

  /** A permutation of `q` sorted by scratch distance is sorted by distance to
      `ref` once every cone of `q` carries its squared distance to `ref`. */
  lemma SortedByDistFrom(cones: seq<Cone>, q: seq<nat>, r: seq<nat>, ref: Point)
    requires AllIn(cones, q) && SortedByDist(cones, r) && multiset(r) == multiset(q)
    requires forall x :: x in q ==> cones[x].dist == SqDist(ref, cones[x].position)
    ensures SortedFrom(cones, r, ref)
  {
    forall k | 0 <= k < |r|
      ensures cones[r[k]].dist == SqDist(ref, cones[r[k]].position)
    {
      assert r[k] in multiset(q);
    }
  }

  /** `resetTempConeVectors`: both queues emptied and both sorted flags
      cleared; chains, store and centre points untouched. */
  function ResetTempConeVectors(s: State): (r: State)
    ensures r.lQueue == [] && r.rQueue == []
    ensures !r.lSorted && !r.rSorted
    ensures r.(lQueue := s.lQueue, rQueue := s.rQueue, lSorted := s.lSorted, rSorted := s.rSorted) == s
    ensures Valid(s) ==> Valid(r)
  {
    s.(lQueue := [], rQueue := [], lSorted := false, rSorted := false)
  }
}
