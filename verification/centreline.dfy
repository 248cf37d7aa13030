/** The centre-line builder: `findOppositeClosest` and `addFirstCentrePoints`.

    Two quirks of the code are modelled as written. The search walks the
    opposite chain from its END and returns how many steps back it found the
    cone, yet the caller uses that count as a forward index. And the guard
    `~mapped` complements a `bool` promoted to `int`, which is never zero, so no
    left cone is ever skipped. */
module Centreline {
  import opened Geometry
  import opened Cones
  import opened PlannerState

  /** Pairing radius of the first centre points. */
  const PairingRadius: real := 6.0

  /** `~b` for a `bool` promoted to a 32-bit `int`: a bitwise complement of 0 or
      1, which is never zero, so the guard it feeds is always taken. */
  function Complement(b: bool): (r: bv32)
    ensures r != 0
  {
    !((if b then 1 else 0) as bv32)
  }

  /** Squared distances from `p` to the cones of `cones`, in the order the
      reverse iterator visits them: last cone first. */
  function VisitDists(store: seq<Cone>, p: Point, cones: seq<nat>): (ds: seq<real>)
    requires AllIn(store, cones)
    ensures |ds| == |cones|
  {
    VisitDistsFrom(store, p, cones, 0)
  }

  /** The visited distances from the cone `j` steps back from the end on. */
  function VisitDistsFrom(store: seq<Cone>, p: Point, cones: seq<nat>, j: nat): (ds: seq<real>)
    requires AllIn(store, cones) && j <= |cones|
    ensures |ds| == |cones| - j
    decreases |cones| - j
  {
    if j == |cones| then []
    else [SqDist(p, store[cones[|cones| - 1 - j]].position)] + VisitDistsFrom(store, p, cones, j + 1)
  }

  /** Entry `d` of the distances visited from `j` on belongs to the cone
      `j + d` steps back from the end. */
  lemma {:induction false} VisitDistsFromAt(store: seq<Cone>, p: Point, cones: seq<nat>, j: nat)
    requires AllIn(store, cones) && j <= |cones|
    ensures forall d :: 0 <= d < |cones| - j ==>
      VisitDistsFrom(store, p, cones, j)[d] == SqDist(p, store[cones[|cones| - 1 - (j + d)]].position)
    decreases |cones| - j
  {
    if j < |cones| {
      VisitDistsFromAt(store, p, cones, j + 1);
    }
  }

  /** The visited distances read only positions. */
  lemma {:induction false} VisitDistsSameCones(c1: seq<Cone>, c2: seq<Cone>, p: Point,
                                               cones: seq<nat>, j: nat)
    requires SameCones(c1, c2) && AllIn(c1, cones) && j <= |cones|
    ensures VisitDistsFrom(c1, p, cones, j) == VisitDistsFrom(c2, p, cones, j)
    decreases |cones| - j
  {
    if j < |cones| {
      VisitDistsSameCones(c1, c2, p, cones, j + 1);
    }
  }

  /** After visiting `i` distances, `index` is -1 when none was inside the
      radius, and otherwise the visiting position of the first of the
      smallest ones. */
  predicate ScanInv(ds: seq<real>, i: nat, index: int)
    requires i <= |ds|
  {
    if index == -1 then
      forall j :: 0 <= j < i ==> ds[j] >= PairingRadius * PairingRadius
    else
      && 0 <= index < i
      && ds[index] < PairingRadius * PairingRadius
      && (forall j :: 0 <= j < i ==> ds[index] <= ds[j])
      && (forall j :: 0 <= j < index ==> ds[index] < ds[j])
  }

  /** The reverse scan from visiting position `i` on, carrying the best
      squared distance so far and its position. A cone replaces the best only
      when strictly closer. */
  function ScanFrom(ds: seq<real>, i: nat, best: real, index: int): (r: int)
    requires i <= |ds| && -1 <= index < |ds|
    ensures -1 <= r < |ds|
    ensures r == index || i <= r
    decreases |ds| - i
  {
    if i == |ds| then index
    else if ds[i] < best then ScanFrom(ds, i + 1, ds[i], i)
    else ScanFrom(ds, i + 1, best, index)
  }

  /** The scan keeps `ScanInv`: once it has visited every distance, its
      answer is the first position of the smallest one inside the radius, or
      -1 when there is none. */
  lemma {:induction false} ScanFromKeepsInv(ds: seq<real>, i: nat, best: real, index: int)
    requires i <= |ds| && -1 <= index < |ds|
    requires ScanInv(ds, i, index)
    requires best == if index == -1 then PairingRadius * PairingRadius else ds[index]
    ensures ScanInv(ds, |ds|, ScanFrom(ds, i, best, index))
    decreases |ds| - i
  {
    if i < |ds| {
      if ds[i] < best {
        ScanFromKeepsInv(ds, i + 1, ds[i], i);
      } else {
        ScanFromKeepsInv(ds, i + 1, best, index);
      }
    }
  }

  /** `findOppositeClosest`: a reverse position into `cones`, or -1. */
  function FindOppositeClosest(store: seq<Cone>, p: Point, cones: seq<nat>): (r: int)
    requires AllIn(store, cones)
    ensures -1 <= r < |cones|
  {
    ScanFrom(VisitDists(store, p, cones), 0, PairingRadius * PairingRadius, -1)
  }

  /** What `findOppositeClosest` finds: -1 exactly when no cone of `cones` is
      strictly within the pairing radius of `p`. Otherwise the result counts
      steps back from the end, and the cone it designates,
      `cones[|cones| - 1 - r]`, is within the radius, no farther than any
      other, and strictly closer than every cone after it (ties go to the
      highest forward position). */
  lemma FindOppositeClosestFinds(store: seq<Cone>, p: Point, cones: seq<nat>)
    requires AllIn(store, cones)
    ensures
      var r := FindOppositeClosest(store, p, cones);
      && (r == -1 <==>
           forall k :: 0 <= k < |cones| ==> !Within(p, store[cones[k]].position, PairingRadius))
      && (r != -1 ==>
           var f := |cones| - 1 - r;
           && Within(p, store[cones[f]].position, PairingRadius)
           && (forall k :: 0 <= k < |cones| ==>
                 SqDist(p, store[cones[f]].position) <= SqDist(p, store[cones[k]].position))
           && (forall k :: f < k < |cones| ==>
                 SqDist(p, store[cones[f]].position) < SqDist(p, store[cones[k]].position)))
  {
    var ds := VisitDists(store, p, cones);
    ScanFromKeepsInv(ds, 0, PairingRadius * PairingRadius, -1);
    VisitDistsFromAt(store, p, cones, 0);
    assert forall k :: 0 <= k < |cones| ==> SqDist(p, store[cones[k]].position) == ds[|cones| - 1 - k];
  }

  /** `findOppositeClosest` ignores the `mapped` flags (and the scratch
      distance): it reads only positions. */
  lemma FindIgnoresMapped(c1: seq<Cone>, c2: seq<Cone>, p: Point, cones: seq<nat>)
    requires SameCones(c1, c2) && AllIn(c1, cones)
    ensures FindOppositeClosest(c1, p, cones) == FindOppositeClosest(c2, p, cones)
  {
    VisitDistsSameCones(c1, c2, p, cones, 0);
  }

  /** The chains admit pairing up to position `n`: both are at least that long
      and every index they hold names a cone. */
  predicate Pairable(store: seq<Cone>, left: seq<nat>, right: seq<nat>, n: nat)
  {
    AllIn(store, left) && AllIn(store, right) && n <= |left| && n <= |right|
  }

  /** The forward index the code uses for left cone `i`: the reverse count
      `findOppositeClosest` returns, or -1. */
  function Pick(store: seq<Cone>, left: seq<nat>, right: seq<nat>, i: nat): int
    requires AllIn(store, left) && AllIn(store, right) && i < |left|
  {
    FindOppositeClosest(store, store[left[i]].position, right)
  }

  /** Left cone `i` gets a centre point. */
  predicate Matched(store: seq<Cone>, left: seq<nat>, right: seq<nat>, i: nat)
    requires AllIn(store, left) && AllIn(store, right) && i < |left|
  {
    Pick(store, left, right, i) != -1
  }

  /** The centre point left cone `i` contributes: the midpoint of it and the
      right cone at the forward index `Pick` returns. */
  function PairMidpoint(store: seq<Cone>, left: seq<nat>, right: seq<nat>, i: nat): Point
    requires AllIn(store, left) && AllIn(store, right) && i < |left|
    requires Matched(store, left, right, i)
  {
    Midpoint(store[right[Pick(store, left, right, i)]].position, store[left[i]].position)
  }

  /** How many of the left cones `i` up to `m` get a centre point. */
  function MatchCount(store: seq<Cone>, left: seq<nat>, right: seq<nat>, i: nat, m: nat): (c: nat)
    requires AllIn(store, left) && AllIn(store, right) && m <= |left|
    ensures c <= if i <= m then m - i else 0
    decreases m - i
  {
    if m <= i then 0
    else (if Matched(store, left, right, i) then 1 else 0) + MatchCount(store, left, right, i + 1, m)
  }

  /** Pairing reads only positions: the picks and the counts agree on stores
      that differ only in `dist` and `mapped`. */
  lemma {:induction false} PairingSameCones(c1: seq<Cone>, c2: seq<Cone>,
                                            left: seq<nat>, right: seq<nat>, i: nat, m: nat)
    requires SameCones(c1, c2) && AllIn(c1, left) && AllIn(c1, right) && m <= |left|
    ensures forall k :: i <= k < m ==> Pick(c1, left, right, k) == Pick(c2, left, right, k)
    ensures MatchCount(c1, left, right, i, m) == MatchCount(c2, left, right, i, m)
    decreases m - i
  {
    if i < m {
      PairingSameCones(c1, c2, left, right, i + 1, m);
      FindIgnoresMapped(c1, c2, c1[left[i]].position, right);
    }
  }

  /** Store `b` is store `a` with some `mapped` flags raised. */
  predicate OnlyMarked(a: seq<Cone>, b: seq<Cone>)
  {
    && SameCones(a, b)
    && forall k :: 0 <= k < |a| ==> b[k].dist == a[k].dist && (a[k].mapped ==> b[k].mapped)
  }

  /** Raise the `mapped` flag of cone `k`. */
  function MarkMapped(store: seq<Cone>, k: nat): (r: seq<Cone>)
    requires k < |store|
    ensures OnlyMarked(store, r) && r[k].mapped
    ensures forall j :: 0 <= j < |store| && j != k ==> r[j] == store[j]
  {
    store[k := store[k].(mapped := true)]
  }

  /** The loop body for left cone `i` once its guard passes: pair it with the
      right cone at the forward index the search returned. */
  function PairOne(s: State, i: nat): (r: State)
    requires Valid(s) && i < |s.left|
    ensures Valid(r)
    ensures OnlyMarked(s.cones, r.cones)
    ensures r.(cones := s.cones, centre := s.centre, lConeIndex := s.lConeIndex) == s
    ensures Matched(s.cones, s.left, s.right, i) ==>
      && r.centre == s.centre + [PairMidpoint(s.cones, s.left, s.right, i)]
      && r.lConeIndex == s.lConeIndex + 1
      && r.cones[s.left[i]].mapped
      && r.cones[s.right[Pick(s.cones, s.left, s.right, i)]].mapped
    ensures !Matched(s.cones, s.left, s.right, i) ==> r == s
    ensures forall k :: 0 <= k < |r.cones| && r.cones[k].mapped && !s.cones[k].mapped ==>
      && Matched(s.cones, s.left, s.right, i)
      && (k == s.left[i] || k == s.right[Pick(s.cones, s.left, s.right, i)])
  {
    var idx := Pick(s.cones, s.left, s.right, i);
    if idx != -1 then
      var centre := Midpoint(s.cones[s.right[idx]].position, s.cones[s.left[i]].position);
      var marked := MarkMapped(MarkMapped(s.cones, s.left[i]), s.right[idx]);
      s.(centre := s.centre + [centre], cones := marked, lConeIndex := s.lConeIndex + 1)
    else
      s
  }

  /** The centre points keep their prefix and gain, in order, one point per
      left cone `i` up to `n` that is matched, that cone's pair midpoint;
      `l_cone_index` grows by the same count. */
  predicate CentresFrom(s: State, r: State, i: nat, n: nat)
    requires Valid(s) && i <= n && Pairable(s.cones, s.left, s.right, n)
  {
    CountsFrom(s, r, i, n) && MidpointsFrom(s, r, i, n)
  }

  /** The centre points keep their prefix and, like `l_cone_index`, grow by
      the number of matched left cones from `i` up to `n`. */
  predicate CountsFrom(s: State, r: State, i: nat, n: nat)
    requires Valid(s) && i <= n && Pairable(s.cones, s.left, s.right, n)
  {
    && s.centre <= r.centre
    && |r.centre| == |s.centre| + MatchCount(s.cones, s.left, s.right, i, n)
    && r.lConeIndex == s.lConeIndex + MatchCount(s.cones, s.left, s.right, i, n)
  }

  /** Each matched left cone `k` from `i` up to `n` has its pair midpoint
      after the old centre points and the points of the matched cones before
      it. */
  predicate MidpointsFrom(s: State, r: State, i: nat, n: nat)
    requires Valid(s) && i <= n && Pairable(s.cones, s.left, s.right, n)
  {
    forall k :: i <= k < n && Matched(s.cones, s.left, s.right, k) ==>
      && |s.centre| + MatchCount(s.cones, s.left, s.right, i, k) < |r.centre|
      && r.centre[|s.centre| + MatchCount(s.cones, s.left, s.right, i, k)]
         == PairMidpoint(s.cones, s.left, s.right, k)
  }

  /** Both cones of every pair formed from left cone `i` up to `n` are
      marked, marks are never cleared, and a newly marked cone is one of
      those pairs. */
  predicate MarksFrom(s: State, r: State, i: nat, n: nat)
    requires Valid(s) && i <= n && Pairable(s.cones, s.left, s.right, n)
  {
    && OnlyMarked(s.cones, r.cones)
    && (forall k :: i <= k < n && Matched(s.cones, s.left, s.right, k) ==>
          r.cones[s.left[k]].mapped && r.cones[s.right[Pick(s.cones, s.left, s.right, k)]].mapped)
    && (forall k :: 0 <= k < |r.cones| && r.cones[k].mapped && !s.cones[k].mapped ==>
          exists j :: i <= j < n && Matched(s.cones, s.left, s.right, j)
            && (k == s.left[j] || k == s.right[Pick(s.cones, s.left, s.right, j)]))
  }

  /** Only the store, the centre points and `l_cone_index` may change. */
  predicate Framed(s: State, r: State)
  {
    r.(cones := s.cones, centre := s.centre, lConeIndex := s.lConeIndex) == s
  }

  /** `addFirstCentrePoints` from left cone `i` up to `n`. */
  function AddFrom(s: State, i: nat, n: nat): (r: State)
    requires Valid(s) && i <= n && Pairable(s.cones, s.left, s.right, n)
    ensures Valid(r) && Framed(s, r)
    ensures CentresFrom(s, r, i, n)
    ensures MarksFrom(s, r, i, n)
    decreases n - i
  {
    if i == n then s
    else
      var next := if Complement(s.cones[s.left[i]].mapped) != 0 then PairOne(s, i) else s;
      var r := AddFrom(next, i + 1, n);
      PairingSameCones(s.cones, next.cones, s.left, s.right, i, n);
      CentresStep(s, next, r, i, n);
      MarksStep(s, next, r, i, n);
      r
  }

  /** One pairing followed by the rest of the loop keeps `CentresFrom`. */
  lemma CentresStep(s: State, next: State, r: State, i: nat, n: nat)
    requires Valid(s) && i < n && Pairable(s.cones, s.left, s.right, n)
    requires next == PairOne(s, i)
    requires CentresFrom(next, r, i + 1, n)
    ensures CentresFrom(s, r, i, n)
  {
    CountsStep(s, next, r, i, n);
    MidpointsStep(s, next, r, i, n);
  }

  /** The pairing step's effect on the counts: the chains and positions stay,
      and exactly a matched cone appends a point and bumps the counter. */
  lemma CountsStep(s: State, next: State, r: State, i: nat, n: nat)
    requires Valid(s) && Valid(next) && i < n && Pairable(s.cones, s.left, s.right, n)
    requires SameCones(s.cones, next.cones) && next.left == s.left && next.right == s.right
    requires s.centre <= next.centre
    requires |next.centre| == |s.centre| + (if Matched(s.cones, s.left, s.right, i) then 1 else 0)
    requires next.lConeIndex == s.lConeIndex + (if Matched(s.cones, s.left, s.right, i) then 1 else 0)
    requires CountsFrom(next, r, i + 1, n)
    ensures CountsFrom(s, r, i, n)
  {
    PairingSameCones(s.cones, next.cones, s.left, s.right, i + 1, n);
  }

  /** The pairing step's effect on the midpoints: a matched cone appends its
      own pair midpoint, and the later ones land where they should. */
  lemma MidpointsStep(s: State, next: State, r: State, i: nat, n: nat)
    requires Valid(s) && Valid(next) && i < n && Pairable(s.cones, s.left, s.right, n)
    requires SameCones(s.cones, next.cones) && next.left == s.left && next.right == s.right
    requires |next.centre| == |s.centre| + (if Matched(s.cones, s.left, s.right, i) then 1 else 0)
    requires Matched(s.cones, s.left, s.right, i) ==>
      next.centre == s.centre + [PairMidpoint(s.cones, s.left, s.right, i)]
    requires CountsFrom(next, r, i + 1, n) && MidpointsFrom(next, r, i + 1, n)
    ensures MidpointsFrom(s, r, i, n)
  {
    forall k | i <= k < n && Matched(s.cones, s.left, s.right, k)
      ensures |s.centre| + MatchCount(s.cones, s.left, s.right, i, k) < |r.centre|
      ensures r.centre[|s.centre| + MatchCount(s.cones, s.left, s.right, i, k)]
              == PairMidpoint(s.cones, s.left, s.right, k)
    {
      if k == i {
        assert MatchCount(s.cones, s.left, s.right, i, k) == 0;
        assert r.centre[|s.centre|] == next.centre[|s.centre|];
      } else {
        CentresStepLater(s, next, r, i, n, k);
      }
    }
  }

  /** The centre point of a matched left cone after the one just paired sits
      where `CentresFrom` promises. */
  lemma CentresStepLater(s: State, next: State, r: State, i: nat, n: nat, k: nat)
    requires Valid(s) && Valid(next) && i < n && Pairable(s.cones, s.left, s.right, n)
    requires SameCones(s.cones, next.cones) && next.left == s.left && next.right == s.right
    requires |next.centre| == |s.centre| + (if Matched(s.cones, s.left, s.right, i) then 1 else 0)
    requires CountsFrom(next, r, i + 1, n) && MidpointsFrom(next, r, i + 1, n)
    requires i < k < n && Matched(s.cones, s.left, s.right, k)
    ensures |s.centre| + MatchCount(s.cones, s.left, s.right, i, k) < |r.centre|
    ensures r.centre[|s.centre| + MatchCount(s.cones, s.left, s.right, i, k)]
            == PairMidpoint(s.cones, s.left, s.right, k)
  {
    var pos := |s.centre| + MatchCount(s.cones, s.left, s.right, i, k);
    PairingSameCones(s.cones, next.cones, s.left, s.right, i + 1, k);
    PairMidpointSameCones(s.cones, next.cones, s.left, s.right, k);
    assert pos == |next.centre| + MatchCount(next.cones, next.left, next.right, i + 1, k);
  }

  /** Whether a left cone is matched, and its pair midpoint, agree on stores
      that differ only in `dist` and `mapped`. */
  lemma PairMidpointSameCones(c1: seq<Cone>, c2: seq<Cone>, left: seq<nat>, right: seq<nat>, k: nat)
    requires SameCones(c1, c2) && AllIn(c1, left) && AllIn(c1, right) && k < |left|
    ensures Matched(c1, left, right, k) == Matched(c2, left, right, k)
    ensures Matched(c1, left, right, k) ==>
      PairMidpoint(c1, left, right, k) == PairMidpoint(c2, left, right, k)
  {
    FindIgnoresMapped(c1, c2, c1[left[k]].position, right);
  }

  /** One pairing followed by the rest of the loop keeps `MarksFrom`. */
  lemma MarksStep(s: State, next: State, r: State, i: nat, n: nat)
    requires Valid(s) && i < n && Pairable(s.cones, s.left, s.right, n)
    requires next == PairOne(s, i)
    requires MarksFrom(next, r, i + 1, n)
    ensures MarksFrom(s, r, i, n)
  {
    PairingSameCones(s.cones, next.cones, s.left, s.right, i, n);
  }

  /** The number of loop iterations, `min(left_cones.size(), right_cones.size())`. */
  function PairingBound(s: State): (n: nat)
    ensures n <= |s.left| && n <= |s.right|
    ensures n == |s.left| || n == |s.right|
  {
    if |s.left| <= |s.right| then |s.left| else |s.right|
  }

  /** After the first `base` centre points come exactly the pair midpoints of
      the matched left cones below the pairing bound, one each, in left-chain
      order. */
  predicate PairedCentres(r: State, base: nat)
    requires Valid(r)
  {
    && |r.centre| == base + MatchCount(r.cones, r.left, r.right, 0, PairingBound(r))
    && forall k :: 0 <= k < PairingBound(r) && Matched(r.cones, r.left, r.right, k) ==>
         && base + MatchCount(r.cones, r.left, r.right, 0, k) < |r.centre|
         && r.centre[base + MatchCount(r.cones, r.left, r.right, 0, k)]
            == PairMidpoint(r.cones, r.left, r.right, k)
  }

  /** `CentresFrom` over the whole bound, restated on the resulting store:
      after the old centre points come exactly the pair midpoints of the
      matched left cones, in chain order. */
  lemma CentresFromPaired(s: State, r: State)
    requires Valid(s) && Valid(r) && SameCones(s.cones, r.cones)
    requires r.left == s.left && r.right == s.right
    requires CentresFrom(s, r, 0, PairingBound(s))
    ensures PairedCentres(r, |s.centre|)
  {
    var n := PairingBound(s);
    assert PairingBound(r) == n;
    PairingSameCones(s.cones, r.cones, s.left, s.right, 0, n);
    forall k | 0 <= k < n && Matched(r.cones, r.left, r.right, k)
      ensures |s.centre| + MatchCount(r.cones, r.left, r.right, 0, k) < |r.centre|
      ensures r.centre[|s.centre| + MatchCount(r.cones, r.left, r.right, 0, k)]
              == PairMidpoint(r.cones, r.left, r.right, k)
    {
      PairingSameCones(s.cones, r.cones, s.left, s.right, 0, k);
      PairMidpointSameCones(s.cones, r.cones, s.left, s.right, k);
    }
  }

  /** `addFirstCentrePoints`: every left cone below the bound is tried (the
      guard never skips one). The centre points keep their prefix and gain,
      in left-chain order, exactly one point per left cone the search matches,
      the exact midpoint of that cone and the right cone at the index the
      search returned; `l_cone_index` grows once per appended point; both
      cones of each pair are marked and only chain cones get marked. */
  function AddFirstCentrePoints(s: State): (r: State)
    requires Valid(s)
    ensures Valid(r) && Framed(s, r)
    ensures CentresFrom(s, r, 0, PairingBound(s))
    ensures MarksFrom(s, r, 0, PairingBound(s))
  {
    AddFrom(s, 0, PairingBound(s))
  }

  /** Two states that agree on the chains, the centre points and every cone's
      position and colour, whatever their `mapped` flags and scratch
      distances. */
  predicate SameButFlags(s1: State, s2: State)
  {
    && Valid(s1) && Valid(s2) && SameCones(s1.cones, s2.cones)
    && s1.left == s2.left && s1.right == s2.right && s1.centre == s2.centre
  }

  /** Because the guard is always taken, the `mapped` flags a state starts with
      make no difference to the centre points appended. */
  lemma {:induction false} AddFromIgnoresMappedFlags(s1: State, s2: State, i: nat, n: nat)
    requires SameButFlags(s1, s2) && i <= n && Pairable(s1.cones, s1.left, s1.right, n)
    ensures AddFrom(s1, i, n).centre == AddFrom(s2, i, n).centre
    decreases n - i
  {
    if i < n {
      var next1, next2 := PairOne(s1, i), PairOne(s2, i);
      PairOneIgnoresMappedFlags(s1, s2, i);
      AddFromIgnoresMappedFlags(next1, next2, i + 1, n);
      assert AddFrom(s1, i, n) == AddFrom(next1, i + 1, n);
      assert AddFrom(s2, i, n) == AddFrom(next2, i + 1, n);
    }
  }

  /** One pairing step treats two states that differ only in their store's
      flags alike, and leaves them differing only there. */
  lemma PairOneIgnoresMappedFlags(s1: State, s2: State, i: nat)
    requires SameButFlags(s1, s2) && i < |s1.left|
    ensures SameButFlags(PairOne(s1, i), PairOne(s2, i))
  {
    FindIgnoresMapped(s1.cones, s2.cones, s1.cones[s1.left[i]].position, s1.right);
    assert Pick(s1.cones, s1.left, s1.right, i) == Pick(s2.cones, s2.left, s2.right, i);
  }

  /** `addFirstCentrePoints` yields the same centre points whatever cones are
      already marked as mapped. */
  lemma AddFirstIgnoresMappedFlags(s1: State, s2: State)
    requires SameButFlags(s1, s2)
    ensures AddFirstCentrePoints(s1).centre == AddFirstCentrePoints(s2).centre
  {
    AddFromIgnoresMappedFlags(s1, s2, 0, PairingBound(s1));
  }

  /** The search returns a count from the END of the right chain while the
      caller indexes from the front. With the left cone at the origin and right
      cones at (1, 0) and (10, 0), the search designates the cone at (1, 0) by
      returning 1, and the code pairs the left cone with `right_cones[1]`, the
      cone at (10, 0), which lies outside the pairing radius. */
  lemma MirrorIndexPairsConeOutsideRadius()
    ensures
      var store := [Cone(Point(0.0, 0.0), LeftColour, 0.0, false),
                    Cone(Point(1.0, 0.0), RightColour, 0.0, false),
                    Cone(Point(10.0, 0.0), RightColour, 0.0, false)];
      var s := State(Config(false, 0, 0, 0), store, store, [], [], false, false,
                     [0], [1, 2], [], [Point(0.0, 0.0)], 0);
      && FindOppositeClosest(store, Point(0.0, 0.0), [1, 2]) == 1
      && !Within(Point(0.0, 0.0), Point(10.0, 0.0), PairingRadius)
      && AddFirstCentrePoints(s).centre == [Point(0.0, 0.0), Point(5.0, 0.0)]
  {
    var store := [Cone(Point(0.0, 0.0), LeftColour, 0.0, false),
                  Cone(Point(1.0, 0.0), RightColour, 0.0, false),
                  Cone(Point(10.0, 0.0), RightColour, 0.0, false)];
    var s := State(Config(false, 0, 0, 0), store, store, [], [], false, false,
                   [0], [1, 2], [], [Point(0.0, 0.0)], 0);
    var ds := VisitDists(store, Point(0.0, 0.0), [1, 2]);
    assert ds[0] == SqDist(Point(0.0, 0.0), store[2].position) == 100.0;
    assert ds[1] == SqDist(Point(0.0, 0.0), store[1].position) == 1.0;
    assert ScanFrom(ds, 0, PairingRadius * PairingRadius, -1)
           == ScanFrom(ds, 1, PairingRadius * PairingRadius, -1);
    assert ScanFrom(ds, 1, PairingRadius * PairingRadius, -1) == ScanFrom(ds, 2, 1.0, 1) == 1;
    assert FindOppositeClosest(store, Point(0.0, 0.0), [1, 2]) == 1;
    assert PairMidpoint(store, [0], [1, 2], 0) == Point(5.0, 0.0);
    assert MatchCount(store, [0], [1, 2], 0, 1) == 1;
  }
}
