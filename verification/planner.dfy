/** The planner constructor: classify the initial snapshot, put the car
    position first among the centre points, seed each boundary chain with the
    staged cone nearest the car, promote what the gate lets through and pair
    the first centre points. */
module Planner {
  import opened Geometry
  import opened Cones
  import opened Classifier
  import opened PlannerState
  import opened Staging
  import opened Sequencer
  import opened Centreline

  /** Some cone of the snapshot has colour `c`. */
  predicate HasColour(cones: seq<Cone>, c: char)
  {
    exists i :: 0 <= i < |cones| && cones[i].colour == c
  }

  /** The chain starts with a cone of the store that is no farther from `car`
      than any cone of colour `c`. */
  predicate NearestSeed(cones: seq<Cone>, car: Point, chain: seq<nat>, c: char)
  {
    && |chain| >= 1 && chain[0] < |cones|
    && forall k :: 0 <= k < |cones| && cones[k].colour == c ==>
         SqDist(car, cones[chain[0]].position) <= SqDist(car, cones[k].position)
  }

  /** Every cone of the chain after its seed passes the promotion gate. */
  predicate GatedAfterSeed(cones: seq<Cone>, chain: seq<nat>)
  {
    forall k :: 1 <= k < |chain| ==> chain[k] < |cones| && PassesGate(cones, chain[k])
  }

  /** The state right after classification: both queues staged, the chains
      empty, the car position the only centre point. The counter starts at
      zero. */
  function Stage(car: Point, cones: seq<Cone>, config: Config): (s: State)
    ensures Valid(s) && s.cones == cones && s.raw == cones && s.config == config
    ensures s.lQueue == Classify(cones).left && s.rQueue == Classify(cones).right
    ensures s.timing == Classify(cones).timing
    ensures s.left == [] && s.right == [] && s.centre == [car] && s.lConeIndex == 0
  {
    var c := Classify(cones);
    State(config, cones, cones, c.left, c.right, false, false, [], [], c.timing, [car], 0)
  }

  /** Move each queue's head, its first element, into the empty chain of its
      side and clear the sorted flags. */
  function Seed(s: State): (r: State)
    requires Valid(s) && |s.lQueue| > 0 && |s.rQueue| > 0
    ensures Valid(r) && r.cones == s.cones
    ensures r.left == [s.lQueue[0]] && r.right == [s.rQueue[0]]
    ensures multiset(r.left) + multiset(r.lQueue) == multiset(s.lQueue)
    ensures multiset(r.right) + multiset(r.rQueue) == multiset(s.rQueue)
    ensures r.lQueue == s.lQueue[1..] && r.rQueue == s.rQueue[1..]
    ensures !r.lSorted && !r.rSorted
    ensures r.timing == s.timing && r.centre == s.centre
    ensures r.lConeIndex == s.lConeIndex && r.config == s.config
    ensures r.raw == s.raw
  {
    assert s.lQueue == [s.lQueue[0]] + s.lQueue[1..];
    assert s.rQueue == [s.rQueue[0]] + s.rQueue[1..];
    s.(left := [s.lQueue[0]], right := [s.rQueue[0]],
       lQueue := s.lQueue[1..], rQueue := s.rQueue[1..],
       lSorted := false, rSorted := false)
  }

  /** The head of a queue sorted by distance to `ref` is no farther from `ref`
      than any cone of a queue holding the same cones. */
  lemma HeadIsNearest(cones: seq<Cone>, q: seq<nat>, sorted: seq<nat>, ref: Point)
    requires AllIn(cones, q) && SortedFrom(cones, sorted, ref) && multiset(sorted) == multiset(q)
    requires |q| > 0
    ensures |sorted| > 0
    ensures forall k :: k in q ==>
      SqDist(ref, cones[sorted[0]].position) <= SqDist(ref, cones[k].position)
  {
    assert q[0] in multiset(sorted);
    forall k | k in q
      ensures SqDist(ref, cones[sorted[0]].position) <= SqDist(ref, cones[k].position)
    {
      assert k in multiset(sorted);
      var j :| 0 <= j < |sorted| && sorted[j] == k;
    }
  }

  /** The classified queues are non-empty and share no cone. */
  lemma StagedQueues(cones: seq<Cone>, staged: State)
    requires HasColour(cones, LeftColour) && HasColour(cones, RightColour)
    requires staged.cones == cones
    requires staged.lQueue == Classify(cones).left && staged.rQueue == Classify(cones).right
    ensures |staged.lQueue| > 0 && |staged.rQueue| > 0
    ensures Disjoint(staged.lQueue, staged.rQueue)
  {
    var c := Classify(cones);
    var i :| 0 <= i < |cones| && cones[i].colour == LeftColour;
    var j :| 0 <= j < |cones| && cones[j].colour == RightColour;
    assert i in c.left && j in c.right;
    ColoursDisjoint(cones, c.left, LeftColour, c.right, RightColour);
  }

  /** The constructor up to the promotion loop: classify, put the car first
      among the centre points, sort both queues by distance to the car, seed
      each chain with its queue's head, and re-sort both queues against the
      seeds. Each chain then holds just the cone of its colour nearest the
      car, seed plus queue hold exactly that side's classified cones, and each
      queue is in ascending distance from its seed. */
  function Prepare(car: Point, cones: seq<Cone>, config: Config): (r: State)
    requires HasColour(cones, LeftColour) && HasColour(cones, RightColour)
    ensures Valid(r) && r.config == config && r.raw == cones && SameCones(cones, r.cones)
    ensures r.centre == [car] && r.lConeIndex == 0
    ensures r.timing == Classify(cones).timing
    ensures |r.left| == 1 && |r.right| == 1
    ensures NearestSeed(cones, car, r.left, LeftColour) && NearestSeed(cones, car, r.right, RightColour)
    ensures multiset(r.left) + multiset(r.lQueue) == multiset(Classify(cones).left)
    ensures multiset(r.right) + multiset(r.rQueue) == multiset(Classify(cones).right)
    ensures SortedFrom(r.cones, r.lQueue, r.cones[r.left[0]].position)
    ensures SortedFrom(r.cones, r.rQueue, r.cones[r.right[0]].position)
  {
    var staged := Stage(car, cones, config);
    StagedQueues(cones, staged);
    var byCar := SortConesByDist(staged, car, car);
    var seeded := Seed(byCar);
    var resorted := SortConesByDist(seeded, seeded.cones[seeded.left[0]].position,
                                    seeded.cones[seeded.right[0]].position);
    SeedsAreNearest(car, cones, staged, byCar);
    SeedFacts(car, staged, byCar, seeded, resorted);
    ResortFacts(staged, byCar, seeded, resorted);
    resorted
  }

  /** The constructor. The source dereferences the first element of each
      staging queue, so at least one left (`'b'`) and one right (`'y'`) cone
      must be present. The car position is the first centre point and the
      rest are the pairs' midpoints, one per matched left cone in chain order;
      each chain starts with its side's cone nearest the car and grows only by
      cones inside the origin gate; chain plus queue hold exactly that side's
      cones; the timing list holds the `'r'` cones in snapshot order; the raw
      copy keeps the snapshot exactly as passed, while the store the chains
      point into differs from it only in scratch distances and marks. */
  function Init(carX: real, carY: real, cones: seq<Cone>, config: Config,
                pastEnd: nat -> (Point, Point)): (r: State)
    requires HasColour(cones, LeftColour) && HasColour(cones, RightColour)
    ensures Valid(r) && r.config == config && r.raw == cones && SameCones(cones, r.cones)
    ensures |r.centre| >= 1 && r.centre[0] == Point(carX, carY)
    ensures PairedCentres(r, 1) && r.lConeIndex == |r.centre| - 1
    ensures r.timing == Classify(cones).timing
    ensures multiset(r.left) + multiset(r.lQueue) == multiset(Classify(cones).left)
    ensures multiset(r.right) + multiset(r.rQueue) == multiset(Classify(cones).right)
    ensures NearestSeed(cones, Point(carX, carY), r.left, LeftColour)
    ensures NearestSeed(cones, Point(carX, carY), r.right, RightColour)
    ensures GatedAfterSeed(r.cones, r.left) && GatedAfterSeed(r.cones, r.right)
  {
    var car := Point(carX, carY);
    var prepared := Prepare(car, cones, config);
    var r := Complete(car, prepared, pastEnd);
    assert r.left[0] == prepared.left[0] && r.right[0] == prepared.right[0];
    r
  }

  /** The constructor's last two calls, `popConesToAdd` then
      `addFirstCentrePoints`, from a freshly seeded state: the seeds stay at
      the heads of the chains, a queue head that passes the gate joins right
      behind its seed, only gated cones join, no staged cone is lost, and the
      car position is followed by one midpoint per matched left cone in chain
      order. */
  function Complete(car: Point, s: State, pastEnd: nat -> (Point, Point)): (r: State)
    requires Valid(s) && |s.left| == 1 && |s.right| == 1
    requires s.centre == [car] && s.lConeIndex == 0
    ensures Valid(r) && r.config == s.config && SameCones(s.cones, r.cones)
    ensures r.timing == s.timing && r.raw == s.raw
    ensures |r.left| >= 1 && |r.right| >= 1
    ensures r.left[0] == s.left[0] && r.right[0] == s.right[0]
    ensures multiset(r.left) + multiset(r.lQueue) == multiset(s.left) + multiset(s.lQueue)
    ensures multiset(r.right) + multiset(r.rQueue) == multiset(s.right) + multiset(s.rQueue)
    ensures GatedAfterSeed(r.cones, r.left) && GatedAfterSeed(r.cones, r.right)
    ensures HeadPasses(s.cones, s.lQueue) ==> |r.left| >= 2 && r.left[1] == s.lQueue[0]
    ensures HeadPasses(s.cones, s.rQueue) ==> |r.right| >= 2 && r.right[1] == s.rQueue[0]
    ensures |r.centre| >= 1 && r.centre[0] == car
    ensures PairedCentres(r, 1) && r.lConeIndex == |r.centre| - 1
  {
    var popped := PopConesToAdd(s, pastEnd);
    var r := AddFirstCentrePoints(popped);
    CompleteChains(car, s, popped, r, pastEnd);
    CompleteCentres(car, s, popped, r, pastEnd);
    r
  }

  /** The chains, queues and store after the constructor's last two calls. */
  lemma CompleteChains(car: Point, s: State, popped: State, r: State, pastEnd: nat -> (Point, Point))
    requires Valid(s) && |s.left| == 1 && |s.right| == 1
    requires s.centre == [car] && s.lConeIndex == 0
    requires popped == PopConesToAdd(s, pastEnd) && r == AddFirstCentrePoints(popped)
    ensures Valid(r) && r.config == s.config && SameCones(s.cones, r.cones)
    ensures r.timing == s.timing && r.raw == s.raw
    ensures |r.left| >= 1 && |r.right| >= 1
    ensures r.left[0] == s.left[0] && r.right[0] == s.right[0]
    ensures multiset(r.left) + multiset(r.lQueue) == multiset(s.left) + multiset(s.lQueue)
    ensures multiset(r.right) + multiset(r.rQueue) == multiset(s.right) + multiset(s.rQueue)
    ensures GatedAfterSeed(r.cones, r.left) && GatedAfterSeed(r.cones, r.right)
    ensures HeadPasses(s.cones, s.lQueue) ==> |r.left| >= 2 && r.left[1] == s.lQueue[0]
    ensures HeadPasses(s.cones, s.rQueue) ==> |r.right| >= 2 && r.right[1] == s.rQueue[0]
  {
    PromotionFacts(s, popped, pastEnd);
    PairingFacts(popped, r);
  }

  /** The centre points after the constructor's last two calls. */
  lemma CompleteCentres(car: Point, s: State, popped: State, r: State, pastEnd: nat -> (Point, Point))
    requires Valid(s) && |s.left| == 1 && |s.right| == 1
    requires s.centre == [car] && s.lConeIndex == 0
    requires popped == PopConesToAdd(s, pastEnd) && r == AddFirstCentrePoints(popped)
    ensures |r.centre| >= 1 && r.centre[0] == car
    ensures PairedCentres(r, 1) && r.lConeIndex == |r.centre| - 1
  {
    assert popped.centre == [car] && popped.lConeIndex == 0;
    CentreFacts(car, popped, r);
  }


  /** The seeds, the heads of the queues sorted by distance to the car, are
      the cones of their colour nearest the car. */
  lemma SeedsAreNearest(car: Point, cones: seq<Cone>, staged: State, byCar: State)
    requires Valid(staged) && staged.cones == cones
    requires staged.lQueue == Classify(cones).left && staged.rQueue == Classify(cones).right
    requires |staged.lQueue| > 0 && |staged.rQueue| > 0 && Disjoint(staged.lQueue, staged.rQueue)
    requires byCar == SortConesByDist(staged, car, car)
    ensures NearestSeed(cones, car, byCar.lQueue, LeftColour)
    ensures NearestSeed(cones, car, byCar.rQueue, RightColour)
  {
    var c := Classify(cones);
    assert SameCones(cones, byCar.cones);
    assert SortedFrom(byCar.cones, byCar.lQueue, car) && SortedFrom(byCar.cones, byCar.rQueue, car);
    assert multiset(byCar.lQueue) == multiset(c.left) && multiset(byCar.rQueue) == multiset(c.right);
    NearestOfColour(cones, byCar.cones, c.left, byCar.lQueue, car, LeftColour);
    NearestOfColour(cones, byCar.cones, c.right, byCar.rQueue, car, RightColour);
  }

  /** The head of a sorted permutation of a queue that holds every cone of
      colour `c` is the cone of that colour nearest `ref`. */
  lemma NearestOfColour(cones: seq<Cone>, sortedCones: seq<Cone>, q: seq<nat>, sorted: seq<nat>,
                        ref: Point, c: char)
    requires SameCones(cones, sortedCones)
    requires IsSelection(cones, c, |cones|, q)
    requires SortedFrom(sortedCones, sorted, ref) && multiset(sorted) == multiset(q) && |q| > 0
    ensures NearestSeed(cones, ref, sorted, c)
  {
    HeadIsNearest(sortedCones, q, sorted, ref);
  }

  /** After seeding and the re-sort each chain holds exactly its seed, and
      seed plus queue still hold the classified cones. */
  lemma SeedFacts(car: Point, staged: State, byCar: State, seeded: State, resorted: State)
    requires Valid(staged) && |staged.lQueue| > 0 && |staged.rQueue| > 0
    requires byCar == SortConesByDist(staged, car, car)
    requires seeded == Seed(byCar)
    requires resorted == SortConesByDist(seeded, seeded.cones[seeded.left[0]].position,
                                         seeded.cones[seeded.right[0]].position)
    ensures Valid(resorted) && SameCones(staged.cones, resorted.cones)
    ensures resorted.config == staged.config && resorted.timing == staged.timing
    ensures resorted.raw == staged.raw
    ensures resorted.centre == staged.centre && resorted.lConeIndex == staged.lConeIndex
    ensures resorted.left == [byCar.lQueue[0]] && resorted.right == [byCar.rQueue[0]]
    ensures multiset(resorted.left) + multiset(resorted.lQueue) == multiset(staged.lQueue)
    ensures multiset(resorted.right) + multiset(resorted.rQueue) == multiset(staged.rQueue)
  {
  }

  /** The re-sort against the seeds: the staged queues share no cone, so
      neither does what is left of them after seeding, and both re-sorted
      queues are in ascending distance from their own seed. */
  lemma ResortFacts(staged: State, byCar: State, seeded: State, resorted: State)
    requires Valid(staged) && |staged.lQueue| > 0 && |staged.rQueue| > 0
    requires Disjoint(staged.lQueue, staged.rQueue)
    requires Valid(byCar) && multiset(byCar.lQueue) == multiset(staged.lQueue)
    requires multiset(byCar.rQueue) == multiset(staged.rQueue)
    requires |byCar.lQueue| > 0 && |byCar.rQueue| > 0 && seeded == Seed(byCar)
    requires resorted == SortConesByDist(seeded, seeded.cones[seeded.left[0]].position,
                                         seeded.cones[seeded.right[0]].position)
    ensures SortedFrom(resorted.cones, resorted.lQueue, resorted.cones[resorted.left[0]].position)
    ensures SortedFrom(resorted.cones, resorted.rQueue, resorted.cones[resorted.right[0]].position)
  {
    DisjointPermuted(staged.lQueue, staged.rQueue, byCar.lQueue, byCar.rQueue);
    assert Disjoint(seeded.lQueue, seeded.rQueue);
  }

  /** Rearranging two queues that share no cone keeps them apart. */
  lemma DisjointPermuted(a: seq<nat>, b: seq<nat>, a': seq<nat>, b': seq<nat>)
    requires Disjoint(a, b) && multiset(a') == multiset(a) && multiset(b') == multiset(b)
    ensures Disjoint(a', b')
  {
    forall i, j | 0 <= i < |a'| && 0 <= j < |b'| ensures a'[i] != b'[j] {
      assert a'[i] in multiset(a) && b'[j] in multiset(b);
      var i0 :| 0 <= i0 < |a| && a[i0] == a'[i];
      var j0 :| 0 <= j0 < |b| && b[j0] == b'[j];
    }
  }

  /** Promotion keeps each seed at the head of its chain, adds only gated
      cones behind it, and loses no staged cone. */
  lemma PromotionFacts(resorted: State, popped: State, pastEnd: nat -> (Point, Point))
    requires Valid(resorted) && |resorted.left| == 1 && |resorted.right| == 1
    requires popped == PopConesToAdd(resorted, pastEnd)
    ensures Valid(popped) && popped.config == resorted.config && SameCones(resorted.cones, popped.cones)
    ensures popped.timing == resorted.timing && popped.raw == resorted.raw
    ensures popped.centre == resorted.centre && popped.lConeIndex == resorted.lConeIndex
    ensures |popped.left| >= 1 && |popped.right| >= 1
    ensures popped.left[0] == resorted.left[0] && popped.right[0] == resorted.right[0]
    ensures multiset(popped.left) + multiset(popped.lQueue)
            == multiset(resorted.left) + multiset(resorted.lQueue)
    ensures multiset(popped.right) + multiset(popped.rQueue)
            == multiset(resorted.right) + multiset(resorted.rQueue)
    ensures GatedAfterSeed(popped.cones, popped.left) && GatedAfterSeed(popped.cones, popped.right)
    ensures HeadPasses(resorted.cones, resorted.lQueue) ==>
      |popped.left| >= 2 && popped.left[1] == resorted.lQueue[0]
    ensures HeadPasses(resorted.cones, resorted.rQueue) ==>
      |popped.right| >= 2 && popped.right[1] == resorted.rQueue[0]
  {
  }

  /** Pairing touches neither chains nor queues nor positions. */
  lemma PairingFacts(popped: State, r: State)
    requires Valid(popped) && r == AddFirstCentrePoints(popped)
    ensures Valid(r) && r.config == popped.config && SameCones(popped.cones, r.cones)
    ensures r.timing == popped.timing && r.raw == popped.raw
    ensures r.left == popped.left && r.right == popped.right
    ensures r.lQueue == popped.lQueue && r.rQueue == popped.rQueue
    ensures forall k :: 0 <= k < |r.left| ==>
      PassesGate(r.cones, r.left[k]) == PassesGate(popped.cones, popped.left[k])
    ensures forall k :: 0 <= k < |r.right| ==>
      PassesGate(r.cones, r.right[k]) == PassesGate(popped.cones, popped.right[k])
  {
    assert Framed(popped, r);
  }

  /** The centre points after construction: the car position, then one
      midpoint per matched left cone in chain order. */
  lemma CentreFacts(car: Point, popped: State, r: State)
    requires Valid(popped) && popped.centre == [car] && popped.lConeIndex == 0
    requires r == AddFirstCentrePoints(popped)
    ensures |r.centre| >= 1 && r.centre[0] == car
    ensures PairedCentres(r, 1) && r.lConeIndex == |r.centre| - 1
  {
    assert Framed(popped, r);
    CentresFromPaired(popped, r);
  }
}
