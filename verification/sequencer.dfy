/** The boundary sequencer: `popConesToAdd`, which moves staging-queue heads
    onto the ends of the boundary chains while they pass a distance gate.

    As written, the gate measures a head's distance from the ORIGIN, not from
    the chain's tail, and a head that fails it stays queued. */
module Sequencer {
  import opened Geometry
  import opened Cones
  import opened PlannerState
  import opened Staging

  /** Radius of the promotion gate around the origin. */
  const PromotionGate: real := 5.0

  /** `hypot(x, y) < 5` for the cone's position. */
  function PassesGate(cones: seq<Cone>, i: nat): (passes: bool)
    requires i < |cones|
    ensures passes <==> Within(cones[i].position, Point(0.0, 0.0), PromotionGate)
  {
    SqNorm(cones[i].position) < PromotionGate * PromotionGate
  }

  /** The queue has a head and that head passes the gate. */
  predicate HeadPasses(cones: seq<Cone>, queue: seq<nat>)
    requires AllIn(cones, queue)
  {
    |queue| > 0 && PassesGate(cones, queue[0])
  }

  /** The chain gained only gated cones at its end, and chain plus queue hold
      the same cones as before. */
  predicate Conserves(cones: seq<Cone>, chain: seq<nat>, queue: seq<nat>,
                      chain': seq<nat>, queue': seq<nat>)
    requires AllIn(cones, chain')
  {
    && chain <= chain'
    && (forall k :: |chain| <= k < |chain'| ==> PassesGate(cones, chain'[k]))
    && multiset(chain') + multiset(queue') == multiset(chain) + multiset(queue)
  }

  /** What one side of one loop iteration leaves behind. */
  datatype Promotion = Promotion(queue: seq<nat>, chain: seq<nat>, added: bool)

  /** One side of one iteration: the queue head moves to the end of the chain
      exactly when it passes the gate; otherwise both stay as they are. */
  function PromoteHead(cones: seq<Cone>, queue: seq<nat>, chain: seq<nat>): (r: Promotion)
    requires AllIn(cones, queue) && AllIn(cones, chain)
    ensures r.added <==> HeadPasses(cones, queue)
    ensures r.added ==> r.chain == chain + [queue[0]] && r.queue == queue[1..]
    ensures !r.added ==> r.chain == chain && r.queue == queue
    ensures multiset(r.chain) + multiset(r.queue) == multiset(chain) + multiset(queue)
    ensures AllIn(cones, r.queue) && AllIn(cones, r.chain)
    ensures Conserves(cones, chain, queue, r.chain, r.queue)
    ensures forall x :: x in r.queue ==> x in queue
  {
    if HeadPasses(cones, queue) then
      assert queue == [queue[0]] + queue[1..];
      Promotion(queue[1..], chain + [queue[0]], true)
    else
      Promotion(queue, chain, false)
  }

  /** A state after one iteration, and whether the loop goes round again. */
  datatype Step = Step(state: State, again: bool)

  /** The parts of the state the promotion loop never touches. */
  predicate Untouched(s: State, r: State)
  {
    && SameCones(s.cones, r.cones)
    && (forall k :: 0 <= k < |r.cones| ==> r.cones[k].mapped == s.cones[k].mapped)
    && r.centre == s.centre && r.timing == s.timing
    && r.lConeIndex == s.lConeIndex && r.config == s.config && r.raw == s.raw
  }

  /** Every cone staged in `r` was already staged on the same side in `s`. */
  predicate StagedFrom(s: State, r: State)
  {
    && (forall x :: x in r.lQueue ==> x in s.lQueue)
    && (forall x :: x in r.rQueue ==> x in s.rQueue)
  }

  /** Gated growth composes: two conserving stretches make one. */
  lemma ConservesTrans(c1: seq<Cone>, c2: seq<Cone>, chain0: seq<nat>, q0: seq<nat>,
                       chain1: seq<nat>, q1: seq<nat>, chain2: seq<nat>, q2: seq<nat>)
    requires SameCones(c1, c2) && AllIn(c1, chain1) && AllIn(c2, chain2)
    requires Conserves(c1, chain0, q0, chain1, q1)
    requires Conserves(c2, chain1, q1, chain2, q2)
    ensures Conserves(c2, chain0, q0, chain2, q2)
  {
    forall k | |chain0| <= k < |chain2| ensures PassesGate(c2, chain2[k]) {
      if k < |chain1| {
        assert chain2[k] == chain1[k];
        assert PassesGate(c1, chain1[k]);
      }
    }
  }

  /** The loop's guarantees compose across iterations. */
  lemma PopLoopCompose(s: State, t: State, r: State)
    requires Valid(t) && Valid(r)
    requires Untouched(s, t) && Untouched(t, r)
    requires Conserves(t.cones, s.left, s.lQueue, t.left, t.lQueue)
    requires Conserves(t.cones, s.right, s.rQueue, t.right, t.rQueue)
    requires Conserves(r.cones, t.left, t.lQueue, r.left, r.lQueue)
    requires Conserves(r.cones, t.right, t.rQueue, r.right, r.rQueue)
    ensures Untouched(s, r)
    ensures Conserves(r.cones, s.left, s.lQueue, r.left, r.lQueue)
    ensures Conserves(r.cones, s.right, s.rQueue, r.right, r.rQueue)
  {
    ConservesTrans(t.cones, r.cones, s.left, s.lQueue, t.left, t.lQueue, r.left, r.lQueue);
    ConservesTrans(t.cones, r.cones, s.right, s.rQueue, t.right, t.rQueue, r.right, r.rQueue);
  }

  /** The promotion half of one iteration: each side's head moves to its
      chain when it passes the gate. */
  function Promote(s: State): (r: State)
    requires Valid(s)
    ensures Valid(r)
    ensures r.cones == s.cones && r.centre == s.centre && r.timing == s.timing
    ensures r.lConeIndex == s.lConeIndex && r.config == s.config
    ensures Conserves(s.cones, s.left, s.lQueue, r.left, r.lQueue)
    ensures Conserves(s.cones, s.right, s.rQueue, r.right, r.rQueue)
    ensures |r.lQueue| + |r.rQueue| <= |s.lQueue| + |s.rQueue|
    ensures |r.lQueue| + |r.rQueue| < |s.lQueue| + |s.rQueue| <==>
      HeadPasses(s.cones, s.lQueue) || HeadPasses(s.cones, s.rQueue)
    ensures StagedFrom(s, r)
    ensures HeadPasses(s.cones, s.lQueue) ==>
      r.left == s.left + [s.lQueue[0]] && r.lQueue == s.lQueue[1..]
    ensures HeadPasses(s.cones, s.rQueue) ==>
      r.right == s.right + [s.rQueue[0]] && r.rQueue == s.rQueue[1..]
    ensures !HeadPasses(s.cones, s.lQueue) ==> r.left == s.left && r.lQueue == s.lQueue
    ensures !HeadPasses(s.cones, s.rQueue) ==> r.right == s.right && r.rQueue == s.rQueue
  {
    var l := PromoteHead(s.cones, s.lQueue, s.left);
    var rt := PromoteHead(s.cones, s.rQueue, s.right);
    s.(lQueue := l.queue, left := l.chain,
       lSorted := if l.added then false else s.lSorted,
       rQueue := rt.queue, right := rt.chain,
       rSorted := if rt.added then false else s.rSorted)
  }

  /** One iteration of the `popConesToAdd` loop body: promote each side's head
      if it passes, then re-sort both queues against `lRef`/`rRef` unless both
      are empty. The loop goes round again exactly when some head was promoted
      and cones remain staged, and then the staged total has shrunk. */
  function Iterate(s: State, lRef: Point, rRef: Point): (r: Step)
    requires Valid(s)
    ensures Valid(r.state)
    ensures Untouched(s, r.state)
    ensures Conserves(r.state.cones, s.left, s.lQueue, r.state.left, r.state.lQueue)
    ensures Conserves(r.state.cones, s.right, s.rQueue, r.state.right, r.state.rQueue)
    ensures r.again <==>
      (HeadPasses(s.cones, s.lQueue) || HeadPasses(s.cones, s.rQueue)) &&
      |r.state.lQueue| + |r.state.rQueue| > 0
    ensures r.again ==> |r.state.lQueue| + |r.state.rQueue| < |s.lQueue| + |s.rQueue|
    ensures StagedFrom(s, r.state)
    ensures HeadPasses(s.cones, s.lQueue) ==> r.state.left == s.left + [s.lQueue[0]]
    ensures HeadPasses(s.cones, s.rQueue) ==> r.state.right == s.right + [s.rQueue[0]]
    ensures !HeadPasses(s.cones, s.lQueue) && !HeadPasses(s.cones, s.rQueue) ==>
      r.state.left == s.left && r.state.right == s.right
    ensures |r.state.lQueue| + |r.state.rQueue| > 0 ==>
      && r.state.lSorted && r.state.rSorted
      && SortedByDist(r.state.cones, r.state.lQueue) && SortedByDist(r.state.cones, r.state.rQueue)
      && SortedFrom(r.state.cones, r.state.rQueue, rRef)
  {
    var p := Promote(s);
    var added := |p.lQueue| + |p.rQueue| < |s.lQueue| + |s.rQueue|;
    if |p.lQueue| + |p.rQueue| > 0 then
      var t := SortConesByDist(p, lRef, rRef);
      assert StagedFrom(p, t) by {
        forall x | x in t.lQueue ensures x in p.lQueue {
          assert x in multiset(t.lQueue);
        }
        forall x | x in t.rQueue ensures x in p.rQueue {
          assert x in multiset(t.rQueue);
        }
      }
      ConservesTrans(s.cones, t.cones, s.left, s.lQueue, p.left, p.lQueue, t.left, t.lQueue);
      ConservesTrans(s.cones, t.cones, s.right, s.rQueue, p.right, p.rQueue, t.right, t.rQueue);
      Step(t, added)
    else
      Step(p, false)
  }

  /** The `popConesToAdd` loop from iteration `iter` on. The reference points
      of the re-sort come from dereferencing `end()` of each queue, which reads
      past the vector; `pastEnd(iter)` stands for whatever that yields. The
      first iteration gates the incoming heads, so a passing head is the first
      cone its chain gains. */
  function PopLoop(s: State, pastEnd: nat -> (Point, Point), iter: nat): (r: State)
    requires Valid(s)
    ensures Valid(r)
    ensures Untouched(s, r)
    ensures Conserves(r.cones, s.left, s.lQueue, r.left, r.lQueue)
    ensures Conserves(r.cones, s.right, s.rQueue, r.right, r.rQueue)
    ensures HeadPasses(s.cones, s.lQueue) ==> |r.left| > |s.left| && r.left[|s.left|] == s.lQueue[0]
    ensures HeadPasses(s.cones, s.rQueue) ==> |r.right| > |s.right| && r.right[|s.right|] == s.rQueue[0]
    decreases |s.lQueue| + |s.rQueue|
  {
    var step := Iterate(s, pastEnd(iter).0, pastEnd(iter).1);
    if step.again then
      var r := PopLoop(step.state, pastEnd, iter + 1);
      PopLoopCompose(s, step.state, r);
      r
    else
      step.state
  }

  /** `popConesToAdd`: each boundary chain keeps its prefix and grows only by
      cones that pass the origin gate, taken from its own queue, so chain plus
      queue hold the same cones as before and nothing is discarded. A queue
      head that passes the gate on entry is the first cone its chain gains. */
  function PopConesToAdd(s: State, pastEnd: nat -> (Point, Point)): (r: State)
    requires Valid(s)
    ensures Valid(r)
    ensures Untouched(s, r)
    ensures Conserves(r.cones, s.left, s.lQueue, r.left, r.lQueue)
    ensures Conserves(r.cones, s.right, s.rQueue, r.right, r.rQueue)
    ensures HeadPasses(s.cones, s.lQueue) ==> |r.left| > |s.left| && r.left[|s.left|] == s.lQueue[0]
    ensures HeadPasses(s.cones, s.rQueue) ==> |r.right| > |s.right| && r.right[|s.right|] == s.rQueue[0]
  {
    PopLoop(s, pastEnd, 0)
  }

  /** Every cone of `q` passes the gate. */
  predicate AllPass(cones: seq<Cone>, q: seq<nat>)
    requires AllIn(cones, q)
  {
    forall k :: 0 <= k < |q| ==> PassesGate(cones, q[k])
  }

  /** Queues drawn from queues of passing cones hold only passing cones. */
  lemma StagedStillPass(s: State, t: State)
    requires Valid(s) && Valid(t) && SameCones(s.cones, t.cones) && StagedFrom(s, t)
    requires AllPass(s.cones, s.lQueue) && AllPass(s.cones, s.rQueue)
    ensures AllPass(t.cones, t.lQueue) && AllPass(t.cones, t.rQueue)
  {
    forall k | 0 <= k < |t.lQueue| ensures PassesGate(t.cones, t.lQueue[k]) {
      assert t.lQueue[k] in s.lQueue;
      var j :| 0 <= j < |s.lQueue| && s.lQueue[j] == t.lQueue[k];
      assert PassesGate(s.cones, s.lQueue[j]);
    }
    forall k | 0 <= k < |t.rQueue| ensures PassesGate(t.cones, t.rQueue[k]) {
      assert t.rQueue[k] in s.rQueue;
      var j :| 0 <= j < |s.rQueue| && s.rQueue[j] == t.rQueue[k];
      assert PassesGate(s.cones, s.rQueue[j]);
    }
  }

  /** When every staged cone passes the gate, the loop drains both queues:
      each iteration promotes every non-empty side's head. */
  lemma {:induction false} PopLoopDrainsPassingQueues(s: State, pastEnd: nat -> (Point, Point), iter: nat)
    requires Valid(s)
    requires AllPass(s.cones, s.lQueue) && AllPass(s.cones, s.rQueue)
    ensures PopLoop(s, pastEnd, iter).lQueue == [] && PopLoop(s, pastEnd, iter).rQueue == []
    decreases |s.lQueue| + |s.rQueue|
  {
    var step := Iterate(s, pastEnd(iter).0, pastEnd(iter).1);
    var t := step.state;
    if step.again {
      assert PopLoop(s, pastEnd, iter) == PopLoop(t, pastEnd, iter + 1);
      StagedStillPass(s, t);
      PopLoopDrainsPassingQueues(t, pastEnd, iter + 1);
    } else {
      assert PopLoop(s, pastEnd, iter) == t;
      if |s.lQueue| > 0 {
        assert HeadPasses(s.cones, s.lQueue);
      } else if |s.rQueue| > 0 {
        assert HeadPasses(s.cones, s.rQueue);
      }
    }
  }

  /** The queue is empty or still holds a cone that fails the gate. */
  predicate HoldsFailing(cones: seq<Cone>, q: seq<nat>)
    requires AllIn(cones, q)
  {
    q != [] ==> exists k :: 0 <= k < |q| && !PassesGate(cones, q[k])
  }

  /** A failing head that stays on its side is still queued afterwards,
      whatever order the queue is put in. */
  lemma FailingHeadStays(cones: seq<Cone>, cones': seq<Cone>, chain: seq<nat>, q: seq<nat>, q': seq<nat>)
    requires SameCones(cones, cones') && AllIn(cones, q) && AllIn(cones', q')
    requires multiset(chain) + multiset(q') == multiset(chain) + multiset(q)
    requires q != [] && !PassesGate(cones, q[0])
    ensures HoldsFailing(cones', q')
  {
    assert multiset(q') == (multiset(chain) + multiset(q')) - multiset(chain);
    assert multiset(q') == multiset(q);
    assert q[0] in multiset(q');
    var k :| 0 <= k < |q'| && q'[k] == q[0];
    assert !PassesGate(cones', q'[k]);
  }

  /** The loop's exit rule (go round again while a head was promoted and
      cones remain): when it stops, every queue left non-empty still holds a
      cone that fails the gate. */
  lemma {:induction false} PopLoopStopsOnlyAtFailing(s: State, pastEnd: nat -> (Point, Point), iter: nat)
    requires Valid(s)
    ensures var r := PopLoop(s, pastEnd, iter);
      HoldsFailing(r.cones, r.lQueue) && HoldsFailing(r.cones, r.rQueue)
    decreases |s.lQueue| + |s.rQueue|
  {
    var step := Iterate(s, pastEnd(iter).0, pastEnd(iter).1);
    var t := step.state;
    if step.again {
      assert PopLoop(s, pastEnd, iter) == PopLoop(t, pastEnd, iter + 1);
      PopLoopStopsOnlyAtFailing(t, pastEnd, iter + 1);
    } else {
      assert PopLoop(s, pastEnd, iter) == t;
      if |t.lQueue| + |t.rQueue| > 0 {
        assert !HeadPasses(s.cones, s.lQueue) && !HeadPasses(s.cones, s.rQueue);
        if s.lQueue != [] {
          FailingHeadStays(s.cones, t.cones, s.left, s.lQueue, t.lQueue);
        }
        if s.rQueue != [] {
          FailingHeadStays(s.cones, t.cones, s.right, s.rQueue, t.rQueue);
        }
      }
    }
  }

  /** When no staged cone passes the gate, the loop stops after one iteration
      and both chains are left exactly as they were. */
  lemma PopLoopKeepsChainsWhenNonePass(s: State, pastEnd: nat -> (Point, Point))
    requires Valid(s)
    requires forall k :: 0 <= k < |s.lQueue| ==> !PassesGate(s.cones, s.lQueue[k])
    requires forall k :: 0 <= k < |s.rQueue| ==> !PassesGate(s.cones, s.rQueue[k])
    ensures PopConesToAdd(s, pastEnd).left == s.left
    ensures PopConesToAdd(s, pastEnd).right == s.right
  {
  }

  /** Once `resetTempConeVectors` has cleared the queues, nothing is left to
      promote: the loop leaves both chains as they were and both queues
      empty. */
  lemma PopAfterResetKeepsChains(s: State, pastEnd: nat -> (Point, Point))
    requires Valid(s)
    ensures PopConesToAdd(ResetTempConeVectors(s), pastEnd).left == s.left
    ensures PopConesToAdd(ResetTempConeVectors(s), pastEnd).right == s.right
    ensures PopConesToAdd(ResetTempConeVectors(s), pastEnd).lQueue == []
    ensures PopConesToAdd(ResetTempConeVectors(s), pastEnd).rQueue == []
  {
    var t := ResetTempConeVectors(s);
    PopLoopKeepsChainsWhenNonePass(t, pastEnd);
    PopLoopDrainsPassingQueues(t, pastEnd, 0);
  }
}
