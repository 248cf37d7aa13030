/** Classification of a cone snapshot by colour into the left staging queue
    (`'b'`), the right staging queue (`'y'`) and the timing list (`'r'`); cones of
    any other colour are dropped. */
module Classifier {
  import opened Cones

  /** The three index lists the constructor builds, with its two counters. */
  datatype Classified =
    Classified(left: seq<nat>, right: seq<nat>, timing: seq<nat>, numLeft: nat, numRight: nat)

  predicate StrictlyIncreasing(q: seq<nat>)
  {
    forall i, j :: 0 <= i < j < |q| ==> q[i] < q[j]
  }

  /** `q` lists, in store order and once each, exactly the indices below `n`
      whose cone has colour `c`. */
  predicate IsSelection(cones: seq<Cone>, c: char, n: nat, q: seq<nat>)
  {
    && n <= |cones|
    && StrictlyIncreasing(q)
    && (forall k :: 0 <= k < |q| ==> q[k] < n && cones[q[k]].colour == c)
    && (forall i :: 0 <= i < n && cones[i].colour == c ==> i in q)
  }

  /** Classification of the first `n` cones, one loop iteration per cone. */
  function ClassifyPrefix(cones: seq<Cone>, n: nat): (r: Classified)
    requires n <= |cones|
    ensures IsSelection(cones, LeftColour, n, r.left)
    ensures IsSelection(cones, RightColour, n, r.right)
    ensures IsSelection(cones, TimingColour, n, r.timing)
    ensures r.numLeft == |r.left| && r.numRight == |r.right|
  {
    if n == 0 then Classified([], [], [], 0, 0)
    else
      var c := ClassifyPrefix(cones, n - 1);
      var k := n - 1;
      SelectionStep(cones, LeftColour, k, c.left);
      SelectionStep(cones, RightColour, k, c.right);
      SelectionStep(cones, TimingColour, k, c.timing);
      if cones[k].colour == LeftColour then
        c.(left := c.left + [k], numLeft := c.numLeft + 1)
      else if cones[k].colour == RightColour then
        c.(right := c.right + [k], numRight := c.numRight + 1)
      else if cones[k].colour == TimingColour then
        c.(timing := c.timing + [k])
      else
        c
  }

  /** One more cone examined: a selection of colour `c` over the first `k`
      cones grows by `k` exactly when cone `k` has that colour. */
  lemma SelectionStep(cones: seq<Cone>, c: char, k: nat, q: seq<nat>)
    requires k < |cones| && IsSelection(cones, c, k, q)
    ensures cones[k].colour == c ==> IsSelection(cones, c, k + 1, q + [k])
    ensures cones[k].colour != c ==> IsSelection(cones, c, k + 1, q)
  {
  }

  /** The whole snapshot classified: an order-preserving partition of the
      `'b'`, `'y'` and `'r'` cones, with the counters equal to the queue
      lengths. */
  function Classify(cones: seq<Cone>): (r: Classified)
    ensures IsSelection(cones, LeftColour, |cones|, r.left)
    ensures IsSelection(cones, RightColour, |cones|, r.right)
    ensures IsSelection(cones, TimingColour, |cones|, r.timing)
    ensures forall i :: 0 <= i < |cones| ==>
      && (i in r.left <==> cones[i].colour == LeftColour)
      && (i in r.right <==> cones[i].colour == RightColour)
      && (i in r.timing <==> cones[i].colour == TimingColour)
    ensures r.numLeft == |r.left| && r.numRight == |r.right|
  {
    ClassifyPrefix(cones, |cones|)
  }

  /** Two strictly increasing sequences with the same elements are equal. */
  lemma {:induction false} IncreasingSameElements(a: seq<nat>, b: seq<nat>)
    requires StrictlyIncreasing(a) && StrictlyIncreasing(b)
    requires forall x :: x in a <==> x in b
    ensures a == b
    decreases |a|
  {
    assert |b| > 0 ==> b[0] in b;
    if |a| > 0 {
      assert a[0] in b;
      IncreasingHead(a);
      IncreasingHead(b);
      assert b[0] in a;
      assert a[0] == b[0];
      assert forall x :: x in a[1..] <==> x in b[1..];
      IncreasingSameElements(a[1..], b[1..]);
      assert a == [a[0]] + a[1..];
      assert b == [b[0]] + b[1..];
    }
  }

  /** The head of a non-empty strictly increasing sequence is its least
      element, and the tail is increasing and holds everything else. */
  lemma IncreasingHead(a: seq<nat>)
    requires StrictlyIncreasing(a) && |a| > 0
    ensures forall x :: x in a ==> a[0] <= x
    ensures StrictlyIncreasing(a[1..])
    ensures forall x :: x in a[1..] <==> x in a && x != a[0]
  {
    forall x | x in a ensures a[0] <= x && (x in a[1..] <==> x != a[0]) {
      var j :| 0 <= j < |a| && a[j] == x;
      if j > 0 {
        assert a[1..][j - 1] == x;
      }
    }
  }

  /** A selection is determined by the store, the colour and the bound: the
      classification's contract pins down its result completely. */
  lemma SelectionUnique(cones: seq<Cone>, c: char, n: nat, p: seq<nat>, q: seq<nat>)
    requires IsSelection(cones, c, n, p) && IsSelection(cones, c, n, q)
    ensures p == q
  {
    IncreasingSameElements(p, q);
  }
}
