/** The cone store: every cone the planner knows, addressed by index.

    The source keeps raw pointers to cones; here every chain, queue and list
    holds indices into one `seq<Cone>`, so a "pointer" is valid exactly when the
    index is below the store's length.
 */
module Cones {
  import opened Geometry

  /** Colour tags of the three cone roles. */
  const LeftColour: char := 'b'
  const RightColour: char := 'y'
  const TimingColour: char := 'r'

  /** A cone: its position, colour tag, the scratch distance written before a
      sort (held squared, see `Staging`), and whether it was paired into a
      centre point. */
  datatype Cone = Cone(position: Point, colour: char, dist: real, mapped: bool)

  /** Every index of `q` names a cone of the store. */
  predicate AllIn(cones: seq<Cone>, q: seq<nat>)
  {
    forall k :: 0 <= k < |q| ==> q[k] < |cones|
  }

  /** No index appears in both sequences. */
  predicate Disjoint(a: seq<nat>, b: seq<nat>)
  {
    forall i, j :: 0 <= i < |a| && 0 <= j < |b| ==> a[i] != b[j]
  }

  /** Every index of `q` names a cone of colour `c`. */
  predicate AllColour(cones: seq<Cone>, q: seq<nat>, c: char)
  {
    forall k :: 0 <= k < |q| ==> q[k] < |cones| && cones[q[k]].colour == c
  }

  /** The two stores hold the same cones at the same places, apart from the
      scratch `dist` and the `mapped` flag. */
  predicate SameCones(a: seq<Cone>, b: seq<Cone>)
  {
    && |a| == |b|
    && forall k :: 0 <= k < |a| ==> a[k].position == b[k].position && a[k].colour == b[k].colour
  }

  /** Index sequences that name cones of two different colours share no index. */
  lemma ColoursDisjoint(cones: seq<Cone>, a: seq<nat>, ca: char, b: seq<nat>, cb: char)
    requires AllColour(cones, a, ca) && AllColour(cones, b, cb) && ca != cb
    ensures Disjoint(a, b)
  {
  }
}
