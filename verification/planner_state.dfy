/** The planner's state after construction: the raw snapshot, the cone
    store, both staging queues with their sorted flags, both boundary chains,
    the timing list, the centre points and the left-cone counter. */
module PlannerState {
  import opened Geometry
  import opened Cones

  /** The source's `uint8_t` parameters. */
  newtype u8 = x: int | 0 <= x < 256

  /** Velocity settings the constructor stores and does not otherwise use. */
  datatype Config = Config(constVelocity: bool, vMax: u8, vConst: u8, maxFGain: u8)

  datatype State = State(
    config: Config,
    raw: seq<Cone>,       // the untouched copy of the snapshot (`raw_cones`)
    cones: seq<Cone>,     // the store every index below refers to
    lQueue: seq<nat>,     // left cones waiting to be promoted (`l_cones_to_add`)
    rQueue: seq<nat>,     // right cones waiting to be promoted (`r_cones_to_add`)
    lSorted: bool,
    rSorted: bool,
    left: seq<nat>,       // confirmed left boundary chain (`left_cones`)
    right: seq<nat>,      // confirmed right boundary chain (`right_cones`)
    timing: seq<nat>,     // timing cones (`timing_cones`)
    centre: seq<Point>,   // centre points, the car position first
    lConeIndex: int)

  /** Every index the state holds names a cone of its store. */
  predicate Valid(s: State)
  {
    && AllIn(s.cones, s.lQueue)
    && AllIn(s.cones, s.rQueue)
    && AllIn(s.cones, s.left)
    && AllIn(s.cones, s.right)
    && AllIn(s.cones, s.timing)
  }
}
