/** The nine realization stages and the subsystem ordering each one uses. */
module Stages {

  datatype Stage =
    | Topology | Model | Instance | Time | Position
    | Velocity | Dynamics | Acceleration | Report

  /** The three hand-coded invocation orders of the multibody system's stage methods. */
  datatype Ordering =
    | MatterFirst          // matter, global, forces
    | GlobalFirst          // global, matter, forces
    | ForcesBeforeMatter   // global, forces, matter

  /** Which of the three orders a stage's realize method follows. */
  function OrderingOf(stage: Stage): Ordering {
    match stage
    case Topology | Model => MatterFirst
    case Instance | Time | Position | Velocity => GlobalFirst
    case Dynamics | Acceleration | Report => ForcesBeforeMatter
  }
}
