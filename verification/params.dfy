/** The physical constants of the cloth simulation. */
module Params {
  import opened Vectors

  /** N: particles per side of the grid; dt: time step; m: mass of one
      particle; K: spring stiffness; Fat: friction coefficient; g: gravity;
      H: initial height of the cloth; R: radius of the collision sphere. */
  datatype Config = Config(N: nat, dt: real, m: real, K: real, Fat: real, g: Vec, H: real, R: real)
  {
    /** The grid is non-empty and the mass is positive (it is a divisor). */
    predicate Valid() {
      N > 0 && m > 0.0
    }
  }

  /** The values the cloth demo runs with. */
  const Reference: Config := Config(30, 0.03, 0.3, 100.0, 0.05, Vec(0.0, 0.0, 10.0), 100.0, 5.0)
}
