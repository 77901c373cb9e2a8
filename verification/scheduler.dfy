/** The stop rule of the timer callback (main.py massamola): after every
    step the timer is re-armed while the cloth still moves a lot or has not
    touched the sphere yet. */
module Scheduler {
  import opened Vectors
  import opened Params
  import opened Mesh
  import opened Integrator

  /** Momentum magnitude above which the simulation keeps running. */
  const StopThreshold: real := 100.0

  /** Whether the timer callback schedules another step. */
  predicate Rearm(mt: Metric, quant: Vec, contato: bool) {
    mt.norm(quant) > StopThreshold || !contato
  }

  /** The re-arm decision compares the squared momentum with 100^2. */
  lemma RearmBySquares(mt: Metric, quant: Vec, contato: bool)
    requires Euclidean(mt)
    ensures Rearm(mt, quant, contato) <==> Dot(quant, quant) > 10000.0 || !contato
  {
    CompareBySquares(mt, quant, StopThreshold);
  }

  /** A cloth that has touched the sphere and whose summed momentum is zero
      stops the simulation. */
  lemma StopWhenQuiet(mt: Metric, contato: bool)
    requires Euclidean(mt) && contato
    ensures !Rearm(mt, Zero, contato)
  {
    NormOfZero(mt);
  }

  /** A step in which every particle is held by the sphere is the last one:
      it latches the contact flag and moves nothing, so the momentum it sums
      is zero. */
  lemma AllHeldStops(c: Config, mt: Metric, p: Grid, v: Grid, contato: bool)
    requires c.Valid() && Euclidean(mt) && IsGrid(p, c.N) && IsGrid(v, c.N)
    requires forall a, b :: InBounds(c.N, a, b) ==> !Clear(c, mt, p[a][b])
    ensures !Rearm(mt, MovedSum(c, mt, p, v, c.N, 0), contato || AnyBlocked(c, mt, p, c.N, 0))
  {
    MovedSumAllHeld(c, mt, p, v, c.N, 0);
    AnyBlockedExists(c, mt, p, c.N, 0);
    assert InBounds(c.N, 0, 0) && Visited(0, 0, c.N, 0);
    StopWhenQuiet(mt, true);
  }
}
