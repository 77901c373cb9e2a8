/** The per-particle update of one step (main.py calcPosicoes): the
    acceleration with its 2m divisor, the velocity update, the collision
    test against the sphere, the position update of the particles that do
    not collide, and the momentum they add up to. */
module Integrator {
  import opened Vectors
  import opened Params
  import opened Mesh
  import opened Forces

  /** Centre of the collision sphere: (N div 2, N div 2, 0.7 H). */
  function Center(c: Config): Vec {
    Vec((c.N / 2) as real, (c.N / 2) as real, c.H * 0.7)
  }

  /** A particle is clear of the sphere, and may move, when it is farther
      than R + 1 from the centre. */
  predicate Clear(c: Config, mt: Metric, pos: Vec) {
    mt.norm(Sub(pos, Center(c))) > c.R + 1.0
  }

  /** The acceleration of a particle: gravity plus the elastic force minus
      the friction force, divided by twice the mass. */
  function Acceleration(c: Config, fe: Vec, fa: Vec): (a: Vec)
    requires c.Valid()
    ensures Scale(a, 2.0 * c.m) == Sub(Add(Scale(Neg(c.g), c.m), fe), fa)
  {
    Div(Sub(Add(Scale(Neg(c.g), c.m), fe), fa), 2.0 * c.m)
  }

  /** Semi-implicit Euler update of a velocity by one time step. */
  function NewVelocity(c: Config, v: Vec, a: Vec): Vec {
    Add(v, Scale(a, c.dt))
  }

  /** Semi-implicit Euler update of a position by one time step, with the
      velocity already updated. */
  function Advance(c: Config, pos: Vec, v: Vec): Vec {
    Add(pos, Scale(v, c.dt))
  }

  /** (a, b) comes before (rows, cols) in the row-major order of the update
      loop. */
  predicate Visited(a: int, b: int, rows: int, cols: int) {
    a < rows || (a == rows && b < cols)
  }

  predicate Cursor(n: nat, rows: nat, cols: nat) {
    rows <= n && cols <= n && (rows == n ==> cols == 0)
  }

  /** The sum of v over the particles before (rows, cols) that are clear of
      the sphere in p, added in row-major order. */
  function MovedSum(c: Config, mt: Metric, p: Grid, v: Grid, rows: nat, cols: nat): Vec
    requires IsGrid(p, c.N) && IsGrid(v, c.N) && Cursor(c.N, rows, cols)
    decreases rows, cols
  {
    if cols == 0 then
      if rows == 0 then Zero else MovedSum(c, mt, p, v, rows - 1, c.N)
    else
      var prev := MovedSum(c, mt, p, v, rows, cols - 1);
      if Clear(c, mt, p[rows][cols - 1]) then Add(prev, v[rows][cols - 1]) else prev
  }

  /** Whether some particle before (rows, cols) is inside the sphere's margin. */
  function AnyBlocked(c: Config, mt: Metric, p: Grid, rows: nat, cols: nat): bool
    requires IsGrid(p, c.N) && Cursor(c.N, rows, cols)
    decreases rows, cols
  {
    if cols == 0 then
      rows != 0 && AnyBlocked(c, mt, p, rows - 1, c.N)
    else
      AnyBlocked(c, mt, p, rows, cols - 1) || !Clear(c, mt, p[rows][cols - 1])
  }

  /** AnyBlocked finds a blocked particle exactly when one exists among the
      visited ones. */
  lemma {:induction false} AnyBlockedExists(c: Config, mt: Metric, p: Grid, rows: nat, cols: nat)
    requires IsGrid(p, c.N) && Cursor(c.N, rows, cols)
    ensures AnyBlocked(c, mt, p, rows, cols)
            <==> exists a, b :: InBounds(c.N, a, b) && Visited(a, b, rows, cols) && !Clear(c, mt, p[a][b])
    decreases rows, cols
  {
    if cols == 0 {
      if rows != 0 {
        AnyBlockedExists(c, mt, p, rows - 1, c.N);
        assert forall a, b :: InBounds(c.N, a, b) ==> (Visited(a, b, rows, 0) <==> Visited(a, b, rows - 1, c.N));
      }
    } else {
      AnyBlockedExists(c, mt, p, rows, cols - 1);
      if !Clear(c, mt, p[rows][cols - 1]) {
        assert InBounds(c.N, rows, cols - 1) && Visited(rows, cols - 1, rows, cols);
      }
    }
  }

  /** When every particle is held by the sphere, nothing is added to the
      momentum. */
  lemma {:induction false} MovedSumAllHeld(c: Config, mt: Metric, p: Grid, v: Grid, rows: nat, cols: nat)
    requires IsGrid(p, c.N) && IsGrid(v, c.N) && Cursor(c.N, rows, cols)
    requires forall a, b :: InBounds(c.N, a, b) ==> !Clear(c, mt, p[a][b])
    ensures MovedSum(c, mt, p, v, rows, cols) == Zero
    decreases rows, cols
  {
    if cols == 0 {
      if rows != 0 {
        MovedSumAllHeld(c, mt, p, v, rows - 1, c.N);
      }
    } else {
      MovedSumAllHeld(c, mt, p, v, rows, cols - 1);
      assert InBounds(c.N, rows, cols - 1);
    }
  }

  /** What the simulation carries from one step to the next: positions,
      velocities, the contact latch and the momentum of the last step. */
  datatype State = State(p: Grid, v: Grid, contato: bool, q: Vec)

  /** One whole step on values: forces from the positions and velocities of
      s, every velocity updated, the particles clear of the sphere advanced
      by their new velocity, the latch set if any particle is not clear, and
      the momentum summed over the particles that moved. */
  ghost function StepOf(c: Config, mt: Metric, s: State): (r: State)
    requires c.Valid() && IsGrid(s.p, c.N) && IsGrid(s.v, c.N)
    ensures IsGrid(r.p, c.N) && IsGrid(r.v, c.N)
  {
    var v1 := seq(c.N, a requires 0 <= a < c.N =>
      seq(c.N, b requires 0 <= b < c.N =>
        NewVelocity(c, s.v[a][b], Acceleration(c, ElasticForce(c, mt, s.p, a, b), FrictionForce(c, s.v, a, b)))));
    var p1 := seq(c.N, a requires 0 <= a < c.N =>
      seq(c.N, b requires 0 <= b < c.N =>
        if Clear(c, mt, s.p[a][b]) then Advance(c, s.p[a][b], v1[a][b]) else s.p[a][b]));
    State(p1, v1, s.contato || AnyBlocked(c, mt, s.p, c.N, 0), MovedSum(c, mt, s.p, v1, c.N, 0))
  }

  /** The collision test compares squared lengths: no square root needed. */
  lemma ClearBySquares(c: Config, mt: Metric, pos: Vec)
    requires Euclidean(mt) && 0.0 <= c.R + 1.0
    ensures Clear(c, mt, pos)
            <==> Dot(Sub(pos, Center(c)), Sub(pos, Center(c))) > (c.R + 1.0) * (c.R + 1.0)
  {
    CompareBySquares(mt, Sub(pos, Center(c)), c.R + 1.0);
  }

  /** Without elastic and friction forces a particle falls with half the
      gravitational acceleration: the divisor is 2m, not m. */
  lemma FreeFall(c: Config)
    requires c.Valid()
    ensures Acceleration(c, Zero, Zero) == Scale(c.g, -0.5)
  {
    var a := Acceleration(c, Zero, Zero);
    assert Scale(a, 2.0 * c.m) == Scale(c.g, -c.m);
    assert a.x * (2.0 * c.m) == c.g.x * -c.m;
    assert a.x == c.g.x * -0.5;
    assert a.y * (2.0 * c.m) == c.g.y * -c.m;
    assert a.y == c.g.y * -0.5;
    assert a.z * (2.0 * c.m) == c.g.z * -c.m;
    assert a.z == c.g.z * -0.5;
  }

  /** A particle that moves is displaced by exactly its velocity times dt. */
  lemma AdvanceDisplacement(c: Config, pos: Vec, v: Vec)
    ensures Sub(Advance(c, pos, v), pos) == Scale(v, c.dt)
  {
  }

  /** With no gravity and no forces the velocity is unchanged (so a free
      particle then moves by that same velocity times dt). */
  lemma NoForceNoChange(c: Config, v: Vec)
    requires c.Valid() && c.g == Zero
    ensures NewVelocity(c, v, Acceleration(c, Zero, Zero)) == v
  {
    FreeFall(c);
    var a := Acceleration(c, Zero, Zero);
    assert a == Zero;
    assert Scale(a, c.dt) == Zero;
  }

  /** The first step from the initial state: flat sheet, still cloth. Every
      particle feels no elastic and no friction force, and accelerates at
      half gravity. */
  lemma FirstStepFromRest(c: Config, mt: Metric, v: Grid, i: int, j: int)
    requires c.Valid() && Euclidean(mt) && InBounds(c.N, i, j)
    requires IsGrid(v, c.N) && forall a, b :: InBounds(c.N, a, b) ==> v[a][b] == Zero
    ensures ElasticForce(c, mt, FlatMesh(c.N, c.H), i, j) == Zero
    ensures FrictionForce(c, v, i, j) == Zero
    ensures Acceleration(c, ElasticForce(c, mt, FlatMesh(c.N, c.H), i, j), FrictionForce(c, v, i, j))
            == Scale(c.g, -0.5)
  {
    FlatSheetAtRest(c, mt, i, j);
    StillGridNoFriction(v, c.N, i, j, |FrictionTable|);
    FreeFall(c);
  }

  /** The demo's own constants form a valid configuration whose sphere is
      centred at (15, 15, 70), with collision margin 6. */
  lemma ReferenceConfig()
    ensures Reference.Valid()
    ensures Center(Reference) == Vec(15.0, 15.0, 70.0) && Reference.R + 1.0 == 6.0
  {
    assert Reference.N / 2 == 15;
  }

  /** With the demo's constants a particle with no elastic or friction force
      accelerates at (0, 0, -5). */
  lemma ReferenceFreeFall()
    ensures Acceleration(Reference, Zero, Zero) == Vec(0.0, 0.0, -5.0)
  {
    FreeFall(Reference);
  }
}
