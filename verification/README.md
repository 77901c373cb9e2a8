# Mass-spring cloth, modelled in Dafny

This project models the physics core of the cloth demo in `main.py`. An N×N
grid of point masses is joined by springs:

- structural springs to the four axis neighbours, rest length 1;
- shear springs to the four diagonal neighbours, rest length √2.

Gravity, Hooke forces and a neighbour-velocity friction act on the grid.
Semi-implicit Euler steps advance it: the velocity first, then the position
with the new velocity. A particle inside a fixed margin of a sphere is held
in place. A timer callback keeps stepping until the cloth has touched
the sphere and its summed momentum has dropped to 100 or below.

The model has these parts:

- `Vectors`: three-component vectors over the reals. The vector norm and √2
  of the numerics library are an abstract `Metric`. The ghost predicate
  `Euclidean` pins it down: the norm is the non-negative square root of the
  squared length, and `sqrt2` is the non-negative root of 2. Every norm fact
  the simulation uses is derived from that. These facts are the norm of a
  negated vector, the norm of zero, the norm of an axis or diagonal grid
  offset, and comparison by squares.
- `Params`: the constants N, dt, m, K, Fat, g, H and R. `Config.Valid` asks
  for N > 0 and m > 0. `Reference` holds the values the demo runs with.
- `Mesh`: grids as values (`seq<seq<Vec>>`) and the bounds test. It has the
  spring table in the order the elastic loop visits it and the 3×3 offset
  table in the order the friction loops visit it. It also counts the
  neighbours either model sums.
- `Forces`: the elastic and friction forces of one particle, as functions
  of a position or velocity snapshot.
- `Integrator`: the per-particle update, and the momentum sum and contact
  test of a whole step in row-major order.
- `Scheduler`: the re-arm decision of the timer callback.
- `Cloth.Simulation`: the program's global state as a class. It holds:
  - five `array2<Vec>` buffers `P`, `A`, `V`, `Fatrito` and `Felastica`;
  - the `contato` latch;
  - the `quantMovimento` accumulator.

  Its methods are the nested loops of `setMesh`, `calcHook`, `calcFat`,
  `calcPosicoes` and `massamola`. Each method's `ensures` ties the new array
  contents to the functions above, applied to the contents at the start of
  the step (`Snap` reads an array as a grid value).

The main results:

- After `SetMesh`, particle (i, j) sits at (i, j, H).
- Friction reads only the velocities from before the update (`Stepped`).
- Every velocity is updated.
- A position advances exactly when its particle is clear of the sphere.
- The latch only goes one way.
- The momentum is the sum over exactly the particles that moved.
- The stop rule holds, and once the callback does not re-arm, no further step
  runs.
- A corner particle has 3 neighbours, a border particle 5 and an interior
  particle 8. This holds in both force models, and the friction model sums
  exactly the particles the springs link to.
- A spring seen from its two ends gives opposite forces.
- A spring at rest length or of zero length gives no force.
- On the flat sheet the elastic force is zero at every particle, border
  included (not only at interior particles).
- The first step from rest accelerates every particle at exactly −g/2,
  because the code divides by 2m.

## Model

| member | source | states |
|---|---|---|
| Cloth.Simulation.constructor | main.py:20-29 | Every coordinate of every position is H. Accelerations, velocities and both force buffers are zero. `contato` is false and the momentum is zero. The five buffers are distinct fresh N×N arrays. |
| Cloth.Simulation.SetMesh | main.py:34-39 | Only `P` changes. Afterwards particle (i, j) is at (i, j, H) for every 0 ≤ i, j < N, and the position grid equals the flat mesh. |
| Integrator.ReferenceConfig | main.py:10-18 | The demo's constants (`Params.Reference`: N = 30, dt = 0.03, m = 0.3, K = 100, Fat = 0.05, g = (0, 0, 10), H = 100, R = 5) form a valid configuration. Its sphere centre is (15, 15, 70) and its collision margin is 6. |
| Integrator.ReferenceFreeFall | main.py:10-18 | With the demo's constants, a particle with no elastic or friction force accelerates at (0, 0, −5). |
| Mesh.FlatMesh | main.py:37-39 | The flat mesh is an N×N grid with (i, j, h) at (i, j). |
| Forces.CalcDistancia | main.py:49-51 | The displacement d from a to b satisfies a + d = b. |
| Cloth.Simulation.SpringSum | main.py:58-66 | The loop over the eight springs returns the sum of d·(‖d‖ − L) over the springs whose other end is inside the grid. d runs from the particle to its neighbour. L is 1 or √2. Springs are taken in table order. |
| Cloth.Simulation.CalcHook | main.py:53-67 | Only `Felastica` changes. Each entry becomes K times the spring sum computed from the positions as they were at the call. |
| Mesh.HookTableNeighbourhood | main.py:60-62 | The spring table lists eight distinct offsets of the 3×3 block, never (0, 0). The √2 springs are exactly the diagonal offsets. |
| Forces.Opposite | main.py:60-62 | Every spring of the table has a partner entry with the negated offset and the same rest length. |
| Vectors.NormOfOffset | main.py:60-66 | The norm of an in-plane grid offset is 1 along an axis and √2 along a diagonal. These are exactly the rest lengths of the table. |
| Cloth.Simulation.NeighbourVelocitySum | main.py:74-79 | The di/dj loops over −1..1 return the sum of the in-grid neighbours' velocities in row-major order, skipping the particle itself. |
| Mesh.FrictionTableAt | main.py:75-76 | Iteration (di, dj) of the nested loops is entry 3(di+1)+(dj+1) of the row-major offset table. |
| Cloth.Simulation.CalcFat | main.py:69-80 | Only `Fatrito` changes. Each entry becomes Fat times the sum of the in-grid neighbours' velocities, read from the velocities as they were at the call. |
| Mesh.HookNeighbourCount | main.py:60-64 | The number of in-grid springs of the table is (rows that exist around i) × (columns that exist around j) − 1. |
| Mesh.FrictionNeighbourCount | main.py:75-78 | The number of offsets the friction guard lets through is the same product minus 1. |
| Mesh.CornerEdgeInterior | main.py:60-78 | The two neighbour counts agree: 3 at a corner (N ≥ 2), 5 elsewhere on the border, 8 inside. |
| Forces.HookSumTerms | main.py:58-66 | The spring sum is the left-to-right sum of the terms it adds, and the number of those terms is the in-grid spring count. |
| Forces.UnitSumCounts | main.py:74-79 | With every velocity (1, 0, 0), the friction sum is (c, 0, 0), where c is the number of offsets the guard lets through. |
| Forces.ForceLoopsCornerEdgeInterior | main.py:56-80 | The sums the force loops compute have 3 spring terms at a corner, 5 elsewhere on the border and 8 inside. With unit velocities, the friction sum counts the same number. |
| Forces.FrictionOverSpringNeighbours | main.py:60-79 | The friction sum equals the sum of the velocities at the far ends of exactly the springs of the elastic model. Every in-grid neighbour appears once and the particle never does. |
| Forces.SpringForce | main.py:66 | Definition: the term of one spring is d·(‖d‖ − L). Its properties are in SpringOpposite, SpringVanishes and FlatSpringAtRest. |
| Forces.HookSum | main.py:58-66 | Definition: the spring terms of the in-grid neighbours, added in table order. SpringSum computes it, and HookSumTerms counts its terms. |
| Forces.ElasticForce | main.py:67 | Definition: K times the full spring sum. CalcHook stores it, and FlatSheetAtRest proves it zero on the flat mesh. |
| Forces.VelocitySum | main.py:74-79 | Definition: the in-grid neighbours' velocities over the 3×3 offsets in row-major order, centre skipped. NeighbourVelocitySum computes it. FrictionOverSpringNeighbours ties it to the springs' far ends. |
| Forces.FrictionForce | main.py:80 | Definition: Fat times the neighbour velocity sum. CalcFat stores it. |
| Forces.SpringOpposite | main.py:65-66 | Swapping the two ends of a spring negates its force. |
| Forces.SpringEndsOpposite | main.py:60-66 | The term particle (i, j) adds for a spring is the negation of the term its neighbour adds for the same spring. Each term is computed separately. |
| Vectors.NormOfNeg | main.py:66 | ‖−v‖ = ‖v‖. |
| Forces.SpringVanishes | main.py:66 | A zero displacement, or one at the rest length, contributes the zero vector. |
| Forces.FlatSpringAtRest | main.py:63-66 | On the flat mesh each in-grid spring is exactly at its rest length and exerts no force. |
| Forces.FlatSheetSpringsAtRest | main.py:58-66 | On the flat mesh every partial spring sum of every particle is zero. |
| Forces.FlatSheetAtRest | main.py:53-67 | After `setMesh`, every particle's elastic force is zero, corners and border included. |
| Forces.StillGridNoFriction | main.py:74-80 | When every velocity is zero, every partial friction sum is zero. |
| Integrator.Acceleration | main.py:93 | The acceleration a satisfies 2m·a = −g·m + Felastica − Fatrito. |
| Integrator.NewVelocity | main.py:95 | Definition: the velocity plus dt times the acceleration. Every particle gets it in CalcPosicoes. |
| Integrator.Advance | main.py:100 | Definition: the position plus dt times the new velocity. AdvanceDisplacement proves it moves by exactly V·dt. |
| Integrator.FreeFall | main.py:91-93 | With no elastic and no friction force the acceleration is −g/2. |
| Integrator.NoForceNoChange | main.py:93-95 | With g = 0 and no forces, the velocity update leaves the velocity unchanged. |
| Integrator.AdvanceDisplacement | main.py:100 | A particle that moves is displaced by exactly V·dt, using the new velocity. |
| Integrator.FirstStepFromRest | main.py:85-95 | On the flat mesh at rest, the first step's elastic and friction forces are zero and every acceleration is −g/2. |
| Integrator.Center | main.py:98 | Definition: the sphere centre (N div 2, N div 2, 0.7H), with integer division as in the source. ReferenceConfig evaluates it for the demo. |
| Integrator.Clear | main.py:98 | Definition: ‖position − centre‖ > R + 1. ClearBySquares restates it by squares. |
| Vectors.CompareBySquares | main.py:98 | For a bound ≥ 0, ‖v‖ > bound exactly when v·v > bound². |
| Integrator.ClearBySquares | main.py:98 | A particle clears the sphere, centred at (N div 2, N div 2, 0.7H), exactly when its squared distance exceeds (R+1)². |
| Integrator.MovedSum | main.py:101 | Definition: the velocities of the particles before a row-major cursor that are clear of the sphere, added in order. CalcPosicoes proves the momentum equals it at the end of the step, and MovedSumAllHeld proves it zero when all are held. |
| Integrator.AnyBlocked | main.py:102-103 | Definition: whether some particle before a row-major cursor fails the distance test. AnyBlockedExists proves this equals an existential. |
| Integrator.AnyBlockedExists | main.py:98-103 | The row-major contact scan up to a cursor is true exactly when some particle before the cursor fails the distance test. |
| Integrator.MovedSumAllHeld | main.py:98-101 | When every particle is held by the sphere, the momentum sum is zero. |
| Cloth.Simulation.UpdateParticle | main.py:91-103 | It writes only slot (i, j) of `A`, `V` and `P`. A = (−g·m + Felastica − Fatrito)/(2m) and V += A·dt, collision or not. P advances by the new V·dt exactly when the particle is clear of the sphere. The momentum grows by V in that case. Otherwise `contato` is set. |
| Cloth.Simulation.UpdateRow | main.py:90-103 | After row i of the update loop, every particle of rows 0..i is updated as above. The acceleration, velocity and position of every later particle are untouched. The latch and the momentum sum have advanced over exactly the updated particles. |
| Cloth.Simulation.CalcPosicoes | main.py:82-103 | Forces come from the positions and velocities of the start of the step. Every velocity becomes v0 + dt·A. Positions advance exactly for the particles clear of the sphere; the rest stay put. `contato` = old `contato` ∨ some particle was not clear. The momentum is the sum of the new velocities of exactly the particles that moved. |
| Cloth.Simulation.Massamola | main.py:162-169 | One step as in `CalcPosicoes`. It re-arms iff ‖momentum‖ > 100 or `contato` is false. |
| Vectors.NormOfZero | main.py:168 | ‖0‖ = 0. |
| Scheduler.Rearm | main.py:168 | Definition: re-arm iff ‖momentum‖ > 100 or no contact yet. Massamola returns it, and RearmBySquares, StopWhenQuiet and AllHeldStops are about it. |
| Scheduler.RearmBySquares | main.py:168 | The re-arm test equals momentum·momentum > 10000 ∨ ¬contato. |
| Scheduler.StopWhenQuiet | main.py:168-169 | After contact, a zero momentum does not re-arm. |
| Scheduler.AllHeldStops | main.py:162-169 | A step in which every particle is held latches contact and sums zero momentum, so it is the last one. |
| Integrator.StepOf | main.py:82-103 | Definition: one whole step on values (positions, velocities, latch, momentum). The new grids are N×N. SteppedIsStepOf proves the class's step computes it. |
| Cloth.Simulation.SteppedIsStepOf | main.py:82-103 | After a step that leaves the arrays as `CalcPosicoes` promises, the positions, velocities, latch and momentum are exactly StepOf of the state the step started from. |
| Cloth.Simulation.Run | main.py:162-169 | The timer chain, up to a budget of ticks. The ghost trace starts at the state before the chain and ends at the state after it, with each entry StepOf the one before. Every step but the last re-armed. The chain ends early exactly when the last step did not re-arm, so no step follows one that does not re-arm. Contact has then happened, and a latched `contato` stays latched. |

## Left out

- Rendering and the event loop are not modelled: OpenGL/GLUT set-up, lighting, colouring, drawing, window resizing, `glutPostRedisplay` and the timer delay `T`. `glutTimerFunc` re-arming becomes the boolean that `Massamola` returns.
- Run: the open-ended timer chain is cut off after a given number of ticks, because a method must terminate.
- Run: its trace records positions, velocities, the latch and the momentum. It does not restate the acceleration and force buffers after the chain, which hold the values of the last step as `CalcPosicoes` states them.
- Floating-point rounding is not modelled: all arithmetic is on reals. `numpy.linalg.norm` and `math.sqrt(2)` are abstract, constrained only by `Euclidean`.
- The demo's integer constants (K, H, R and the components of g) are reals here, as numpy promotes them to floating point.
- 1.py (a fixed 8×8 linear solve by `numpy.linalg.solve` and a bilinear formula) and 2.py (a wrapper over `cv2.findHomography` and `cv2.perspectiveTransform`) are not part of this model. Both are foreign numerical library calls plus printing.
- NoForceNoChange: states only the velocity half of "no force, no motion change". The position half is the separate lemma AdvanceDisplacement.
- The drawn sphere is not modelled: it has radius R, while the collision test uses R + 1. Its drawn centre is the physics point (N/2, N/2, 0.7H), which differs from the collision centre (N div 2, N div 2, 0.7H) only for odd N, by 0.5.
