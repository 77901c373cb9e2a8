/** The simulation state and its step, as the cloth demo runs it: the grid
    arrays and the two flags of main.py (lines 10-29), laid out flat by
    setMesh, advanced by calcPosicoes, and scheduled by the timer callback
    massamola. */
module Cloth {
  import opened Vectors
  import opened Params
  import opened Mesh
  import opened Forces
  import opened Integrator
  import opened Scheduler

  /** The contents of a grid array as a value. */
  ghost function Snap(a: array2<Vec>): (g: Grid)
    reads a
    ensures |g| == a.Length0
    ensures forall i :: 0 <= i < a.Length0 ==> |g[i]| == a.Length1
    ensures forall i, j :: 0 <= i < a.Length0 && 0 <= j < a.Length1 ==> g[i][j] == a[i, j]
  {
    seq(a.Length0, i requires 0 <= i < a.Length0 reads a =>
      seq(a.Length1, j requires 0 <= j < a.Length1 reads a => a[i, j]))
  }

  class Simulation {
    const cfg: Config
    /** The vector norm and sqrt 2 of the numerics library. */
    const mt: Metric
    /** Particles per side. */
    const n: nat
    /** Positions, accelerations, velocities, friction and elastic forces,
        one slot per particle. */
    const P: array2<Vec>
    const A: array2<Vec>
    const V: array2<Vec>
    const Fatrito: array2<Vec>
    const Felastica: array2<Vec>
    /** Latched when some particle has ever been inside the sphere's margin. */
    var contato: bool
    /** Sum of the velocities of the particles that moved in the last step. */
    var quantMovimento: Vec

    ghost predicate Valid() {
      && cfg.Valid() && n == cfg.N && Euclidean(mt)
      && P.Length0 == n && P.Length1 == n
      && A.Length0 == n && A.Length1 == n
      && V.Length0 == n && V.Length1 == n
      && Fatrito.Length0 == n && Fatrito.Length1 == n
      && Felastica.Length0 == n && Felastica.Length1 == n
      && P != A && P != V && P != Fatrito && P != Felastica
      && A != V && A != Fatrito && A != Felastica
      && V != Fatrito && V != Felastica
      && Fatrito != Felastica
    }

    /** The module-level state as the program starts: every coordinate of
        every position at H, everything else zero, no contact. */
    constructor (cfg: Config, mt: Metric)
      requires cfg.Valid() && Euclidean(mt)
      ensures Valid() && this.cfg == cfg && this.mt == mt
      ensures fresh(P) && fresh(A) && fresh(V) && fresh(Fatrito) && fresh(Felastica)
      ensures forall i, j :: InBounds(n, i, j) ==>
                && P[i, j] == Vec(cfg.H, cfg.H, cfg.H)
                && A[i, j] == Zero && V[i, j] == Zero
                && Fatrito[i, j] == Zero && Felastica[i, j] == Zero
      ensures !contato && quantMovimento == Zero
    {
      this.cfg := cfg;
      this.mt := mt;
      n := cfg.N;
      var h := cfg.H;
      P := new Vec[cfg.N, cfg.N]((i, j) => Vec(h, h, h));
      A := new Vec[cfg.N, cfg.N]((i, j) => Zero);
      V := new Vec[cfg.N, cfg.N]((i, j) => Zero);
      Fatrito := new Vec[cfg.N, cfg.N]((i, j) => Zero);
      Felastica := new Vec[cfg.N, cfg.N]((i, j) => Zero);
      contato := false;
      quantMovimento := Zero;
    }

    /** Lays the cloth out flat: particle (i, j) at (i, j, H). */
    method SetMesh()
      requires Valid()
      modifies P
      ensures forall i, j :: InBounds(n, i, j) ==> P[i, j] == Vec(i as real, j as real, cfg.H)
      ensures Snap(P) == FlatMesh(n, cfg.H)
    {
      for i := 0 to n
        invariant forall a, b :: InBounds(n, a, b) && a < i ==> P[a, b] == Vec(a as real, b as real, cfg.H)
      {
        for j := 0 to n
          invariant forall a, b :: InBounds(n, a, b) && Visited(a, b, i, j) ==> P[a, b] == Vec(a as real, b as real, cfg.H)
        {
          P[i, j] := Vec(i as real, j as real, cfg.H);
        }
      }
      ghost var s, f := Snap(P), FlatMesh(n, cfg.H);
      forall a | 0 <= a < n
        ensures s[a] == f[a]
      {
        assert forall b :: 0 <= b < n ==> s[a][b] == f[a][b];
      }
    }

    /** The spring forces on particle (i, j), one spring of the table at a
        time, skipping springs whose other end is outside the grid. */
    method SpringSum(i: int, j: int) returns (f: Vec)
      requires Valid() && InBounds(n, i, j)
      ensures f == HookSum(mt, Snap(P), n, i, j, |HookTable|)
    {
      f := Zero;
      for k := 0 to |HookTable|
        invariant f == HookSum(mt, Snap(P), n, i, j, k)
      {
        var l := HookTable[k];
        var ni, nj := i + l.di, j + l.dj;
        if 0 <= ni < n && 0 <= nj < n {
          var dist := CalcDistancia(P[i, j], P[ni, nj]);
          f := Add(f, Scale(dist, mt.norm(dist) - RestLength(mt, l)));
        }
      }
    }

    /** Overwrites every elastic force from the current positions. */
    method CalcHook()
      requires Valid()
      modifies Felastica
      ensures forall i, j :: InBounds(n, i, j) ==> Felastica[i, j] == ElasticForce(cfg, mt, Snap(P), i, j)
    {
      for i := 0 to n
        invariant forall a, b :: InBounds(n, a, b) && a < i ==> Felastica[a, b] == ElasticForce(cfg, mt, Snap(P), a, b)
      {
        for j := 0 to n
          invariant forall a, b :: InBounds(n, a, b) && Visited(a, b, i, j) ==> Felastica[a, b] == ElasticForce(cfg, mt, Snap(P), a, b)
        {
          var f := SpringSum(i, j);
          Felastica[i, j] := Scale(f, cfg.K);
        }
      }
    }

    /** The velocities of the neighbours of (i, j): di and dj each over
        -1, 0, 1, skipping the particle itself and offsets outside the grid. */
    method NeighbourVelocitySum(i: int, j: int) returns (f: Vec)
      requires Valid()
      ensures f == VelocitySum(Snap(V), n, i, j, |FrictionTable|)
    {
      f := Zero;
      for di := -1 to 2
        invariant f == VelocitySum(Snap(V), n, i, j, 3 * (di + 1))
      {
        for dj := -1 to 2
          invariant f == VelocitySum(Snap(V), n, i, j, 3 * (di + 1) + (dj + 1))
        {
          FrictionTableAt(di, dj);
          var ni, nj := i + di, j + dj;
          if (di != 0 || dj != 0) && 0 <= ni < n && 0 <= nj < n {
            f := Add(f, V[ni, nj]);
          }
        }
      }
    }

    /** Overwrites every friction force from the current velocities. */
    method CalcFat()
      requires Valid()
      modifies Fatrito
      ensures forall i, j :: InBounds(n, i, j) ==> Fatrito[i, j] == FrictionForce(cfg, Snap(V), i, j)
    {
      for i := 0 to n
        invariant forall a, b :: InBounds(n, a, b) && a < i ==> Fatrito[a, b] == FrictionForce(cfg, Snap(V), a, b)
      {
        for j := 0 to n
          invariant forall a, b :: InBounds(n, a, b) && Visited(a, b, i, j) ==> Fatrito[a, b] == FrictionForce(cfg, Snap(V), a, b)
        {
          var f := NeighbourVelocitySum(i, j);
          Fatrito[i, j] := Scale(f, cfg.Fat);
        }
      }
    }

    /** The body of the update loop for particle (i, j): it writes only that
        particle's acceleration, velocity and position slots. */
    method UpdateParticle(i: int, j: int)
      requires Valid() && InBounds(n, i, j)
      modifies A, V, P, this`contato, this`quantMovimento
      ensures A[i, j] == Acceleration(cfg, Felastica[i, j], Fatrito[i, j])
      ensures V[i, j] == NewVelocity(cfg, old(V[i, j]), A[i, j])
      ensures P[i, j] == if Clear(cfg, mt, old(P[i, j])) then Advance(cfg, old(P[i, j]), V[i, j]) else old(P[i, j])
      ensures quantMovimento
              == if Clear(cfg, mt, old(P[i, j])) then Add(old(quantMovimento), V[i, j]) else old(quantMovimento)
      ensures contato == (old(contato) || !Clear(cfg, mt, old(P[i, j])))
      ensures forall a, b :: InBounds(n, a, b) && (a != i || b != j) ==>
                A[a, b] == old(A[a, b]) && V[a, b] == old(V[a, b]) && P[a, b] == old(P[a, b])
    {
      A[i, j] := Acceleration(cfg, Felastica[i, j], Fatrito[i, j]);
      V[i, j] := Add(V[i, j], Scale(A[i, j], cfg.dt));
      if mt.norm(Sub(P[i, j], Center(cfg))) > cfg.R + 1.0 {
        P[i, j] := Add(P[i, j], Scale(V[i, j], cfg.dt));
        quantMovimento := Add(quantMovimento, V[i, j]);
      } else {
        contato := true;
      }
    }

    /** What one step leaves behind, given the positions p0, velocities v0
        and contact flag c0 it started from: forces computed from p0 and v0
        (so friction sees the velocities from before the update), every
        velocity updated, positions advanced for exactly the particles clear
        of the sphere, the latch set if any particle was not, and the
        momentum summed over the particles that moved. */
    ghost predicate Stepped(p0: Grid, v0: Grid, c0: bool)
      requires Valid() && IsGrid(p0, n) && IsGrid(v0, n)
      reads this, P, A, V, Fatrito, Felastica
    {
      && Forces(p0, v0)
      && (forall i, j :: InBounds(n, i, j) ==> A[i, j] == Acceleration(cfg, Felastica[i, j], Fatrito[i, j]))
      && (forall i, j :: InBounds(n, i, j) ==> V[i, j] == NewVelocity(cfg, v0[i][j], A[i, j]))
      && (forall i, j :: InBounds(n, i, j) ==>
            P[i, j] == if Clear(cfg, mt, p0[i][j]) then Advance(cfg, p0[i][j], V[i, j]) else p0[i][j])
      && contato == (c0 || exists i, j :: InBounds(n, i, j) && !Clear(cfg, mt, p0[i][j]))
      && quantMovimento == MovedSum(cfg, mt, p0, Snap(V), n, 0)
    }

    /** The force arrays hold the forces of positions p0 and velocities v0. */
    ghost predicate Forces(p0: Grid, v0: Grid)
      requires Valid() && IsGrid(p0, n) && IsGrid(v0, n)
      reads Fatrito, Felastica
    {
      && (forall i, j :: InBounds(n, i, j) ==> Felastica[i, j] == ElasticForce(cfg, mt, p0, i, j))
      && (forall i, j :: InBounds(n, i, j) ==> Fatrito[i, j] == FrictionForce(cfg, v0, i, j))
    }

    /** The state of the update loop at (rows, cols), from positions p0,
        velocities v0 and accelerations a0: the particles before the cursor
        in row-major order are updated, the others untouched. */
    ghost predicate Updating(p0: Grid, v0: Grid, a0: Grid, v1: Grid, c0: bool, rows: nat, cols: nat)
      requires Valid() && IsGrid(p0, n) && IsGrid(v0, n) && IsGrid(a0, n) && IsGrid(v1, n)
      requires Cursor(n, rows, cols)
      reads this, P, A, V, Fatrito, Felastica
    {
      && (forall a, b :: InBounds(n, a, b) ==>
            if Visited(a, b, rows, cols) then
              && A[a, b] == Acceleration(cfg, Felastica[a, b], Fatrito[a, b])
              && V[a, b] == v1[a][b]
              && P[a, b] == if Clear(cfg, mt, p0[a][b]) then Advance(cfg, p0[a][b], v1[a][b]) else p0[a][b]
            else
              A[a, b] == a0[a][b] && V[a, b] == v0[a][b] && P[a, b] == p0[a][b])
      && contato == (c0 || AnyBlocked(cfg, mt, p0, rows, cols))
      && quantMovimento == MovedSum(cfg, mt, p0, v1, rows, cols)
    }

    /** The new velocities of a step: every particle's velocity advanced by
        the acceleration its forces give it. */
    ghost predicate NewVelocities(v0: Grid, v1: Grid)
      requires Valid() && IsGrid(v0, n) && IsGrid(v1, n)
      reads Felastica, Fatrito
    {
      forall a, b :: InBounds(n, a, b) ==>
        v1[a][b] == NewVelocity(cfg, v0[a][b], Acceleration(cfg, Felastica[a, b], Fatrito[a, b]))
    }

    /** Row i of the update loop: the particles (i, 0) .. (i, n - 1) in turn. */
    method UpdateRow(i: nat, ghost p0: Grid, ghost v0: Grid, ghost a0: Grid, ghost v1: Grid, ghost c0: bool)
      requires Valid() && i < n && IsGrid(p0, n) && IsGrid(v0, n) && IsGrid(a0, n) && IsGrid(v1, n)
      requires NewVelocities(v0, v1) && Updating(p0, v0, a0, v1, c0, i, 0)
      modifies A, V, P, this`contato, this`quantMovimento
      ensures Updating(p0, v0, a0, v1, c0, i + 1, 0)
    {
      for j := 0 to n
        invariant Updating(p0, v0, a0, v1, c0, i, j)
      {
        UpdateParticle(i, j);
      }
      assert forall a, b :: InBounds(n, a, b) ==> (Visited(a, b, i, n) <==> Visited(a, b, i + 1, 0));
    }

    /** One simulation step: elastic forces, friction forces, then every
        particle's update in row-major order. */
    method CalcPosicoes()
      requires Valid()
      modifies Felastica, Fatrito, A, V, P, this`contato, this`quantMovimento
      ensures Stepped(old(Snap(P)), old(Snap(V)), old(contato))
    {
      ghost var p0, v0, a0, c0 := Snap(P), Snap(V), Snap(A), contato;
      CalcHook();
      assert Snap(P) == p0;
      CalcFat();
      assert Snap(V) == v0;
      quantMovimento := Zero;
      ghost var fe, fa := Snap(Felastica), Snap(Fatrito);
      ghost var v1: Grid := seq(n, a requires 0 <= a < n =>
        seq(n, b requires 0 <= b < n =>
          NewVelocity(cfg, v0[a][b], Acceleration(cfg, fe[a][b], fa[a][b]))));
      assert NewVelocities(v0, v1);
      assert Forces(p0, v0);
      assert Snap(A) == a0 && Snap(P) == p0 && Snap(V) == v0;
      assert Updating(p0, v0, a0, v1, c0, 0, 0);
      for i := 0 to n
        modifies A, V, P, this`contato, this`quantMovimento
        invariant Forces(p0, v0) && NewVelocities(v0, v1)
        invariant Updating(p0, v0, a0, v1, c0, i, 0)
      {
        UpdateRow(i, p0, v0, a0, v1, c0);
      }
      ghost var vs := Snap(V);
      forall a | 0 <= a < n
        ensures vs[a] == v1[a]
      {
        assert forall b :: 0 <= b < n ==> vs[a][b] == v1[a][b];
      }
      assert vs == v1;
      AnyBlockedExists(cfg, mt, p0, n, 0);
    }

    /** The timer callback: one step, then the re-arm decision. */
    method Massamola() returns (rearm: bool)
      requires Valid()
      modifies Felastica, Fatrito, A, V, P, this`contato, this`quantMovimento
      ensures Stepped(old(Snap(P)), old(Snap(V)), old(contato))
      ensures rearm == Rearm(mt, quantMovimento, contato)
    {
      CalcPosicoes();
      rearm := mt.norm(quantMovimento) > StopThreshold || !contato;
    }

    /** The state the next step starts from, as a value. */
    ghost function Now(): State
      reads this, P, V
    {
      State(Snap(P), Snap(V), contato, quantMovimento)
    }

    /** A step that leaves the arrays as `Stepped` describes has moved the
        simulation from s0 to exactly StepOf(s0). */
    lemma SteppedIsStepOf(s0: State)
      requires Valid() && IsGrid(s0.p, n) && IsGrid(s0.v, n)
      requires Stepped(s0.p, s0.v, s0.contato)
      ensures Now() == StepOf(cfg, mt, s0)
    {
      var r := StepOf(cfg, mt, s0);
      var now := Now();
      forall a | 0 <= a < n
        ensures now.v[a] == r.v[a]
      {
        assert forall b :: 0 <= b < n ==> now.v[a][b] == r.v[a][b];
      }
      assert now.v == r.v;
      forall a | 0 <= a < n
        ensures now.p[a] == r.p[a]
      {
        assert forall b :: 0 <= b < n ==> now.p[a][b] == r.p[a][b];
      }
      assert now.p == r.p;
      AnyBlockedExists(cfg, mt, s0.p, n, 0);
    }

    /** The timer chain, cut off after `budget` ticks. The ghost trace holds
        the state before the chain and after every step taken, each entry
        the step of the one before. Every step but the last re-armed the
        timer, and the chain ends early exactly when the last step did not,
        so no step runs after one that does not re-arm. */
    method Run(budget: nat) returns (steps: nat, armed: bool, ghost trace: seq<State>)
      requires Valid()
      modifies Felastica, Fatrito, A, V, P, this`contato, this`quantMovimento
      ensures steps <= budget && |trace| == steps + 1
      ensures forall k :: 0 <= k < |trace| ==> IsGrid(trace[k].p, n) && IsGrid(trace[k].v, n)
      ensures trace[0] == old(Now()) && trace[steps] == Now()
      ensures forall k :: 0 <= k < steps ==> trace[k + 1] == StepOf(cfg, mt, trace[k])
      ensures forall k :: 1 <= k < steps ==> Rearm(mt, trace[k].q, trace[k].contato)
      ensures armed <==> steps == 0 || Rearm(mt, trace[steps].q, trace[steps].contato)
      ensures armed ==> steps == budget
      ensures !armed ==> contato
      ensures old(contato) ==> contato
    {
      steps, armed, trace := 0, true, [Now()];
      while armed && steps < budget
        invariant steps <= budget && |trace| == steps + 1
        invariant forall k :: 0 <= k < |trace| ==> IsGrid(trace[k].p, n) && IsGrid(trace[k].v, n)
        invariant trace[0] == old(Now()) && trace[steps] == Now()
        invariant forall k :: 0 <= k < steps ==> trace[k + 1] == StepOf(cfg, mt, trace[k])
        invariant forall k :: 1 <= k < steps ==> Rearm(mt, trace[k].q, trace[k].contato)
        invariant armed <==> steps == 0 || Rearm(mt, trace[steps].q, trace[steps].contato)
        invariant old(contato) ==> contato
      {
        ghost var s0 := Now();
        armed := Massamola();
        SteppedIsStepOf(s0);
        steps := steps + 1;
        trace := trace + [Now()];
      }
    }
  }
}
