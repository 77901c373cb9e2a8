/** The two force models of one step, as functions of the start-of-step
    snapshot: Hooke springs to the 8-connected neighbours (main.py calcHook)
    and neighbour-velocity friction (main.py calcFat). */
module Forces {
  import opened Vectors
  import opened Params
  import opened Mesh

  /** The displacement from particle a to particle b (main.py calcDistancia
      is called with the particle first and its neighbour second). */
  function CalcDistancia(a: Vec, b: Vec): (d: Vec)
    ensures Add(a, d) == b
  {
    Sub(b, a)
  }

  /** A linear spring with displacement d and rest length `rest`: d scaled
      by how far the spring is stretched (negative when compressed). */
  function SpringForce(mt: Metric, d: Vec, rest: real): Vec {
    Scale(d, mt.norm(d) - rest)
  }

  /** The spring forces of the first k springs of the table on particle
      (i, j), added in table order; springs whose other end lies outside the
      grid are skipped. */
  function HookSum(mt: Metric, p: Grid, n: nat, i: int, j: int, k: nat): Vec
    requires IsGrid(p, n) && InBounds(n, i, j) && k <= |HookTable|
  {
    if k == 0 then Zero
    else
      var l := HookTable[k - 1];
      var ni, nj := i + l.di, j + l.dj;
      if InBounds(n, ni, nj) then
        Add(HookSum(mt, p, n, i, j, k - 1),
            SpringForce(mt, CalcDistancia(p[i][j], p[ni][nj]), RestLength(mt, l)))
      else HookSum(mt, p, n, i, j, k - 1)
  }

  /** The elastic force on particle (i, j): K times the sum over all springs. */
  function ElasticForce(c: Config, mt: Metric, p: Grid, i: int, j: int): Vec
    requires IsGrid(p, c.N) && InBounds(c.N, i, j)
  {
    Scale(HookSum(mt, p, c.N, i, j, |HookTable|), c.K)
  }

  /** The velocities the friction model adds for the first k offsets of its
      table: the centre and offsets outside the grid are skipped. */
  function VelocitySum(v: Grid, n: nat, i: int, j: int, k: nat): Vec
    requires IsGrid(v, n) && k <= |FrictionTable|
  {
    if k == 0 then Zero
    else
      var (di, dj) := FrictionTable[k - 1];
      var ni, nj := i + di, j + dj;
      if (di != 0 || dj != 0) && InBounds(n, ni, nj) then
        Add(VelocitySum(v, n, i, j, k - 1), v[ni][nj])
      else VelocitySum(v, n, i, j, k - 1)
  }

  /** The friction force on particle (i, j): Fat times the sum of its
      neighbours' velocities. */
  function FrictionForce(c: Config, v: Grid, i: int, j: int): Vec
    requires IsGrid(v, c.N)
  {
    Scale(VelocitySum(v, c.N, i, j, |FrictionTable|), c.Fat)
  }

  /** Reference definition of "the sum of the neighbours' velocities": the
      velocity at the far end of every spring of the elastic model. */
  function NeighbourVelocities(v: Grid, n: nat, i: int, j: int, k: nat): Vec
    requires IsGrid(v, n) && k <= |HookTable|
  {
    if k == 0 then Zero
    else
      var l := HookTable[k - 1];
      Add(NeighbourVelocities(v, n, i, j, k - 1),
          if InBounds(n, i + l.di, j + l.dj) then v[i + l.di][j + l.dj] else Zero)
  }

  /** The velocity of the particle at offset (di, dj), or zero when there
      is no particle there. */
  function NeighbourTerm(v: Grid, n: nat, i: int, j: int, di: int, dj: int): Vec
    requires IsGrid(v, n)
  {
    if InBounds(n, i + di, j + dj) then v[i + di][j + dj] else Zero
  }

  /** One step of the friction model's walk adds the term of its offset
      (the centre adds nothing). */
  lemma VelocitySumStep(v: Grid, n: nat, i: int, j: int, k: nat)
    requires IsGrid(v, n) && k < |FrictionTable|
    ensures VelocitySum(v, n, i, j, k + 1)
            == if k == 4 then VelocitySum(v, n, i, j, k)
               else Add(VelocitySum(v, n, i, j, k), NeighbourTerm(v, n, i, j, FrictionTable[k].0, FrictionTable[k].1))
  {
  }

  /** The friction model's walk written out: the eight neighbour terms in
      row-major order. */
  lemma VelocitySumExpanded(v: Grid, n: nat, i: int, j: int)
    requires IsGrid(v, n)
    ensures VelocitySum(v, n, i, j, |FrictionTable|)
            == Add(Add(Add(Add(Add(Add(Add(Add(Zero,
                 NeighbourTerm(v, n, i, j, -1, -1)), NeighbourTerm(v, n, i, j, -1, 0)),
                 NeighbourTerm(v, n, i, j, -1, 1)), NeighbourTerm(v, n, i, j, 0, -1)),
                 NeighbourTerm(v, n, i, j, 0, 1)), NeighbourTerm(v, n, i, j, 1, -1)),
                 NeighbourTerm(v, n, i, j, 1, 0)), NeighbourTerm(v, n, i, j, 1, 1))
  {
    VelocitySumStep(v, n, i, j, 0);
    VelocitySumStep(v, n, i, j, 1);
    VelocitySumStep(v, n, i, j, 2);
    VelocitySumStep(v, n, i, j, 3);
    VelocitySumStep(v, n, i, j, 4);
    VelocitySumStep(v, n, i, j, 5);
    VelocitySumStep(v, n, i, j, 6);
    VelocitySumStep(v, n, i, j, 7);
    VelocitySumStep(v, n, i, j, 8);
  }

  /** The reference sum written out: the eight neighbour terms in spring
      table order. */
  lemma NeighbourVelocitiesExpanded(v: Grid, n: nat, i: int, j: int)
    requires IsGrid(v, n)
    ensures NeighbourVelocities(v, n, i, j, |HookTable|)
            == Add(Add(Add(Add(Add(Add(Add(Add(Zero,
                 NeighbourTerm(v, n, i, j, -1, 0)), NeighbourTerm(v, n, i, j, 1, 0)),
                 NeighbourTerm(v, n, i, j, 0, -1)), NeighbourTerm(v, n, i, j, 0, 1)),
                 NeighbourTerm(v, n, i, j, -1, -1)), NeighbourTerm(v, n, i, j, -1, 1)),
                 NeighbourTerm(v, n, i, j, 1, -1)), NeighbourTerm(v, n, i, j, 1, 1))
  {
    forall k | 0 <= k < |HookTable|
      ensures NeighbourVelocities(v, n, i, j, k + 1)
              == Add(NeighbourVelocities(v, n, i, j, k), NeighbourTerm(v, n, i, j, HookTable[k].di, HookTable[k].dj))
    {
    }
  }

  /** The friction model sums exactly the particles the elastic model links
      the particle to: each in-grid neighbour once, never the particle. */
  lemma FrictionOverSpringNeighbours(v: Grid, n: nat, i: int, j: int)
    requires IsGrid(v, n)
    ensures VelocitySum(v, n, i, j, |FrictionTable|) == NeighbourVelocities(v, n, i, j, |HookTable|)
  {
    VelocitySumExpanded(v, n, i, j);
    NeighbourVelocitiesExpanded(v, n, i, j);
  }

  /** The terms the elastic model adds for the first k springs of the
      table, one per spring whose other end is inside the grid. */
  function SpringTerms(mt: Metric, p: Grid, n: nat, i: int, j: int, k: nat): seq<Vec>
    requires IsGrid(p, n) && InBounds(n, i, j) && k <= |HookTable|
  {
    if k == 0 then []
    else
      var l := HookTable[k - 1];
      var ni, nj := i + l.di, j + l.dj;
      SpringTerms(mt, p, n, i, j, k - 1)
      + if InBounds(n, ni, nj) then [SpringForce(mt, CalcDistancia(p[i][j], p[ni][nj]), RestLength(mt, l))]
        else []
  }

  /** The sum of a list of vectors, left to right. */
  function SumOf(s: seq<Vec>): Vec {
    if |s| == 0 then Zero else Add(SumOf(s[..|s| - 1]), s[|s| - 1])
  }

  /** The spring sum is the sum of its terms, and there are as many terms as
      the spring table has in-grid neighbours. */
  lemma {:induction false} HookSumTerms(mt: Metric, p: Grid, n: nat, i: int, j: int, k: nat)
    requires IsGrid(p, n) && InBounds(n, i, j) && k <= |HookTable|
    ensures HookSum(mt, p, n, i, j, k) == SumOf(SpringTerms(mt, p, n, i, j, k))
    ensures |SpringTerms(mt, p, n, i, j, k)| == HookCount(n, i, j, k)
  {
    if k > 0 {
      HookSumTerms(mt, p, n, i, j, k - 1);
      var prev := SpringTerms(mt, p, n, i, j, k - 1);
      var s := SpringTerms(mt, p, n, i, j, k);
      var l := HookTable[k - 1];
      if InBounds(n, i + l.di, j + l.dj) {
        assert s[..|s| - 1] == prev;
      } else {
        assert s == prev;
      }
    }
  }

  /** With every velocity the unit vector along x, the friction sum counts
      the neighbours the friction model adds in. */
  lemma {:induction false} UnitSumCounts(v: Grid, n: nat, i: int, j: int, k: nat)
    requires IsGrid(v, n) && k <= |FrictionTable|
    requires forall a, b :: InBounds(n, a, b) ==> v[a][b] == Vec(1.0, 0.0, 0.0)
    ensures VelocitySum(v, n, i, j, k) == Vec(FrictionCount(n, i, j, k) as real, 0.0, 0.0)
  {
    if k > 0 {
      UnitSumCounts(v, n, i, j, k - 1);
    }
  }

  /** The force loops themselves visit 3 neighbours at a corner, 5 elsewhere
      on the border and 8 inside: the elastic force has that many spring
      terms, and the friction force adds that many velocities. */
  lemma ForceLoopsCornerEdgeInterior(mt: Metric, p: Grid, v: Grid, n: nat, i: int, j: int)
    requires IsGrid(p, n) && IsGrid(v, n) && InBounds(n, i, j)
    requires forall a, b :: InBounds(n, a, b) ==> v[a][b] == Vec(1.0, 0.0, 0.0)
    ensures var c := |SpringTerms(mt, p, n, i, j, |HookTable|)|;
            && HookSum(mt, p, n, i, j, |HookTable|) == SumOf(SpringTerms(mt, p, n, i, j, |HookTable|))
            && VelocitySum(v, n, i, j, |FrictionTable|) == Vec(c as real, 0.0, 0.0)
            && c == Span(n, i) * Span(n, j) - 1
            && ((i == 0 || i == n - 1) && (j == 0 || j == n - 1) && n >= 2 ==> c == 3)
            && ((0 < i < n - 1 && (j == 0 || j == n - 1)) || (0 < j < n - 1 && (i == 0 || i == n - 1))
                ==> c == 5)
            && (0 < i < n - 1 && 0 < j < n - 1 ==> c == 8)
  {
    HookSumTerms(mt, p, n, i, j, |HookTable|);
    UnitSumCounts(v, n, i, j, |FrictionTable|);
    HookNeighbourCount(n, i, j);
    CornerEdgeInterior(n, i, j);
  }

  /** Index, in the spring table, of the same spring seen from its other end. */
  function Opposite(k: nat): (o: nat)
    requires k < |HookTable|
    ensures o < |HookTable|
    ensures HookTable[o].di == -HookTable[k].di && HookTable[o].dj == -HookTable[k].dj
    ensures HookTable[o].diagonal == HookTable[k].diagonal
  {
    [1, 0, 3, 2, 7, 6, 5, 4][k]
  }

  /** One spring pushes its two ends with equal and opposite forces. */
  lemma SpringOpposite(mt: Metric, a: Vec, b: Vec, rest: real)
    requires Euclidean(mt)
    ensures SpringForce(mt, CalcDistancia(b, a), rest) == Neg(SpringForce(mt, CalcDistancia(a, b), rest))
  {
    assert CalcDistancia(b, a) == Neg(CalcDistancia(a, b));
    NormOfNeg(mt, CalcDistancia(a, b));
  }

  /** The term particle (i, j) adds for spring k is the negation of the term
      its neighbour adds for the same spring, although each is computed
      separately by its own particle. */
  lemma SpringEndsOpposite(mt: Metric, p: Grid, n: nat, i: int, j: int, k: nat)
    requires Euclidean(mt) && IsGrid(p, n) && InBounds(n, i, j) && k < |HookTable|
    requires InBounds(n, i + HookTable[k].di, j + HookTable[k].dj)
    ensures var l, o := HookTable[k], HookTable[Opposite(k)];
            var ni, nj := i + l.di, j + l.dj;
            && ni + o.di == i && nj + o.dj == j
            && SpringForce(mt, CalcDistancia(p[ni][nj], p[i][j]), RestLength(mt, o))
               == Neg(SpringForce(mt, CalcDistancia(p[i][j], p[ni][nj]), RestLength(mt, l)))
  {
    var l := HookTable[k];
    SpringOpposite(mt, p[i][j], p[i + l.di][j + l.dj], RestLength(mt, l));
  }

  /** A spring of zero length, or at its rest length, exerts no force. */
  lemma SpringVanishes(mt: Metric, d: Vec, rest: real)
    requires Euclidean(mt)
    requires d == Zero || mt.norm(d) == rest
    ensures SpringForce(mt, d, rest) == Zero
  {
  }

  /** On the flat sheet a spring between two particles is at its rest
      length, so it exerts no force. */
  lemma FlatSpringAtRest(mt: Metric, n: nat, h: real, i: int, j: int, l: Link)
    requires Euclidean(mt) && InBounds(n, i, j) && l in HookTable
    requires InBounds(n, i + l.di, j + l.dj)
    ensures var p := FlatMesh(n, h);
            SpringForce(mt, CalcDistancia(p[i][j], p[i + l.di][j + l.dj]), RestLength(mt, l)) == Zero
  {
    var p := FlatMesh(n, h);
    var d := CalcDistancia(p[i][j], p[i + l.di][j + l.dj]);
    assert d == Vec(l.di as real, l.dj as real, 0.0);
    NormOfOffset(mt, l.di, l.dj);
    SpringVanishes(mt, d, RestLength(mt, l));
  }

  /** On the flat sheet every spring is at its rest length, so every
      partial sum of spring forces is zero. */
  lemma {:induction false} FlatSheetSpringsAtRest(mt: Metric, n: nat, h: real, i: int, j: int, k: nat)
    requires Euclidean(mt) && InBounds(n, i, j) && k <= |HookTable|
    ensures HookSum(mt, FlatMesh(n, h), n, i, j, k) == Zero
  {
    if k > 0 {
      FlatSheetSpringsAtRest(mt, n, h, i, j, k - 1);
      var l := HookTable[k - 1];
      if InBounds(n, i + l.di, j + l.dj) {
        FlatSpringAtRest(mt, n, h, i, j, l);
      }
    }
  }

  /** After the mesh is laid out flat, every particle feels zero elastic
      force, corners and border included. */
  lemma FlatSheetAtRest(c: Config, mt: Metric, i: int, j: int)
    requires Euclidean(mt) && InBounds(c.N, i, j)
    ensures ElasticForce(c, mt, FlatMesh(c.N, c.H), i, j) == Zero
  {
    FlatSheetSpringsAtRest(mt, c.N, c.H, i, j, |HookTable|);
  }

  /** A grid at rest produces no friction. */
  lemma {:induction false} StillGridNoFriction(v: Grid, n: nat, i: int, j: int, k: nat)
    requires IsGrid(v, n) && k <= |FrictionTable|
    requires forall a, b :: InBounds(n, a, b) ==> v[a][b] == Zero
    ensures VelocitySum(v, n, i, j, k) == Zero
  {
    if k > 0 {
      StillGridNoFriction(v, n, i, j, k - 1);
    }
  }
}
