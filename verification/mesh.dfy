/** The N x N particle grid as a value, and the 8-connected neighbourhood
    that both force models enumerate. */
module Mesh {
  import opened Vectors

  /** One vector per particle, indexed [i][j]. */
  type Grid = seq<seq<Vec>>

  predicate IsGrid(g: Grid, n: nat) {
    |g| == n && forall i :: 0 <= i < n ==> |g[i]| == n
  }

  /** Grid indices exist only in [0, n): no wrap-around, no phantom particle. */
  predicate InBounds(n: int, i: int, j: int) {
    0 <= i < n && 0 <= j < n
  }

  /** One spring of the elastic model: the neighbour's offset and whether
      the spring is a diagonal (shear) one. */
  datatype Link = Link(di: int, dj: int, diagonal: bool)

  /** The springs in the order the elastic model visits them: four
      structural springs, then four shear springs. */
  const HookTable: seq<Link> := [
    Link(-1, 0, false), Link(1, 0, false), Link(0, -1, false), Link(0, 1, false),
    Link(-1, -1, true), Link(-1, 1, true), Link(1, -1, true), Link(1, 1, true)
  ]

  /** The spring table holds eight distinct offsets of the 3 x 3 block, so
      every neighbour exactly once and never the particle itself, and the
      diagonal springs are exactly those of the corner offsets. */
  lemma HookTableNeighbourhood()
    ensures forall k :: 0 <= k < |HookTable| ==>
              && -1 <= HookTable[k].di <= 1 && -1 <= HookTable[k].dj <= 1
              && (HookTable[k].di != 0 || HookTable[k].dj != 0)
              && (HookTable[k].diagonal <==> HookTable[k].di != 0 && HookTable[k].dj != 0)
    ensures forall k, k' :: 0 <= k < k' < |HookTable| ==>
              HookTable[k].di != HookTable[k'].di || HookTable[k].dj != HookTable[k'].dj
  {
  }

  /** Rest length 1 for a structural spring, sqrt 2 for a shear spring. */
  function RestLength(mt: Metric, l: Link): real {
    if l.diagonal then mt.sqrt2 else 1.0
  }

  /** The offsets in the order the friction model visits them: di over
      -1, 0, 1 and, inside it, dj over -1, 0, 1 (the centre included, and
      skipped by the friction model itself). */
  const FrictionTable: seq<(int, int)> := [
    (-1, -1), (-1, 0), (-1, 1), (0, -1), (0, 0), (0, 1), (1, -1), (1, 0), (1, 1)
  ]

  /** The nested di/dj loops of the friction model walk the table in order. */
  lemma FrictionTableAt(di: int, dj: int)
    requires -1 <= di <= 1 && -1 <= dj <= 1
    ensures 0 <= 3 * (di + 1) + (dj + 1) < |FrictionTable|
    ensures FrictionTable[3 * (di + 1) + (dj + 1)] == (di, dj)
  {
  }

  /** The flat horizontal sheet at height h: particle (i, j) at (i, j, h). */
  function FlatMesh(n: nat, h: real): (g: Grid)
    ensures IsGrid(g, n)
    ensures forall i, j :: InBounds(n, i, j) ==> g[i][j] == Vec(i as real, j as real, h)
  {
    seq(n, i => seq(n, j => Vec(i as real, j as real, h)))
  }

  /** How many springs of the first k entries of the table have their other
      end inside the grid. */
  function HookCount(n: int, i: int, j: int, k: nat): nat
    requires k <= |HookTable|
  {
    if k == 0 then 0
    else HookCount(n, i, j, k - 1)
         + (if InBounds(n, i + HookTable[k - 1].di, j + HookTable[k - 1].dj) then 1 else 0)
  }

  /** How many of the first k offsets the friction model adds in: not the
      centre, and inside the grid. */
  function FrictionCount(n: int, i: int, j: int, k: nat): nat
    requires k <= |FrictionTable|
  {
    if k == 0 then 0
    else
      var (di, dj) := FrictionTable[k - 1];
      FrictionCount(n, i, j, k - 1)
      + (if (di != 0 || dj != 0) && InBounds(n, i + di, j + dj) then 1 else 0)
  }

  /** How many of the rows i-1, i, i+1 exist. */
  function Span(n: int, i: int): nat {
    (if 0 < i then 1 else 0) + 1 + (if i < n - 1 then 1 else 0)
  }

  /** The 3 x 3 block around (i, j), clipped to the grid, minus the centre,
      written out by its four border flags. */
  lemma SpanProduct(n: int, i: int, j: int)
    ensures var up, down := if 0 < i then 1 else 0, if i < n - 1 then 1 else 0;
            var left, right := if 0 < j then 1 else 0, if j < n - 1 then 1 else 0;
            Span(n, i) * Span(n, j) - 1
            == up + down + left + right + up * left + up * right + down * left + down * right
  {
  }

  /** The elastic model visits the 3 x 3 block around the particle, clipped
      to the grid, minus the particle itself. */
  lemma HookNeighbourCount(n: int, i: int, j: int)
    requires InBounds(n, i, j)
    ensures HookCount(n, i, j, |HookTable|) == Span(n, i) * Span(n, j) - 1
  {
    var up, down := if 0 < i then 1 else 0, if i < n - 1 then 1 else 0;
    var left, right := if 0 < j then 1 else 0, if j < n - 1 then 1 else 0;
    SpanProduct(n, i, j);
    assert HookCount(n, i, j, 1) == up;
    assert HookCount(n, i, j, 2) == up + down;
    assert HookCount(n, i, j, 3) == up + down + left;
    assert HookCount(n, i, j, 4) == up + down + left + right;
    assert HookCount(n, i, j, 6) == HookCount(n, i, j, 4) + up * left + up * right;
    assert HookCount(n, i, j, 8) == HookCount(n, i, j, 6) + down * left + down * right;
  }

  /** The friction model visits the same clipped block minus the centre. */
  lemma FrictionNeighbourCount(n: int, i: int, j: int)
    requires InBounds(n, i, j)
    ensures FrictionCount(n, i, j, |FrictionTable|) == Span(n, i) * Span(n, j) - 1
  {
    var up, down := if 0 < i then 1 else 0, if i < n - 1 then 1 else 0;
    var left, right := if 0 < j then 1 else 0, if j < n - 1 then 1 else 0;
    SpanProduct(n, i, j);
    assert FrictionCount(n, i, j, 1) == up * left;
    assert FrictionCount(n, i, j, 2) == up * left + up;
    assert FrictionCount(n, i, j, 3) == up * left + up + up * right;
    assert FrictionCount(n, i, j, 4) == FrictionCount(n, i, j, 3) + left;
    assert FrictionCount(n, i, j, 5) == FrictionCount(n, i, j, 3) + left;
    assert FrictionCount(n, i, j, 6) == FrictionCount(n, i, j, 3) + left + right;
    assert FrictionCount(n, i, j, 7) == FrictionCount(n, i, j, 6) + down * left;
    assert FrictionCount(n, i, j, 8) == FrictionCount(n, i, j, 6) + down * left + down;
  }

  /** A corner particle has 3 neighbours, any other particle on the border
      5, and an interior particle 8, in both force models. */
  lemma CornerEdgeInterior(n: int, i: int, j: int)
    requires InBounds(n, i, j)
    ensures var c := HookCount(n, i, j, |HookTable|);
            && c == FrictionCount(n, i, j, |FrictionTable|)
            && ((i == 0 || i == n - 1) && (j == 0 || j == n - 1) && n >= 2 ==> c == 3)
            && ((0 < i < n - 1 && (j == 0 || j == n - 1)) || (0 < j < n - 1 && (i == 0 || i == n - 1))
                ==> c == 5)
            && (0 < i < n - 1 && 0 < j < n - 1 ==> c == 8)
  {
    HookNeighbourCount(n, i, j);
    FrictionNeighbourCount(n, i, j);
  }
}
