/** Three-component vectors over the reals, and the Euclidean norm as an
    abstract metric: the simulation only ever needs the norm's defining
    properties, never its concrete value. */
module Vectors {

  /** A position, velocity, acceleration or force of one particle. */
  datatype Vec = Vec(x: real, y: real, z: real)

  const Zero: Vec := Vec(0.0, 0.0, 0.0)

  function Add(a: Vec, b: Vec): Vec {
    Vec(a.x + b.x, a.y + b.y, a.z + b.z)
  }

  function Sub(a: Vec, b: Vec): Vec {
    Vec(a.x - b.x, a.y - b.y, a.z - b.z)
  }

  function Neg(a: Vec): Vec {
    Vec(-a.x, -a.y, -a.z)
  }

  function Scale(a: Vec, s: real): Vec {
    Vec(a.x * s, a.y * s, a.z * s)
  }

  function Div(a: Vec, s: real): Vec
    requires s != 0.0
  {
    Vec(a.x / s, a.y / s, a.z / s)
  }

  function Dot(a: Vec, b: Vec): real {
    a.x * b.x + a.y * b.y + a.z * b.z
  }

  /** The vector norm and the diagonal rest length, supplied by the host
      numerics library (a vector norm and a square root). */
  datatype Metric = Metric(norm: Vec -> real, sqrt2: real)

  /** The norm is the non-negative square root of the squared length, and
      sqrt2 is the non-negative square root of 2. */
  ghost predicate Euclidean(mt: Metric) {
    && (forall v :: 0.0 <= mt.norm(v) && mt.norm(v) * mt.norm(v) == Dot(v, v))
    && 0.0 <= mt.sqrt2 && mt.sqrt2 * mt.sqrt2 == 2.0
  }

  lemma SquareMonotone(a: real, b: real)
    requires 0.0 <= a < b
    ensures a * a < b * b
  {
    var ab := a * b;
    assert a * a <= ab by {
      assert a * (b - a) >= 0.0;
    }
    assert ab < b * b by {
      assert b * (b - a) > 0.0;
    }
  }

  /** Two non-negative numbers with the same square are equal. */
  lemma SquareRootUnique(a: real, b: real)
    requires 0.0 <= a && 0.0 <= b && a * a == b * b
    ensures a == b
  {
    if a < b {
      SquareMonotone(a, b);
    } else if b < a {
      SquareMonotone(b, a);
    }
  }

  /** The norm is the unique non-negative root of the squared length. */
  lemma NormIsRoot(mt: Metric, v: Vec, s: real)
    requires Euclidean(mt)
    requires 0.0 <= s && s * s == Dot(v, v)
    ensures mt.norm(v) == s
  {
    var t := mt.norm(v);
    assert 0.0 <= t && t * t == Dot(v, v);
    SquareRootUnique(t, s);
  }

  lemma NormOfNeg(mt: Metric, v: Vec)
    requires Euclidean(mt)
    ensures mt.norm(Neg(v)) == mt.norm(v)
  {
    var s := mt.norm(v);
    assert 0.0 <= s && s * s == Dot(v, v);
    assert Dot(Neg(v), Neg(v)) == Dot(v, v);
    NormIsRoot(mt, Neg(v), s);
  }

  lemma NormOfZero(mt: Metric)
    requires Euclidean(mt)
    ensures mt.norm(Zero) == 0.0
  {
    NormIsRoot(mt, Zero, 0.0);
  }

  /** The displacement to a grid neighbour in the plane has length 1 along
      an axis and sqrt2 along a diagonal. */
  lemma NormOfOffset(mt: Metric, di: int, dj: int)
    requires Euclidean(mt)
    requires -1 <= di <= 1 && -1 <= dj <= 1 && (di != 0 || dj != 0)
    ensures mt.norm(Vec(di as real, dj as real, 0.0))
            == if di != 0 && dj != 0 then mt.sqrt2 else 1.0
  {
    var v := Vec(di as real, dj as real, 0.0);
    var s := if di != 0 && dj != 0 then mt.sqrt2 else 1.0;
    OffsetDot(di, dj);
    assert 0.0 <= s && s * s == Dot(v, v);
    NormIsRoot(mt, v, s);
  }

  /** The squared length of a neighbour offset: 2 on a diagonal, else 1. */
  lemma OffsetDot(di: int, dj: int)
    requires -1 <= di <= 1 && -1 <= dj <= 1 && (di != 0 || dj != 0)
    ensures var v := Vec(di as real, dj as real, 0.0);
            Dot(v, v) == if di != 0 && dj != 0 then 2.0 else 1.0
  {
    var x, y := di as real, dj as real;
    assert x * x == if di == 0 then 0.0 else 1.0 by {
      if di == -1 { assert x == -1.0; } else if di == 1 { assert x == 1.0; }
    }
    assert y * y == if dj == 0 then 0.0 else 1.0 by {
      if dj == -1 { assert y == -1.0; } else if dj == 1 { assert y == 1.0; }
    }
  }

  /** Comparing a norm with a non-negative bound is the same as comparing
      squared lengths, so the collision and stop tests need no root. */
  lemma CompareBySquares(mt: Metric, v: Vec, bound: real)
    requires Euclidean(mt)
    requires 0.0 <= bound
    ensures mt.norm(v) > bound <==> Dot(v, v) > bound * bound
  {
    var s := mt.norm(v);
    assert 0.0 <= s && s * s == Dot(v, v);
    if s > bound {
      SquareMonotone(bound, s);
    } else if s < bound {
      SquareMonotone(s, bound);
    }
  }
}
