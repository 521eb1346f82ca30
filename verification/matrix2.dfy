/**
 * Two-vectors and 2x2 matrices over the reals: the part of numpy's linear
 * algebra that the two-state regression filter uses (np.eye, +, -, @,
 * np.dot, np.outer and scalar products), with exact real arithmetic.
 */
module Matrix2 {

  /** A column or row vector [v0, v1]. */
  datatype Vec2 = Vec2(v0: real, v1: real)

  /** The matrix [[m00, m01], [m10, m11]]. */
  datatype Mat2 = Mat2(m00: real, m01: real, m10: real, m11: real)

  function Identity(): Mat2 {
    Mat2(1.0, 0.0, 0.0, 1.0)
  }

  /** Every entry multiplied by k (np.eye(2) * delta). */
  function Scale(m: Mat2, k: real): Mat2 {
    Mat2(m.m00 * k, m.m01 * k, m.m10 * k, m.m11 * k)
  }

  function Add(m: Mat2, n: Mat2): Mat2 {
    Mat2(m.m00 + n.m00, m.m01 + n.m01, m.m10 + n.m10, m.m11 + n.m11)
  }

  function Sub(m: Mat2, n: Mat2): Mat2 {
    Mat2(m.m00 - n.m00, m.m01 - n.m01, m.m10 - n.m10, m.m11 - n.m11)
  }

  /** The matrix product m @ n. */
  function Mul(m: Mat2, n: Mat2): Mat2 {
    Mat2(m.m00 * n.m00 + m.m01 * n.m10, m.m00 * n.m01 + m.m01 * n.m11,
         m.m10 * n.m00 + m.m11 * n.m10, m.m10 * n.m01 + m.m11 * n.m11)
  }

  /** The matrix-vector product m @ v. */
  function Apply(m: Mat2, v: Vec2): Vec2 {
    Vec2(m.m00 * v.v0 + m.m01 * v.v1, m.m10 * v.v0 + m.m11 * v.v1)
  }

  function Dot(u: Vec2, v: Vec2): real {
    u.v0 * v.v0 + u.v1 * v.v1
  }

  /** np.outer(u, v): entry (i, j) is u[i] * v[j]. */
  function Outer(u: Vec2, v: Vec2): Mat2 {
    Mat2(u.v0 * v.v0, u.v0 * v.v1, u.v1 * v.v0, u.v1 * v.v1)
  }

  function VAdd(u: Vec2, v: Vec2): Vec2 {
    Vec2(u.v0 + v.v0, u.v1 + v.v1)
  }

  function VScale(v: Vec2, k: real): Vec2 {
    Vec2(v.v0 * k, v.v1 * k)
  }

  /** Element-wise division of a vector by a scalar. */
  function VDiv(v: Vec2, k: real): Vec2
    requires k != 0.0
  {
    Vec2(v.v0 / k, v.v1 / k)
  }

  function Transpose(m: Mat2): Mat2 {
    Mat2(m.m00, m.m10, m.m01, m.m11)
  }

  function Det(m: Mat2): real {
    m.m00 * m.m11 - m.m01 * m.m10
  }

  predicate Symmetric(m: Mat2) {
    m.m01 == m.m10
  }

  /** The quadratic form v . (m @ v). */
  function QuadForm(m: Mat2, v: Vec2): real {
    Dot(v, Apply(m, v))
  }

  /**
   * Positive semidefiniteness of a symmetric 2x2 matrix, by its principal
   * minors; PosSemidefMeansNonnegForm shows this is the usual meaning.
   */
  predicate PosSemidef(m: Mat2) {
    Symmetric(m) && m.m00 >= 0.0 && m.m11 >= 0.0 && Det(m) >= 0.0
  }

  /** The minor criteria imply that the quadratic form is never negative. */
  lemma QuadFormNonneg(m: Mat2, v: Vec2)
    requires PosSemidef(m)
    ensures QuadForm(m, v) >= 0.0
  {
    var a, b, d := m.m00, m.m01, m.m11;
    var q := QuadForm(m, v);
    assert q == a * v.v0 * v.v0 + 2.0 * b * v.v0 * v.v1 + d * v.v1 * v.v1;
    if a > 0.0 {
      var w := a * v.v0 + b * v.v1;
      assert a * q == w * w + Det(m) * v.v1 * v.v1;
      assert Det(m) * (v.v1 * v.v1) >= 0.0;
      assert a * q >= 0.0;
    } else {
      assert a == 0.0;
      assert b * b <= 0.0;
      assert b == 0.0;
      assert q == d * (v.v1 * v.v1);
    }
  }

  /** A symmetric matrix that fails the minor criteria has a negative direction. */
  lemma NegativeDirection(m: Mat2) returns (v: Vec2)
    requires Symmetric(m) && !PosSemidef(m)
    ensures QuadForm(m, v) < 0.0
  {
    var a, b, d := m.m00, m.m01, m.m11;
    if a < 0.0 {
      v := Vec2(1.0, 0.0);
    } else if d < 0.0 {
      v := Vec2(0.0, 1.0);
    } else if a > 0.0 {
      v := Vec2(b, -a);
      assert QuadForm(m, v) == a * Det(m);
    } else {
      assert Det(m) == -(b * b);
      var t := -(d + 1.0) / (2.0 * b);
      v := Vec2(t, 1.0);
      assert QuadForm(m, v) == 2.0 * b * t + d;
    }
  }

  /**
   * For a symmetric matrix, the minor criteria hold exactly when the
   * quadratic form is non-negative at every vector.
   */
  lemma PosSemidefMeansNonnegForm(m: Mat2)
    requires Symmetric(m)
    ensures PosSemidef(m) <==> forall v :: QuadForm(m, v) >= 0.0
  {
    if PosSemidef(m) {
      forall v ensures QuadForm(m, v) >= 0.0 {
        QuadFormNonneg(m, v);
      }
    } else {
      var v := NegativeDirection(m);
    }
  }
}
