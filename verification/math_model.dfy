/**
 * The two-state Kalman filter that tracks the slope (beta) and intercept
 * (alpha) of y = alpha + beta * x under a random-walk prior.
 *
 * The pure function Step is the specification of one update; the class
 * KalmanFilterReg holds the same fields and updates them in place, and its
 * method Update is proved to agree with Step.
 */
module MathModel {
  import opened Matrix2

  /** Default process-noise scale and measurement-noise variance. */
  const DefaultDelta: real := 0.00001
  const DefaultR: real := 0.001

  /** The filter's fields as one value; state is [beta, alpha]. */
  datatype KalmanState = KalmanState(state: Vec2, P: Mat2, Q: Mat2, R: real)

  /** What one update returns: the new beta and alpha, and the innovation. */
  datatype Estimate = Estimate(beta: real, alpha: real, error: real)

  /**
   * The filter's invariant: a positive measurement variance, a symmetric
   * positive semidefinite covariance, and process noise delta * I with
   * delta >= 0.
   */
  predicate Valid(f: KalmanState) {
    f.R > 0.0 && PosSemidef(f.P) &&
    f.Q.m01 == 0.0 && f.Q.m10 == 0.0 && f.Q.m11 == f.Q.m00 && f.Q.m00 >= 0.0
  }

  /** A freshly constructed filter: zero state, identity covariance. */
  function Initial(delta: real, R: real): (f: KalmanState)
    ensures f.state == Vec2(0.0, 0.0) && f.P == Identity()
    ensures f.Q == Mat2(delta, 0.0, 0.0, delta) && f.R == R
    ensures Valid(f) <==> delta >= 0.0 && R > 0.0
  {
    KalmanState(Vec2(0.0, 0.0), Identity(), Mat2(delta, 0.0, 0.0, delta), R)
  }

  /** The observation row H = [x, 1], which maps the state to a predicted y. */
  function Observation(x: real): Vec2 {
    Vec2(x, 1.0)
  }

  /** The predict step: P + Q, with the state left as it is. */
  function Predict(f: KalmanState): KalmanState {
    f.(P := Add(f.P, f.Q))
  }

  /** The innovation y - H . state. */
  function Innovation(f: KalmanState, x: real, y: real): real {
    y - Dot(Observation(x), f.state)
  }

  /** The innovation variance S = H . (P @ H) + R. */
  function InnovationVariance(P: Mat2, x: real, R: real): real {
    Dot(Observation(x), Apply(P, Observation(x))) + R
  }

  /** The gain K = (P @ H) / S. */
  function Gain(P: Mat2, x: real, R: real): Vec2
    requires InnovationVariance(P, x, R) != 0.0
  {
    VDiv(Apply(P, Observation(x)), InnovationVariance(P, x, R))
  }

  /**
   * One update on observation (x, y): predict, compute the innovation from
   * the state held before the call, the gain from the predicted covariance,
   * then the new state and the new covariance (I - K H) @ P.
   */
  function Step(f: KalmanState, x: real, y: real): (r: (KalmanState, Estimate))
    requires Valid(f)
    ensures Valid(r.0)
    ensures r.0.Q == f.Q && r.0.R == f.R
    ensures r.1.error == y - (x * f.state.v0 + f.state.v1)
    ensures r.1.beta == r.0.state.v0 && r.1.alpha == r.0.state.v1
  {
    var pred := Predict(f);
    PredictKeepsPosSemidef(f);
    InnovationVariancePositive(pred.P, x, f.R);
    var H := Observation(x);
    var error := Innovation(f, x, y);
    var K := Gain(pred.P, x, f.R);
    var state := VAdd(f.state, VScale(K, error));
    var P := Mul(Sub(Identity(), Outer(K, H)), pred.P);
    PosteriorPosSemidef(pred.P, x, f.R);
    (KalmanState(state, P, f.Q, f.R), Estimate(state.v0, state.v1, error))
  }

  /** Adding delta * I with delta >= 0 keeps the covariance positive semidefinite. */
  lemma PredictKeepsPosSemidef(f: KalmanState)
    requires Valid(f)
    ensures PosSemidef(Predict(f).P)
    ensures Predict(f).state == f.state && Predict(f).P == Add(f.P, f.Q)
  {
    var a, b, d, q := f.P.m00, f.P.m01, f.P.m11, f.Q.m00;
    assert Det(Predict(f).P) == Det(f.P) + q * (a + d) + q * q;
    assert q * (a + d) >= 0.0;
  }

  /** With P positive semidefinite and R > 0, the innovation variance is at least R. */
  lemma InnovationVariancePositive(P: Mat2, x: real, R: real)
    requires PosSemidef(P) && R > 0.0
    ensures InnovationVariance(P, x, R) >= R > 0.0
  {
    QuadFormNonneg(P, Observation(x));
  }

  /** The polynomial identities behind the covariance update, with S multiplied through. */
  lemma PosteriorIdentities(a: real, b: real, d: real, x: real, R: real, v0: real, v1: real, S: real, D: real)
    requires v0 == a * x + b && v1 == b * x + d && S == x * v0 + v1 + R && D == a * d - b * b
    ensures a * S - v0 * v0 == D + a * R
            && d * S - v1 * v1 == x * x * D + d * R
            && b * S - v0 * v1 == b * R - x * D
  {
  }

  /** The determinant identity behind the covariance update, with S multiplied through. */
  lemma DetIdentity(a: real, b: real, d: real, x: real, R: real, S: real, D: real, A: real, B: real, C: real)
    requires D == a * d - b * b && S == x * (a * x + b) + (b * x + d) + R
    requires A == D + a * R && B == x * x * D + d * R && C == b * R - x * D
    ensures A * B - C * C == D * R * S
  {
  }

  /** n = u - w / S, multiplied by S. */
  lemma ScaledDifference(u: real, w: real, S: real, k: real, n: real)
    requires S != 0.0 && k == 1.0 / S && n == u - w * k
    ensures n * S == u * S - w
  {
    assert k * S == 1.0;
    assert (u - w * k) * S == u * S - w * (k * S);
  }

  lemma Cancel(p: real, q: real, S: real)
    requires S != 0.0 && p * S == q * S
    ensures p == q
  {
    assert (p - q) * S == 0.0;
  }

  lemma NonnegQuotient(u: real, S: real)
    requires S > 0.0 && u * S >= 0.0
    ensures u >= 0.0
  {
  }

  /** The determinant of a matrix whose entries are known after scaling by S. */
  lemma DetQuotient(n00: real, n01: real, n11: real, S: real, A: real, B: real, C: real, T: real)
    requires S > 0.0
    requires n00 * S == A && n11 * S == B && n01 * S == C
    requires A * B - C * C == T * S
    ensures n00 * n11 - n01 * n01 == T / S
  {
    var det := n00 * n11 - n01 * n01;
    assert A * B == (n00 * n11) * (S * S);
    assert C * C == (n01 * n01) * (S * S);
    assert det * (S * S) == T * S;
    assert det * S == T;
  }

  /** PosteriorCovarianceForm for any positive S in place of the innovation variance. */
  lemma CovarianceFormAt(P: Mat2, x: real, S: real)
    requires Symmetric(P) && S > 0.0
    ensures var v := Apply(P, Observation(x));
            Mul(Sub(Identity(), Outer(VDiv(v, S), Observation(x))), P)
              == Sub(P, Scale(Outer(v, v), 1.0 / S))
  {
    var v := Apply(P, Observation(x));
    var K := VDiv(v, S);
    IdentityMinus(Outer(K, Observation(x)), P);
    OuterTimes(K, Observation(x), P);
    assert Transpose(P) == P;
    OuterOfQuotient(v, S);
  }

  /** (I - A) @ P == P - A @ P. */
  lemma IdentityMinus(A: Mat2, P: Mat2)
    ensures Mul(Sub(Identity(), A), P) == Sub(P, Mul(A, P))
  {
  }

  /** (k h^T) @ P == k (P^T h)^T. */
  lemma OuterTimes(k: Vec2, h: Vec2, P: Mat2)
    ensures Mul(Outer(k, h), P) == Outer(k, Apply(Transpose(P), h))
  {
    var A, u := Outer(k, h), Apply(Transpose(P), h);
    Distribute(k.v0, h.v0, h.v1, P.m00, P.m10, A.m00, A.m01, u.v0);
    Distribute(k.v0, h.v0, h.v1, P.m01, P.m11, A.m00, A.m01, u.v1);
    Distribute(k.v1, h.v0, h.v1, P.m00, P.m10, A.m10, A.m11, u.v0);
    Distribute(k.v1, h.v0, h.v1, P.m01, P.m11, A.m10, A.m11, u.v1);
  }

  /** One entry of OuterTimes: with a = k h0, b = k h1 and w = p h0 + q h1, a p + b q == k w. */
  lemma Distribute(k: real, h0: real, h1: real, p: real, q: real, a: real, b: real, w: real)
    requires a == k * h0 && b == k * h1 && w == p * h0 + q * h1
    ensures a * p + b * q == k * w
  {
  }

  /** (v / S) v^T == (v v^T) / S. */
  lemma OuterOfQuotient(v: Vec2, S: real)
    requires S != 0.0
    ensures Outer(VDiv(v, S), v) == Scale(Outer(v, v), 1.0 / S)
  {
  }

  /**
   * The updated covariance (I - K H) @ P of a symmetric P is the symmetric
   * matrix P - (P H)(P H)^T / S.
   */
  lemma PosteriorCovarianceForm(P: Mat2, x: real, R: real)
    requires PosSemidef(P) && R > 0.0
    ensures InnovationVariance(P, x, R) > 0.0
    ensures var S := InnovationVariance(P, x, R);
            var v := Apply(P, Observation(x));
            Mul(Sub(Identity(), Outer(Gain(P, x, R), Observation(x))), P)
              == Sub(P, Scale(Outer(v, v), 1.0 / S))
  {
    InnovationVariancePositive(P, x, R);
    CovarianceFormAt(P, x, InnovationVariance(P, x, R));
  }

  /** The covariance update entry by entry, over the reals. */
  lemma ShrinkScalar(a: real, b: real, d: real, x: real, R: real, v0: real, v1: real, S: real, k: real,
                     n00: real, n01: real, n11: real)
    requires v0 == a * x + b && v1 == b * x + d && S == x * v0 + v1 + R
    requires S > 0.0 && R > 0.0 && a >= 0.0 && d >= 0.0 && a * d - b * b >= 0.0 && k == 1.0 / S
    requires n00 == a - v0 * v0 * k && n01 == b - v0 * v1 * k && n11 == d - v1 * v1 * k
    ensures n00 >= 0.0 && n11 >= 0.0
    ensures n00 * n11 - n01 * n01 == (a * d - b * b) * R / S >= 0.0
  {
    var D := a * d - b * b;
    PosteriorIdentities(a, b, d, x, R, v0, v1, S, D);
    ScaledDifference(a, v0 * v0, S, k, n00);
    ScaledDifference(d, v1 * v1, S, k, n11);
    ScaledDifference(b, v0 * v1, S, k, n01);
    var A, B, C := D + a * R, x * x * D + d * R, b * R - x * D;
    assert n00 * S == A;
    assert n11 * S == B;
    assert n01 * S == C;
    assert A >= 0.0;
    NonnegQuotient(n00, S);
    assert x * x * D >= 0.0;
    NonnegQuotient(n11, S);
    DetIdentity(a, b, d, x, R, S, D, A, B, C);
    DetQuotient(n00, n01, n11, S, A, B, C, D * R);
    NonnegRatio(D, R, S);
  }

  /** ShrinkScalar on the matrix N = P - k v v^T. */
  lemma PosteriorScalar(P: Mat2, x: real, R: real, v0: real, v1: real, S: real, k: real, N: Mat2)
    requires PosSemidef(P) && R > 0.0
    requires v0 == P.m00 * x + P.m01 && v1 == P.m01 * x + P.m11 && S == x * v0 + v1 + R && S > 0.0 && k == 1.0 / S
    requires N == Mat2(P.m00 - v0 * v0 * k, P.m01 - v0 * v1 * k, P.m10 - v0 * v1 * k, P.m11 - v1 * v1 * k)
    ensures PosSemidef(N) && Det(N) == Det(P) * R / S
  {
    ShrinkScalar(P.m00, P.m01, P.m11, x, R, v0, v1, S, k, N.m00, N.m01, N.m11);
  }

  /**
   * The covariance update keeps P symmetric positive semidefinite, and its
   * determinant shrinks by the factor R / S.
   */
  lemma PosteriorPosSemidef(P: Mat2, x: real, R: real)
    requires PosSemidef(P) && R > 0.0
    ensures InnovationVariance(P, x, R) > 0.0
    ensures var P' := Mul(Sub(Identity(), Outer(Gain(P, x, R), Observation(x))), P);
            PosSemidef(P') && Det(P') == Det(P) * R / InnovationVariance(P, x, R)
  {
    PosteriorCovarianceForm(P, x, R);
    ShrunkCovariance(P, x, R, InnovationVariance(P, x, R), Apply(P, Observation(x)));
  }

  /** PosteriorPosSemidef on the symmetric form P - v v^T / S. */
  lemma ShrunkCovariance(P: Mat2, x: real, R: real, S: real, v: Vec2)
    requires PosSemidef(P) && R > 0.0
    requires S == InnovationVariance(P, x, R) && S > 0.0 && v == Apply(P, Observation(x))
    ensures var P' := Sub(P, Scale(Outer(v, v), 1.0 / S));
            PosSemidef(P') && Det(P') == Det(P) * R / S
  {
    ObservedVariance(P, x, R);
    var k := 1.0 / S;
    ShrunkEntries(P, v, k);
    var N := Sub(P, Scale(Outer(v, v), k));
    assert N == Mat2(P.m00 - v.v0 * v.v0 * k, P.m01 - v.v0 * v.v1 * k, P.m10 - v.v0 * v.v1 * k, P.m11 - v.v1 * v.v1 * k);
    PosteriorScalar(P, x, R, v.v0, v.v1, S, k, N);
  }

  lemma NonnegRatio(u: real, R: real, S: real)
    requires u >= 0.0 && R > 0.0 && S > 0.0
    ensures u * R / S >= 0.0
  {
    assert u * R >= 0.0;
    NonnegQuotient(u * R / S, S);
  }

  /** P H and S = H . (P H) + R for a symmetric P, in scalar terms. */
  lemma ObservedVariance(P: Mat2, x: real, R: real)
    requires Symmetric(P)
    ensures Apply(P, Observation(x)) == Vec2(P.m00 * x + P.m01, P.m01 * x + P.m11)
    ensures InnovationVariance(P, x, R) == x * (P.m00 * x + P.m01) + (P.m01 * x + P.m11) + R
  {
  }

  /** The entries of P - k v v^T. */
  lemma ShrunkEntries(P: Mat2, v: Vec2, k: real)
    ensures Sub(P, Scale(Outer(v, v), k))
         == Mat2(P.m00 - v.v0 * v.v0 * k, P.m01 - v.v0 * v.v1 * k, P.m10 - v.v0 * v.v1 * k, P.m11 - v.v1 * v.v1 * k)
  {
    var O := Outer(v, v);
    assert O.m10 == O.m01;
    assert Scale(O, k) == Mat2(O.m00 * k, O.m01 * k, O.m01 * k, O.m11 * k);
  }

  /** The re-predicted residual after the state update, in scalar terms. */
  lemma ResidualAlgebra(x: real, s0: real, s1: real, y: real, v0: real, v1: real,
                        k0: real, k1: real, S: real, R: real, e: real)
    requires S > 0.0 && k0 == v0 / S && k1 == v1 / S && x * v0 + v1 + R == S
    requires e == y - (x * s0 + 1.0 * s1)
    ensures y - (x * (s0 + k0 * e) + 1.0 * (s1 + k1 * e)) == e * (R / S)
  {
    var t := x * k0 + k1;
    assert k0 * S == v0 && k1 * S == v1;
    assert t * S == x * (k0 * S) + k1 * S;
    assert (1.0 - t) * S == R;
    assert (R / S) * S == R;
    Cancel(1.0 - t, R / S, S);
    assert y - (x * (s0 + k0 * e) + 1.0 * (s1 + k1 * e)) == e * (1.0 - t);
  }

  /** Scaling by a factor in (0, 1] keeps the sign and does not grow the magnitude. */
  lemma ShrinkBy(e: real, t: real)
    requires 0.0 < t <= 1.0
    ensures e >= 0.0 ==> 0.0 <= e * t <= e
    ensures e <= 0.0 ==> e <= e * t <= 0.0
  {
  }

  /**
   * After an update, the observation is re-predicted with error R / S times
   * the innovation: never larger in magnitude, and of the same sign.
   */
  lemma PosteriorResidual(f: KalmanState, x: real, y: real)
    requires Valid(f)
    ensures var r := Step(f, x, y);
            var S := InnovationVariance(Predict(f).P, x, f.R);
            var post := y - Dot(Observation(x), r.0.state);
            && S > 0.0
            && post == r.1.error * (f.R / S)
            && (r.1.error >= 0.0 ==> 0.0 <= post <= r.1.error)
            && (r.1.error <= 0.0 ==> r.1.error <= post <= 0.0)
  {
    var r := Step(f, x, y);
    PredictKeepsPosSemidef(f);
    var P := Predict(f).P;
    InnovationVariancePositive(P, x, f.R);
    var S := InnovationVariance(P, x, f.R);
    var e := r.1.error;
    assert e == Innovation(f, x, y);
    assert r.0.state == VAdd(f.state, VScale(Gain(P, x, f.R), e));
    ResidualAt(f.state, P, x, y, f.R, e);
    FractionAtMostOne(f.R, S);
    ShrinkBy(e, f.R / S);
  }

  lemma FractionAtMostOne(R: real, S: real)
    requires 0.0 < R <= S
    ensures 0.0 < R / S <= 1.0
  {
    var t := R / S;
    assert t * S == R;
    assert (1.0 - t) * S == S - R;
  }

  /**
   * With process noise delta > 0 the innovation variance exceeds R, so a
   * non-zero innovation is strictly shrunk and keeps its sign.
   */
  lemma PosteriorResidualStrict(f: KalmanState, x: real, y: real)
    requires Valid(f) && f.Q.m00 > 0.0 && Innovation(f, x, y) != 0.0
    ensures var r := Step(f, x, y);
            var post := y - Dot(Observation(x), r.0.state);
            && (r.1.error > 0.0 ==> 0.0 < post < r.1.error)
            && (r.1.error < 0.0 ==> r.1.error < post < 0.0)
  {
    var r := Step(f, x, y);
    var post := y - Dot(Observation(x), r.0.state);
    PosteriorResidual(f, x, y);
    var S := InnovationVariance(Predict(f).P, x, f.R);
    InnovationVariancePositive(f.P, x, f.R);
    NoiseWidensVariance(f.P, f.Q, x, f.R);
    FractionBelowOne(f.R, S);
    ShrinkStrictly(r.1.error, f.R / S, post);
  }

  /** Adding q * I to P adds q * (x^2 + 1) to the innovation variance. */
  lemma NoiseWidensVariance(P: Mat2, Q: Mat2, x: real, R: real)
    requires Q.m01 == 0.0 && Q.m10 == 0.0 && Q.m11 == Q.m00 && Q.m00 > 0.0
    ensures InnovationVariance(Add(P, Q), x, R) > InnovationVariance(P, x, R)
  {
    assert InnovationVariance(Add(P, Q), x, R) == InnovationVariance(P, x, R) + Q.m00 * (x * x + 1.0);
    assert x * x >= 0.0;
  }

  lemma FractionBelowOne(R: real, S: real)
    requires 0.0 < R < S
    ensures 0.0 < R / S < 1.0
  {
    var t := R / S;
    assert t * S == R;
    assert (1.0 - t) * S == S - R;
    PositiveQuotient(t, S);
    PositiveQuotient(1.0 - t, S);
  }

  lemma PositiveQuotient(u: real, S: real)
    requires S > 0.0 && u * S > 0.0
    ensures u > 0.0
  {
  }

  lemma ShrinkStrictly(e: real, t: real, p: real)
    requires 0.0 < t < 1.0 && p == e * t
    ensures e > 0.0 ==> 0.0 < p < e
    ensures e < 0.0 ==> e < p < 0.0
  {
    var u := 1.0 - t;
    assert e - p == e * u;
    if e > 0.0 {
      assert e * t > 0.0;
      assert e * u > 0.0;
    } else if e < 0.0 {
      assert e * t < 0.0;
      assert e * u < 0.0;
    }
  }

  /** PosteriorResidual for any covariance whose innovation variance is positive. */
  lemma ResidualAt(s: Vec2, P: Mat2, x: real, y: real, R: real, e: real)
    requires InnovationVariance(P, x, R) > 0.0 && e == y - Dot(Observation(x), s)
    ensures y - Dot(Observation(x), VAdd(s, VScale(Gain(P, x, R), e))) == e * (R / InnovationVariance(P, x, R))
  {
    var S := InnovationVariance(P, x, R);
    var v := Apply(P, Observation(x));
    var K := Gain(P, x, R);
    assert x * v.v0 + 1.0 * v.v1 + R == S;
    ResidualAlgebra(x, s.v0, s.v1, y, v.v0, v.v1, K.v0, K.v1, S, R, e);
  }

  /** A rank-one matrix w w^T / S is never q * I for q > 0. */
  lemma RankOneIsNotScaledIdentity(w0: real, w1: real, q: real, S: real)
    requires q > 0.0 && S > 0.0
    ensures q - w0 * w0 * (1.0 / S) != 0.0 || q - w1 * w1 * (1.0 / S) != 0.0 || w0 * w1 * (1.0 / S) != 0.0
  {
    if w0 != 0.0 && w1 != 0.0 {
      assert w0 * w1 != 0.0;
      assert 1.0 / S > 0.0;
    }
  }

  /**
   * With delta > 0 an update always moves the covariance, so a second
   * update on the same observation starts from a different filter.
   */
  lemma CovarianceMoves(f: KalmanState, x: real, y: real)
    requires Valid(f) && f.Q.m00 > 0.0
    ensures Step(f, x, y).0.P != f.P
    ensures Step(f, x, y).0 != f
  {
    PredictKeepsPosSemidef(f);
    var P := Predict(f).P;
    PosteriorCovarianceForm(P, x, f.R);
    var S := InnovationVariance(P, x, f.R);
    var v := Apply(P, Observation(x));
    var q := f.Q.m00;
    var P' := Step(f, x, y).0.P;
    assert P' == Sub(P, Scale(Outer(v, v), 1.0 / S));
    RankOneIsNotScaledIdentity(v.v0, v.v1, q, S);
    assert P'.m00 == f.P.m00 + (q - v.v0 * v.v0 * (1.0 / S));
    assert P'.m11 == f.P.m11 + (q - v.v1 * v.v1 * (1.0 / S));
    assert P'.m01 == f.P.m01 - v.v0 * v.v1 * (1.0 / S);
  }

  /**
   * The estimator of math_model.py: its fields are updated in place by
   * Update, which agrees with Step on the fields' old values.
   */
  class KalmanFilterReg {
    var state: Vec2
    var P: Mat2
    var Q: Mat2
    var R: real

    /** The fields as one value, to compare with Step. */
    function Value(): KalmanState
      reads this
    {
      KalmanState(state, P, Q, R)
    }

    constructor (delta: real := DefaultDelta, R: real := DefaultR)
      ensures Value() == Initial(delta, R)
    {
      state := Vec2(0.0, 0.0);
      P := Identity();
      Q := Scale(Identity(), delta);
      this.R := R;
    }

    /** Feed one observation (x, y); returns the new beta and alpha and the innovation. */
    method Update(x: real, y: real) returns (beta: real, alpha: real, error: real)
      requires Valid(Value())
      modifies this
      ensures (Value(), Estimate(beta, alpha, error)) == Step(old(Value()), x, y)
      ensures Valid(Value()) && Q == old(Q) && R == old(R)
      ensures error == y - (x * old(state).v0 + old(state).v1)
      ensures beta == state.v0 && alpha == state.v1
    {
      ghost var before := Value();
      PredictKeepsPosSemidef(before);
      P := Add(P, Q);
      var H := Observation(x);
      var yPred := Dot(H, state);
      error := y - yPred;
      var S := Dot(H, Apply(P, H)) + R;
      InnovationVariancePositive(P, x, R);
      var K := VDiv(Apply(P, H), S);
      state := VAdd(state, VScale(K, error));
      P := Mul(Sub(Identity(), Outer(K, H)), P);
      beta, alpha := state.v0, state.v1;
    }
  }
}
