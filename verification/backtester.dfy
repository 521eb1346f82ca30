/**
 * The event-driven backtest of backtester.py: one pass over the price rows
 * that feeds the filter, standardises its innovation into a z-score, runs
 * the flat / long / short position machine and marks the position to market.
 *
 * The pure functions below specify each part (Transition, ZScore, Feed,
 * Positions, EquityCurve); the class Backtester runs the loop in place and
 * Run is proved to produce exactly what they describe.
 */
module Backtest {
  import opened MathModel

  /** One row of the aligned price table: asset_x and asset_y. */
  datatype Row = Row(x: real, y: real)

  /** The equity of the first row. */
  const InitialEquity: real := 100000.0

  /** The number of trailing residuals whose dispersion scales the z-score. */
  const Window: nat := 30

  /** 1 is long the spread, -1 short the spread, 0 flat. */
  predicate IsPosition(p: int) {
    p == -1 || p == 0 || p == 1
  }

  // ---------------------------------------------------------------------
  // The position machine
  // ---------------------------------------------------------------------

  /**
   * The mean-reversion rule: from flat, a z-score strictly above entry sells
   * the spread and one strictly below -entry buys it; a long position closes
   * once z >= -exit, a short one once z <= exit.
   */
  function Transition(position: int, z: real, entry: real, exit: real): (next: int)
    ensures IsPosition(position) ==> IsPosition(next)
    ensures position != 0 ==> next == position || next == 0
    ensures position == 0 ==> (next == -1 <==> z > entry)
    ensures position == 0 ==> (next == 1 <==> !(z > entry) && z < -entry)
    ensures position == 1 ==> (next == 0 <==> z >= -exit)
    ensures position == -1 ==> (next == 0 <==> z <= exit)
    ensures !IsPosition(position) ==> next == position
  {
    if position == 0 then
      if z > entry then -1 else if z < -entry then 1 else 0
    else if position == 1 then
      if z >= -exit then 0 else 1
    else if position == -1 then
      if z <= exit then 0 else -1
    else
      position
  }

  /** Entry is strict: a z-score exactly at +-entry leaves a flat book flat. */
  lemma EntryIsStrict(entry: real, exit: real)
    requires entry >= 0.0
    ensures Transition(0, entry, entry, exit) == 0
    ensures Transition(0, -entry, entry, exit) == 0
  {
  }

  /** The position after each step, starting flat. */
  function Positions(zs: seq<real>, entry: real, exit: real): (ps: seq<int>)
    ensures |ps| == |zs|
    decreases |zs|
  {
    if zs == [] then []
    else
      var prev := Positions(zs[..|zs| - 1], entry, exit);
      prev + [Transition(Held(prev, |prev|), zs[|zs| - 1], entry, exit)]
  }

  /** One more z-score is one more Transition from the last position. */
  lemma PositionsSnoc(zs: seq<real>, z: real, entry: real, exit: real)
    ensures var ps := Positions(zs, entry, exit);
            Positions(zs + [z], entry, exit) == ps + [Transition(Held(ps, |zs|), z, entry, exit)]
  {
    assert (zs + [z])[..|zs|] == zs;
  }

  /** The position held entering step t: flat before the first step. */
  function Held(ps: seq<int>, t: nat): int
    requires t <= |ps|
  {
    if t == 0 then 0 else ps[t - 1]
  }

  lemma {:induction false} PositionsPrefix(zs: seq<real>, entry: real, exit: real, m: nat)
    requires m <= |zs|
    ensures Positions(zs[..m], entry, exit) == Positions(zs, entry, exit)[..m]
    decreases |zs|
  {
    if m < |zs| {
      var n := |zs| - 1;
      assert zs[..n][..m] == zs[..m];
      PositionsPrefix(zs[..n], entry, exit, m);
    } else {
      assert zs[..m] == zs;
    }
  }

  /** Step t applies Transition to the position held entering it and z-score t. */
  lemma PositionsAt(zs: seq<real>, entry: real, exit: real, t: nat)
    requires t < |zs|
    ensures var ps := Positions(zs, entry, exit);
            ps[t] == Transition(Held(ps, t), zs[t], entry, exit)
  {
    var ps := Positions(zs, entry, exit);
    PositionsPrefix(zs, entry, exit, t + 1);
    PositionsPrefix(zs, entry, exit, t);
    assert zs[..t + 1][..t] == zs[..t];
  }

  /**
   * Every position is -1, 0 or 1, and an open position only ever closes:
   * there is no long-to-short or short-to-long flip within one step.
   */
  predicate NoFlip(ps: seq<int>) {
    && (forall t :: 0 <= t < |ps| ==> IsPosition(ps[t]))
    && (forall t :: 0 < t < |ps| && ps[t - 1] != 0 ==> ps[t] == ps[t - 1] || ps[t] == 0)
  }

  lemma {:induction false} PositionsWellFormed(zs: seq<real>, entry: real, exit: real)
    ensures NoFlip(Positions(zs, entry, exit))
    decreases |zs|
  {
    if zs != [] {
      var n := |zs| - 1;
      var prev := Positions(zs[..n], entry, exit);
      var ps := Positions(zs, entry, exit);
      PositionsWellFormed(zs[..n], entry, exit);
      var held := Held(prev, n);
      assert ps == prev + [Transition(held, zs[n], entry, exit)];
      assert IsPosition(held) by {
        if n > 0 {
          assert IsPosition(prev[n - 1]);
        }
      }
      forall t | 0 <= t < |ps|
        ensures IsPosition(ps[t])
      {
        if t < n {
          assert ps[t] == prev[t];
        }
      }
      forall t | 0 < t < |ps| && ps[t - 1] != 0
        ensures ps[t] == ps[t - 1] || ps[t] == 0
      {
        if t < n {
          assert ps[t] == prev[t] && ps[t - 1] == prev[t - 1];
        } else {
          assert ps[t - 1] == held;
        }
      }
    }
  }

  // ---------------------------------------------------------------------
  // Spread dispersion and z-score
  // ---------------------------------------------------------------------

  function Sum(w: seq<real>): real
    decreases |w|
  {
    if w == [] then 0.0 else Sum(w[..|w| - 1]) + w[|w| - 1]
  }

  function Mean(w: seq<real>): real
    requires |w| > 0
  {
    Sum(w) / |w| as real
  }

  /** The sum of the squared deviations from m. */
  function SquaredDeviations(w: seq<real>, m: real): (s: real)
    ensures s >= 0.0
    decreases |w|
  {
    if w == [] then 0.0
    else
      SquareNonneg(w[|w| - 1] - m);
      SquaredDeviations(w[..|w| - 1], m) + (w[|w| - 1] - m) * (w[|w| - 1] - m)
  }

  /** The population variance (numpy's default ddof = 0): np.std is its square root. */
  function PopVariance(w: seq<real>): (v: real)
    requires |w| > 0
    ensures v >= 0.0
  {
    SquaredDeviations(w, Mean(w)) / |w| as real
  }

  predicate Constant(w: seq<real>) {
    forall i :: 0 <= i < |w| ==> w[i] == w[0]
  }

  lemma SquareNonneg(u: real)
    ensures u * u >= 0.0
  {
  }

  /** Every deviation from m is zero, so their squares sum to zero. */
  lemma {:induction false} SquaredDeviationsOfConstant(w: seq<real>, m: real)
    requires forall i :: 0 <= i < |w| ==> w[i] == m
    ensures SquaredDeviations(w, m) == 0.0
    decreases |w|
  {
    if w != [] {
      var n := |w| - 1;
      assert forall i :: 0 <= i < n ==> w[..n][i] == m;
      SquaredDeviationsOfConstant(w[..n], m);
      assert w[n] - m == 0.0;
    }
  }

  lemma {:induction false} SumOfConstant(w: seq<real>, c: real)
    requires forall i :: 0 <= i < |w| ==> w[i] == c
    ensures Sum(w) == |w| as real * c
    decreases |w|
  {
    if w != [] {
      var n := |w| - 1;
      assert forall i :: 0 <= i < n ==> w[..n][i] == c;
      SumOfConstant(w[..n], c);
    }
  }

  /** A window of equal residuals has mean equal to them and zero population variance. */
  lemma PopVarianceOfConstant(w: seq<real>)
    requires |w| > 0 && Constant(w)
    ensures Mean(w) == w[0]
    ensures PopVariance(w) == 0.0
  {
    SumOfConstant(w, w[0]);
    SquaredDeviationsOfConstant(w, w[0]);
  }

  /**
   * The spread scale: 1.0 while fewer than Window residuals are known,
   * afterwards the standard deviation of the last Window of them, where
   * sqrt stands for the square root np.std takes.
   */
  function SpreadScale(spreads: seq<real>, sqrt: real -> real): (scale: real)
    ensures |spreads| < Window ==> scale == 1.0
  {
    if |spreads| < Window then 1.0
    else sqrt(PopVariance(spreads[|spreads| - Window..]))
  }

  /** Once the window is full, residuals older than the last Window do not move the scale. */
  lemma SpreadScaleWindow(older: seq<real>, spreads: seq<real>, sqrt: real -> real)
    requires |spreads| >= Window
    ensures SpreadScale(older + spreads, sqrt) == SpreadScale(spreads, sqrt)
  {
    var all := older + spreads;
    assert all[|all| - Window..] == spreads[|spreads| - Window..];
  }

  /** The residual over the scale when the scale is positive, otherwise 0. */
  function Standardise(e: real, scale: real): (z: real)
    ensures scale <= 0.0 ==> z == 0.0
    ensures scale > 0.0 ==> z * scale == e
  {
    if scale > 0.0 then e / scale else 0.0
  }

  /** The latest residual standardised by the spread scale. */
  function ZScore(spreads: seq<real>, sqrt: real -> real): (z: real)
    requires |spreads| > 0
    ensures |spreads| < Window ==> z == spreads[|spreads| - 1]
    ensures SpreadScale(spreads, sqrt) <= 0.0 ==> z == 0.0
  {
    Standardise(spreads[|spreads| - 1], SpreadScale(spreads, sqrt))
  }

  /**
   * Once the window is full and the last Window residuals are all equal,
   * their standard deviation is the square root of zero, so (when sqrt
   * maps 0 to 0) the scale is zero and so is the z-score.
   */
  lemma ConstantWindowScale(spreads: seq<real>, sqrt: real -> real)
    requires |spreads| >= Window && sqrt(0.0) == 0.0
    requires Constant(spreads[|spreads| - Window..])
    ensures SpreadScale(spreads, sqrt) == 0.0
    ensures ZScore(spreads, sqrt) == 0.0
  {
    PopVarianceOfConstant(spreads[|spreads| - Window..]);
  }

  /** The z-score after each step: z-score t sees the residuals up to and including t. */
  function ZScores(spreads: seq<real>, sqrt: real -> real): (zs: seq<real>)
    ensures |zs| == |spreads|
    ensures forall t :: 0 <= t < |zs| && t + 1 < Window ==> zs[t] == spreads[t]
  {
    seq(|spreads|, t requires 0 <= t < |spreads| => ZScore(spreads[..t + 1], sqrt))
  }

  lemma ZScoresSnoc(spreads: seq<real>, e: real, sqrt: real -> real)
    ensures ZScores(spreads + [e], sqrt) == ZScores(spreads, sqrt) + [ZScore(spreads + [e], sqrt)]
  {
    var s := spreads + [e];
    forall t | 0 <= t < |spreads|
      ensures ZScores(s, sqrt)[t] == ZScores(spreads, sqrt)[t]
    {
      assert s[..t + 1] == spreads[..t + 1];
    }
    assert s[..|s|] == s;
  }

  // ---------------------------------------------------------------------
  // The filter over the rows
  // ---------------------------------------------------------------------

  /** The filter after feeding rows in order from f0, and what each update returned. */
  function Feed(f0: KalmanState, rows: seq<Row>): (r: (KalmanState, seq<Estimate>))
    requires Valid(f0)
    ensures Valid(r.0) && |r.1| == |rows|
    decreases |rows|
  {
    if rows == [] then (f0, [])
    else
      var prev := Feed(f0, rows[..|rows| - 1]);
      var step := Step(prev.0, rows[|rows| - 1].x, rows[|rows| - 1].y);
      (step.0, prev.1 + [step.1])
  }

  /** Estimate t is what the update on row t returned, from the filter left by rows 0..t-1. */
  lemma {:induction false} FeedAt(f0: KalmanState, rows: seq<Row>, t: nat)
    requires Valid(f0) && t < |rows|
    ensures Feed(f0, rows).1[t] == Step(Feed(f0, rows[..t]).0, rows[t].x, rows[t].y).1
    decreases |rows|
  {
    var n := |rows| - 1;
    if t < n {
      FeedAt(f0, rows[..n], t);
      assert rows[..n][..t] == rows[..t];
    } else {
      assert rows[..n] == rows[..t];
    }
  }

  /** Feeding one more row is one more Step, from the filter the earlier rows left. */
  lemma FeedSnoc(f0: KalmanState, rows: seq<Row>, i: nat, f: KalmanState, next: KalmanState, e: Estimate)
    requires Valid(f0) && i < |rows| && f == Feed(f0, rows[..i]).0
    requires (next, e) == Step(f, rows[i].x, rows[i].y)
    ensures Feed(f0, rows[..i + 1]) == (next, Feed(f0, rows[..i]).1 + [e])
  {
    PrefixOfPrefix(rows, i);
  }

  /** The prefix of length i + 1, cut back to length i, is the prefix of length i. */
  lemma PrefixOfPrefix<T>(s: seq<T>, i: nat)
    requires i < |s|
    ensures s[..i + 1][..i] == s[..i] && s[..i + 1][i] == s[i] && |s[..i + 1]| == i + 1
  {
  }


  function Betas(es: seq<Estimate>): (bs: seq<real>) {
    seq(|es|, t requires 0 <= t < |es| => es[t].beta)
  }

  function Errors(es: seq<Estimate>): (rs: seq<real>) {
    seq(|es|, t requires 0 <= t < |es| => es[t].error)
  }

  lemma ColumnsSnoc(es: seq<Estimate>, e: Estimate)
    ensures Betas(es + [e]) == Betas(es) + [e.beta]
    ensures Errors(es + [e]) == Errors(es) + [e.error]
  {
  }

  // ---------------------------------------------------------------------
  // Mark to market
  // ---------------------------------------------------------------------

  /**
   * The profit of step t > 0: the position held entering the step times the
   * change of y less beta_t times the change of x, with beta_t the hedge
   * ratio of the same step.
   */
  function Pnl(rows: seq<Row>, betas: seq<real>, ps: seq<int>, t: nat): real
    requires 0 < t < |rows| == |betas| == |ps|
  {
    DailyPnl(Held(ps, t), rows[t].y - rows[t - 1].y, rows[t].x - rows[t - 1].x, betas[t])
  }

  /** The position times the change of the hedged spread y - beta * x. */
  function DailyPnl(position: int, pxChangeY: real, pxChangeX: real, beta: real): (pnl: real)
    ensures position == 0 ==> pnl == 0.0
    ensures position == 1 ==> pnl == pxChangeY - beta * pxChangeX
    ensures position == -1 ==> pnl == beta * pxChangeX - pxChangeY
  {
    position as real * (pxChangeY - beta * pxChangeX)
  }

  /** The profit of steps 1..t together. */
  function TotalPnl(rows: seq<Row>, betas: seq<real>, ps: seq<int>, t: nat): (total: real)
    requires t < |rows| == |betas| == |ps|
    ensures (forall k :: 0 <= k < t ==> ps[k] == 0) ==> total == 0.0
  {
    if t == 0 then 0.0 else TotalPnl(rows, betas, ps, t - 1) + Pnl(rows, betas, ps, t)
  }

  /** The equity after each step: the starting equity plus every profit so far. */
  function EquityCurve(rows: seq<Row>, betas: seq<real>, ps: seq<int>): (eq: seq<real>)
    requires |rows| == |betas| == |ps|
    ensures |eq| == |rows|
  {
    seq(|rows|, t requires 0 <= t < |rows| => InitialEquity + TotalPnl(rows, betas, ps, t))
  }

  /** The first equity is InitialEquity whatever the prices, betas and positions. */
  lemma EquityStart(rows: seq<Row>, betas: seq<real>, ps: seq<int>)
    requires |rows| == |betas| == |ps| && |rows| > 0
    ensures EquityCurve(rows, betas, ps)[0] == InitialEquity
  {
  }

  /** Every later equity adds that step's Pnl to the one before, as the loop does. */
  lemma EquityStep(rows: seq<Row>, betas: seq<real>, ps: seq<int>, t: nat)
    requires |rows| == |betas| == |ps| && 0 < t < |rows|
    ensures var eq := EquityCurve(rows, betas, ps);
            eq[t] == eq[t - 1] + Pnl(rows, betas, ps, t)
  {
  }

  /** Holding no position into a step leaves the equity unchanged, even if the step opens a trade. */
  lemma FlatStepKeepsEquity(rows: seq<Row>, betas: seq<real>, ps: seq<int>, t: nat)
    requires |rows| == |betas| == |ps| && 0 < t < |rows| && Held(ps, t) == 0
    ensures EquityCurve(rows, betas, ps)[t] == EquityCurve(rows, betas, ps)[t - 1]
  {
    EquityStep(rows, betas, ps, t);
  }

  /** The profit up to step t only looks at rows, betas and positions up to t. */
  lemma {:induction false} TotalPnlSnoc(rows: seq<Row>, betas: seq<real>, ps: seq<int>, r: Row, b: real, p: int, t: nat)
    requires t < |rows| == |betas| == |ps|
    ensures TotalPnl(rows + [r], betas + [b], ps + [p], t) == TotalPnl(rows, betas, ps, t)
  {
    if t > 0 {
      TotalPnlSnoc(rows, betas, ps, r, b, p, t - 1);
      assert Held(ps + [p], t) == Held(ps, t);
    }
  }

  /** Appending a row to a non-empty history adds one entry: the last equity plus that row's profit. */
  lemma EquitySnoc(rows: seq<Row>, betas: seq<real>, ps: seq<int>, r: Row, b: real, p: int)
    requires |rows| == |betas| == |ps| > 0
    ensures var n, eq := |rows|, EquityCurve(rows, betas, ps);
            EquityCurve(rows + [r], betas + [b], ps + [p])
              == eq + [eq[n - 1] + DailyPnl(ps[n - 1], r.y - rows[n - 1].y, r.x - rows[n - 1].x, b)]
  {
    var n := |rows|;
    var eq, eq' := EquityCurve(rows, betas, ps), EquityCurve(rows + [r], betas + [b], ps + [p]);
    forall t | 0 <= t < n
      ensures eq'[t] == eq[t]
    {
      TotalPnlSnoc(rows, betas, ps, r, b, p, t);
    }
    TotalPnlSnoc(rows, betas, ps, r, b, p, n - 1);
  }

  // ---------------------------------------------------------------------
  // The engine
  // ---------------------------------------------------------------------

  /** The filter a new Backtester owns. */
  function FreshFilter(): (f: KalmanState)
    ensures Valid(f)
  {
    Initial(DefaultDelta, DefaultR)
  }

  /**
   * What the loop of Backtester.run has built after some rows besides the
   * filter: the spread history, the three output columns so far and the
   * position held.
   */
  datatype Trace = Trace(spreads: seq<real>, hedgeRatios: seq<real>, zScores: seq<real>,
                         position: int, equity: seq<real>)

  /** A trace whose columns all have one entry per row seen. */
  predicate Consistent(s: Trace, n: nat) {
    |s.spreads| == n && |s.hedgeRatios| == n && |s.zScores| == n && |s.equity| == n
  }

  /**
   * One iteration of the loop in Backtester.run on row `row`, whose
   * predecessor is `prev`, given what the filter update returned for it.
   */
  function RunStep(s: Trace, row: Row, prev: Row, est: Estimate,
                   sqrt: real -> real, entry: real, exit: real): (r: Trace)
    ensures |r.spreads| == |s.spreads| + 1 && |r.hedgeRatios| == |s.hedgeRatios| + 1
    ensures |r.zScores| == |s.zScores| + 1 && |r.equity| == |s.equity| + 1
  {
    var spreads := s.spreads + [est.error];
    var z := ZScore(spreads, sqrt);
    var e := if |s.equity| > 0
             then s.equity[|s.equity| - 1] + DailyPnl(s.position, row.y - prev.y, row.x - prev.x, est.beta)
             else InitialEquity;
    Trace(spreads, s.hedgeRatios + [est.beta], s.zScores + [z],
          Transition(s.position, z, entry, exit), s.equity + [e])
  }

  /** One pass of the loop body, with its intermediate values named, is RunStep. */
  lemma RunIteration(s: Trace, row: Row, prev: Row, est: Estimate, sqrt: real -> real, entry: real, exit: real,
                     spreads: seq<real>, z: real, position: int, e: real)
    requires spreads == s.spreads + [est.error]
    requires z == Standardise(est.error, SpreadScale(spreads, sqrt))
    requires position == Transition(s.position, z, entry, exit)
    requires |s.equity| > 0 ==> e == s.equity[|s.equity| - 1] + DailyPnl(s.position, row.y - prev.y, row.x - prev.x, est.beta)
    requires |s.equity| == 0 ==> e == InitialEquity
    ensures RunStep(s, row, prev, est, sqrt, entry, exit)
         == Trace(spreads, s.hedgeRatios + [est.beta], s.zScores + [z], position, s.equity + [e])
  {
  }

  /** The row before row i, or row i itself when there is none. */
  function Previous(rows: seq<Row>, i: nat): Row
    requires i < |rows|
  {
    if i > 0 then rows[i - 1] else rows[i]
  }

  /**
   * The trace after the loop has run over rows, starting from a fresh
   * Backtester, when the filter update on row t returned es[t].
   */
  function Simulate(rows: seq<Row>, es: seq<Estimate>, sqrt: real -> real, entry: real, exit: real): (s: Trace)
    requires |es| == |rows|
    ensures Consistent(s, |rows|)
    decreases |rows|
  {
    if rows == [] then Trace([], [], [], 0, [])
    else
      var n := |rows| - 1;
      RunStep(Simulate(rows[..n], es[..n], sqrt, entry, exit), rows[n], Previous(rows, n), es[n], sqrt, entry, exit)
  }

  /** The spread and hedge-ratio columns of a pass are the errors and betas the filter returned. */
  lemma {:induction false} SimulateColumns(rows: seq<Row>, es: seq<Estimate>, sqrt: real -> real, entry: real, exit: real)
    requires |es| == |rows|
    ensures var s := Simulate(rows, es, sqrt, entry, exit);
            s.spreads == Errors(es) && s.hedgeRatios == Betas(es)
    decreases |rows|
  {
    if rows != [] {
      var n := |rows| - 1;
      var prev := Simulate(rows[..n], es[..n], sqrt, entry, exit);
      var s := Simulate(rows, es, sqrt, entry, exit);
      assert s == RunStep(prev, rows[n], Previous(rows, n), es[n], sqrt, entry, exit);
      assert s.spreads == prev.spreads + [es[n].error];
      assert s.hedgeRatios == prev.hedgeRatios + [es[n].beta];
      SimulateColumns(rows[..n], es[..n], sqrt, entry, exit);
      assert prev.spreads == Errors(es[..n]);
      ColumnsSnoc(es[..n], es[n]);
      assert es[..n] + [es[n]] == es;
      assert s.spreads == Errors(es);
      assert s.hedgeRatios == Betas(es);
    }
  }


  /** The z-score column of a pass is ZScores of its spreads, and it ends holding the last of Positions of those. */
  lemma {:induction false} SimulateScores(rows: seq<Row>, es: seq<Estimate>, sqrt: real -> real, entry: real, exit: real)
    requires |es| == |rows|
    ensures var s := Simulate(rows, es, sqrt, entry, exit);
            s.zScores == ZScores(s.spreads, sqrt)
            && s.position == Held(Positions(s.zScores, entry, exit), |rows|)
    decreases |rows|
  {
    if rows != [] {
      var n := |rows| - 1;
      var prev := Simulate(rows[..n], es[..n], sqrt, entry, exit);
      SimulateScores(rows[..n], es[..n], sqrt, entry, exit);
      ZScoresSnoc(prev.spreads, es[n].error, sqrt);
      PositionsSnoc(prev.zScores, ZScore(prev.spreads + [es[n].error], sqrt), entry, exit);
    }
  }

  /** Appending one element and cutting back to the old length gives the sequence back. */
  lemma SnocPrefix<T>(s: seq<T>, x: T)
    ensures (s + [x])[..|s|] == s && (s + [x])[|s|] == x
  {
  }

  /** The prefix of a sequence up to its length is the whole sequence. */
  lemma WholePrefix<T>(s: seq<T>)
    ensures s[..|s|] == s
  {
  }

  /** A non-empty sequence is its prefix with its last element appended. */
  lemma LastSplit<T>(s: seq<T>)
    requires |s| > 0
    ensures s[..|s| - 1] + [s[|s| - 1]] == s
  {
  }

  /** A non-empty pass is one loop iteration after the pass over all rows but the last. */
  lemma SimulateLast(rows: seq<Row>, es: seq<Estimate>, sqrt: real -> real, entry: real, exit: real)
    requires |es| == |rows| > 0
    ensures var n := |rows| - 1;
            Simulate(rows, es, sqrt, entry, exit)
              == RunStep(Simulate(rows[..n], es[..n], sqrt, entry, exit), rows[n], Previous(rows, n), es[n], sqrt, entry, exit)
  {
  }

  /** The pass over rows 0..i is one loop iteration after the pass over rows 0..i-1. */
  lemma SimulateSnoc(rows: seq<Row>, es: seq<Estimate>, est: Estimate, i: nat,
                     sqrt: real -> real, entry: real, exit: real)
    requires |es| == i < |rows|
    ensures Simulate(rows[..i + 1], es + [est], sqrt, entry, exit)
         == RunStep(Simulate(rows[..i], es, sqrt, entry, exit), rows[i], Previous(rows, i), est, sqrt, entry, exit)
  {
    PrefixOfPrefix(rows, i);
    SnocPrefix(es, est);
  }

  /** One loop iteration extends the equity curve by the mark-to-market of the position it held. */
  lemma RunStepEquity(rows: seq<Row>, est: Estimate, prev: Trace, sqrt: real -> real, entry: real, exit: real)
    requires |rows| > 0 && Consistent(prev, |rows| - 1)
    requires var n := |rows| - 1;
             prev.equity == EquityCurve(rows[..n], prev.hedgeRatios, Positions(prev.zScores, entry, exit))
             && prev.position == Held(Positions(prev.zScores, entry, exit), n)
    ensures var n := |rows| - 1;
            var s := RunStep(prev, rows[n], Previous(rows, n), est, sqrt, entry, exit);
            s.equity == EquityCurve(rows, s.hedgeRatios, Positions(s.zScores, entry, exit))
  {
    var n, ps := |rows| - 1, Positions(prev.zScores, entry, exit);
    var s := RunStep(prev, rows[n], Previous(rows, n), est, sqrt, entry, exit);
    PositionsSnoc(prev.zScores, s.zScores[n], entry, exit);
    assert s.zScores == prev.zScores + [s.zScores[n]];
    LastSplit(rows);
    if n > 0 {
      EquitySnoc(rows[..n], prev.hedgeRatios, ps, rows[n], est.beta, s.position);
    }
  }

  /** The equity column of a pass is EquityCurve of its rows, hedge ratios and positions. */
  lemma {:induction false} SimulateEquity(rows: seq<Row>, es: seq<Estimate>, sqrt: real -> real, entry: real, exit: real)
    requires |es| == |rows|
    ensures var s := Simulate(rows, es, sqrt, entry, exit);
            s.equity == EquityCurve(rows, s.hedgeRatios, Positions(s.zScores, entry, exit))
    decreases |rows|
  {
    if rows != [] {
      var n := |rows| - 1;
      var prev := Simulate(rows[..n], es[..n], sqrt, entry, exit);
      SimulateEquity(rows[..n], es[..n], sqrt, entry, exit);
      SimulateScores(rows[..n], es[..n], sqrt, entry, exit);
      SimulateLast(rows, es, sqrt, entry, exit);
      RunStepEquity(rows, es[n], prev, sqrt, entry, exit);
    }
  }

  /**
   * A whole pass meets the column-wise specification: the hedge ratios are
   * the betas, the z-scores are ZScores of the errors, the equity is
   * EquityCurve under Positions of those z-scores, and the position left is
   * the last of those positions.
   */
  lemma SimulateMeetsSpec(rows: seq<Row>, es: seq<Estimate>, sqrt: real -> real, entry: real, exit: real)
    requires |es| == |rows|
    ensures var s := Simulate(rows, es, sqrt, entry, exit);
            var ps := Positions(s.zScores, entry, exit);
            && s.hedgeRatios == Betas(es)
            && s.zScores == ZScores(Errors(es), sqrt)
            && s.equity == EquityCurve(rows, s.hedgeRatios, ps)
            && s.position == Held(ps, |ps|)
  {
    SimulateColumns(rows, es, sqrt, entry, exit);
    SimulateScores(rows, es, sqrt, entry, exit);
    SimulateEquity(rows, es, sqrt, entry, exit);
  }

  class Backtester {
    const data: seq<Row>
    const kf: KalmanFilterReg
    const entryThreshold: real
    const exitThreshold: real
    var position: int
    var equityCurve: seq<real>

    constructor (data: seq<Row>, entryThreshold: real := 2.0, exitThreshold: real := 0.0)
      ensures this.data == data
      ensures this.entryThreshold == entryThreshold && this.exitThreshold == exitThreshold
      ensures fresh(kf) && kf.Value() == FreshFilter()
      ensures position == 0 && equityCurve == []
    {
      this.data := data;
      this.entryThreshold := entryThreshold;
      this.exitThreshold := exitThreshold;
      position := 0;
      equityCurve := [];
      kf := new KalmanFilterReg();
    }

    /**
     * The body of the loop of run on row i: feeds the row to the filter,
     * appends the residual to the spread history and the hedge ratio and
     * z-score to their columns, moves the position and appends the day's
     * equity; all of it is one RunStep.
     */
    method RunRow(i: nat, spreads: seq<real>, hedgeRatios: seq<real>, zScores: seq<real>, sqrt: real -> real)
      returns (spreads': seq<real>, hedgeRatios': seq<real>, zScores': seq<real>, ghost est: Estimate)
      requires i < |data| && |equityCurve| == i && Valid(kf.Value())
      modifies this, kf
      ensures (kf.Value(), est) == Step(old(kf.Value()), data[i].x, data[i].y)
      ensures Trace(spreads', hedgeRatios', zScores', position, equityCurve)
           == RunStep(Trace(spreads, hedgeRatios, zScores, old(position), old(equityCurve)),
                      data[i], Previous(data, i), est, sqrt, entryThreshold, exitThreshold)
    {
      ghost var before := Trace(spreads, hedgeRatios, zScores, position, equityCurve);
      var xPrice, yPrice := data[i].x, data[i].y;
      var beta, alpha, spreadError := kf.Update(xPrice, yPrice);
      assert kf as object != this;
      est := Estimate(beta, alpha, spreadError);

      spreads' := spreads + [spreadError];
      var stdSpread := SpreadScale(spreads', sqrt);
      var zScore := Standardise(spreadError, stdSpread);

      var prevPosition := position;
      position := Transition(position, zScore, entryThreshold, exitThreshold);

      var currEquity;
      if |equityCurve| > 0 {
        var pxChangeY := yPrice - data[i - 1].y;
        var pxChangeX := xPrice - data[i - 1].x;
        var dailyPnl := DailyPnl(prevPosition, pxChangeY, pxChangeX, beta);
        currEquity := equityCurve[|equityCurve| - 1] + dailyPnl;
      } else {
        currEquity := InitialEquity;
      }
      equityCurve := equityCurve + [currEquity];
      hedgeRatios' := hedgeRatios + [beta];
      zScores' := zScores + [zScore];
      RunIteration(before, data[i], Previous(data, i), est, sqrt, entryThreshold, exitThreshold,
                   spreads', zScore, position, currEquity);
    }

    /**
     * One pass over data on a freshly constructed Backtester; returns the
     * equity, hedge-ratio and z-score columns, one entry per row.
     */
    method Run(sqrt: real -> real) returns (equity: seq<real>, hedgeRatios: seq<real>, zScores: seq<real>)
      requires position == 0 && equityCurve == [] && Valid(kf.Value())
      modifies this, kf
      ensures |equity| == |data| && |hedgeRatios| == |data| && |zScores| == |data|
      ensures var fed := Feed(old(kf.Value()), data);
              && kf.Value() == fed.0
              && hedgeRatios == Betas(fed.1)
              && zScores == ZScores(Errors(fed.1), sqrt)
      ensures var ps := Positions(zScores, entryThreshold, exitThreshold);
              && equity == equityCurve == EquityCurve(data, hedgeRatios, ps)
              && position == Held(ps, |ps|)
    {
      ghost var f0 := kf.Value();
      ghost var es: seq<Estimate> := [];
      hedgeRatios := [];
      var spreads := [];
      zScores := [];
      var i := 0;
      while i < |data|
        invariant 0 <= i <= |data|
        invariant (kf.Value(), es) == Feed(f0, data[..i])
        invariant Trace(spreads, hedgeRatios, zScores, position, equityCurve) == Simulate(data[..i], es, sqrt, entryThreshold, exitThreshold)
      {
        ghost var filter := kf.Value();
        ghost var est;
        spreads, hedgeRatios, zScores, est := RunRow(i, spreads, hedgeRatios, zScores, sqrt);
        FeedSnoc(f0, data, i, filter, kf.Value(), est);
        SimulateSnoc(data, es, est, i, sqrt, entryThreshold, exitThreshold);
        es := es + [est];
        i := i + 1;
      }
      equity := equityCurve;
      WholePrefix(data);
      SimulateMeetsSpec(data, es, sqrt, entryThreshold, exitThreshold);
    }
  }
}
