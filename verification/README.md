# statarb: a Dafny model of the Kalman-filter pairs backtest

This project models the core of the statarb pairs-trading backtest.

The estimator `KalmanFilterReg` (src/math_model.py) tracks a two-state regression `y = alpha + beta * x`. Each `update(x, y)` does three things:

- a predict step, `P := P + Q`;
- the innovation, computed from the state held before the call;
- the gain, the state update and the covariance update `(I - K H) P`.

The engine `Backtester` (src/backtester.py) makes one pass over a table of `(asset_x, asset_y)` prices. On each row it:

- feeds the filter;
- standardises the residual by a 30-row trailing dispersion, into a z-score;
- runs the flat / long / short position machine, with strict entry and inclusive exit;
- marks the position held before the step to market, against the hedged spread `y - beta * x`.

The project has three modules:

- `Matrix2` holds the 2x2 linear algebra that numpy provides. It works over exact reals and proves that the principal-minor test for positive semidefiniteness means what it should.
- `MathModel` has two parts:
  - the pure function `Step`, the specification of one update;
  - the class `KalmanFilterReg`, whose `Update` reassigns its fields in place and is proved to agree with `Step`.
  The lemmas show that one update:
  - keeps `P` symmetric positive semidefinite;
  - has a positive innovation variance, so the gain's division is defined;
  - leaves a posterior residual no farther from zero than the innovation, with the same sign, and strictly closer when `delta > 0` and the innovation is not zero;
  - always changes the covariance when `delta > 0`.
- `Backtest` has two parts:
  - the pure specification:
    - `Transition`, the position machine;
    - `ZScore`/`ZScores`;
    - `Feed`, the filter over the rows;
    - `Positions`;
    - `EquityCurve`, the mark-to-market recurrence;
    - `Simulate`, the loop as a fold.
  - the class `Backtester`. Its `Run` is the source's loop, with its invariants; the loop body is the method `RunRow`, which updates the fields in place and is proved to perform one `RunStep`. `Run` is proved to return:
    - the betas the filter produced;
    - the z-scores of its innovations;
    - the equity curve of the positions those z-scores drive.

## Model

| member | source | states |
|---|---|---|
| Matrix2.QuadFormNonneg | src/math_model.py:37-57 | justifies the PosSemidef predicate of the filter invariant, which the covariance kept by P + Q and (I - K H) P must satisfy: a matrix that passes the principal-minor test has a non-negative quadratic form at every vector |
| Matrix2.NegativeDirection | src/math_model.py:37-57 | justifies the PosSemidef predicate of the filter invariant: a symmetric matrix that fails the minor test has a vector where its quadratic form is negative |
| Matrix2.PosSemidefMeansNonnegForm | src/math_model.py:37-57 | justifies the PosSemidef predicate of the filter invariant: for a symmetric matrix, the minor test holds exactly when the quadratic form is never negative, in both directions |
| MathModel.Initial | src/math_model.py:10-26 | the new filter has state [0, 0], P = I, Q = delta * I and R = R; it satisfies the filter invariant exactly when delta >= 0 and R > 0 |
| MathModel.Step | src/math_model.py:28-60 | one update keeps the invariant and never changes Q or R; its error is y - (x * beta_old + alpha_old), from the state before the update; it returns the new state's beta and alpha |
| MathModel.PredictKeepsPosSemidef | src/math_model.py:34-37 | the predict step leaves the state alone, sets P to P + Q, and keeps P positive semidefinite |
| MathModel.InnovationVariancePositive | src/math_model.py:47-48 | S = H P H^T + R is at least R, so it is positive when R > 0 and the gain's division is defined |
| MathModel.PosteriorCovarianceForm | src/math_model.py:50-57 | the covariance update (I - K H) P equals the symmetric P - (P H)(P H)^T / S |
| MathModel.PosteriorPosSemidef | src/math_model.py:57 | the updated covariance is symmetric positive semidefinite, and its determinant is the old one times R / S |
| MathModel.PosteriorResidual | src/math_model.py:42-54 | re-predicting y from the updated state leaves the innovation times R / S: the same sign as the innovation, and no farther from zero |
| MathModel.PosteriorResidualStrict | src/math_model.py:37-54 | with delta > 0 and a non-zero innovation, S exceeds R, so the posterior residual is strictly closer to zero than the innovation and keeps its sign |
| MathModel.CovarianceMoves | src/math_model.py:37-57 | with delta > 0 an update always changes P, so a second update on the same observation starts from a different filter; update is not idempotent |
| MathModel.KalmanFilterReg.constructor | src/math_model.py:10-26 | the fields of a new filter are Initial(delta, R), with the defaults 1e-5 and 1e-3 |
| MathModel.KalmanFilterReg.Update | src/math_model.py:28-60 | updating the fields in place yields exactly Step on their old values; the invariant, Q and R are kept; it states the error formula and returns the new state's beta and alpha |
| Backtest.Transition | src/backtester.py:47-60 | from flat: short exactly when z > entry, long exactly when z < -entry; long closes exactly when z >= -exit; short closes exactly when z <= exit; an open position never flips |
| Backtest.EntryIsStrict | src/backtester.py:48-52 | a z-score exactly at +entry or -entry leaves a flat book flat |
| Backtest.Positions | src/backtester.py:45-60 | the position machine run over the z-scores from flat gives exactly one position per z-score |
| Backtest.PositionsAt | src/backtester.py:45-60 | each step's position is Transition of the position held entering it and that step's z-score |
| Backtest.PositionsWellFormed | src/backtester.py:45-60 | every position is -1, 0 or 1, and from +-1 the only move is to 0: there is no long-to-short flip in one step |
| Backtest.PopVariance | src/backtester.py:37 | the population variance (ddof = 0) of a window is never negative |
| Backtest.PopVarianceOfConstant | src/backtester.py:37 | a window of equal residuals has that residual as its mean and zero variance |
| Backtest.SpreadScale | src/backtester.py:34-37 | while fewer than 30 residuals are known the scale is 1.0 |
| Backtest.SpreadScaleWindow | src/backtester.py:34-37 | once 30 residuals are known, only the last 30 determine the scale: older residuals in front change nothing |
| Backtest.Standardise | src/backtester.py:39 | the z-score is 0 when the scale is not positive, and otherwise it times the scale is the residual |
| Backtest.ZScore | src/backtester.py:33-39 | with fewer than 30 residuals the z-score is the residual itself; with a non-positive scale it is 0 |
| Backtest.ZScores | src/backtester.py:33-39 | one z-score per residual, and each of the first 29 z-scores equals its residual, since the scale is 1.0 during warm-up |
| Backtest.ConstantWindowScale | src/backtester.py:34-39 | once 30 equal residuals fill the window, the scale and the z-score are 0 |
| Backtest.Feed | src/backtester.py:25-30 | feeding the rows in order keeps the filter invariant and gives one estimate per row |
| Backtest.FeedAt | src/backtester.py:25-30 | estimate t is what the update on row t returns from the filter the earlier rows left |
| Backtest.FeedSnoc | src/backtester.py:30 | feeding one more row is one more update, from the filter the earlier rows left |
| Backtest.FreshFilter | src/backtester.py:8 | a Backtester's default-constructed filter satisfies the filter invariant |
| Backtest.DailyPnl | src/backtester.py:74 | flat earns nothing; long the spread earns dY - beta dX; short the spread earns beta dX - dY |
| Backtest.TotalPnl | src/backtester.py:67-75 | a book held flat entering every step up to t has made no profit by step t |
| Backtest.EquityCurve | src/backtester.py:67-79 | one equity per row |
| Backtest.EquityStart | src/backtester.py:67-77 | the first equity is 100000.0, whatever the prices, betas and positions |
| Backtest.EquityStep | src/backtester.py:45-75 | each later equity is the one before plus the position held entering the step, times (dY - beta_t dX) |
| Backtest.FlatStepKeepsEquity | src/backtester.py:45-75 | a step entered flat leaves the equity unchanged, even if the step opens a trade |
| Backtest.TotalPnlSnoc | src/backtester.py:67-75 | the profit up to step t depends only on the rows, betas and positions up to t |
| Backtest.EquitySnoc | src/backtester.py:67-79 | one more row appends exactly one equity: the last equity plus that row's profit |
| Backtest.RunStepEquity | src/backtester.py:45-79 | one loop iteration keeps the equity column equal to EquityCurve of the rows, betas and positions so far |
| Backtest.RunStep | src/backtester.py:25-81 | one loop iteration appends exactly one entry to the spread history and to each of the three columns |
| Backtest.Simulate | src/backtester.py:25-81 | the loop over the rows, as a fold of RunStep from the empty trace, has one entry per row in every column |
| Backtest.Backtester.RunRow | src/backtester.py:26-81 | the loop body on row i, with the fields updated in place, feeds the filter exactly as Step does and turns the old spreads, columns, position and equity curve into RunStep of them |
| Backtest.SimulateColumns | src/backtester.py:30-80 | the spread column is the filter's errors and the hedge-ratio column is its betas, in row order |
| Backtest.SimulateScores | src/backtester.py:33-81 | the z-score column is ZScores of the spreads; the position left is the last of Positions of those z-scores |
| Backtest.SimulateEquity | src/backtester.py:62-79 | the equity column is EquityCurve of the rows, the hedge ratios and the positions |
| Backtest.SimulateMeetsSpec | src/backtester.py:17-87 | a whole pass meets the column-wise specification: betas, z-scores of the errors, the equity curve, and the final position |
| Backtest.Backtester.constructor | src/backtester.py:6-15 | a new Backtester keeps its data and thresholds (defaults 2.0 and 0.0), starts flat with an empty equity curve, and owns a fresh default filter |
| Backtest.Backtester.Run | src/backtester.py:17-87 | returns three columns with one entry per row; leaves the filter as Feed of the rows; hedge ratios are the betas returned and z-scores are ZScores of the errors; equity equals the stored equity curve, which is EquityCurve under Positions of the z-scores; the final position is the last of those |

## Left out

- app.py is not part of this model. It holds the Streamlit dashboard, the price download and the performance metrics.
- IEEE-754 doubles: every price and matrix entry is an exact `real`. Rounding, overflow, NaN and infinity, and floating-point drift of `P`, are not modelled.
- `np.std` takes a square root, which has no exact counterpart here. The dispersion is the population variance (ddof = 0) of the last 30 residuals. The square root is a parameter `sqrt` of `Run`, so every result holds for any such function. Backtest.ConstantWindowScale additionally assumes `sqrt(0) == 0`.
- Backtest.PopVarianceOfConstant: only the direction "equal residuals give zero variance" is proved; the converse is not.
- pandas: the DataFrame becomes a sequence of `Row(x, y)`. `iterrows` becomes iteration over the sequence. The lookup of the previous row through the index, `get_loc(t) - 1`, becomes `data[i - 1]`. Duplicate or unsorted index labels are not modelled. The returned DataFrame becomes three sequences; its index is not modelled.
- Backtest.Backtester.Run requires a flat position, an empty equity curve and a filter that satisfies its invariant. A freshly constructed Backtester meets all three. A second `run` on the same object would continue from the old equity curve, position and filter; that is not modelled.
- The `cash` field is set and never read; it is not modelled. The state dimension `n = 2` is fixed by the types.
- MathModel.KalmanFilterReg.Update requires the filter invariant: `R > 0`, `P` symmetric positive semidefinite, and `Q = delta * I` with `delta >= 0`. The constructor accepts any `delta` and `R`. With `R <= 0` the innovation variance can be zero, and numpy would then divide by zero. That case is not modelled.
- The code does not validate its configuration or data. The model follows the code here:
  - no threshold is checked for sign;
  - a table with fewer than two rows is not an error: zero rows give empty columns, and one row gives the equity `[100000.0]`;
  - non-finite prices are not detected.
- The code does not symmetrise `P` after an update, and the model does not either. Over exact reals it is proved that the update keeps `P` symmetric.
- The code computes the trailing dispersion with `np.std`, the population standard deviation, not the sample standard deviation; the model follows the code.
- The loop body of `run` is written inline in the source. Here it is the method Backtest.Backtester.RunRow, which `Run` calls once per row; the statements and their order are the same.
- The comment about burning the first 20 days has no code behind it. Every row feeds the filter and the trade logic from the first row on.
- Backtest.Positions: its own contract states only one position per z-score. What each position is, is stated by Backtest.PositionsAt and Backtest.PositionsWellFormed.
- Backtest.EquityCurve: its own contract states only one equity per row. The values are stated by Backtest.EquityStart and Backtest.EquityStep.
- Backtest.RunStep: its own contract states only the lengths. What one iteration computes is stated by Backtest.Backtester.RunRow, and what a whole pass computes by Backtest.SimulateMeetsSpec.
- Backtest.Simulate: its own contract states only the lengths. The column-wise content is stated by Backtest.SimulateMeetsSpec.
