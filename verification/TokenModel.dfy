/** The token model fits of frontend/src/services/tokenModel.ts: normal equations, ridge term, solve, clamp.
    Real arithmetic is exact here; rounding of machine floats is not part of this model. */
module TokenModel {
  import opened Wrappers
  import opened LinearSystem

  const RIDGE: real := 0.000001
  const MIN_SAMPLES_TO_TRUST: nat := 8

  /** One observation: the feature row and the token count that the provider reported for it. */
  datatype Sample = Sample(row: Vec, actual: real)

  datatype TextStats = TextStats(asciiBytes: nat, nonAsciiChars: nat)
  datatype TokenModelSample = TokenModelSample(id: string, stats: TextStats, messageCount: nat, actual: real)
  datatype TokenOutputSample = TokenOutputSample(id: string, stats: TextStats, actual: real)

  datatype TokenCoefficients = TokenCoefficients(
    intercept: real, asciiPerByte: real, nonAsciiPerChar: real, perMessage: real)
  datatype OutputCoefficients = OutputCoefficients(asciiPerByte: real, nonAsciiPerChar: real)

  function InputObservation(s: TokenModelSample): (o: Sample)
    ensures |o.row| == 4
  {
    Sample([1.0, s.stats.asciiBytes as real, s.stats.nonAsciiChars as real, s.messageCount as real], s.actual)
  }

  function OutputObservation(s: TokenOutputSample): (o: Sample)
    ensures |o.row| == 2
  {
    Sample([s.stats.asciiBytes as real, s.stats.nonAsciiChars as real], s.actual)
  }

  ghost predicate Observations(samples: seq<Sample>, n: nat) {
    forall s | s in samples :: |s.row| == n
  }

  // ---------- What a fit minimises ----------

  ghost function SquaredError(samples: seq<Sample>, n: nat, beta: Vec): real
    requires Observations(samples, n) && |beta| == n
  {
    if |samples| == 0 then 0.0
    else
      var last := samples[|samples| - 1];
      var residual := last.actual - Dot(last.row, beta);
      SquaredError(samples[..|samples| - 1], n, beta) + Times(residual, residual)
  }

  ghost function RidgeLoss(samples: seq<Sample>, n: nat, beta: Vec): real
    requires Observations(samples, n) && |beta| == n
  {
    SquaredError(samples, n, beta) + RIDGE * Dot(beta, beta)
  }

  /** `beta` is the one vector of least ridge loss. */
  ghost predicate IsRidgeMinimiser(samples: seq<Sample>, n: nat, beta: Vec)
    requires Observations(samples, n)
  {
    && |beta| == n
    && forall gamma: Vec | |gamma| == n && gamma != beta ::
         RidgeLoss(samples, n, beta) < RidgeLoss(samples, n, gamma)
  }

  // ---------- The normal equations ----------

  ghost function Gram(samples: seq<Sample>, n: nat, i: nat, j: nat): real
    requires Observations(samples, n) && i < n && j < n
  {
    if |samples| == 0 then 0.0
    else
      var last := samples[|samples| - 1];
      Gram(samples[..|samples| - 1], n, i, j) + Times(last.row[i], last.row[j])
  }

  ghost function Moment(samples: seq<Sample>, n: nat, i: nat): real
    requires Observations(samples, n) && i < n
  {
    if |samples| == 0 then 0.0
    else
      var last := samples[|samples| - 1];
      Moment(samples[..|samples| - 1], n, i) + Times(last.row[i], last.actual)
  }

  ghost predicate IsNormalSystem(samples: seq<Sample>, n: nat, xtx: Matrix, xty: Vec)
    requires Observations(samples, n)
  {
    && Shape(xtx, n, n) && |xty| == n
    && (forall i, j | 0 <= i < n && 0 <= j < n ::
          xtx[i][j] == Gram(samples, n, i, j) + if i == j then RIDGE else 0.0)
    && forall i | 0 <= i < n :: xty[i] == Moment(samples, n, i)
  }

  /** Sum over the samples of (row . u) (row . w). */
  ghost function Cross(samples: seq<Sample>, n: nat, u: Vec, w: Vec): real
    requires Observations(samples, n) && |u| == |w| == n
  {
    if |samples| == 0 then 0.0
    else
      var last := samples[|samples| - 1];
      Cross(samples[..|samples| - 1], n, u, w) + Times(Dot(last.row, u), Dot(last.row, w))
  }

  /** Sum over the samples of actual (row . u). */
  ghost function CrossActual(samples: seq<Sample>, n: nat, u: Vec): real
    requires Observations(samples, n) && |u| == n
  {
    if |samples| == 0 then 0.0
    else
      var last := samples[|samples| - 1];
      CrossActual(samples[..|samples| - 1], n, u) + Times(last.actual, Dot(last.row, u))
  }

  ghost function Image(m: Matrix, w: Vec): (r: Vec)
    requires forall i | 0 <= i < |m| :: |m[i]| == |w|
    ensures |r| == |m| && forall i | 0 <= i < |m| :: r[i] == Dot(m[i], w)
  {
    seq(|m|, i requires 0 <= i < |m| => Dot(m[i], w))
  }

  /** v + c x, entry by entry. */
  function AddScaled(v: Vec, c: real, x: Vec): (r: Vec)
    requires |v| == |x|
    ensures |r| == |v| && forall i | 0 <= i < |v| :: r[i] == v[i] + Times(c, x[i])
  {
    RowSub(v, -c, x)
  }

  lemma DotAddScaled(w: Vec, v: Vec, c: real, x: Vec)
    requires |w| == |v| == |x|
    ensures Dot(AddScaled(v, c, x), w) == Dot(v, w) + Times(c, Dot(x, w))
    ensures Dot(w, AddScaled(v, c, x)) == Dot(w, v) + Times(c, Dot(w, x))
  {
    hide Times, Dot;
    DotRowSub(v, -c, x, w);
    TimesNegated(c, Dot(x, w));
    DotSymmetric(w, AddScaled(v, c, x));
    DotSymmetric(w, v);
    DotSymmetric(w, x);
  }

  ghost function GramRow(samples: seq<Sample>, n: nat, i: nat): (r: Vec)
    requires Observations(samples, n) && i < n
    ensures |r| == n && forall j | 0 <= j < n :: r[j] == Gram(samples, n, i, j)
  {
    seq(n, j requires 0 <= j < n => Gram(samples, n, i, j))
  }

  ghost function GramMatrix(samples: seq<Sample>, n: nat): (m: Matrix)
    requires Observations(samples, n)
    ensures Shape(m, n, n) && forall i | 0 <= i < n :: m[i] == GramRow(samples, n, i)
  {
    seq(n, i requires 0 <= i < n => GramRow(samples, n, i))
  }

  ghost function MomentVec(samples: seq<Sample>, n: nat): (r: Vec)
    requires Observations(samples, n)
    ensures |r| == n && forall i | 0 <= i < n :: r[i] == Moment(samples, n, i)
  {
    seq(n, i requires 0 <= i < n => Moment(samples, n, i))
  }

  lemma GramRowStep(samples: seq<Sample>, n: nat, i: nat)
    requires Observations(samples, n) && |samples| > 0 && i < n
    ensures var rest, last := samples[..|samples| - 1], samples[|samples| - 1];
            GramRow(samples, n, i) == AddScaled(GramRow(rest, n, i), last.row[i], last.row)
  {
    hide Times;
    var rest, last := samples[..|samples| - 1], samples[|samples| - 1];
    forall j | 0 <= j < n
      ensures GramRow(samples, n, i)[j] == AddScaled(GramRow(rest, n, i), last.row[i], last.row)[j]
    {
      assert Gram(samples, n, i, j) == Gram(rest, n, i, j) + Times(last.row[i], last.row[j]);
    }
  }

  /** Adding one sample adds a multiple of its row to the image of every vector. */
  lemma GramImageStep(samples: seq<Sample>, n: nat, w: Vec)
    requires Observations(samples, n) && |w| == n && |samples| > 0
    ensures var rest, last := samples[..|samples| - 1], samples[|samples| - 1];
            Image(GramMatrix(samples, n), w)
            == AddScaled(Image(GramMatrix(rest, n), w), Dot(last.row, w), last.row)
  {
    hide Times, Dot, Gram;
    var rest, last := samples[..|samples| - 1], samples[|samples| - 1];
    var d := Dot(last.row, w);
    var image := Image(GramMatrix(samples, n), w);
    var after := AddScaled(Image(GramMatrix(rest, n), w), d, last.row);
    forall i | 0 <= i < n ensures image[i] == after[i] {
      GramRowStep(samples, n, i);
      DotAddScaled(w, GramRow(rest, n, i), last.row[i], last.row);
      TimesSymmetric(last.row[i], d);
    }
  }

  /** u . (X^T X) w is the cross sum: the Gram matrix represents the samples. */
  lemma {:induction false} GramRepresents(samples: seq<Sample>, n: nat, u: Vec, w: Vec)
    requires Observations(samples, n) && |u| == |w| == n
    ensures Dot(u, Image(GramMatrix(samples, n), w)) == Cross(samples, n, u, w)
  {
    hide Times, Dot;
    var image := Image(GramMatrix(samples, n), w);
    if |samples| == 0 {
      forall i | 0 <= i < n ensures image[i] == 0.0 {
        DotZero(GramRow(samples, n, i), w);
      }
      DotZero(u, image);
    } else {
      var rest, last := samples[..|samples| - 1], samples[|samples| - 1];
      GramRepresents(rest, n, u, w);
      GramImageStep(samples, n, w);
      var d := Dot(last.row, w);
      DotAddScaled(u, Image(GramMatrix(rest, n), w), d, last.row);
      DotSymmetric(u, last.row);
      TimesSymmetric(d, Dot(last.row, u));
    }
  }

  lemma {:induction false} MomentRepresents(samples: seq<Sample>, n: nat, u: Vec)
    requires Observations(samples, n) && |u| == n
    ensures Dot(u, MomentVec(samples, n)) == CrossActual(samples, n, u)
  {
    hide Times, Dot;
    var moment := MomentVec(samples, n);
    if |samples| == 0 {
      DotZero(u, moment);
    } else {
      var rest, last := samples[..|samples| - 1], samples[|samples| - 1];
      MomentRepresents(rest, n, u);
      var after := AddScaled(MomentVec(rest, n), last.actual, last.row);
      forall i | 0 <= i < n ensures moment[i] == after[i] {
        TimesSymmetric(last.row[i], last.actual);
      }
      assert moment == after;
      DotAddScaled(u, MomentVec(rest, n), last.actual, last.row);
      DotSymmetric(u, last.row);
    }
  }

  /** Row `i` of the ridge system, applied to `w`. */
  lemma NormalRow(samples: seq<Sample>, n: nat, xtx: Matrix, xty: Vec, w: Vec, i: nat)
    requires Observations(samples, n) && IsNormalSystem(samples, n, xtx, xty) && |w| == n && i < n
    ensures Dot(xtx[i], w) == Dot(GramRow(samples, n, i), w) + RIDGE * w[i]
  {
    hide Times, Dot;
    var unit := seq(n, j requires 0 <= j < n => if j == i then 1.0 else 0.0);
    forall j | 0 <= j < n ensures xtx[i][j] == AddScaled(GramRow(samples, n, i), RIDGE, unit)[j] {
      TimesZero(RIDGE, unit[j]);
    }
    assert xtx[i] == AddScaled(GramRow(samples, n, i), RIDGE, unit);
    DotAddScaled(w, GramRow(samples, n, i), RIDGE, unit);
    DotSingle(unit, w, i);
    TimesZero(w[i], 0.0);
    TimesRidge(w[i]);
  }

  lemma TimesRidge(x: real)
    ensures Times(RIDGE, x) == RIDGE * x
  {}

  lemma NormalSystemRepresents(samples: seq<Sample>, n: nat, xtx: Matrix, xty: Vec, u: Vec, w: Vec)
    requires Observations(samples, n) && IsNormalSystem(samples, n, xtx, xty) && |u| == |w| == n
    ensures Dot(u, Image(xtx, w)) == Cross(samples, n, u, w) + RIDGE * Dot(u, w)
  {
    hide Times, Dot;
    var plain := Image(GramMatrix(samples, n), w);
    forall i | 0 <= i < n ensures Image(xtx, w)[i] == AddScaled(plain, RIDGE, w)[i] {
      NormalRow(samples, n, xtx, xty, w, i);
      TimesRidge(w[i]);
    }
    assert Image(xtx, w) == AddScaled(plain, RIDGE, w);
    DotAddScaled(u, plain, RIDGE, w);
    TimesRidge(Dot(u, w));
    GramRepresents(samples, n, u, w);
  }

  // ---------- A solution of the normal equations is the minimiser ----------

  /** Moving from `beta` by `delta` changes the squared error by an exact second-order formula. */
  lemma {:induction false} ErrorExpansion(samples: seq<Sample>, n: nat, beta: Vec, delta: Vec)
    requires Observations(samples, n) && |beta| == |delta| == n
    ensures SquaredError(samples, n, AddScaled(beta, 1.0, delta))
         == SquaredError(samples, n, beta)
            - 2.0 * (CrossActual(samples, n, delta) - Cross(samples, n, delta, beta))
            + Cross(samples, n, delta, delta)
  {
    hide Times, Dot;
    if |samples| > 0 {
      var last := samples[|samples| - 1];
      ErrorExpansion(samples[..|samples| - 1], n, beta, delta);
      DotAddScaled(last.row, beta, 1.0, delta);
      TimesZero(Dot(last.row, delta), 0.0);
      SquareOfDifference(last.actual, Dot(last.row, beta), Dot(last.row, delta));
    }
  }

  lemma SquareOfDifference(y: real, p: real, d: real)
    ensures Times(y - (p + d), y - (p + d))
         == Times(y - p, y - p) - 2.0 * (Times(y, d) - Times(d, p)) + Times(d, d)
  {
    var e := y - p;
    assert (e - d) * (e - d) == e * e - 2.0 * (e * d) + d * d;
    assert e * d == y * d - d * p;
  }

  lemma {:induction false} CrossNonNegative(samples: seq<Sample>, n: nat, u: Vec)
    requires Observations(samples, n) && |u| == n
    ensures Cross(samples, n, u, u) >= 0.0
  {
    hide Times, Dot;
    if |samples| > 0 {
      CrossNonNegative(samples[..|samples| - 1], n, u);
      NonNegativeSquare(Dot(samples[|samples| - 1].row, u));
    }
  }

  lemma NonNegativeSquare(x: real)
    ensures Times(x, x) >= 0.0 && (x != 0.0 ==> Times(x, x) > 0.0)
  {
    hide Times;
    TimesZero(x, x);
    TimesNegated(x, x);
    TimesNegated(x, -x);
    if x > 0.0 {
      PositiveProduct(x, x);
    } else if x < 0.0 {
      PositiveProduct(-x, -x);
    }
  }

  lemma {:induction false} NormBoundsEntry(v: Vec, i: nat)
    requires i < |v|
    ensures Dot(v, v) >= Times(v[i], v[i])
  {
    hide Times;
    NonNegativeSquare(v[0]);
    NormNonNegative(v[1..]);
    if i > 0 {
      NormBoundsEntry(v[1..], i - 1);
    }
  }

  lemma {:induction false} NormNonNegative(v: Vec)
    ensures Dot(v, v) >= 0.0
  {
    hide Times;
    if |v| > 0 {
      NonNegativeSquare(v[0]);
      NormNonNegative(v[1..]);
    }
  }

  lemma NormOfSum(u: Vec, v: Vec)
    requires |u| == |v|
    ensures Dot(AddScaled(u, 1.0, v), AddScaled(u, 1.0, v)) == Dot(u, u) + 2.0 * Dot(v, u) + Dot(v, v)
  {
    hide Times, Dot;
    var w := AddScaled(u, 1.0, v);
    DotAddScaled(w, u, 1.0, v);
    DotAddScaled(u, u, 1.0, v);
    DotAddScaled(v, u, 1.0, v);
    DotSymmetric(u, v);
    TimesZero(Dot(w, v), 0.0);
    TimesZero(Dot(u, v), 0.0);
    TimesZero(Dot(v, v), 0.0);
  }

  /** At a solution of the normal equations the first-order term vanishes. */
  lemma GradientVanishes(samples: seq<Sample>, n: nat, xtx: Matrix, xty: Vec, beta: Vec, delta: Vec)
    requires Observations(samples, n) && IsNormalSystem(samples, n, xtx, xty)
    requires |beta| == |delta| == n && Solves(xtx, beta, xty)
    ensures CrossActual(samples, n, delta) == Cross(samples, n, delta, beta) + RIDGE * Dot(delta, beta)
  {
    hide Times, Dot;
    assert Image(xtx, beta) == MomentVec(samples, n);
    MomentRepresents(samples, n, delta);
    NormalSystemRepresents(samples, n, xtx, xty, delta, beta);
  }

  /** The loss at `beta + delta` exceeds the loss at the solution by a positive definite form in `delta`. */
  lemma LossAround(samples: seq<Sample>, n: nat, xtx: Matrix, xty: Vec, beta: Vec, delta: Vec)
    requires Observations(samples, n) && IsNormalSystem(samples, n, xtx, xty)
    requires |beta| == |delta| == n && Solves(xtx, beta, xty)
    ensures RidgeLoss(samples, n, AddScaled(beta, 1.0, delta))
         == RidgeLoss(samples, n, beta) + Cross(samples, n, delta, delta) + RIDGE * Dot(delta, delta)
  {
    hide Times, Dot, SquaredError, Cross, CrossActual;
    ErrorExpansion(samples, n, beta, delta);
    GradientVanishes(samples, n, xtx, xty, beta, delta);
    NormOfSum(beta, delta);
  }

  lemma LossGrows(samples: seq<Sample>, n: nat, xtx: Matrix, xty: Vec, beta: Vec, gamma: Vec)
    requires Observations(samples, n) && IsNormalSystem(samples, n, xtx, xty)
    requires |beta| == |gamma| == n && gamma != beta && Solves(xtx, beta, xty)
    ensures RidgeLoss(samples, n, beta) < RidgeLoss(samples, n, gamma)
  {
    hide Times, Dot, SquaredError, Cross;
    var delta := seq(n, i requires 0 <= i < n => gamma[i] - beta[i]);
    forall i | 0 <= i < n ensures gamma[i] == AddScaled(beta, 1.0, delta)[i] {
      TimesZero(delta[i], 0.0);
    }
    assert gamma == AddScaled(beta, 1.0, delta);
    LossAround(samples, n, xtx, xty, beta, delta);
    CrossNonNegative(samples, n, delta);
    var i :| 0 <= i < n && gamma[i] != beta[i];
    NonNegativeSquare(delta[i]);
    NormBoundsEntry(delta, i);
  }

  /** Solving the normal equations finds the one minimiser of the ridge loss. */
  lemma NormalEquationsMinimise(samples: seq<Sample>, n: nat, xtx: Matrix, xty: Vec, beta: Vec)
    requires Observations(samples, n) && IsNormalSystem(samples, n, xtx, xty)
    requires |beta| == n && Solves(xtx, beta, xty)
    ensures IsRidgeMinimiser(samples, n, beta)
  {
    forall gamma: Vec | |gamma| == n && gamma != beta
      ensures RidgeLoss(samples, n, beta) < RidgeLoss(samples, n, gamma)
    {
      LossGrows(samples, n, xtx, xty, beta, gamma);
    }
  }

  // ---------- The ridge term rules out a null answer ----------

  /** Entries of `w` below `bound` in size: u . w is at most bound (n + u . u) / 2. */
  lemma {:induction false} SmallImage(u: Vec, w: Vec, bound: real)
    requires |u| == |w| && bound >= 0.0
    requires forall i | 0 <= i < |w| :: -bound <= w[i] <= bound
    ensures 2.0 * Dot(u, w) <= Times(bound, |u| as real + Dot(u, u))
  {
    hide Times;
    if |u| == 0 {
      TimesZero(bound, 0.0);
    } else {
      SmallImage(u[1..], w[1..], bound);
      TwiceProduct(u[0], w[0], bound);
      TimesDistributes(bound, 1.0 + Times(u[0], u[0]), (|u| - 1) as real + Dot(u[1..], u[1..]));
    }
  }

  lemma TimesDistributes(x: real, y: real, z: real)
    ensures Times(x, y + z) == Times(x, y) + Times(x, z)
  {}

  lemma TwiceProduct(x: real, y: real, bound: real)
    requires -bound <= y <= bound
    ensures 2.0 * Times(x, y) <= Times(bound, 1.0 + Times(x, x))
  {
    assert (x - 1.0) * (x - 1.0) == x * x - 2.0 * x + 1.0;
    assert (x + 1.0) * (x + 1.0) == x * x + 2.0 * x + 1.0;
    var a, b := (bound + y) / 2.0, (bound - y) / 2.0;
    NonNegativeProduct(a, (x - 1.0) * (x - 1.0));
    NonNegativeProduct(b, (x + 1.0) * (x + 1.0));
    assert a * (x * x - 2.0 * x + 1.0) + b * (x * x + 2.0 * x + 1.0)
        == (a + b) * (1.0 + x * x) - 2.0 * (x * (a - b));
  }

  /** With at most 1000 features the ridge term alone keeps every direction out of the near-kernel. */
  lemma RidgeAlwaysSolves(samples: seq<Sample>, n: nat, xtx: Matrix, xty: Vec, outcome: Option<Vec>)
    requires Observations(samples, n) && n <= 1000
    requires IsNormalSystem(samples, n, xtx, xty) && SolverOutcome(xtx, xty, outcome)
    ensures outcome.Some?
  {
    hide Times, Dot, Cross;
    if outcome.None? {
      var v: Vec :| NearKernel(xtx, n, v);
      var c: nat :| LeadsAt(v, c);
      NormBoundsEntry(v, c);
      TimesZero(v[c], 0.0);
      SmallImage(v, Image(xtx, v), PIVOT_GUARD);
      NormalSystemRepresents(samples, n, xtx, xty, v, v);
      CrossNonNegative(samples, n, v);
      TimesGuard(n as real + Dot(v, v));
      assert false;
    }
  }

  lemma TimesGuard(x: real)
    ensures Times(PIVOT_GUARD, x) == PIVOT_GUARD * x
  {}

  // ---------- The fits ----------

  /** Accumulates X^T X and X^T y sample by sample, then adds the ridge term. */
  method NormalEquations(samples: seq<Sample>, size: nat) returns (xtx: Matrix, xty: Vec)
    requires Observations(samples, size)
    ensures IsNormalSystem(samples, size, xtx, xty)
  {
    hide Times;
    xtx := seq(size, _ => seq(size, _ => 0.0));
    xty := seq(size, _ => 0.0);
    for k := 0 to |samples|
      invariant Shape(xtx, size, size) && |xty| == size
      invariant forall i, j | 0 <= i < size && 0 <= j < size :: xtx[i][j] == Gram(samples[..k], size, i, j)
      invariant forall i | 0 <= i < size :: xty[i] == Moment(samples[..k], size, i)
    {
      assert samples[..k + 1][..k] == samples[..k];
      xtx, xty := Accumulate(samples[k], size, xtx, xty);
    }
    assert samples[..|samples|] == samples;
    ghost var plain := xtx;
    for i := 0 to size
      invariant Shape(xtx, size, size)
      invariant forall r, j | 0 <= r < size && 0 <= j < size ::
          xtx[r][j] == plain[r][j] + if r == j && r < i then RIDGE else 0.0
    {
      xtx := xtx[i := xtx[i][i := xtx[i][i] + RIDGE]];
    }
  }

  method Accumulate(sample: Sample, size: nat, xtx0: Matrix, xty0: Vec) returns (xtx: Matrix, xty: Vec)
    requires |sample.row| == size && Shape(xtx0, size, size) && |xty0| == size
    ensures Shape(xtx, size, size) && |xty| == size
    ensures forall i, j | 0 <= i < size && 0 <= j < size ::
              xtx[i][j] == xtx0[i][j] + Times(sample.row[i], sample.row[j])
    ensures forall i | 0 <= i < size :: xty[i] == xty0[i] + Times(sample.row[i], sample.actual)
  {
    hide Times;
    xtx, xty := xtx0, xty0;
    for i := 0 to size
      invariant Shape(xtx, size, size) && |xty| == size
      invariant forall r, j | 0 <= r < i && 0 <= j < size ::
          xtx[r][j] == xtx0[r][j] + Times(sample.row[r], sample.row[j])
      invariant forall r | i <= r < size :: xtx[r] == xtx0[r]
      invariant forall r | 0 <= r < size ::
          xty[r] == xty0[r] + if r < i then Times(sample.row[r], sample.actual) else 0.0
    {
      xty := xty[i := xty[i] + Times(sample.row[i], sample.actual)];
      ghost var before := xtx;
      for j := 0 to size
        invariant Shape(xtx, size, size)
        invariant forall r | 0 <= r < size && r != i :: xtx[r] == before[r]
        invariant forall c | 0 <= c < j :: xtx[i][c] == before[i][c] + Times(sample.row[i], sample.row[c])
        invariant forall c | j <= c < size :: xtx[i][c] == before[i][c]
      {
        xtx := xtx[i := xtx[i][j := xtx[i][j] + Times(sample.row[i], sample.row[j])]];
      }
    }
  }

  /** `result` is `value` when it lies in the range, and otherwise the end of the range next to it. */
  predicate IsClamped(result: real, value: real, min: real, max: real) {
    (value < min && result == min) || (min <= value <= max && result == value) || (value > max && result == max)
  }

  predicate IsClampedInput(r: TokenCoefficients, c: TokenCoefficients) {
    && IsClamped(r.intercept, c.intercept, 0.0, 20000.0) && IsClamped(r.asciiPerByte, c.asciiPerByte, 0.1, 0.5)
    && IsClamped(r.nonAsciiPerChar, c.nonAsciiPerChar, 0.5, 3.0) && IsClamped(r.perMessage, c.perMessage, 0.0, 20.0)
  }

  predicate IsClampedOutput(r: OutputCoefficients, c: OutputCoefficients) {
    IsClamped(r.asciiPerByte, c.asciiPerByte, 0.1, 0.5) && IsClamped(r.nonAsciiPerChar, c.nonAsciiPerChar, 0.5, 3.0)
  }

  function Clamp(value: real, min: real, max: real): real {
    var low := if min < value then value else min;
    if max < low then max else low
  }

  function ClampCoefficients(c: TokenCoefficients): (r: TokenCoefficients)
    ensures IsClampedInput(r, c)
  {
    TokenCoefficients(
      Clamp(c.intercept, 0.0, 20000.0),
      Clamp(c.asciiPerByte, 0.1, 0.5),
      Clamp(c.nonAsciiPerChar, 0.5, 3.0),
      Clamp(c.perMessage, 0.0, 20.0))
  }

  function ClampOutputCoefficients(c: OutputCoefficients): (r: OutputCoefficients)
    ensures IsClampedOutput(r, c)
  {
    OutputCoefficients(Clamp(c.asciiPerByte, 0.1, 0.5), Clamp(c.nonAsciiPerChar, 0.5, 3.0))
  }

  function InputObservations(samples: seq<TokenModelSample>): (o: seq<Sample>)
    ensures |o| == |samples| && forall i | 0 <= i < |o| :: o[i] == InputObservation(samples[i])
  {
    seq(|samples|, i requires 0 <= i < |samples| => InputObservation(samples[i]))
  }

  function OutputObservations(samples: seq<TokenOutputSample>): (o: seq<Sample>)
    ensures |o| == |samples| && forall i | 0 <= i < |o| :: o[i] == OutputObservation(samples[i])
  {
    seq(|samples|, i requires 0 <= i < |samples| => OutputObservation(samples[i]))
  }

  // What the fits are for, over the fields of samples and coefficients.

  ghost function InputResidual(s: TokenModelSample, c: TokenCoefficients): real {
    s.actual - (c.intercept + c.asciiPerByte * s.stats.asciiBytes as real
                + c.nonAsciiPerChar * s.stats.nonAsciiChars as real + c.perMessage * s.messageCount as real)
  }

  ghost function OutputResidual(s: TokenOutputSample, c: OutputCoefficients): real {
    s.actual - (c.asciiPerByte * s.stats.asciiBytes as real + c.nonAsciiPerChar * s.stats.nonAsciiChars as real)
  }

  ghost function InputError(samples: seq<TokenModelSample>, c: TokenCoefficients): real {
    if |samples| == 0 then 0.0
    else
      var residual := InputResidual(samples[|samples| - 1], c);
      InputError(samples[..|samples| - 1], c) + residual * residual
  }

  ghost function OutputError(samples: seq<TokenOutputSample>, c: OutputCoefficients): real {
    if |samples| == 0 then 0.0
    else
      var residual := OutputResidual(samples[|samples| - 1], c);
      OutputError(samples[..|samples| - 1], c) + residual * residual
  }

  ghost function InputLoss(samples: seq<TokenModelSample>, c: TokenCoefficients): real {
    InputError(samples, c)
    + RIDGE * (c.intercept * c.intercept + c.asciiPerByte * c.asciiPerByte
               + c.nonAsciiPerChar * c.nonAsciiPerChar + c.perMessage * c.perMessage)
  }

  ghost function OutputLoss(samples: seq<TokenOutputSample>, c: OutputCoefficients): real {
    OutputError(samples, c) + RIDGE * (c.asciiPerByte * c.asciiPerByte + c.nonAsciiPerChar * c.nonAsciiPerChar)
  }

  /** `c` predicts the input samples best: every other choice of the four coefficients has a greater loss. */
  ghost predicate IsInputFit(samples: seq<TokenModelSample>, c: TokenCoefficients) {
    forall d: TokenCoefficients | d != c :: InputLoss(samples, c) < InputLoss(samples, d)
  }

  ghost predicate IsOutputFit(samples: seq<TokenOutputSample>, c: OutputCoefficients) {
    forall d: OutputCoefficients | d != c :: OutputLoss(samples, c) < OutputLoss(samples, d)
  }

  function InputVector(c: TokenCoefficients): Vec {
    [c.intercept, c.asciiPerByte, c.nonAsciiPerChar, c.perMessage]
  }

  function OutputVector(c: OutputCoefficients): Vec {
    [c.asciiPerByte, c.nonAsciiPerChar]
  }

  lemma InputVectorsDiffer(c: TokenCoefficients, d: TokenCoefficients)
    ensures InputVector(c) == InputVector(d) ==> c == d
  {
    assert InputVector(c)[0] == c.intercept && InputVector(c)[1] == c.asciiPerByte
        && InputVector(c)[2] == c.nonAsciiPerChar && InputVector(c)[3] == c.perMessage;
  }

  lemma OutputVectorsDiffer(c: OutputCoefficients, d: OutputCoefficients)
    ensures OutputVector(c) == OutputVector(d) ==> c == d
  {
    assert OutputVector(c)[0] == c.asciiPerByte && OutputVector(c)[1] == c.nonAsciiPerChar;
  }

  lemma DotOfTwo(a: real, b: real, x: real, y: real)
    ensures Dot([a, b], [x, y]) == a * x + b * y
  {
    assert [a, b][1..] == [b] && [x, y][1..] == [y] && [b][1..] == [] && [y][1..] == [];
    assert Dot([b], [y]) == b * y;
  }

  lemma DotOfFour(a: real, b: real, c: real, d: real, x: real, y: real, z: real, w: real)
    ensures Dot([a, b, c, d], [x, y, z, w]) == a * x + b * y + c * z + d * w
  {
    DotOfTwo(c, d, z, w);
    assert [a, b, c, d][1..] == [b, c, d] && [b, c, d][1..] == [c, d];
    assert [x, y, z, w][1..] == [y, z, w] && [y, z, w][1..] == [z, w];
    assert Dot([b, c, d], [y, z, w]) == b * y + Dot([c, d], [z, w]);
  }

  lemma TimesIs(x: real, y: real)
    ensures Times(x, y) == x * y == y * x
  {}

  lemma InputDot(s: TokenModelSample, c: TokenCoefficients)
    ensures var o := InputObservation(s);
            var residual := o.actual - Dot(o.row, InputVector(c));
            residual == InputResidual(s, c) && Times(residual, residual) == InputResidual(s, c) * InputResidual(s, c)
  {
    hide Dot, Times;
    DotOfFour(1.0, s.stats.asciiBytes as real, s.stats.nonAsciiChars as real, s.messageCount as real,
              c.intercept, c.asciiPerByte, c.nonAsciiPerChar, c.perMessage);
    TimesIs(InputResidual(s, c), InputResidual(s, c));
  }

  lemma OutputDot(s: TokenOutputSample, c: OutputCoefficients)
    ensures var o := OutputObservation(s);
            var residual := o.actual - Dot(o.row, OutputVector(c));
            residual == OutputResidual(s, c) && Times(residual, residual) == OutputResidual(s, c) * OutputResidual(s, c)
  {
    hide Dot, Times;
    DotOfTwo(s.stats.asciiBytes as real, s.stats.nonAsciiChars as real, c.asciiPerByte, c.nonAsciiPerChar);
    TimesIs(OutputResidual(s, c), OutputResidual(s, c));
  }

  lemma {:induction false} InputErrorIs(samples: seq<TokenModelSample>, c: TokenCoefficients)
    ensures SquaredError(InputObservations(samples), 4, InputVector(c)) == InputError(samples, c)
  {
    hide Dot, Times, InputResidual, InputObservation;
    if |samples| > 0 {
      var last, rest := samples[|samples| - 1], samples[..|samples| - 1];
      InputErrorIs(rest, c);
      InputDot(last, c);
      assert InputObservations(samples)[..|rest|] == InputObservations(rest);
    }
  }

  lemma {:induction false} OutputErrorIs(samples: seq<TokenOutputSample>, c: OutputCoefficients)
    ensures SquaredError(OutputObservations(samples), 2, OutputVector(c)) == OutputError(samples, c)
  {
    hide Dot, Times, OutputResidual, OutputObservation;
    if |samples| > 0 {
      var last, rest := samples[|samples| - 1], samples[..|samples| - 1];
      OutputErrorIs(rest, c);
      OutputDot(last, c);
      assert OutputObservations(samples)[..|rest|] == OutputObservations(rest);
    }
  }

  lemma InputLossIs(samples: seq<TokenModelSample>, c: TokenCoefficients)
    ensures RidgeLoss(InputObservations(samples), 4, InputVector(c)) == InputLoss(samples, c)
  {
    hide SquaredError, InputError, Dot;
    InputErrorIs(samples, c);
    DotOfFour(c.intercept, c.asciiPerByte, c.nonAsciiPerChar, c.perMessage,
              c.intercept, c.asciiPerByte, c.nonAsciiPerChar, c.perMessage);
  }

  lemma OutputLossIs(samples: seq<TokenOutputSample>, c: OutputCoefficients)
    ensures RidgeLoss(OutputObservations(samples), 2, OutputVector(c)) == OutputLoss(samples, c)
  {
    hide SquaredError, OutputError, Dot;
    OutputErrorIs(samples, c);
    DotOfTwo(c.asciiPerByte, c.nonAsciiPerChar, c.asciiPerByte, c.nonAsciiPerChar);
  }

  /** The minimiser over vectors is the best fit over coefficients, each in its own field. */
  lemma InputFitIs(samples: seq<TokenModelSample>, c: TokenCoefficients)
    requires IsRidgeMinimiser(InputObservations(samples), 4, InputVector(c))
    ensures IsInputFit(samples, c)
  {
    hide RidgeLoss, InputLoss;
    InputLossIs(samples, c);
    forall d: TokenCoefficients | d != c ensures InputLoss(samples, c) < InputLoss(samples, d) {
      InputLossIs(samples, d);
      InputVectorsDiffer(c, d);
    }
  }

  lemma OutputFitIs(samples: seq<TokenOutputSample>, c: OutputCoefficients)
    requires IsRidgeMinimiser(OutputObservations(samples), 2, OutputVector(c))
    ensures IsOutputFit(samples, c)
  {
    hide RidgeLoss, OutputLoss;
    OutputLossIs(samples, c);
    forall d: OutputCoefficients | d != c ensures OutputLoss(samples, c) < OutputLoss(samples, d) {
      OutputLossIs(samples, d);
      OutputVectorsDiffer(c, d);
    }
  }

  /** The fit is null below eight samples and otherwise the best fit, each coefficient put in its range: it never fails. */
  method FitCoefficients(samples: seq<TokenModelSample>) returns (coeffs: Option<TokenCoefficients>)
    ensures coeffs.None? <==> |samples| < MIN_SAMPLES_TO_TRUST
    ensures coeffs.Some? ==> exists c :: IsInputFit(samples, c) && IsClampedInput(coeffs.value, c)
  {
    hide IsInputFit, IsRidgeMinimiser, IsClampedInput, ClampCoefficients, InputObservation, Dot;
    if |samples| < MIN_SAMPLES_TO_TRUST {
      return None;
    }
    var observed := InputObservations(samples);
    var xtx, xty := NormalEquations(observed, 4);
    var solution := SolveLinearSystem(xtx, xty);
    RidgeAlwaysSolves(observed, 4, xtx, xty, solution);
    match solution
    case None => return None;
    case Some(beta) =>
      NormalEquationsMinimise(observed, 4, xtx, xty, beta);
      var fitted := TokenCoefficients(beta[0], beta[1], beta[2], beta[3]);
      assert InputVector(fitted) == beta;
      InputFitIs(samples, fitted);
      coeffs := Some(ClampCoefficients(fitted));
  }

  method FitOutputCoefficients(samples: seq<TokenOutputSample>) returns (coeffs: Option<OutputCoefficients>)
    ensures coeffs.None? <==> |samples| < MIN_SAMPLES_TO_TRUST
    ensures coeffs.Some? ==> exists c :: IsOutputFit(samples, c) && IsClampedOutput(coeffs.value, c)
  {
    hide IsOutputFit, IsRidgeMinimiser, IsClampedOutput, ClampOutputCoefficients, OutputObservation, Dot;
    if |samples| < MIN_SAMPLES_TO_TRUST {
      return None;
    }
    var observed := OutputObservations(samples);
    var xtx, xty := NormalEquations(observed, 2);
    var solution := SolveLinearSystem(xtx, xty);
    RidgeAlwaysSolves(observed, 2, xtx, xty, solution);
    match solution
    case None => return None;
    case Some(beta) =>
      NormalEquationsMinimise(observed, 2, xtx, xty, beta);
      var fitted := OutputCoefficients(beta[0], beta[1]);
      assert OutputVector(fitted) == beta;
      OutputFitIs(samples, fitted);
      coeffs := Some(ClampOutputCoefficients(fitted));
  }

  // ---------- Sample order does not matter ----------

  /** The squared error forgets the order of the samples. */
  lemma {:induction false} ErrorForgetsOrder(s: seq<Sample>, t: seq<Sample>, n: nat, beta: Vec)
    requires multiset(s) == multiset(t) && Observations(s, n) && Observations(t, n) && |beta| == n
    ensures SquaredError(s, n, beta) == SquaredError(t, n, beta)
  {
    hide Times, Dot, SquaredError;
    assert |s| == |multiset(s)| && |t| == |multiset(t)|;
    if |s| > 0 {
      var last, rest := s[|s| - 1], s[..|s| - 1];
      var k := FindLast(s, t);
      ErrorForgetsOrder(rest, t[..k] + t[k + 1..], n, beta);
      ErrorAppend(t[..k], t[k + 1..], n, beta);
      ErrorAppend(t[..k] + [last], t[k + 1..], n, beta);
      ErrorAppend(t[..k], [last], n, beta);
      ErrorAppend(rest, [last], n, beta);
      assert s == rest + [last] && t == t[..k] + [last] + t[k + 1..];
    } else {
      assert s == t;
    }
  }

  lemma FindLast(s: seq<Sample>, t: seq<Sample>) returns (k: nat)
    requires multiset(s) == multiset(t) && |s| > 0
    ensures k < |t| && t[k] == s[|s| - 1]
    ensures multiset(t[..k] + t[k + 1..]) == multiset(s[..|s| - 1])
  {
    var last := s[|s| - 1];
    assert s == s[..|s| - 1] + [last];
    assert last in multiset(t);
    k :| 0 <= k < |t| && t[k] == last;
    assert t == t[..k] + [last] + t[k + 1..];
    var kept, dropped := multiset(t[..k] + t[k + 1..]), multiset(s[..|s| - 1]);
    assert multiset(t) == kept + multiset{last} && multiset(s) == dropped + multiset{last};
    assert kept == multiset(t) - multiset{last} && dropped == multiset(s) - multiset{last};
  }

  lemma {:induction false} ErrorAppend(s: seq<Sample>, t: seq<Sample>, n: nat, beta: Vec)
    requires Observations(s, n) && Observations(t, n) && |beta| == n
    ensures Observations(s + t, n)
    ensures SquaredError(s + t, n, beta) == SquaredError(s, n, beta) + SquaredError(t, n, beta)
  {
    hide Times, Dot;
    if |t| == 0 {
      assert s + t == s;
    } else {
      assert (s + t)[..|s + t| - 1] == s + t[..|t| - 1];
      ErrorAppend(s, t[..|t| - 1], n, beta);
    }
  }

  /** Two minimisers for the same samples in any two orders are the same vector. */
  lemma FitForgetsOrder(s: seq<Sample>, t: seq<Sample>, n: nat, beta: Vec, gamma: Vec)
    requires multiset(s) == multiset(t) && Observations(s, n) && Observations(t, n)
    requires IsRidgeMinimiser(s, n, beta) && IsRidgeMinimiser(t, n, gamma)
    ensures beta == gamma
  {
    ErrorForgetsOrder(s, t, n, beta);
    ErrorForgetsOrder(s, t, n, gamma);
  }
}
