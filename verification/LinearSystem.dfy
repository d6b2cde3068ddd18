/** `solveLinearSystem` (frontend/src/services/tokenModel.ts): Gauss-Jordan elimination with partial
    pivoting and a 1e-9 pivot guard, over exact reals. */
module LinearSystem {
  import opened Wrappers

  type Vec = seq<real>
  type Matrix = seq<Vec>

  const PIVOT_GUARD: real := 0.000000001

  function Abs(x: real): real { if x < 0.0 then -x else x }

  // Products and quotients of unknowns carry names: proofs hide them, so that all but a handful of small
  // lemmas are linear arithmetic.

  function Times(x: real, y: real): real { x * y }

  function Ratio(x: real, p: real): real
    requires p != 0.0
  {
    x / p
  }

  function Dot(u: Vec, v: Vec): real
    requires |u| == |v|
  {
    if |u| == 0 then 0.0 else Times(u[0], v[0]) + Dot(u[1..], v[1..])
  }

  /** `bound`, doubled `k` times. */
  function Doubled(bound: real, k: nat): (d: real)
    ensures bound >= 0.0 ==> d >= bound
  {
    if k == 0 then bound else 2.0 * Doubled(bound, k - 1)
  }

  ghost predicate Shape(m: Matrix, rows: nat, cols: nat) {
    |m| == rows && forall r | 0 <= r < rows :: |m[r]| == cols
  }

  // ---------- What the caller may rely on ----------

  ghost predicate Solves(a: Matrix, x: Vec, b: Vec)
    requires Shape(a, |b|, |x|)
  {
    forall r | 0 <= r < |b| :: Dot(a[r], x) == b[r]
  }

  /** Rows `lo..hi` of `m` send `z` into the interval [-bound, bound]. */
  ghost predicate Within(m: Matrix, z: Vec, bound: real, lo: nat, hi: nat)
    requires lo <= hi <= |m|
    requires forall r | 0 <= r < |m| :: |m[r]| == |z|
  {
    forall r | lo <= r < hi :: -bound <= Dot(m[r], z) <= bound
  }

  /** `v` has its last non-zero entry at `c`, and that entry is 1. */
  ghost predicate LeadsAt(v: Vec, c: nat) {
    c < |v| && v[c] == 1.0 && forall j | c < j < |v| :: v[j] == 0.0
  }

  ghost predicate UniquelySolves(a: Matrix, x: Vec, b: Vec)
    requires Shape(a, |b|, |b|)
  {
    && |x| == |b|
    && Solves(a, x, b)
    && forall y: Vec | |y| == |b| && Solves(a, y, b) :: y == x
  }

  /** A direction that `a` all but annihilates: the certificate of a null answer. */
  ghost predicate NearKernel(a: Matrix, n: nat, v: Vec)
    requires Shape(a, n, n)
  {
    |v| == n && (exists c: nat :: LeadsAt(v, c)) && Within(a, v, PIVOT_GUARD, 0, n)
  }

  /** Every direction leading at column `c` is stretched to at least 1e-9 / 2^c: what partial pivoting buys. */
  ghost predicate WellConditioned(a: Matrix, n: nat)
    requires Shape(a, n, n)
  {
    forall v: Vec, c: nat, bound: real
      | |v| == n && LeadsAt(v, c) && bound >= 0.0 && Within(a, v, bound, 0, n)
      :: PIVOT_GUARD <= Doubled(bound, c)
  }

  ghost predicate SolverOutcome(a: Matrix, b: Vec, outcome: Option<Vec>)
    requires Shape(a, |b|, |b|)
  {
    match outcome
    case Some(x) => UniquelySolves(a, x, b) && WellConditioned(a, |b|)
    case None => exists v: Vec :: NearKernel(a, |b|, v)
  }

  // ---------- Dot products ----------

  /** u - f w, entry by entry. */
  function RowSub(u: Vec, f: real, w: Vec): (r: Vec)
    requires |u| == |w|
    ensures |r| == |u| && forall j | 0 <= j < |u| :: r[j] == u[j] - Times(f, w[j])
  {
    seq(|u|, j requires 0 <= j < |u| => u[j] - Times(f, w[j]))
  }

  lemma FirstTerm(a: real, f: real, b: real, z: real, d: real)
    ensures Times(a - Times(f, b), z) - Times(f, d) == Times(a, z) - Times(f, Times(b, z) + d)
  {}

  lemma {:induction false} DotRowSub(u: Vec, f: real, w: Vec, z: Vec)
    requires |u| == |w| == |z|
    ensures Dot(RowSub(u, f, w), z) == Dot(u, z) - Times(f, Dot(w, z))
  {
    hide Times;
    if |u| > 0 {
      assert RowSub(u, f, w)[1..] == RowSub(u[1..], f, w[1..]);
      DotRowSub(u[1..], f, w[1..], z[1..]);
      FirstTerm(u[0], f, w[0], z[0], Dot(w[1..], z[1..]));
    } else {
      TimesZero(f, 0.0);
    }
  }

  lemma TimesZero(x: real, y: real)
    ensures x == 0.0 || y == 0.0 ==> Times(x, y) == 0.0
    ensures Times(x, 1.0) == x && Times(1.0, x) == x && Times(x, -1.0) == -x && Times(-1.0, x) == -x
  {}

  lemma TimesSymmetric(x: real, y: real)
    ensures Times(x, y) == Times(y, x)
  {}

  /** A dot product whose terms vanish outside two positions. */
  lemma {:induction false} DotSparse(u: Vec, z: Vec, i: nat, k: nat)
    requires |u| == |z| && i < k < |u|
    requires forall j | 0 <= j < |u| && j != i && j != k :: u[j] == 0.0 || z[j] == 0.0
    ensures Dot(u, z) == Times(u[i], z[i]) + Times(u[k], z[k])
  {
    hide Times;
    if i > 0 {
      TimesZero(u[0], z[0]);
      DotSparse(u[1..], z[1..], i - 1, k - 1);
    } else {
      DotSingle(u[1..], z[1..], k - 1);
    }
  }

  lemma {:induction false} DotSingle(u: Vec, z: Vec, k: nat)
    requires |u| == |z| && k < |u|
    requires forall j | 0 <= j < |u| && j != k :: u[j] == 0.0 || z[j] == 0.0
    ensures Dot(u, z) == Times(u[k], z[k])
  {
    hide Times;
    if k > 0 {
      TimesZero(u[0], z[0]);
      DotSingle(u[1..], z[1..], k - 1);
    } else {
      DotZero(u[1..], z[1..]);
    }
  }

  lemma {:induction false} DotZero(u: Vec, z: Vec)
    requires |u| == |z|
    requires forall j | 0 <= j < |u| :: u[j] == 0.0 || z[j] == 0.0
    ensures Dot(u, z) == 0.0
  {
    hide Times;
    if |u| > 0 {
      TimesZero(u[0], z[0]);
      DotZero(u[1..], z[1..]);
    }
  }

  lemma {:induction false} DotAppend(u: Vec, v: Vec, s: real, t: real)
    requires |u| == |v|
    ensures Dot(u + [s], v + [t]) == Dot(u, v) + Times(s, t)
  {
    hide Times;
    if |u| > 0 {
      assert (u + [s])[1..] == u[1..] + [s] && (v + [t])[1..] == v[1..] + [t];
      DotAppend(u[1..], v[1..], s, t);
    } else {
      assert (u + [s])[1..] == [] && (v + [t])[1..] == [];
    }
  }

  lemma {:induction false} DotSymmetric(u: Vec, v: Vec)
    requires |u| == |v|
    ensures Dot(u, v) == Dot(v, u)
  {
    hide Times;
    if |u| > 0 {
      TimesSymmetric(u[0], v[0]);
      DotSymmetric(u[1..], v[1..]);
    }
  }

  // ---------- The invariant of the column loop ----------

  /** Columns `0..k` are cleared except on the diagonal, whose entries passed the guard. */
  ghost predicate Reduced(m: Matrix, n: nat, k: nat)
    requires Shape(m, n, n + 1) && k <= n
  {
    forall c | 0 <= c < k :: ColumnDone(m, n, c)
  }

  ghost predicate ColumnDone(m: Matrix, n: nat, c: nat)
    requires Shape(m, n, n + 1) && c < n
  {
    Abs(m[c][c]) >= PIVOT_GUARD && forall r | 0 <= r < n && r != c :: m[r][c] == 0.0
  }

  /** Every common zero of the rows of `a` is one of the rows of `m`. */
  ghost predicate KeepsZeros(a: Matrix, m: Matrix, n: nat)
    requires Shape(a, n, n + 1) && Shape(m, n, n + 1)
  {
    forall z: Vec | |z| == n + 1 && Within(a, z, 0.0, 0, n) :: Within(m, z, 0.0, 0, n)
  }

  /** Where the finished rows of `m` vanish, its other rows bound every row of `a`. */
  ghost predicate Controls(a: Matrix, m: Matrix, n: nat, k: nat)
    requires Shape(a, n, n + 1) && Shape(m, n, n + 1) && k <= n
  {
    forall z: Vec, bound: real
      | |z| == n + 1 && bound >= 0.0 && Within(m, z, 0.0, 0, k) && Within(m, z, bound, k, n)
      :: Within(a, z, bound, 0, n)
  }

  /** An unfinished row of `m` grows by at most a factor of two per column. */
  ghost predicate GrowthBounded(a: Matrix, m: Matrix, n: nat, k: nat)
    requires Shape(a, n, n + 1) && Shape(m, n, n + 1) && k <= n
  {
    forall z: Vec, bound: real | |z| == n + 1 && bound >= 0.0 && Within(a, z, bound, 0, n)
      :: Within(m, z, Doubled(bound, k), k, n)
  }

  /** The accepted pivots `0..k` bound `a` from below on directions leading there. */
  ghost predicate PivotsBound(a: Matrix, n: nat, k: nat)
    requires Shape(a, n, n + 1)
  {
    forall z: Vec, c: nat, bound: real
      | |z| == n + 1 && c < k && LeadsAt(z, c) && bound >= 0.0 && Within(a, z, bound, 0, n)
      :: PIVOT_GUARD <= Doubled(bound, c)
  }

  ghost predicate Eliminating(a: Matrix, m: Matrix, n: nat, k: nat)
    requires Shape(a, n, n + 1) && Shape(m, n, n + 1) && k <= n
  {
    && Reduced(m, n, k) && KeepsZeros(a, m, n) && Controls(a, m, n, k)
    && GrowthBounded(a, m, n, k) && PivotsBound(a, n, k)
  }

  /** `p` is the row whose entry in column `k` is largest among rows `k..n`. */
  ghost predicate IsPivot(m: Matrix, n: nat, k: nat, p: nat)
    requires Shape(m, n, n + 1) && k < n
  {
    k <= p < n && forall r | k <= r < n :: Abs(m[r][k]) <= Abs(m[p][k])
  }

  function SwapRows(m: Matrix, i: nat, j: nat): Matrix
    requires i < |m| && j < |m|
  {
    m[i := m[j]][j := m[i]]
  }

  /** `m'` is `s` with column `k` cleared outside row `k`. */
  ghost predicate Cleared(s: Matrix, m': Matrix, n: nat, k: nat)
    requires Shape(s, n, n + 1) && Shape(m', n, n + 1) && k < n
  {
    && s[k][k] != 0.0
    && m'[k] == s[k]
    && forall r | 0 <= r < n && r != k :: m'[r] == RowSub(s[r], Ratio(s[r][k], s[k][k]), s[k])
  }

  lemma SwapWithin(m: Matrix, n: nat, k: nat, p: nat, z: Vec, bound: real)
    requires Shape(m, n, n + 1) && k <= p < n && |z| == n + 1
    ensures Shape(SwapRows(m, k, p), n, n + 1)
    ensures Within(m, z, bound, 0, k) <==> Within(SwapRows(m, k, p), z, bound, 0, k)
    ensures Within(m, z, bound, k, n) <==> Within(SwapRows(m, k, p), z, bound, k, n)
  {
    var s := SwapRows(m, k, p);
    forall r | k <= r < n ensures m[r] == s[if r == k then p else if r == p then k else r] {}
    forall r | 0 <= r < k ensures m[r] == s[r] {}
    if Within(s, z, bound, 0, k) {
      forall r | 0 <= r < k ensures -bound <= Dot(m[r], z) <= bound {
        assert m[r] == s[r];
      }
    }
    if Within(s, z, bound, k, n) {
      forall r | k <= r < n ensures -bound <= Dot(m[r], z) <= bound {
        assert m[r] == s[if r == k then p else if r == p then k else r];
      }
    }
  }

  lemma WithinSplit(m: Matrix, z: Vec, bound: real, lo: nat, mid: nat, hi: nat)
    requires lo <= mid <= hi <= |m|
    requires forall r | 0 <= r < |m| :: |m[r]| == |z|
    ensures Within(m, z, bound, lo, hi) <==> Within(m, z, bound, lo, mid) && Within(m, z, bound, mid, hi)
  {}

  lemma SwapKeeps(a: Matrix, m: Matrix, n: nat, k: nat, p: nat)
    requires Shape(a, n, n + 1) && Shape(m, n, n + 1) && k < n
    requires Eliminating(a, m, n, k) && k <= p < n
    ensures var s := SwapRows(m, k, p);
            Shape(s, n, n + 1) && Eliminating(a, s, n, k)
  {
    hide KeepsZeros, Controls, GrowthBounded, PivotsBound, Reduced, SwapRows;
    SwapKeepsReduced(m, n, k, p);
    SwapKeepsZeros(a, m, n, k, p);
    SwapKeepsControl(a, m, n, k, p);
    SwapKeepsGrowth(a, m, n, k, p);
  }

  lemma SwapKeepsReduced(m: Matrix, n: nat, k: nat, p: nat)
    requires Shape(m, n, n + 1) && k <= p < n && Reduced(m, n, k)
    ensures Shape(SwapRows(m, k, p), n, n + 1) && Reduced(SwapRows(m, k, p), n, k)
  {
    var s := SwapRows(m, k, p);
    forall c | 0 <= c < k ensures ColumnDone(s, n, c) {
      assert ColumnDone(m, n, c);
    }
  }

  lemma SwapKeepsZeros(a: Matrix, m: Matrix, n: nat, k: nat, p: nat)
    requires Shape(a, n, n + 1) && Shape(m, n, n + 1) && k <= p < n && KeepsZeros(a, m, n)
    ensures Shape(SwapRows(m, k, p), n, n + 1) && KeepsZeros(a, SwapRows(m, k, p), n)
  {
    var s := SwapRows(m, k, p);
    SwapShape(m, n, k, p);
    hide SwapRows;
    forall z: Vec | |z| == n + 1 && Within(a, z, 0.0, 0, n) ensures Within(s, z, 0.0, 0, n) {
      SwapWithin(m, n, k, p, z, 0.0);
      WithinSplit(m, z, 0.0, 0, k, n);
      WithinSplit(s, z, 0.0, 0, k, n);
    }
  }

  lemma SwapShape(m: Matrix, n: nat, k: nat, p: nat)
    requires Shape(m, n, n + 1) && k <= p < n
    ensures Shape(SwapRows(m, k, p), n, n + 1)
  {}

  lemma SwapKeepsControl(a: Matrix, m: Matrix, n: nat, k: nat, p: nat)
    requires Shape(a, n, n + 1) && Shape(m, n, n + 1) && k <= p < n && Controls(a, m, n, k)
    ensures Shape(SwapRows(m, k, p), n, n + 1) && Controls(a, SwapRows(m, k, p), n, k)
  {
    var s := SwapRows(m, k, p);
    SwapShape(m, n, k, p);
    hide SwapRows, Within;
    forall z: Vec, bound: real
      | |z| == n + 1 && bound >= 0.0 && Within(s, z, 0.0, 0, k) && Within(s, z, bound, k, n)
      ensures Within(a, z, bound, 0, n)
    {
      SwapWithin(m, n, k, p, z, bound);
      SwapWithin(m, n, k, p, z, 0.0);
    }
  }

  lemma SwapKeepsGrowth(a: Matrix, m: Matrix, n: nat, k: nat, p: nat)
    requires Shape(a, n, n + 1) && Shape(m, n, n + 1) && k <= p < n && GrowthBounded(a, m, n, k)
    ensures Shape(SwapRows(m, k, p), n, n + 1) && GrowthBounded(a, SwapRows(m, k, p), n, k)
  {
    var s := SwapRows(m, k, p);
    SwapShape(m, n, k, p);
    hide SwapRows, Within;
    forall z: Vec, bound: real | |z| == n + 1 && bound >= 0.0 && Within(a, z, bound, 0, n)
      ensures Within(s, z, Doubled(bound, k), k, n)
    {
      SwapWithin(m, n, k, p, z, Doubled(bound, k));
    }
  }

  lemma RatioTimes(x: real, p: real)
    requires p != 0.0
    ensures Times(Ratio(x, p), p) == x && Times(p, Ratio(x, p)) == x
  {}

  lemma ClearKeepsReduced(s: Matrix, m': Matrix, n: nat, k: nat)
    requires Shape(s, n, n + 1) && Shape(m', n, n + 1) && k < n
    requires Reduced(s, n, k) && Cleared(s, m', n, k) && Abs(s[k][k]) >= PIVOT_GUARD
    ensures Reduced(m', n, k + 1)
  {
    hide Times, Ratio;
    forall c, r | 0 <= c < k && 0 <= r < n
      ensures m'[r][c] == s[r][c]
    {
      assert ColumnDone(s, n, c);
      if r != k {
        assert m'[r][c] == s[r][c] - Times(Ratio(s[r][k], s[k][k]), s[k][c]);
        TimesZero(Ratio(s[r][k], s[k][k]), s[k][c]);
      }
    }
    forall c | 0 <= c < k ensures ColumnDone(m', n, c) {
      assert ColumnDone(s, n, c);
    }
    forall r | 0 <= r < n && r != k ensures m'[r][k] == 0.0 {
      assert m'[r][k] == s[r][k] - Times(Ratio(s[r][k], s[k][k]), s[k][k]);
      RatioTimes(s[r][k], s[k][k]);
    }
    assert ColumnDone(m', n, k);
  }

  lemma NonNegativeProduct(x: real, y: real)
    requires x >= 0.0 && y >= 0.0
    ensures x * y >= 0.0
  {}

  lemma PositiveProduct(x: real, y: real)
    requires x > 0.0 && y > 0.0
    ensures x * y > 0.0 && Times(x, y) > 0.0
  {}

  lemma RatioAtMostOne(x: real, p: real)
    requires p != 0.0 && Abs(x) <= Abs(p)
    ensures -1.0 <= Ratio(x, p) <= 1.0
  {
    var f := x / p;
    assert f * p == x;
    if f > 1.0 && p > 0.0 {
      PositiveProduct(f - 1.0, p);
    } else if f > 1.0 {
      PositiveProduct(f - 1.0, -p);
    } else if f < -1.0 && p > 0.0 {
      PositiveProduct(-1.0 - f, p);
    } else if f < -1.0 {
      PositiveProduct(-1.0 - f, -p);
    }
  }

  lemma ShrinkingFactor(f: real, y: real)
    requires -1.0 <= f <= 1.0
    ensures Abs(Times(f, y)) <= Abs(y)
  {
    if y >= 0.0 {
      NonNegativeProduct(1.0 - f, y);
      NonNegativeProduct(1.0 + f, y);
      assert (1.0 - f) * y == y - f * y && (1.0 + f) * y == y + f * y;
    } else {
      NonNegativeProduct(1.0 - f, -y);
      NonNegativeProduct(1.0 + f, -y);
      assert (1.0 - f) * -y == f * y - y && (1.0 + f) * -y == -y - f * y;
    }
  }

  /** A cleared row, seen through a test vector, loses some `t`; partial pivoting keeps `t` within the pivot row. */
  lemma ClearedRow(s: Matrix, m': Matrix, n: nat, k: nat, z: Vec, r: nat) returns (t: real)
    requires Shape(s, n, n + 1) && Shape(m', n, n + 1) && k < n && |z| == n + 1
    requires Cleared(s, m', n, k) && r < n
    ensures Dot(m'[r], z) == Dot(s[r], z) - t
    ensures r == k || Dot(s[k], z) == 0.0 ==> t == 0.0
    ensures Abs(s[r][k]) <= Abs(s[k][k]) ==> Abs(t) <= Abs(Dot(s[k], z))
  {
    hide Times, Ratio;
    t := 0.0;
    if r != k {
      var f, d := Ratio(s[r][k], s[k][k]), Dot(s[k], z);
      t := Times(f, d);
      DotRowSub(s[r], f, s[k], z);
      TimesZero(f, d);
      if Abs(s[r][k]) <= Abs(s[k][k]) {
        RatioAtMostOne(s[r][k], s[k][k]);
        ShrinkingFactor(f, d);
      }
    }
  }

  lemma ClearKeepsZeros(a: Matrix, s: Matrix, m': Matrix, n: nat, k: nat)
    requires Shape(a, n, n + 1) && Shape(s, n, n + 1) && Shape(m', n, n + 1) && k < n
    requires KeepsZeros(a, s, n) && Cleared(s, m', n, k)
    ensures KeepsZeros(a, m', n)
  {
    hide Dot, Times, Ratio;
    forall z: Vec | |z| == n + 1 && Within(a, z, 0.0, 0, n) ensures Within(m', z, 0.0, 0, n) {
      forall r | 0 <= r < n ensures Dot(m'[r], z) == 0.0 {
        var t := ClearedRow(s, m', n, k, z, r);
        assert Dot(s[r], z) == 0.0 && Dot(s[k], z) == 0.0;
      }
    }
  }

  lemma ClearKeepsControl(a: Matrix, s: Matrix, m': Matrix, n: nat, k: nat)
    requires Shape(a, n, n + 1) && Shape(s, n, n + 1) && Shape(m', n, n + 1) && k < n
    requires Controls(a, s, n, k) && Cleared(s, m', n, k)
    ensures Controls(a, m', n, k + 1)
  {
    hide Dot, Times, Ratio;
    forall z: Vec, bound: real
      | |z| == n + 1 && bound >= 0.0 && Within(m', z, 0.0, 0, k + 1) && Within(m', z, bound, k + 1, n)
      ensures Within(a, z, bound, 0, n)
    {
      assert Dot(m'[k], z) == 0.0;
      forall r | 0 <= r < n ensures Dot(s[r], z) == Dot(m'[r], z) {
        var t := ClearedRow(s, m', n, k, z, r);
      }
      assert Within(s, z, 0.0, 0, k);
      assert Within(s, z, bound, k, n);
    }
  }

  lemma ClearKeepsGrowth(a: Matrix, s: Matrix, m': Matrix, n: nat, k: nat)
    requires Shape(a, n, n + 1) && Shape(s, n, n + 1) && Shape(m', n, n + 1) && k < n
    requires GrowthBounded(a, s, n, k) && Cleared(s, m', n, k) && IsPivot(s, n, k, k)
    ensures GrowthBounded(a, m', n, k + 1)
  {
    hide Dot, Times, Ratio;
    forall z: Vec, bound: real | |z| == n + 1 && bound >= 0.0 && Within(a, z, bound, 0, n)
      ensures Within(m', z, Doubled(bound, k + 1), k + 1, n)
    {
      var b := Doubled(bound, k);
      assert Within(s, z, b, k, n);
      forall r | k + 1 <= r < n ensures -(b + b) <= Dot(m'[r], z) <= b + b {
        var t := ClearedRow(s, m', n, k, z, r);
        assert -b <= Dot(s[k], z) <= b && -b <= Dot(s[r], z) <= b;
      }
    }
  }

  /** A direction leading at `k` reads off entry `k` of an unfinished row. */
  lemma LeadReadsEntry(s: Matrix, n: nat, k: nat, z: Vec, r: nat)
    requires Shape(s, n, n + 1) && k <= r < n && Reduced(s, n, k) && |z| == n + 1 && LeadsAt(z, k)
    ensures Dot(s[r], z) == s[r][k]
  {
    hide Times;
    forall j | 0 <= j < n + 1 && j != k ensures s[r][j] == 0.0 || z[j] == 0.0 {
      if j < k {
        assert ColumnDone(s, n, j);
      }
    }
    DotSingle(s[r], z, k);
    TimesZero(s[r][k], z[k]);
  }

  /** The row accepted as pivot bounds `a` on every direction leading at its column. */
  lemma PivotAccepted(a: Matrix, s: Matrix, n: nat, k: nat)
    requires Shape(a, n, n + 1) && Shape(s, n, n + 1) && k < n
    requires Reduced(s, n, k) && GrowthBounded(a, s, n, k) && PivotsBound(a, n, k)
    requires Abs(s[k][k]) >= PIVOT_GUARD
    ensures PivotsBound(a, n, k + 1)
  {
    forall z: Vec, c: nat, bound: real
      | |z| == n + 1 && c < k + 1 && LeadsAt(z, c) && bound >= 0.0 && Within(a, z, bound, 0, n)
      ensures PIVOT_GUARD <= Doubled(bound, c)
    {
      if c == k {
        LeadReadsEntry(s, n, k, z, k);
        assert Within(s, z, Doubled(bound, k), k, n);
        assert -Doubled(bound, k) <= Dot(s[k], z) <= Doubled(bound, k);
      }
    }
  }

  // ---------- Reading off the two outcomes ----------

  function Augment(a: Matrix, b: Vec): (m: Matrix)
    requires |a| == |b|
    ensures |m| == |a| && forall r | 0 <= r < |a| :: m[r] == a[r] + [b[r]]
  {
    seq(|a|, r requires 0 <= r < |a| => a[r] + [b[r]])
  }

  lemma AugmentedWithin(a: Matrix, b: Vec, v: Vec, bound: real)
    requires Shape(a, |b|, |b|) && |v| == |b|
    ensures Shape(Augment(a, b), |b|, |b| + 1)
    ensures Within(a, v, bound, 0, |b|) <==> Within(Augment(a, b), v + [0.0], bound, 0, |b|)
  {
    forall r | 0 <= r < |b| ensures Dot(Augment(a, b)[r], v + [0.0]) == Dot(a[r], v) {
      DotAppend(a[r], v, b[r], 0.0);
      TimesZero(b[r], 0.0);
    }
  }

  lemma AugmentedSolves(a: Matrix, b: Vec, y: Vec)
    requires Shape(a, |b|, |b|) && |y| == |b|
    ensures Shape(Augment(a, b), |b|, |b| + 1)
    ensures Solves(a, y, b) <==> Within(Augment(a, b), y + [-1.0], 0.0, 0, |b|)
  {
    forall r | 0 <= r < |b| ensures Dot(Augment(a, b)[r], y + [-1.0]) == Dot(a[r], y) - b[r] {
      DotAppend(a[r], y, b[r], -1.0);
      TimesZero(b[r], 0.0);
    }
  }

  /** The vector that the source returns: last entry over diagonal entry, row by row. */
  function ReadOff(m: Matrix, n: nat): (x: Vec)
    requires |m| == n && forall r | 0 <= r < n :: |m[r]| == n + 1 && m[r][r] != 0.0
    ensures |x| == n && forall r | 0 <= r < n :: x[r] == Ratio(m[r][n], m[r][r])
  {
    seq(n, r requires 0 <= r < n => Ratio(m[r][n], m[r][r]))
  }

  lemma QuotientIff(p: real, y: real, q: real)
    requires p != 0.0
    ensures Times(p, y) == q <==> y == Ratio(q, p)
  {
    assert p * (q / p) == q;
    assert p * (y - q / p) == p * y - p * (q / p);
  }

  /** A fully reduced row vanishes on `y + [-1]` exactly when `y` has the entry read off. */
  lemma ReducedRow(m: Matrix, n: nat, y: Vec, r: nat)
    requires Shape(m, n, n + 1) && Reduced(m, n, n) && |y| == n && r < n
    ensures m[r][r] != 0.0
    ensures Dot(m[r], y + [-1.0]) == 0.0 <==> y[r] == Ratio(m[r][n], m[r][r])
  {
    hide Times, Ratio;
    assert ColumnDone(m, n, r);
    var u, z := m[r], y + [-1.0];
    forall j | 0 <= j < n + 1 && j != r && j != n ensures u[j] == 0.0 {
      assert ColumnDone(m, n, j);
    }
    DotSparse(u, z, r, n);
    TimesZero(u[n], z[n]);
    QuotientIff(u[r], z[r], u[n]);
  }

  /** The vector read off a reduced matrix is its only zero of the form `y + [-1]`. */
  lemma ReadOffIsOnlyZero(m: Matrix, n: nat, y: Vec)
    requires Shape(m, n, n + 1) && Reduced(m, n, n) && |y| == n
    ensures forall r | 0 <= r < n :: m[r][r] != 0.0
    ensures Within(m, y + [-1.0], 0.0, 0, n) <==> y == ReadOff(m, n)
  {
    forall r | 0 <= r < n
      ensures m[r][r] != 0.0
      ensures Dot(m[r], y + [-1.0]) == 0.0 <==> y[r] == Ratio(m[r][n], m[r][r])
    {
      ReducedRow(m, n, y, r);
    }
    if y == ReadOff(m, n) {
      assert Within(m, y + [-1.0], 0.0, 0, n);
    }
    if Within(m, y + [-1.0], 0.0, 0, n) {
      forall r | 0 <= r < n ensures y[r] == ReadOff(m, n)[r] {
        assert Dot(m[r], y + [-1.0]) == 0.0;
      }
    }
  }

  lemma ReducedSolvesUniquely(a: Matrix, b: Vec, m: Matrix)
    requires Shape(a, |b|, |b|) && Shape(m, |b|, |b| + 1) && Shape(Augment(a, b), |b|, |b| + 1)
    requires Reduced(m, |b|, |b|)
    requires KeepsZeros(Augment(a, b), m, |b|) && Controls(Augment(a, b), m, |b|, |b|)
    ensures forall r | 0 <= r < |b| :: m[r][r] != 0.0
    ensures UniquelySolves(a, ReadOff(m, |b|), b)
  {
    var n := |b|;
    ReadOffIsOnlyZero(m, n, b);
    var x := ReadOff(m, n);
    ReadOffIsOnlyZero(m, n, x);
    assert Within(m, x + [-1.0], 0.0, n, n);
    AugmentedSolves(a, b, x);
    forall y: Vec | |y| == n && Solves(a, y, b) ensures y == x {
      AugmentedSolves(a, b, y);
      ReadOffIsOnlyZero(m, n, y);
    }
  }

  lemma PivotsBoundMatrix(a: Matrix, b: Vec)
    requires Shape(a, |b|, |b|) && Shape(Augment(a, b), |b|, |b| + 1)
    requires PivotsBound(Augment(a, b), |b|, |b|)
    ensures WellConditioned(a, |b|)
  {
    forall v: Vec, c: nat, bound: real
      | |v| == |b| && LeadsAt(v, c) && bound >= 0.0 && Within(a, v, bound, 0, |b|)
      ensures PIVOT_GUARD <= Doubled(bound, c)
    {
      AugmentedWithin(a, b, v, bound);
      assert LeadsAt(v + [0.0], c);
    }
  }

  lemma ReducedGivesSolution(a: Matrix, b: Vec, m: Matrix)
    requires Shape(a, |b|, |b|) && Shape(m, |b|, |b| + 1)
    requires Shape(Augment(a, b), |b|, |b| + 1) && Eliminating(Augment(a, b), m, |b|, |b|)
    ensures forall r | 0 <= r < |b| :: m[r][r] != 0.0
    ensures SolverOutcome(a, b, Some(ReadOff(m, |b|)))
  {
    ReducedSolvesUniquely(a, b, m);
    PivotsBoundMatrix(a, b);
  }

  /** The direction that a rejected column certifies. */
  function KernelDirection(m: Matrix, n: nat, k: nat): (v: Vec)
    requires |m| == n && k < n && forall r | 0 <= r < n :: |m[r]| == n + 1
    requires forall c | 0 <= c < k :: m[c][c] != 0.0
    ensures |v| == n
  {
    seq(n, j requires 0 <= j < n => if j < k then -Ratio(m[j][k], m[j][j]) else if j == k then 1.0 else 0.0)
  }

  lemma KernelDirectionKills(m: Matrix, n: nat, k: nat, r: nat)
    requires Shape(m, n, n + 1) && r < k < n && Reduced(m, n, k)
    ensures forall c | 0 <= c < k :: m[c][c] != 0.0
    ensures Dot(m[r], KernelDirection(m, n, k) + [0.0]) == 0.0
  {
    forall c | 0 <= c < k ensures m[c][c] != 0.0 {
      assert ColumnDone(m, n, c);
    }
    hide Times, Ratio;
    var u, z := m[r], KernelDirection(m, n, k) + [0.0];
    forall j | 0 <= j < n + 1 && j != r && j != k ensures u[j] == 0.0 || z[j] == 0.0 {
      if j < k {
        assert ColumnDone(m, n, j);
      }
    }
    DotSparse(u, z, r, k);
    TimesZero(u[k], z[k]);
    RatioTimes(u[k], u[r]);
    TimesNegated(u[r], Ratio(u[k], u[r]));
  }

  lemma TimesNegated(x: real, y: real)
    ensures Times(x, -y) == -Times(x, y) && Times(-x, y) == -Times(x, y)
  {}

  lemma RejectedColumnGivesKernel(a: Matrix, b: Vec, m: Matrix, k: nat)
    requires Shape(a, |b|, |b|) && Shape(m, |b|, |b| + 1) && k < |b|
    requires Shape(Augment(a, b), |b|, |b| + 1)
    requires Reduced(m, |b|, k) && Controls(Augment(a, b), m, |b|, k)
    requires forall r | k <= r < |b| :: Abs(m[r][k]) < PIVOT_GUARD
    ensures SolverOutcome(a, b, None)
  {
    var n := |b|;
    forall c | 0 <= c < k ensures m[c][c] != 0.0 {
      assert ColumnDone(m, n, c);
    }
    var v := KernelDirection(m, n, k);
    var z := v + [0.0];
    forall r | 0 <= r < k ensures Dot(m[r], z) == 0.0 {
      KernelDirectionKills(m, n, k, r);
    }
    assert LeadsAt(v, k) && LeadsAt(z, k);
    forall r | k <= r < n ensures -PIVOT_GUARD <= Dot(m[r], z) <= PIVOT_GUARD {
      LeadReadsEntry(m, n, k, z, r);
    }
    assert Within(m, z, 0.0, 0, k) && Within(m, z, PIVOT_GUARD, k, n);
    AugmentedWithin(a, b, v, PIVOT_GUARD);
    assert NearKernel(a, n, v);
  }

  lemma StartsEliminating(a: Matrix, n: nat)
    requires Shape(a, n, n + 1)
    ensures Eliminating(a, a, n, 0)
  {
    forall z: Vec, bound: real | |z| == n + 1 && bound >= 0.0 && Within(a, z, bound, 0, n)
      ensures Within(a, z, Doubled(bound, 0), 0, n)
    {
      assert Doubled(bound, 0) == bound;
    }
  }

  /** One column of the loop keeps the invariant. */
  lemma ColumnKeeps(a: Matrix, s: Matrix, m': Matrix, n: nat, k: nat)
    requires Shape(a, n, n + 1) && Shape(s, n, n + 1) && Shape(m', n, n + 1) && k < n
    requires Eliminating(a, s, n, k) && IsPivot(s, n, k, k) && Abs(s[k][k]) >= PIVOT_GUARD
    requires Cleared(s, m', n, k)
    ensures Eliminating(a, m', n, k + 1)
  {
    ClearKeepsReduced(s, m', n, k);
    ClearKeepsZeros(a, s, m', n, k);
    ClearKeepsControl(a, s, m', n, k);
    ClearKeepsGrowth(a, s, m', n, k);
    PivotAccepted(a, s, n, k);
  }

  // ---------- The solver ----------

  /** Row `row` of the matrix with column `col` cleared, entry by entry from `col` on. */
  method ClearRow(augmented: Matrix, n: nat, col: nat, row: nat) returns (cleared: Matrix)
    requires Shape(augmented, n, n + 1) && col < n && row < n && row != col
    requires augmented[col][col] != 0.0
    requires forall j | 0 <= j < col :: augmented[col][j] == 0.0
    ensures cleared == augmented[row := RowSub(augmented[row], Ratio(augmented[row][col], augmented[col][col]),
                                               augmented[col])]
  {
    cleared := augmented;
    var factor := augmented[row][col] / augmented[col][col];
    for j := col to n + 1
      invariant Shape(cleared, n, n + 1)
      invariant forall r | 0 <= r < n && r != row :: cleared[r] == augmented[r]
      invariant forall i | 0 <= i < j :: cleared[row][i] == augmented[row][i] - factor * augmented[col][i]
      invariant forall i | j <= i < n + 1 :: cleared[row][i] == augmented[row][i]
    {
      cleared := cleared[row := cleared[row][j := cleared[row][j] - factor * cleared[col][j]]];
    }
    forall i | 0 <= i < n + 1
      ensures cleared[row][i] == RowSub(augmented[row], factor, augmented[col])[i]
    {}
    assert cleared[row] == RowSub(augmented[row], factor, augmented[col]);
  }

  /** The row whose entry in column `col` is largest from `col` down. */
  method FindPivot(augmented: Matrix, n: nat, col: nat) returns (pivot: nat)
    requires Shape(augmented, n, n + 1) && col < n
    ensures IsPivot(augmented, n, col, pivot)
  {
    pivot := col;
    for row := col + 1 to n
      invariant col <= pivot < n
      invariant forall r | col <= r < row :: Abs(augmented[r][col]) <= Abs(augmented[pivot][col])
    {
      if Abs(augmented[row][col]) > Abs(augmented[pivot][col]) {
        pivot := row;
      }
    }
  }

  /** The row loop of one column. */
  method ClearColumn(swapped: Matrix, n: nat, col: nat) returns (augmented: Matrix)
    requires Shape(swapped, n, n + 1) && col < n && swapped[col][col] != 0.0
    requires forall j | 0 <= j < col :: swapped[col][j] == 0.0
    ensures Shape(augmented, n, n + 1) && Cleared(swapped, augmented, n, col)
  {
    augmented := swapped;
    for row := 0 to n
      invariant Shape(augmented, n, n + 1)
      invariant augmented[col] == swapped[col]
      invariant forall r | 0 <= r < row && r != col ::
          augmented[r] == RowSub(swapped[r], Ratio(swapped[r][col], swapped[col][col]), swapped[col])
      invariant forall r | row <= r < n :: augmented[r] == swapped[r]
    {
      if row != col {
        augmented := ClearRow(augmented, n, col, row);
      }
    }
  }

  method SolveLinearSystem(matrix: Matrix, vector: Vec) returns (solution: Option<Vec>)
    requires Shape(matrix, |vector|, |vector|)
    ensures SolverOutcome(matrix, vector, solution)
  {
    var size := |vector|;
    var augmented := Augment(matrix, vector);
    ghost var start := augmented;
    StartsEliminating(start, size);
    for col := 0 to size
      invariant Shape(start, size, size + 1) && Shape(augmented, size, size + 1)
      invariant Eliminating(start, augmented, size, col)
    {
      var pivot := FindPivot(augmented, size, col);
      if Abs(augmented[pivot][col]) < PIVOT_GUARD {
        RejectedColumnGivesKernel(matrix, vector, augmented, col);
        return None;
      }
      SwapKeeps(start, augmented, size, col, pivot);
      augmented := augmented[col := augmented[pivot]][pivot := augmented[col]];
      ghost var swapped := augmented;
      PivotRowStartsWithZeros(augmented, size, col);
      augmented := ClearColumn(augmented, size, col);
      ColumnKeeps(start, swapped, augmented, size, col);
    }
    ReducedGivesSolution(matrix, vector, augmented);
    solution := Some(ReadOff(augmented, size));
  }

  lemma PivotRowStartsWithZeros(m: Matrix, n: nat, k: nat)
    requires Shape(m, n, n + 1) && k < n && Reduced(m, n, k)
    ensures forall j | 0 <= j < k :: m[k][j] == 0.0
  {
    forall j | 0 <= j < k ensures m[k][j] == 0.0 {
      assert ColumnDone(m, n, j);
    }
  }

  /** A matrix with a non-zero kernel vector makes the solver answer null. */
  lemma SingularYieldsNull(a: Matrix, b: Vec, outcome: Option<Vec>, z: Vec)
    requires Shape(a, |b|, |b|) && SolverOutcome(a, b, outcome)
    requires |z| == |b| && (exists i :: 0 <= i < |z| && z[i] != 0.0)
    requires forall r | 0 <= r < |b| :: Dot(a[r], z) == 0.0
    ensures outcome.None?
  {
    hide Times;
    var i :| 0 <= i < |z| && z[i] != 0.0;
    match outcome
    case None =>
    case Some(x) =>
      var y := RowSub(x, 1.0, z);
      TimesZero(z[i], 0.0);
      assert y[i] != x[i];
      forall r | 0 <= r < |b| ensures Dot(a[r], y) == Dot(a[r], x) {
        DotSymmetric(a[r], y);
        DotSymmetric(a[r], x);
        DotSymmetric(a[r], z);
        DotRowSub(x, 1.0, z, a[r]);
        TimesZero(Dot(z, a[r]), 0.0);
      }
  }
}
