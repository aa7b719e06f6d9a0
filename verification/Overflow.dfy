/** Exactly when the 32-bit accumulators of the fully connected layers cannot overflow. */
module Overflow {
  import opened Arith
  import opened FullyConnected

  /** Sum of the positive weights among the first `n` of a row. */
  function Positive(w: Matrix, row: int, n: nat): nat {
    if n == 0 then 0 else Positive(w, row, n - 1) + Max(0, w.at(row, n - 1))
  }

  /** Sum of the magnitudes of the negative weights among the first `n` of a row. */
  function Negative(w: Matrix, row: int, n: nat): nat {
    if n == 0 then 0 else Negative(w, row, n - 1) + Max(0, 0 - w.at(row, n - 1))
  }

  /** The first `n` inputs lie in `[lo, hi]`. */
  ghost predicate Within(x: Vec, n: nat, lo: int, hi: int) {
    forall i :: 0 <= i < n ==> lo <= x(i) <= hi
  }

  /** The largest and the smallest sum that inputs in `[lo, hi]` can reach. */
  function Highest(w: Matrix, row: int, n: nat, lo: int, hi: int): int {
    hi * Positive(w, row, n) - lo * Negative(w, row, n)
  }

  function Lowest(w: Matrix, row: int, n: nat, lo: int, hi: int): int {
    lo * Positive(w, row, n) - hi * Negative(w, row, n)
  }

  lemma {:induction false} DotRange(x: Vec, w: Matrix, row: int, n: nat, lo: int, hi: int)
    requires Within(x, n, lo, hi)
    ensures Lowest(w, row, n, lo, hi) <= Dot(x, w, row, n) <= Highest(w, row, n, lo, hi)
  {
    if n > 0 {
      DotRange(x, w, row, n - 1, lo, hi);
      TermRange(x(n - 1), w.at(row, n - 1), lo, hi, Positive(w, row, n - 1), Negative(w, row, n - 1));
    }
  }

  lemma TermRange(a: int, v: int, lo: int, hi: int, p: nat, q: nat)
    requires lo <= a <= hi
    ensures hi * (p + Max(0, v)) - lo * (q + Max(0, 0 - v)) >= (hi * p - lo * q) + a * v
    ensures lo * (p + Max(0, v)) - hi * (q + Max(0, 0 - v)) <= (lo * p - hi * q) + a * v
  {
    if v >= 0 {
      assert lo * v <= a * v <= hi * v;
      assert hi * (p + v) == hi * p + hi * v && lo * (p + v) == lo * p + lo * v;
    } else {
      assert lo * (0 - v) <= a * (0 - v) <= hi * (0 - v);
      assert hi * (q + (0 - v)) == hi * q + hi * (0 - v) && lo * (q + (0 - v)) == lo * q + lo * (0 - v);
    }
  }

  /** The inputs that reach the extremes. */
  function Extreme(w: Matrix, row: int, up: int, down: int): Vec {
    i => if w.at(row, i) > 0 then up else down
  }

  lemma {:induction false} ExtremeDot(w: Matrix, row: int, n: nat, up: int, down: int)
    ensures Dot(Extreme(w, row, up, down), w, row, n) == up * Positive(w, row, n) - down * Negative(w, row, n)
  {
    if n > 0 {
      ExtremeDot(w, row, n - 1, up, down);
      ExtremeTerm(up, down, w.at(row, n - 1), Positive(w, row, n - 1), Negative(w, row, n - 1));
    }
  }

  lemma ExtremeTerm(up: int, down: int, v: int, p: nat, q: nat)
    ensures up * (p + Max(0, v)) - down * (q + Max(0, 0 - v)) == (up * p - down * q) + (if v > 0 then up else down) * v
  {
    if v > 0 {
      assert up * (p + v) == up * p + up * v;
    } else {
      assert down * (q + (0 - v)) == down * q + down * (0 - v);
      assert down * (0 - v) == 0 - down * v;
    }
  }

  lemma {:induction false} RangeGrows(w: Matrix, row: int, n: nat, n': nat, lo: int, hi: int)
    requires n <= n' && lo <= 0 <= hi
    ensures Lowest(w, row, n', lo, hi) <= Lowest(w, row, n, lo, hi) <= 0
    ensures 0 <= Highest(w, row, n, lo, hi) <= Highest(w, row, n', lo, hi)
    decreases n'
  {
    if n < n' {
      RangeGrows(w, row, n, n' - 1, lo, hi);
      TermRange(0, w.at(row, n' - 1), lo, hi, Positive(w, row, n' - 1), Negative(w, row, n' - 1));
    } else {
      SignRange(lo, hi, Positive(w, row, n), Negative(w, row, n));
    }
  }

  lemma SignRange(lo: int, hi: int, p: nat, q: nat)
    requires lo <= 0 <= hi
    ensures lo * p - hi * q <= 0 <= hi * p - lo * q
  {
    assert 0 <= hi * p && 0 <= hi * q && lo * p <= 0 && lo * q <= 0;
  }

  /** For inputs in `[lo, hi]`, no prefix of the row's sum, and no such prefix times `k`, overflows. */
  ghost predicate RowNeverOverflows(w: Matrix, row: int, k: nat, lo: int, hi: int) {
    forall x: Vec, n: nat :: Within(x, w.cols, lo, hi) && n <= w.cols ==>
      Fits32(Dot(x, w, row, n)) && Fits32(Dot(x, w, row, n) * k)
  }

  /** Checked on the weights alone. */
  predicate RowWithinLimits(w: Matrix, row: int, k: nat, lo: int, hi: int) {
    && Highest(w, row, w.cols, lo, hi) * k <= MAX32
    && MIN32 <= Lowest(w, row, w.cols, lo, hi) * k
  }

  /** The exact overflow condition of one row, for any multiplier and any input range around zero. */
  lemma OverflowCondition(w: Matrix, row: int, k: nat, lo: int, hi: int)
    requires 1 <= k && lo <= 0 <= hi
    ensures RowNeverOverflows(w, row, k, lo, hi) <==> RowWithinLimits(w, row, k, lo, hi)
  {
    if RowWithinLimits(w, row, k, lo, hi) {
      forall x: Vec, n: nat | Within(x, w.cols, lo, hi) && n <= w.cols
        ensures Fits32(Dot(x, w, row, n)) && Fits32(Dot(x, w, row, n) * k)
      {
        DotRange(x, w, row, n, lo, hi);
        RangeGrows(w, row, n, w.cols, lo, hi);
        Scaled(Dot(x, w, row, n), Lowest(w, row, w.cols, lo, hi), Highest(w, row, w.cols, lo, hi), k);
      }
    }
    if RowNeverOverflows(w, row, k, lo, hi) {
      ExtremeDot(w, row, w.cols, hi, lo);
      ExtremeDot(w, row, w.cols, lo, hi);
      assert Within(Extreme(w, row, hi, lo), w.cols, lo, hi) && Within(Extreme(w, row, lo, hi), w.cols, lo, hi);
    }
  }

  lemma Scaled(d: int, low: int, high: int, k: nat)
    requires low <= d <= high && low <= 0 <= high && 1 <= k
    requires MIN32 <= low * k && high * k <= MAX32
    ensures Fits32(d) && Fits32(d * k)
  {
    assert low * k <= d * k <= high * k;
    assert low * k <= low && high <= high * k;
  }

  /** Within the limits the layer computes the mathematical dot product, requantised. */
  lemma NoOverflowIsExact(x: Vec, w: Matrix, k: nat, row: int, lo: int, hi: int)
    requires 1 <= k && lo <= 0 <= hi && Within(x, w.cols, lo, hi) && RowWithinLimits(w, row, k, lo, hi)
    ensures FcSum(x, w, row) == Dot(x, w, row, w.cols)
    ensures FcAct(x, w, k, row) == Requant(Dot(x, w, row, w.cols), k)
  {
    OverflowCondition(w, row, k, lo, hi);
    assert Fits32(Dot(x, w, row, w.cols));
    Requant32Exact(Dot(x, w, row, w.cols), k);
  }

  lemma {:induction false} WeightMass(w: Matrix, row: int, n: nat)
    ensures Positive(w, row, n) + Negative(w, row, n) <= 0x80 * n
  {
    if n > 0 {
      WeightMass(w, row, n - 1);
    }
  }

  lemma MassLimits(w: Matrix, row: int, k: nat, mass: nat)
    requires Positive(w, row, w.cols) + Negative(w, row, w.cols) <= mass && 0x80 * mass * k <= MAX32
    ensures RowWithinLimits(w, row, k, -0x80, 0x7f)
  {
    var p, q := Positive(w, row, w.cols), Negative(w, row, w.cols);
    var high, low := Highest(w, row, w.cols, -0x80, 0x7f), Lowest(w, row, w.cols, -0x80, 0x7f);
    assert high <= 0x80 * mass && 0 - low <= 0x80 * mass;
    assert 0 <= high && low <= 0;
    MulMonotone(high, 0x80 * mass, k);
    MulMonotone(0 - low, 0x80 * mass, k);
    assert (0 - low) * k == 0 - low * k;
  }

  /** FC2 and FC3 cannot overflow, whatever their weights. */
  lemma Fc2AndFc3NeverOverflow(w: Matrix, row: int)
    ensures w.cols == 120 ==> RowNeverOverflows(w, row, 318, -0x80, 0x7f)
    ensures w.cols == 84 ==> RowNeverOverflows(w, row, 1, -0x80, 0x7f)
  {
    WeightMass(w, row, w.cols);
    if w.cols == 120 {
      MassLimits(w, row, 318, 0x80 * 120);
      OverflowCondition(w, row, 318, -0x80, 0x7f);
    } else if w.cols == 84 {
      MassLimits(w, row, 1, 0x80 * 84);
      OverflowCondition(w, row, 1, -0x80, 0x7f);
    }
  }

  /** FC1 cannot overflow on a row whose weights have total magnitude at most 50081. */
  lemma Fc1LightRow(w: Matrix, row: int)
    requires w.cols == 400 && Positive(w, row, 400) + Negative(w, row, 400) <= 50081
    ensures RowNeverOverflows(w, row, 335, -0x80, 0x7f)
  {
    MassLimits(w, row, 335, 50081);
    OverflowCondition(w, row, 335, -0x80, 0x7f);
  }

  /** A full row of maximal weights does overflow FC1, even on inputs that ReLU has made non-negative. */
  lemma Fc1HeavyRowOverflows(row: int)
    ensures !RowNeverOverflows(Matrix(120, 400, (r, c) => 127), row, 335, 0, 0x7f)
  {
    var w := Matrix(120, 400, (r, c) => 127);
    UniformMass(w, row, 400);
    OverflowCondition(w, row, 335, 0, 0x7f);
  }

  lemma {:induction false} UniformMass(w: Matrix, row: int, n: nat)
    requires forall r, c :: w.at(r, c) == 127
    ensures Positive(w, row, n) == 127 * n && Negative(w, row, n) == 0
  {
    if n > 0 {
      UniformMass(w, row, n - 1);
      assert w.at(row, n - 1) == 127;
    }
  }
}
