/** The exact benchmark beta of scripts/fixtures/generate_benchmark_beta.py, over any rows.  The sums of the
    script are weighted inner products of columns, and its laws are those of such products. */
module BenchmarkBeta {
  import opened Results

  datatype Row = Row(weight: real, asset: real, benchmark: real)

  type Column = Row -> real

  function Asset(r: Row): real { r.asset }

  function Benchmark(r: Row): real { r.benchmark }

  function One(r: Row): real { 1.0 }

  /** The sum of weight times `x` times `y` over the rows. */
  function Inner(rows: seq<Row>, x: Column, y: Column): real {
    if rows == [] then 0.0 else rows[0].weight * (x(rows[0]) * y(rows[0])) + Inner(rows[1..], x, y)
  }

  function Weight(rows: seq<Row>): real {
    Inner(rows, One, One)
  }

  function Mean(rows: seq<Row>, x: Column): real
    requires Weight(rows) != 0.0
  {
    Inner(rows, x, One) / Weight(rows)
  }

  /** The product-moment form, before the count correction. */
  function Moment(rows: seq<Row>, x: Column, y: Column): real
    requires Weight(rows) != 0.0
  {
    Inner(rows, x, y) / Weight(rows) - Mean(rows, x) * Mean(rows, y)
  }

  /** N/(N-1); a row of weight zero counts. */
  function Correction(rows: seq<Row>): real
    requires |rows| != 1
  {
    |rows| as real / (|rows| - 1) as real
  }

  function Covariance(rows: seq<Row>): real
    requires Weight(rows) != 0.0 && |rows| != 1
  {
    Correction(rows) * Moment(rows, Asset, Benchmark)
  }

  function Variance(rows: seq<Row>): real
    requires Weight(rows) != 0.0 && |rows| != 1
  {
    Correction(rows) * Moment(rows, Benchmark, Benchmark)
  }

  /** The beta, unless one of the divisions is by zero. */
  function Beta(rows: seq<Row>): Option<real> {
    if Weight(rows) == 0.0 || |rows| == 1 || Variance(rows) == 0.0 then None
    else Some(Covariance(rows) / Variance(rows))
  }

  /** Weights are not negative, and some weight is positive. */
  predicate Weighted(rows: seq<Row>) {
    && (forall r :: r in rows ==> r.weight >= 0.0)
    && Weight(rows) > 0.0
  }

  // ----- inner products

  lemma {:induction false} InnerSymmetric(rows: seq<Row>, x: Column, y: Column)
    ensures Inner(rows, x, y) == Inner(rows, y, x)
  {
    if rows != [] {
      InnerSymmetric(rows[1..], x, y);
      assert x(rows[0]) * y(rows[0]) == y(rows[0]) * x(rows[0]);
    }
  }

  /** Inner products are linear in each column. */
  lemma {:induction false} InnerLinear(rows: seq<Row>, z: Column, x: Column, c: real, u: Column, y: Column)
    requires forall r :: r in rows ==> z(r) == x(r) + c * u(r)
    ensures Inner(rows, z, y) == Inner(rows, x, y) + c * Inner(rows, u, y)
    ensures Inner(rows, y, z) == Inner(rows, y, x) + c * Inner(rows, y, u)
  {
    if rows != [] {
      var r, rest := rows[0], rows[1..];
      InnerLinear(rest, z, x, c, u, y);
    }
    InnerSymmetric(rows, z, y);
    InnerSymmetric(rows, x, y);
    InnerSymmetric(rows, u, y);
  }

  lemma SquareTerm(w: real, x: real)
    requires w >= 0.0
    ensures w * (x * x) >= 0.0
    ensures w * (x * x) == 0.0 <==> w == 0.0 || x == 0.0
  {
    if w > 0.0 && x > 0.0 {
      Product(w, x);
      Product(w * x, x);
    } else if w > 0.0 && x < 0.0 {
      Product(w, -x);
      Product(w * -x, -x);
    }
  }

  lemma Product(a: real, b: real)
    requires a >= 0.0 && b >= 0.0
    ensures a * b >= 0.0
    ensures a * b == 0.0 <==> a == 0.0 || b == 0.0
  {
  }

  /** A column is zero on every row that has weight. */
  ghost predicate Vanishes(rows: seq<Row>, x: Column) {
    forall r :: r in rows && r.weight > 0.0 ==> x(r) == 0.0
  }

  lemma {:induction false} InnerPositive(rows: seq<Row>, x: Column)
    requires forall r :: r in rows ==> r.weight >= 0.0
    ensures Inner(rows, x, x) >= 0.0
    ensures Inner(rows, x, x) == 0.0 <==> Vanishes(rows, x)
  {
    if rows != [] {
      InnerPositive(rows[1..], x);
      SquareTerm(rows[0].weight, x(rows[0]));
      assert rows[0].weight > 0.0 || rows[0].weight == 0.0;
      assert forall r :: r in rows <==> r == rows[0] || r in rows[1..];
    }
  }

  lemma {:induction false} InnerWithVanishing(rows: seq<Row>, x: Column, y: Column)
    requires (forall r :: r in rows ==> r.weight >= 0.0) && Vanishes(rows, y)
    ensures Inner(rows, x, y) == 0.0
  {
    if rows != [] {
      InnerWithVanishing(rows[1..], x, y);
      assert rows[0].weight > 0.0 ==> y(rows[0]) == 0.0;
    }
  }

  /** The product of a column with itself plus a multiple of another. */
  lemma InnerOfSum(rows: seq<Row>, z: Column, x: Column, c: real, y: Column)
    requires forall r :: r in rows ==> z(r) == x(r) + c * y(r)
    ensures Inner(rows, z, z) == (Inner(rows, x, x) + c * Inner(rows, x, y)) + c * (Inner(rows, x, y) + c * Inner(rows, y, y))
  {
    hide Inner;
    InnerLinear(rows, z, x, c, y, z);
    InnerLinear(rows, z, x, c, y, x);
    InnerLinear(rows, z, x, c, y, y);
    InnerSymmetric(rows, y, x);
  }

  lemma CauchySchwarz(rows: seq<Row>, x: Column, y: Column)
    requires forall r :: r in rows ==> r.weight >= 0.0
    ensures Inner(rows, x, y) * Inner(rows, x, y) <= Inner(rows, x, x) * Inner(rows, y, y)
  {
    hide Inner;
    InnerPositive(rows, y);
    if Inner(rows, y, y) == 0.0 {
      InnerWithVanishing(rows, x, y);
    } else {
      CauchySchwarzPositive(rows, x, y, Inner(rows, y, y));
    }
  }

  lemma CauchySchwarzPositive(rows: seq<Row>, x: Column, y: Column, n: real)
    requires forall r :: r in rows ==> r.weight >= 0.0
    requires n == Inner(rows, y, y) && n > 0.0
    ensures Inner(rows, x, y) * Inner(rows, x, y) <= Inner(rows, x, x) * n
  {
    hide Inner;
    var c := Ratio(-Inner(rows, x, y), n);
    DiscriminantOf(rows, x, y, c, (r: Row) => x(r) + c * y(r));
  }

  function Ratio(p: real, n: real): (c: real)
    requires n != 0.0
    ensures c * n == p
  {
    p / n
  }

  lemma DiscriminantOf(rows: seq<Row>, x: Column, y: Column, c: real, z: Column)
    requires forall r :: r in rows ==> r.weight >= 0.0
    requires forall r :: r in rows ==> z(r) == x(r) + c * y(r)
    requires Inner(rows, y, y) > 0.0 && c * Inner(rows, y, y) == -Inner(rows, x, y)
    ensures Inner(rows, x, y) * Inner(rows, x, y) <= Inner(rows, x, x) * Inner(rows, y, y)
  {
    hide Inner;
    InnerOfSum(rows, z, x, c, y);
    assert Inner(rows, z, z) >= 0.0 by {
      InnerPositive(rows, z);
    }
    Discriminant(Inner(rows, x, x), Inner(rows, x, y), Inner(rows, y, y), c, Inner(rows, z, z));
  }

  lemma Discriminant(m: real, p: real, n: real, c: real, square: real)
    requires n > 0.0 && c * n == -p
    requires square == (m + c * p) + c * (p + c * n) && square >= 0.0
    ensures p * p <= m * n
  {
    assert square == m + c * p;
    assert square * n == m * n + (c * n) * p;
    assert square * n >= 0.0;
  }

  // ----- the centred form

  /** `shifted` is the column `x` less `m`. */
  ghost predicate IsShifted(rows: seq<Row>, shifted: Column, x: Column, m: real) {
    forall r :: r in rows ==> shifted(r) == x(r) + (-m) * One(r)
  }

  /** `centered` is the column `x` less its mean. */
  ghost predicate IsCentered(rows: seq<Row>, centered: Column, x: Column)
    requires Weight(rows) != 0.0
  {
    IsShifted(rows, centered, x, Mean(rows, x))
  }

  function Centering(x: Column, m: real): Column {
    (r: Row) => x(r) + (-m) * One(r)
  }

  lemma CenteredSumsToZero(rows: seq<Row>, cx: Column, x: Column)
    requires Weight(rows) != 0.0 && IsCentered(rows, cx, x)
    ensures Inner(rows, cx, One) == 0.0
  {
    hide Inner;
    InnerLinear(rows, cx, x, -Mean(rows, x), One, One);
    assert Mean(rows, x) * Weight(rows) == Inner(rows, x, One);
  }

  /** Against a column that sums to zero, a shift does not matter. */
  lemma ShiftDoesNotMatter(rows: seq<Row>, cx: Column, x: Column, mx: real, cy: Column)
    requires IsShifted(rows, cx, x, mx) && Inner(rows, cy, One) == 0.0
    ensures Inner(rows, cx, cy) == Inner(rows, x, cy)
  {
    hide Inner;
    InnerSymmetric(rows, One, cy);
    InnerLinear(rows, cx, x, -mx, One, cy);
  }

  lemma ShiftedProduct(rows: seq<Row>, x: Column, cy: Column, y: Column, my: real)
    requires IsShifted(rows, cy, y, my)
    ensures Inner(rows, x, cy) == Inner(rows, x, y) + (-my) * Inner(rows, x, One)
  {
  }

  lemma CenteredProduct(rows: seq<Row>, cx: Column, x: Column, cy: Column, y: Column)
    requires Weight(rows) != 0.0 && IsCentered(rows, cx, x) && IsCentered(rows, cy, y)
    ensures Inner(rows, cx, cy) == Inner(rows, x, y) + (-Mean(rows, y)) * Inner(rows, x, One)
  {
    hide Inner;
    CenteredSumsToZero(rows, cy, y);
    ShiftDoesNotMatter(rows, cx, x, Mean(rows, x), cy);
    ShiftedProduct(rows, x, cy, y, Mean(rows, y));
  }

  lemma CenteredMoment(rows: seq<Row>, cx: Column, x: Column, cy: Column, y: Column)
    requires Weight(rows) != 0.0 && IsCentered(rows, cx, x) && IsCentered(rows, cy, y)
    ensures Moment(rows, x, y) * Weight(rows) == Inner(rows, cx, cy)
  {
    hide Inner;
    CenteredProduct(rows, cx, x, cy, y);
  }

  /** The product-moment form is the weighted average of the products of the centred values. */
  lemma MomentIsCentered(rows: seq<Row>, cx: Column, x: Column, cy: Column, y: Column)
    requires Weight(rows) != 0.0 && IsCentered(rows, cx, x) && IsCentered(rows, cy, y)
    ensures Moment(rows, x, y) == Inner(rows, cx, cy) / Weight(rows)
  {
    hide Inner;
    CenteredMoment(rows, cx, x, cy, y);
    AsQuotient(Moment(rows, x, y), Weight(rows), Inner(rows, cx, cy));
  }

  lemma AsQuotient(q: real, w: real, p: real)
    requires w != 0.0 && q * w == p
    ensures q == p / w
  {
  }

  // ----- the variance and the covariance

  /** Every two rows that have weight agree on a column. */
  ghost predicate Constant(rows: seq<Row>, x: Column) {
    forall r, s :: r in rows && s in rows && r.weight > 0.0 && s.weight > 0.0 ==> x(r) == x(s)
  }

  lemma {:induction false} SomeWeight(rows: seq<Row>)
    requires Weight(rows) > 0.0
    ensures exists r :: r in rows && r.weight > 0.0
  {
    if rows[0].weight > 0.0 {
      assert rows[0] in rows;
    } else {
      SomeWeight(rows[1..]);
      var r :| r in rows[1..] && r.weight > 0.0;
      assert r in rows;
    }
  }

  lemma {:induction false} InnerOfConstant(rows: seq<Row>, x: Column, c: real)
    requires forall r :: r in rows ==> r.weight >= 0.0
    requires forall r :: r in rows && r.weight > 0.0 ==> x(r) == c
    ensures Inner(rows, x, One) == c * Weight(rows)
  {
    if rows != [] {
      InnerOfConstant(rows[1..], x, c);
      assert rows[0].weight > 0.0 ==> x(rows[0]) == c;
      assert c * (rows[0].weight + Weight(rows[1..])) == c * rows[0].weight + c * Weight(rows[1..]);
    }
  }

  /** The variance is not negative, and is zero exactly when the rows that have weight agree. */
  lemma MomentPositive(rows: seq<Row>, x: Column)
    requires Weighted(rows)
    ensures Moment(rows, x, x) >= 0.0
    ensures Moment(rows, x, x) == 0.0 <==> Constant(rows, x)
  {
    hide Inner;
    var cx := Centering(x, Mean(rows, x));
    MomentIsCentered(rows, cx, x, cx, x);
    InnerPositive(rows, cx);
    Quotient(Inner(rows, cx, cx), Weight(rows));
    VanishesWhenConstant(rows, cx, x);
  }

  lemma VanishesWhenConstant(rows: seq<Row>, cx: Column, x: Column)
    requires Weighted(rows) && IsCentered(rows, cx, x)
    ensures Vanishes(rows, cx) <==> Constant(rows, x)
  {
    if Constant(rows, x) {
      MeanOfConstant(rows, x);
    }
  }

  lemma MeanOfConstant(rows: seq<Row>, x: Column)
    requires Weighted(rows) && Constant(rows, x)
    ensures forall r :: r in rows && r.weight > 0.0 ==> x(r) == Mean(rows, x)
  {
    hide Inner;
    SomeWeight(rows);
    var s :| s in rows && s.weight > 0.0;
    InnerOfConstant(rows, x, x(s));
    AsQuotient(x(s), Weight(rows), Inner(rows, x, One));
  }

  lemma Quotient(x: real, w: real)
    requires w > 0.0
    ensures x >= 0.0 ==> x / w >= 0.0
    ensures x / w == 0.0 <==> x == 0.0
  {
  }

  /** The squared covariance is at most the product of the two variances. */
  lemma MomentsCauchySchwarz(rows: seq<Row>, x: Column, y: Column)
    requires Weighted(rows)
    ensures Moment(rows, x, y) * Moment(rows, x, y) <= Moment(rows, x, x) * Moment(rows, y, y)
  {
    hide Inner;
    var cx, cy := Centering(x, Mean(rows, x)), Centering(y, Mean(rows, y));
    MomentIsCentered(rows, cx, x, cy, y);
    MomentIsCentered(rows, cx, x, cx, x);
    MomentIsCentered(rows, cy, y, cy, y);
    CauchySchwarz(rows, cx, cy);
    ScaledProducts(Inner(rows, cx, cy), Inner(rows, cx, cx), Inner(rows, cy, cy), Weight(rows));
  }

  lemma DividedProduct(x: real, y: real, w: real, q: real)
    requires w > 0.0 && q == y / w
    ensures (x * y) / w == x * q
  {
    assert y == q * w;
    assert x * y == (x * q) * w;
  }

  lemma DividedOrder(x: real, y: real, w: real)
    requires w > 0.0 && x <= y
    ensures x / w <= y / w
  {
  }

  lemma DividedTwice(x: real, y: real, w: real, a: real, b: real)
    requires w > 0.0 && a == x / w && b == y / w
    ensures ((x * y) / w) / w == a * b
  {
    DividedProduct(x, y, w, b);
    DividedProduct(b, x, w, a);
  }

  lemma ScaledProducts(p: real, m: real, n: real, w: real)
    requires w > 0.0 && p * p <= m * n
    ensures (p / w) * (p / w) <= (m / w) * (n / w)
  {
    DividedTwice(p, p, w, p / w, p / w);
    DividedTwice(m, n, w, m / w, n / w);
    DividedOrder(p * p, m * n, w);
    DividedOrder((p * p) / w, (m * n) / w, w);
  }

  // ----- beta

  lemma {:induction false} OneRowIsConstant(rows: seq<Row>, x: Column)
    requires |rows| <= 1
    ensures Constant(rows, x)
  {
  }

  /** Beta is undefined exactly when the benchmark does not vary over the rows that have weight. */
  lemma BetaDefined(rows: seq<Row>)
    requires Weighted(rows)
    ensures Beta(rows).None? <==> Constant(rows, Benchmark)
  {
    hide Inner;
    if |rows| <= 1 {
      OneRowIsConstant(rows, Benchmark);
    } else {
      MomentPositive(rows, Benchmark);
    }
  }

  /** The count correction cancels. */
  lemma BetaIsMomentRatio(rows: seq<Row>)
    requires Weighted(rows) && Beta(rows).Some?
    ensures IsSlope(rows, Beta(rows).value)
  {
  }

  // ----- beta as the least-squares slope

  function Residual(intercept: real, slope: real): Column {
    (r: Row) => r.asset - intercept - slope * r.benchmark
  }

  /** How far a row is from the line `intercept + slope * benchmark`, squared and weighted. */
  function RowError(r: Row, intercept: real, slope: real): real {
    var distance := r.asset - (intercept + slope * r.benchmark);
    r.weight * (distance * distance)
  }

  function SquaredError(rows: seq<Row>, intercept: real, slope: real): real {
    if rows == [] then 0.0 else RowError(rows[0], intercept, slope) + SquaredError(rows[1..], intercept, slope)
  }

  lemma {:induction false} ErrorIsInner(rows: seq<Row>, intercept: real, slope: real)
    ensures SquaredError(rows, intercept, slope) == Inner(rows, Residual(intercept, slope), Residual(intercept, slope))
  {
    if rows != [] {
      assert Residual(intercept, slope)(rows[0]) == rows[0].asset - (intercept + slope * rows[0].benchmark);
      ErrorIsInner(rows[1..], intercept, slope);
    }
  }

  lemma ResidualSumsToZero(rows: seq<Row>, e: Column, ca: Column, cb: Column, slope: real)
    requires Inner(rows, ca, One) == 0.0 && Inner(rows, cb, One) == 0.0
    requires forall r :: r in rows ==> e(r) == ca(r) + (-slope) * cb(r)
    ensures Inner(rows, e, One) == 0.0
  {
    hide Inner;
    InnerLinear(rows, e, ca, -slope, cb, One);
  }

  lemma ResidualAcrossBenchmark(rows: seq<Row>, e: Column, ca: Column, cb: Column, slope: real, p: real, n: real)
    requires forall r :: r in rows ==> e(r) == ca(r) + (-slope) * cb(r)
    requires p == Inner(rows, ca, cb) && n == Inner(rows, cb, cb) && p + (-slope) * n == 0.0
    ensures Inner(rows, cb, e) == 0.0
  {
    hide Inner;
    InnerLinear(rows, e, ca, -slope, cb, cb);
    InnerSymmetric(rows, ca, cb);
  }

  /** The slope that makes the variance explain the covariance. */
  ghost predicate IsSlope(rows: seq<Row>, beta: real)
    requires Weight(rows) != 0.0
  {
    beta * Moment(rows, Benchmark, Benchmark) == Moment(rows, Asset, Benchmark)
  }

  lemma BetaBalances(rows: seq<Row>, ca: Column, cb: Column, beta: real)
    requires Weight(rows) != 0.0 && IsSlope(rows, beta)
    requires IsCentered(rows, ca, Asset) && IsCentered(rows, cb, Benchmark)
    ensures Inner(rows, ca, cb) + (-beta) * Inner(rows, cb, cb) == 0.0
  {
    hide Inner, Moment;
    CenteredMoment(rows, ca, Asset, cb, Benchmark);
    CenteredMoment(rows, cb, Benchmark, cb, Benchmark);
  }

  /** Residuals that balance sum to zero and are orthogonal to the benchmark. */
  lemma NormalEquations(rows: seq<Row>, e: Column, ca: Column, cb: Column, mb: real, beta: real)
    requires Inner(rows, ca, One) == 0.0 && Inner(rows, cb, One) == 0.0 && IsShifted(rows, cb, Benchmark, mb)
    requires Inner(rows, ca, cb) + (-beta) * Inner(rows, cb, cb) == 0.0
    requires forall r :: r in rows ==> e(r) == ca(r) + (-beta) * cb(r)
    ensures Inner(rows, e, One) == 0.0
    ensures Inner(rows, e, Benchmark) == 0.0
  {
    hide Inner;
    ResidualSumsToZero(rows, e, ca, cb, beta);
    assert Inner(rows, cb, e) == 0.0 by {
      ResidualAcrossBenchmark(rows, e, ca, cb, beta, Inner(rows, ca, cb), Inner(rows, cb, cb));
    }
    ShiftDoesNotMatter(rows, cb, Benchmark, mb, e);
    InnerSymmetric(rows, e, Benchmark);
  }

  /** Moving away from a column that is orthogonal to the move only adds to the squares. */
  lemma Pythagoras(rows: seq<Row>, z: Column, e: Column, u: Column, d: real, g: real)
    requires forall r :: r in rows ==> z(r) == e(r) + 1.0 * u(r)
    requires forall r :: r in rows ==> u(r) == d * One(r) + g * Benchmark(r)
    requires Inner(rows, e, One) == 0.0 && Inner(rows, e, Benchmark) == 0.0
    ensures Inner(rows, z, z) == Inner(rows, e, e) + Inner(rows, u, u)
  {
    hide Inner;
    Orthogonal(rows, e, u, (r: Row) => d * One(r), d, g);
    OrthogonalSum(rows, z, e, u);
  }

  lemma OrthogonalSum(rows: seq<Row>, z: Column, e: Column, u: Column)
    requires forall r :: r in rows ==> z(r) == e(r) + 1.0 * u(r)
    requires Inner(rows, e, u) == 0.0
    ensures Inner(rows, z, z) == Inner(rows, e, e) + Inner(rows, u, u)
  {
    hide Inner;
    InnerOfSum(rows, z, e, 1.0, u);
  }

  lemma Orthogonal(rows: seq<Row>, e: Column, u: Column, v: Column, d: real, g: real)
    requires forall r :: r in rows ==> v(r) == d * One(r)
    requires forall r :: r in rows ==> u(r) == d * One(r) + g * Benchmark(r)
    requires Inner(rows, e, One) == 0.0 && Inner(rows, e, Benchmark) == 0.0
    ensures Inner(rows, e, u) == 0.0
  {
    hide Inner;
    var zero: Column := r => 0.0;
    InnerLinear(rows, v, zero, d, One, e);
    InnerLinear(rows, u, v, g, Benchmark, e);
    InnerOfZero(rows, e, zero);
  }

  lemma {:induction false} InnerOfZero(rows: seq<Row>, e: Column, zero: Column)
    requires forall r :: r in rows ==> zero(r) == 0.0
    ensures Inner(rows, e, zero) == 0.0
  {
    if rows != [] {
      InnerOfZero(rows[1..], e, zero);
      assert zero(rows[0]) == 0.0;
    }
  }

  /** What changes along the line when the intercept and the slope change. */
  function Change(d: real, g: real): Column {
    (r: Row) => d * One(r) + g * Benchmark(r)
  }

  lemma ResidualFromCentered(r: Row, ma: real, mb: real, slope: real)
    ensures Residual(ma - slope * mb, slope)(r) == Centering(Asset, ma)(r) + (-slope) * Centering(Benchmark, mb)(r)
  {
    assert Residual(ma - slope * mb, slope)(r) == r.asset - (ma - slope * mb) - slope * r.benchmark;
    var asset: Column, benchmark: Column := Asset, Benchmark;
    assert asset(r) == r.asset && benchmark(r) == r.benchmark;
    assert Centering(asset, ma)(r) == r.asset - ma && Centering(benchmark, mb)(r) == r.benchmark - mb;
    assert (-slope) * (r.benchmark - mb) == slope * mb - slope * r.benchmark;
  }

  lemma ResidualMoves(r: Row, intercept: real, slope: real, best: real, beta: real)
    ensures Residual(intercept, slope)(r) == Residual(best, beta)(r) + 1.0 * Change(best - intercept, beta - slope)(r)
  {
  }

  lemma ResidualsFromCentered(rows: seq<Row>, ma: real, mb: real, slope: real)
    ensures forall r :: r in rows ==>
      Residual(ma - slope * mb, slope)(r) == Centering(Asset, ma)(r) + (-slope) * Centering(Benchmark, mb)(r)
  {
    forall r | r in rows
      ensures Residual(ma - slope * mb, slope)(r) == Centering(Asset, ma)(r) + (-slope) * Centering(Benchmark, mb)(r)
    {
      ResidualFromCentered(r, ma, mb, slope);
    }
  }

  lemma BestResidual(rows: seq<Row>, best: real, beta: real)
    requires Weight(rows) != 0.0 && IsSlope(rows, beta)
    requires best == Mean(rows, Asset) - beta * Mean(rows, Benchmark)
    ensures Inner(rows, Residual(best, beta), One) == 0.0
    ensures Inner(rows, Residual(best, beta), Benchmark) == 0.0
  {
    hide Inner;
    var ma, mb := Mean(rows, Asset), Mean(rows, Benchmark);
    var ca, cb := Centering(Asset, ma), Centering(Benchmark, mb);
    CenteredSumsToZero(rows, ca, Asset);
    CenteredSumsToZero(rows, cb, Benchmark);
    BetaBalances(rows, ca, cb, beta);
    ResidualsFromCentered(rows, ma, mb, beta);
    NormalEquations(rows, Residual(best, beta), ca, cb, mb, beta);
  }

  /** The squared error of any line is that of the beta line plus the square of the change between the lines. */
  lemma ErrorSplits(rows: seq<Row>, intercept: real, slope: real, best: real, beta: real)
    requires Weight(rows) != 0.0 && IsSlope(rows, beta)
    requires best == Mean(rows, Asset) - beta * Mean(rows, Benchmark)
    ensures var u := Change(best - intercept, beta - slope);
            SquaredError(rows, intercept, slope) == SquaredError(rows, best, beta) + Inner(rows, u, u)
  {
    ErrorIsInner(rows, intercept, slope);
    ErrorIsInner(rows, best, beta);
    hide Inner, SquaredError, Residual, Change, IsSlope, Mean, Weight;
    ResidualsSplit(rows, intercept, slope, best, beta);
  }

  lemma ResidualsSplit(rows: seq<Row>, intercept: real, slope: real, best: real, beta: real)
    requires Weight(rows) != 0.0 && IsSlope(rows, beta)
    requires best == Mean(rows, Asset) - beta * Mean(rows, Benchmark)
    ensures var u, e := Change(best - intercept, beta - slope), Residual(best, beta);
            Inner(rows, Residual(intercept, slope), Residual(intercept, slope)) == Inner(rows, e, e) + Inner(rows, u, u)
  {
    hide Inner;
    BestResidual(rows, best, beta);
    forall r | r in rows
      ensures Residual(intercept, slope)(r) == Residual(best, beta)(r) + 1.0 * Change(best - intercept, beta - slope)(r)
    {
      ResidualMoves(r, intercept, slope, best, beta);
    }
    Pythagoras(rows, Residual(intercept, slope), Residual(best, beta), Change(best - intercept, beta - slope),
               best - intercept, beta - slope);
  }

  /** Two rows that have weight and differ in the benchmark fix a line. */
  lemma NoChange(rows: seq<Row>, d: real, g: real)
    requires Vanishes(rows, Change(d, g)) && !Constant(rows, Benchmark)
    ensures d == 0.0 && g == 0.0
  {
  }

  lemma ChangeSquare(rows: seq<Row>, d: real, g: real)
    requires Weighted(rows) && !Constant(rows, Benchmark)
    ensures Inner(rows, Change(d, g), Change(d, g)) >= 0.0
    ensures Inner(rows, Change(d, g), Change(d, g)) == 0.0 <==> d == 0.0 && g == 0.0
  {
    hide Inner;
    InnerPositive(rows, Change(d, g));
    if Vanishes(rows, Change(d, g)) {
      NoChange(rows, d, g);
    }
  }

  /** Beta is the least-squares slope: no line has a smaller squared error than the one through the means with
      slope beta, and no other line has the same. */
  lemma BetaIsLeastSquares(rows: seq<Row>, intercept: real, slope: real, best: real, beta: real)
    requires Weighted(rows) && Beta(rows) == Some(beta)
    requires best == Mean(rows, Asset) - beta * Mean(rows, Benchmark)
    ensures SquaredError(rows, best, beta) <= SquaredError(rows, intercept, slope)
    ensures SquaredError(rows, best, beta) == SquaredError(rows, intercept, slope) <==> intercept == best && slope == beta
  {
    hide Inner;
    BetaIsMomentRatio(rows);
    ErrorSplits(rows, intercept, slope, best, beta);
    assert !Constant(rows, Benchmark) by {
      BetaDefined(rows);
    }
    ChangeSquare(rows, best - intercept, beta - slope);
  }

  /** When every row that has weight lies on one line, beta is the slope of that line. */
  lemma BetaOfLine(rows: seq<Row>, intercept: real, slope: real)
    requires Weighted(rows) && Beta(rows).Some?
    requires forall r :: r in rows && r.weight > 0.0 ==> r.asset == intercept + slope * r.benchmark
    ensures Beta(rows) == Some(slope)
  {
    hide Inner;
    var beta := Beta(rows).value;
    var best := Mean(rows, Asset) - beta * Mean(rows, Benchmark);
    BetaIsLeastSquares(rows, intercept, slope, best, beta);
    assert SquaredError(rows, intercept, slope) == 0.0 by {
      ErrorIsInner(rows, intercept, slope);
      assert Vanishes(rows, Residual(intercept, slope));
      InnerPositive(rows, Residual(intercept, slope));
    }
    assert SquaredError(rows, best, beta) >= 0.0 by {
      ErrorIsInner(rows, best, beta);
      InnerPositive(rows, Residual(best, beta));
    }
  }

  // ----- rows without weight

  /** The same rows, up to the values in the rows of weight zero. */
  predicate SameWeightedRows(a: seq<Row>, b: seq<Row>) {
    |a| == |b| && forall i :: 0 <= i < |a| ==> a[i].weight == b[i].weight && (a[i] == b[i] || a[i].weight == 0.0)
  }

  lemma {:induction false} InnerIgnoresWeightless(a: seq<Row>, b: seq<Row>, x: Column, y: Column)
    requires SameWeightedRows(a, b)
    ensures Inner(a, x, y) == Inner(b, x, y)
  {
    if a != [] {
      InnerIgnoresWeightless(a[1..], b[1..], x, y);
    }
  }

  lemma MomentIgnoresWeightless(a: seq<Row>, b: seq<Row>, x: Column, y: Column)
    requires SameWeightedRows(a, b) && Weight(a) != 0.0 && Weight(b) != 0.0
    ensures Moment(a, x, y) == Moment(b, x, y)
  {
    hide Inner;
    InnerIgnoresWeightless(a, b, One, One);
    InnerIgnoresWeightless(a, b, x, One);
    InnerIgnoresWeightless(a, b, y, One);
    InnerIgnoresWeightless(a, b, x, y);
  }

  /** Values in rows of weight zero never reach beta, however extreme they are. */
  lemma BetaIgnoresWeightless(a: seq<Row>, b: seq<Row>)
    requires SameWeightedRows(a, b)
    ensures Beta(a) == Beta(b)
  {
    hide Inner;
    InnerIgnoresWeightless(a, b, One, One);
    if Weight(a) != 0.0 && |a| != 1 {
      MomentIgnoresWeightless(a, b, Asset, Benchmark);
      MomentIgnoresWeightless(a, b, Benchmark, Benchmark);
      assert Correction(a) == Correction(b);
      assert Covariance(a) == Covariance(b) && Variance(a) == Variance(b);
    }
  }

  // ----- the sums of the script

  /** The sum of `g` over the rows. */
  function Total(rows: seq<Row>, g: Column): real {
    if rows == [] then 0.0 else g(rows[0]) + Total(rows[1..], g)
  }

  lemma {:induction false} InnerIsTotal(rows: seq<Row>, x: Column, y: Column, g: Column)
    requires forall r :: r in rows ==> g(r) == r.weight * (x(r) * y(r))
    ensures Inner(rows, x, y) == Total(rows, g)
  {
    if rows != [] {
      InnerIsTotal(rows[1..], x, y, g);
    }
  }

  /** Some row has weight, and none has less than none. */
  lemma {:induction false} WeightedMeans(rows: seq<Row>)
    ensures Weighted(rows) <==> (forall r :: r in rows ==> r.weight >= 0.0) && exists r :: r in rows && r.weight > 0.0
  {
    if forall r :: r in rows ==> r.weight >= 0.0 {
      InnerPositive(rows, One);
    }
  }

  /** The weight of a row times its asset, its benchmark, or the product of their distances from two values. */
  function WeightedAsset(r: Row): real { r.weight * r.asset }

  function WeightedBenchmark(r: Row): real { r.weight * r.benchmark }

  function OnlyWeight(r: Row): real { r.weight }

  function Distances(x: Column, mx: real, y: Column, my: real): Column {
    (r: Row) => r.weight * ((x(r) - mx) * (y(r) - my))
  }

  lemma MeansAreTotals(rows: seq<Row>)
    requires Weight(rows) != 0.0
    ensures Weight(rows) == Total(rows, OnlyWeight)
    ensures Mean(rows, Asset) * Total(rows, OnlyWeight) == Total(rows, WeightedAsset)
    ensures Mean(rows, Benchmark) * Total(rows, OnlyWeight) == Total(rows, WeightedBenchmark)
  {
    InnerIsTotal(rows, One, One, OnlyWeight);
    InnerIsTotal(rows, Asset, One, WeightedAsset);
    InnerIsTotal(rows, Benchmark, One, WeightedBenchmark);
  }

  lemma MomentIsTotal(rows: seq<Row>, x: Column, y: Column)
    requires Weight(rows) != 0.0
    ensures Moment(rows, x, y) == Total(rows, Distances(x, Mean(rows, x), y, Mean(rows, y))) / Weight(rows)
  {
    hide Inner, Moment, Weight, Total, Mean;
    var cx, cy := Centering(x, Mean(rows, x)), Centering(y, Mean(rows, y));
    CenteringIsCentered(rows, x);
    CenteringIsCentered(rows, y);
    MomentIsCentered(rows, cx, x, cy, y);
    InnerIsTotal(rows, cx, cy, Distances(x, Mean(rows, x), y, Mean(rows, y)));
  }

  lemma CenteringIsCentered(rows: seq<Row>, x: Column)
    requires Weight(rows) != 0.0
    ensures IsCentered(rows, Centering(x, Mean(rows, x)), x)
  {
    hide Inner;
  }

  lemma SameMean(a: real, b: real, w: real)
    requires w != 0.0 && a * w == b * w
    ensures a == b
  {
  }

  /** The covariance and the variance in the sums of the script, centred: N/(N-1) times the weighted average of the
      products of the distances from the weighted means. */
  lemma CovarianceMeans(rows: seq<Row>, ma: real, mb: real)
    requires |rows| >= 2 && Weight(rows) != 0.0
    requires ma * Total(rows, OnlyWeight) == Total(rows, WeightedAsset)
    requires mb * Total(rows, OnlyWeight) == Total(rows, WeightedBenchmark)
    ensures Total(rows, OnlyWeight) != 0.0
    ensures Covariance(rows)
         == |rows| as real / (|rows| - 1) as real * (Total(rows, Distances(Asset, ma, Benchmark, mb)) / Total(rows, OnlyWeight))
    ensures Variance(rows)
         == |rows| as real / (|rows| - 1) as real * (Total(rows, Distances(Benchmark, mb, Benchmark, mb)) / Total(rows, OnlyWeight))
  {
    hide Inner, Moment, Total, Weight;
    MeansAreTotals(rows);
    hide Mean;
    SameMean(ma, Mean(rows, Asset), Total(rows, OnlyWeight));
    SameMean(mb, Mean(rows, Benchmark), Total(rows, OnlyWeight));
    MomentIsTotal(rows, Asset, Benchmark);
    MomentIsTotal(rows, Benchmark, Benchmark);
  }

  // ----- a row in two parts

  lemma {:induction false} InnerAppend(a: seq<Row>, b: seq<Row>, x: Column, y: Column)
    ensures Inner(a + b, x, y) == Inner(a, x, y) + Inner(b, x, y)
  {
    if a == [] {
      assert a + b == b;
    } else {
      assert (a + b)[1..] == a[1..] + b;
      InnerAppend(a[1..], b, x, y);
    }
  }

  /** The column does not look at the weight of the row. */
  ghost predicate SameOnParts(x: Column, u: real, v: real, asset: real, benchmark: real) {
    x(Row(u, asset, benchmark)) == x(Row(u + v, asset, benchmark)) == x(Row(v, asset, benchmark))
  }

  lemma AddWeights(u: real, v: real, z: real)
    ensures (u + v) * z == u * z + v * z
  {
  }

  lemma InnerOfParts(u: real, v: real, asset: real, benchmark: real, x: Column, y: Column)
    requires SameOnParts(x, u, v, asset, benchmark) && SameOnParts(y, u, v, asset, benchmark)
    ensures Inner([Row(u + v, asset, benchmark)], x, y) == Inner([Row(u, asset, benchmark), Row(v, asset, benchmark)], x, y)
  {
    var p, q, r := Row(u, asset, benchmark), Row(v, asset, benchmark), Row(u + v, asset, benchmark);
    assert [p, q][1..] == [q] && [q][1..] == [] && [r][1..] == [];
    AddWeights(u, v, x(r) * y(r));
  }

  function Whole(before: seq<Row>, u: real, v: real, asset: real, benchmark: real, after: seq<Row>): seq<Row> {
    before + ([Row(u + v, asset, benchmark)] + after)
  }

  function Parts(before: seq<Row>, u: real, v: real, asset: real, benchmark: real, after: seq<Row>): seq<Row> {
    before + ([Row(u, asset, benchmark), Row(v, asset, benchmark)] + after)
  }

  lemma InnerOfSplit(before: seq<Row>, u: real, v: real, asset: real, benchmark: real, after: seq<Row>, x: Column, y: Column)
    requires SameOnParts(x, u, v, asset, benchmark) && SameOnParts(y, u, v, asset, benchmark)
    ensures Inner(Whole(before, u, v, asset, benchmark, after), x, y) == Inner(Parts(before, u, v, asset, benchmark, after), x, y)
  {
    hide Inner, SameOnParts;
    var whole, parts := [Row(u + v, asset, benchmark)], [Row(u, asset, benchmark), Row(v, asset, benchmark)];
    InnerAppend(before, whole + after, x, y);
    InnerAppend(before, parts + after, x, y);
    InnerAppend(whole, after, x, y);
    InnerAppend(parts, after, x, y);
    InnerOfParts(u, v, asset, benchmark, x, y);
  }

  lemma MomentOfSplit(before: seq<Row>, u: real, v: real, asset: real, benchmark: real, after: seq<Row>, x: Column, y: Column)
    requires SameOnParts(x, u, v, asset, benchmark) && SameOnParts(y, u, v, asset, benchmark)
    ensures var whole, parts := Whole(before, u, v, asset, benchmark, after), Parts(before, u, v, asset, benchmark, after);
            Weight(whole) == Weight(parts) && (Weight(whole) != 0.0 ==> Moment(whole, x, y) == Moment(parts, x, y))
  {
    hide Inner, Whole, Parts;
    assert SameOnParts(One, u, v, asset, benchmark);
    InnerOfSplit(before, u, v, asset, benchmark, after, One, One);
    InnerOfSplit(before, u, v, asset, benchmark, after, x, One);
    InnerOfSplit(before, u, v, asset, benchmark, after, y, One);
    InnerOfSplit(before, u, v, asset, benchmark, after, x, y);
  }

  lemma FactorCancels(k: real, m: real, v: real, km: real, kv: real)
    requires k != 0.0 && km == k * m && kv == k * v
    ensures kv == 0.0 <==> v == 0.0
    ensures v != 0.0 ==> km / kv == m / v
  {
    if v != 0.0 {
      var q := m / v;
      assert q * v == m;
      assert q * kv == km;
    }
  }

  lemma CorrectionPositive(rows: seq<Row>)
    requires |rows| >= 2
    ensures Correction(rows) > 0.0
  {
  }

  /** What is left of beta when the count correction is cancelled. */
  lemma BetaOfMoments(rows: seq<Row>)
    requires Weight(rows) != 0.0 && |rows| >= 2
    ensures Beta(rows) == if Moment(rows, Benchmark, Benchmark) == 0.0 then None
                          else Some(Moment(rows, Asset, Benchmark) / Moment(rows, Benchmark, Benchmark))
  {
    CorrectionPositive(rows);
    hide Moment, Weight, Correction;
    FactorCancels(Correction(rows), Moment(rows, Asset, Benchmark), Moment(rows, Benchmark, Benchmark), Covariance(rows),
                  Variance(rows));
  }

  lemma OneRowMoment(r: Row)
    requires Weight([r]) != 0.0
    ensures Moment([r], Benchmark, Benchmark) == 0.0
  {
    var w, b := r.weight, r.benchmark;
    InnerOfOne(r, One, One);
    InnerOfOne(r, Benchmark, One);
    InnerOfOne(r, Benchmark, Benchmark);
    hide Inner;
    assert Weight([r]) == w && Inner([r], Benchmark, One) == w * b && Inner([r], Benchmark, Benchmark) == w * (b * b);
    QuotientOfProduct(w, b);
    QuotientOfProduct(w, b * b);
  }

  lemma InnerOfOne(r: Row, x: Column, y: Column)
    ensures Inner([r], x, y) == r.weight * (x(r) * y(r))
  {
  }

  lemma QuotientOfProduct(w: real, b: real)
    requires w != 0.0
    ensures (w * b) / w == b
  {
  }

  /** A row counts by its weight: in two parts that share the weight, it leaves beta as it is. */
  lemma BetaOfSplitRow(before: seq<Row>, u: real, v: real, asset: real, benchmark: real, after: seq<Row>)
    ensures Beta(Whole(before, u, v, asset, benchmark, after)) == Beta(Parts(before, u, v, asset, benchmark, after))
  {
    var whole, parts := Whole(before, u, v, asset, benchmark, after), Parts(before, u, v, asset, benchmark, after);
    assert |parts| == |whole| + 1;
    assert |whole| == 1 ==> whole == [whole[0]];
    assert SameOnParts(Asset, u, v, asset, benchmark) && SameOnParts(Benchmark, u, v, asset, benchmark);
    MomentOfSplit(before, u, v, asset, benchmark, after, Asset, Benchmark);
    MomentOfSplit(before, u, v, asset, benchmark, after, Benchmark, Benchmark);
    hide Moment, Weight, Whole, Parts;
    if Weight(whole) != 0.0 {
      BetaOfMoments(parts);
      if |whole| == 1 {
        OneRowMoment(whole[0]);
      } else {
        BetaOfMoments(whole);
      }
    }
  }
}
