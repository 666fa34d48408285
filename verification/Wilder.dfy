/** Wilder's smoothing: a mean over the first `period` values, and then a recurrence that moves a `period`-th
    of the way to each new value. */
module Wilder {
  function Sum(xs: seq<real>): real {
    if xs == [] then 0.0 else Sum(xs[..|xs| - 1]) + xs[|xs| - 1]
  }

  /** The weight of one new value. */
  function Share(period: nat): (share: real)
    requires period >= 1
    ensures 0.0 < share <= 1.0
    ensures period >= 2 ==> share < 1.0
    ensures share * period as real == 1.0
  {
    1.0 / period as real
  }

  /** One step of the recurrence. */
  function Toward(previous: real, x: real, period: nat): real
    requires period >= 1
  {
    previous + (x - previous) / period as real
  }

  /** The smoothed mean at index `i` of the values from `start` on. */
  function Mean(xs: seq<real>, start: nat, period: nat, i: nat): real
    requires period >= 1 && start + period - 1 <= i < |xs|
  {
    if i == start + period - 1 then Sum(xs[start..start + period]) / period as real
    else Toward(Mean(xs, start, period, i - 1), xs[i], period)
  }

  lemma QuotientIsShare(x: real, period: nat)
    requires period >= 1
    ensures x / period as real == Share(period) * x
  {
  }

  lemma Blend(share: real, a: real, b: real)
    ensures a + share * (b - a) == (1.0 - share) * a + share * b
  {
  }

  lemma TowardBlends(previous: real, x: real, period: nat)
    requires period >= 1
    ensures Toward(previous, x, period) == (1.0 - Share(period)) * previous + Share(period) * x
  {
    QuotientIsShare(x - previous, period);
    hide Share;
    Blend(Share(period), previous, x);
  }

  // ----- scaling

  /** `f` is the multiplication by `k`. */
  ghost predicate Scales(f: real -> real, k: real) {
    forall x :: f(x) == k * x
  }

  function Scaling(k: real): real -> real {
    (x: real) => k * x
  }

  lemma ScalingScales(k: real)
    ensures Scales(Scaling(k), k)
  {
  }

  lemma Scaled(f: real -> real, k: real, x: real)
    requires Scales(f, k)
    ensures f(x) == k * x
  {
  }

  lemma Distribute(k: real, x: real, y: real)
    ensures k * (x + y) == k * x + k * y && k * (x - y) == k * x - k * y
  {
  }

  lemma ScaledSum(f: real -> real, k: real, x: real, y: real)
    requires Scales(f, k)
    ensures f(x + y) == f(x) + f(y) && f(0.0) == 0.0
  {
    Scaled(f, k, x + y);
    Scaled(f, k, x);
    Scaled(f, k, y);
    Scaled(f, k, 0.0);
    hide Scales;
    Distribute(k, x, y);
  }

  // ----- how the mean follows its values

  lemma {:induction false} SumAdds(xs: seq<real>, ys: seq<real>, zs: seq<real>)
    requires |xs| == |ys| == |zs|
    requires forall j :: 0 <= j < |zs| ==> zs[j] == xs[j] + ys[j]
    ensures Sum(zs) == Sum(xs) + Sum(ys)
  {
    if zs != [] {
      var n := |zs| - 1;
      SumAdds(xs[..n], ys[..n], zs[..n]);
    }
  }

  lemma {:induction false} SumScales(f: real -> real, xs: seq<real>, zs: seq<real>, k: real)
    requires |xs| == |zs| && Scales(f, k)
    requires forall j :: 0 <= j < |zs| ==> zs[j] == f(xs[j])
    ensures Sum(zs) == f(Sum(xs))
  {
    hide Scales;
    if zs != [] {
      var n := |zs| - 1;
      SumScales(f, xs[..n], zs[..n], k);
      ScaledSum(f, k, Sum(xs[..n]), xs[n]);
    } else {
      ScaledSum(f, k, 0.0, 0.0);
    }
  }

  /** Smoothing a sum adds the smoothed series. */
  lemma {:induction false} MeanAdds(xs: seq<real>, ys: seq<real>, zs: seq<real>, start: nat, period: nat, i: nat)
    requires period >= 1 && start + period - 1 <= i < |zs| && |xs| == |ys| == |zs|
    requires forall j :: start <= j <= i ==> zs[j] == xs[j] + ys[j]
    ensures Mean(zs, start, period, i) == Mean(xs, start, period, i) + Mean(ys, start, period, i)
  {
    if i == start + period - 1 {
      var end := start + period;
      SumAdds(xs[start..end], ys[start..end], zs[start..end]);
      QuotientAdds(Sum(xs[start..end]), Sum(ys[start..end]), period);
    } else {
      MeanAdds(xs, ys, zs, start, period, i - 1);
      QuotientAdds(xs[i] - Mean(xs, start, period, i - 1), ys[i] - Mean(ys, start, period, i - 1), period);
    }
  }

  lemma QuotientAdds(x: real, y: real, period: nat)
    requires period >= 1
    ensures (x + y) / period as real == x / period as real + y / period as real
  {
  }

  /** A map that every step of the recurrence commutes with. */
  ghost predicate Commutes(f: real -> real, period: nat)
    requires period >= 1
  {
    forall m, x {:trigger f(Toward(m, x, period))} :: f(Toward(m, x, period)) == Toward(f(m), f(x), period)
  }

  /** A map that commutes with every step, and with the seed, commutes with smoothing. */
  lemma {:induction false} MeanMaps(f: real -> real, xs: seq<real>, zs: seq<real>, start: nat, period: nat, i: nat)
    requires period >= 1 && start + period - 1 <= i < |zs| && |xs| == |zs|
    requires Commutes(f, period)
    requires Mean(zs, start, period, start + period - 1) == f(Mean(xs, start, period, start + period - 1))
    requires forall j :: start + period <= j <= i ==> zs[j] == f(xs[j])
    ensures Mean(zs, start, period, i) == f(Mean(xs, start, period, i))
  {
    if i != start + period - 1 {
      MeanMaps(f, xs, zs, start, period, i - 1);
      var m := Mean(xs, start, period, i - 1);
      assert f(Toward(m, xs[i], period)) == Toward(f(m), f(xs[i]), period);
    }
  }

  /** Smoothing scaled values scales the smoothed series; `f` is the scaling by `k`. */
  lemma MeanScales(f: real -> real, xs: seq<real>, zs: seq<real>, k: real, start: nat, period: nat, i: nat)
    requires period >= 1 && start + period - 1 <= i < |zs| && |xs| == |zs|
    requires Scales(f, k)
    requires forall j :: start <= j <= i ==> zs[j] == f(xs[j])
    ensures Mean(zs, start, period, i) == f(Mean(xs, start, period, i))
  {
    hide Scales, Mean, Commutes;
    assert Mean(zs, start, period, start + period - 1) == f(Mean(xs, start, period, start + period - 1)) by {
      SeedScales(f, xs, zs, k, start, period);
    }
    assert Commutes(f, period) by {
      ScalingCommutes(f, k, period);
    }
    MeanMaps(f, xs, zs, start, period, i);
  }

  lemma ScalingCommutes(f: real -> real, k: real, period: nat)
    requires period >= 1 && Scales(f, k)
    ensures Commutes(f, period)
  {
    hide Scales, Toward;
    forall m, x
      ensures f(Toward(m, x, period)) == Toward(f(m), f(x), period)
    {
      Scaled(f, k, Toward(m, x, period));
      Scaled(f, k, m);
      Scaled(f, k, x);
      TowardScales(k, m, x, period);
    }
  }

  lemma TowardScales(k: real, m: real, x: real, period: nat)
    requires period >= 1
    ensures Toward(k * m, k * x, period) == k * Toward(m, x, period)
  {
    var step := (x - m) / period as real;
    Distribute(k, x, m);
    ScaledQuotient(k, x - m, period, k * x - k * m);
    Distribute(k, m, step);
  }

  lemma ScaledQuotient(k: real, x: real, period: nat, scaled: real)
    requires period >= 1 && scaled == k * x
    ensures scaled / period as real == k * (x / period as real)
  {
    var q := x / period as real;
    assert x == q * period as real;
    assert scaled == (k * q) * period as real;
  }

  lemma MeanOfSeed(xs: seq<real>, start: nat, period: nat)
    requires period >= 1 && start + period <= |xs|
    ensures Mean(xs, start, period, start + period - 1) == Sum(xs[start..start + period]) / period as real
  {
  }

  lemma SeedScales(f: real -> real, xs: seq<real>, zs: seq<real>, k: real, start: nat, period: nat)
    requires period >= 1 && start + period - 1 < |zs| && |xs| == |zs|
    requires Scales(f, k)
    requires forall j :: start <= j < start + period ==> zs[j] == f(xs[j])
    ensures Mean(zs, start, period, start + period - 1) == f(Mean(xs, start, period, start + period - 1))
  {
    hide Scales, Sum, Mean;
    var a, b := xs[start..start + period], zs[start..start + period];
    MeanOfSeed(xs, start, period);
    MeanOfSeed(zs, start, period);
    SumScales(f, a, b, k);
    Scaled(f, k, Sum(a));
    ScaledQuotient(k, Sum(a), period, Sum(b));
    Scaled(f, k, Sum(a) / period as real);
  }

  lemma {:induction false} SumNonnegative(xs: seq<real>)
    requires forall j :: 0 <= j < |xs| ==> xs[j] >= 0.0
    ensures Sum(xs) >= 0.0
    ensures Sum(xs) == 0.0 <==> forall j :: 0 <= j < |xs| ==> xs[j] == 0.0
  {
    if xs != [] {
      var n := |xs| - 1;
      SumNonnegative(xs[..n]);
      assert forall j :: 0 <= j < n ==> xs[..n][j] == xs[j];
    }
  }

  /** The mean of values that are not negative is not negative, and past period one it is zero only when all
      of them are. */
  lemma {:induction false} MeanNonnegative(xs: seq<real>, start: nat, period: nat, i: nat)
    requires period >= 1 && start + period - 1 <= i < |xs|
    requires forall j :: start <= j <= i ==> xs[j] >= 0.0
    ensures Mean(xs, start, period, i) >= 0.0
    ensures (forall j :: start <= j <= i ==> xs[j] == 0.0) ==> Mean(xs, start, period, i) == 0.0
    ensures period >= 2 && Mean(xs, start, period, i) == 0.0 ==> forall j :: start <= j <= i ==> xs[j] == 0.0
  {
    if i == start + period - 1 {
      var seed := xs[start..start + period];
      SumNonnegative(seed);
      assert forall j :: start <= j <= i ==> xs[j] == seed[j - start];
      SeedNonnegative(Sum(seed), period);
    } else {
      MeanNonnegative(xs, start, period, i - 1);
      TowardNonnegative(Mean(xs, start, period, i - 1), xs[i], period);
    }
  }

  lemma SeedNonnegative(x: real, period: nat)
    requires period >= 1 && x >= 0.0
    ensures x / period as real >= 0.0
    ensures x / period as real == 0.0 <==> x == 0.0
  {
  }

  lemma TowardNonnegative(m: real, x: real, period: nat)
    requires period >= 1 && m >= 0.0 && x >= 0.0
    ensures Toward(m, x, period) >= 0.0
    ensures m == 0.0 && x == 0.0 ==> Toward(m, x, period) == 0.0
    ensures period >= 2 && Toward(m, x, period) == 0.0 ==> m == 0.0 && x == 0.0
  {
    TowardBlends(m, x, period);
  }

  /** Smoothing keeps every bound that the values meet. */
  lemma MeanBounded(xs: seq<real>, start: nat, period: nat, i: nat, low: real, high: real)
    requires period >= 1 && start + period - 1 <= i < |xs|
    requires forall j :: start <= j <= i ==> low <= xs[j] <= high
    ensures low <= Mean(xs, start, period, i) <= high
  {
    var lows, highs := seq(|xs|, _ => low), seq(|xs|, _ => high);
    var above := seq(|xs|, j requires 0 <= j < |xs| => xs[j] - low);
    var below := seq(|xs|, j requires 0 <= j < |xs| => high - xs[j]);
    MeanOfConstant(lows, low, start, period, i);
    MeanOfConstant(highs, high, start, period, i);
    MeanAdds(lows, above, xs, start, period, i);
    MeanAdds(xs, below, highs, start, period, i);
    MeanNonnegative(above, start, period, i);
    MeanNonnegative(below, start, period, i);
  }

  lemma {:induction false} SumOfConstant(xs: seq<real>, c: real)
    requires forall j :: 0 <= j < |xs| ==> xs[j] == c
    ensures Sum(xs) == c * |xs| as real
  {
    if xs != [] {
      SumOfConstant(xs[..|xs| - 1], c);
    }
  }

  lemma {:induction false} MeanOfConstant(xs: seq<real>, c: real, start: nat, period: nat, i: nat)
    requires period >= 1 && start + period - 1 <= i < |xs|
    requires forall j :: start <= j <= i ==> xs[j] == c
    ensures Mean(xs, start, period, i) == c
  {
    if i == start + period - 1 {
      SumOfConstant(xs[start..start + period], c);
    } else {
      MeanOfConstant(xs, c, start, period, i - 1);
    }
  }

  // ----- the weight of every value

  function Power(x: real, n: nat): real {
    if n == 0 then 1.0 else x * Power(x, n - 1)
  }

  /** The weight of value `j` in the mean at index `i`, when the first mean is at index `first`: the same for
      every value of the seed, and falling geometrically with the distance after it. */
  function Weight(first: nat, share: real, i: nat, j: nat): real {
    var anchor := if j < first then first else j;
    share * Power(1.0 - share, if anchor <= i then i - anchor else 0)
  }

  /** Value `j` times its weight in the mean at index `i`. */
  function Terms(xs: seq<real>, first: nat, share: real, i: nat): nat -> real {
    (j: nat) => if j < |xs| then Weight(first, share, i, j) * xs[j] else 0.0
  }

  /** The sum of the terms from `start` up to and without `n`. */
  function SumOf(term: nat -> real, start: nat, n: nat): real
    requires start <= n
  {
    if n == start then 0.0 else SumOf(term, start, n - 1) + term(n - 1)
  }

  lemma {:induction false} SumOfScales(f: real -> real, k: real, before: nat -> real, now: nat -> real, start: nat, n: nat)
    requires start <= n && Scales(f, k)
    requires forall j :: start <= j < n ==> now(j) == f(before(j))
    ensures SumOf(now, start, n) == f(SumOf(before, start, n))
  {
    hide Scales;
    if n > start {
      SumOfScales(f, k, before, now, start, n - 1);
      ScaledSum(f, k, SumOf(before, start, n - 1), before(n - 1));
    } else {
      ScaledSum(f, k, 0.0, 0.0);
    }
  }

  lemma {:induction false} SumOfSlice(xs: seq<real>, term: nat -> real, start: nat, n: nat)
    requires start <= n <= |xs|
    requires forall j :: start <= j < n ==> term(j) == xs[j]
    ensures SumOf(term, start, n) == Sum(xs[start..n])
  {
    if n > start {
      SumOfSlice(xs, term, start, n - 1);
      SumGrows(xs, start, n - 1);
    }
  }

  lemma Regroup(s: real, q: real, p: real, x: real)
    ensures (s * (q * p)) * x == q * ((s * p) * x)
  {
  }

  lemma NewestTerm(xs: seq<real>, first: nat, share: real, i: nat, j: nat)
    requires j < |xs| && (i == j >= first || j <= first == i)
    ensures Terms(xs, first, share, i)(j) == share * xs[j]
  {
    assert Power(1.0 - share, 0) == 1.0;
  }

  /** The values of a series, and zero past its end. */
  function Values(xs: seq<real>): nat -> real {
    (j: nat) => if j < |xs| then xs[j] else 0.0
  }

  lemma SeedIsWeighted(xs: seq<real>, start: nat, period: nat, share: real)
    requires period >= 1 && start + period <= |xs| && share == Share(period)
    ensures var first := start + period - 1;
            Mean(xs, start, period, first) == SumOf(Terms(xs, first, share, first), start, start + period)
  {
    hide Scales, Scaling, Share, Sum, SumOf, Terms;
    var first, end := start + period - 1, start + period;
    var f, terms := Scaling(share), Terms(xs, first, share, first);
    ScalingScales(share);
    forall j: nat | start <= j < end
      ensures terms(j) == f(Values(xs)(j))
    {
      NewestTerm(xs, first, share, first, j);
      Scaled(f, share, xs[j]);
    }
    SumOfSlice(xs, Values(xs), start, end);
    SumOfScales(f, share, Values(xs), terms, start, end);
    Scaled(f, share, Sum(xs[start..end]));
    QuotientIsShare(Sum(xs[start..end]), period);
  }

  lemma StepIsWeighted(f: real -> real, before: nat -> real, now: nat -> real, xs: seq<real>, start: nat, period: nat, i: nat)
    requires period >= 1 && start + period <= i < |xs|
    requires Scales(f, 1.0 - Share(period))
    requires forall j :: start <= j < i ==> now(j) == f(before(j))
    requires now(i) == Share(period) * xs[i]
    requires Mean(xs, start, period, i - 1) == SumOf(before, start, i)
    ensures Mean(xs, start, period, i) == SumOf(now, start, i + 1)
  {
    hide Scales, Share, Toward, Sum;
    SumOfScales(f, 1.0 - Share(period), before, now, start, i);
    Scaled(f, 1.0 - Share(period), SumOf(before, start, i));
    TowardBlends(Mean(xs, start, period, i - 1), xs[i], period);
  }

  lemma TermDecays(xs: seq<real>, first: nat, share: real, i: nat, j: nat)
    requires first < i && j < i
    ensures Terms(xs, first, share, i)(j) == (1.0 - share) * Terms(xs, first, share, i - 1)(j)
  {
    if j < |xs| {
      var anchor := if j < first then first else j;
      assert Power(1.0 - share, i - anchor) == (1.0 - share) * Power(1.0 - share, i - 1 - anchor);
      Regroup(share, 1.0 - share, Power(1.0 - share, i - 1 - anchor), xs[j]);
    }
  }

  lemma TermsDecay(f: real -> real, xs: seq<real>, first: nat, share: real, i: nat)
    requires first < i && Scales(f, 1.0 - share)
    ensures forall j :: 0 <= j < i ==> Terms(xs, first, share, i)(j) == f(Terms(xs, first, share, i - 1)(j))
  {
    hide Terms, Scales;
    forall j: nat | j < i
      ensures Terms(xs, first, share, i)(j) == f(Terms(xs, first, share, i - 1)(j))
    {
      TermDecays(xs, first, share, i, j);
      Scaled(f, 1.0 - share, Terms(xs, first, share, i - 1)(j));
    }
  }

  /** The mean at index `i` is the sum of the values from `start` to `i`, each times its weight. */
  lemma {:induction false} MeanIsWeighted(xs: seq<real>, start: nat, period: nat, i: nat)
    requires period >= 1 && start + period - 1 <= i < |xs|
    ensures Mean(xs, start, period, i) == SumOf(Terms(xs, start + period - 1, Share(period), i), start, i + 1)
  {
    hide Mean, SumOf, Terms, Share, Scales, Scaling;
    if i == start + period - 1 {
      SeedIsWeighted(xs, start, period, Share(period));
    } else {
      MeanIsWeighted(xs, start, period, i - 1);
      var first, share := start + period - 1, Share(period);
      ScalingScales(1.0 - share);
      TermsDecay(Scaling(1.0 - share), xs, first, share, i);
      NewestTerm(xs, first, share, i, i);
      StepIsWeighted(Scaling(1.0 - share), Terms(xs, first, share, i - 1), Terms(xs, first, share, i), xs, start, period, i);
    }
  }

  /** The weights add up to one. */
  lemma WeightsSumToOne(start: nat, period: nat, i: nat)
    requires period >= 1 && start + period - 1 <= i
    ensures SumOf(Terms(seq(i + 1, _ => 1.0), start + period - 1, Share(period), i), start, i + 1) == 1.0
  {
    var ones := seq(i + 1, _ => 1.0);
    MeanIsWeighted(ones, start, period, i);
    MeanOfConstant(ones, 1.0, start, period, i);
  }

  // ----- the running form of the same mean

  /** One step of a running mean of the values so far, which add up to `total`. */
  method RunningNext(mean: real, value: real, k: nat, ghost total: real) returns (next: real)
    requires mean * k as real == total
    ensures next * (k + 1) as real == total + value
  {
    next := mean + (value - mean) / (k + 1) as real;
    RunningStep(mean, value, (k + 1) as real);
    Spread(mean, k as real);
  }

  lemma RunningStep(mean: real, value: real, n: real)
    requires n > 0.0
    ensures (mean + (value - mean) / n) * n == mean * n + (value - mean)
  {
    var step := (value - mean) / n;
    assert step * n == value - mean;
    Distribute(n, mean, step);
  }

  lemma Spread(mean: real, k: real)
    ensures mean * (k + 1.0) == mean * k + mean
  {
  }

  /** The mean of the seed, kept as a running mean. */
  method SeedMean(values: seq<real>, period: nat, start: nat) returns (mean: real)
    requires period >= 1 && start + period <= |values|
    ensures mean == Mean(values, start, period, start + period - 1)
  {
    hide Mean, Sum;
    mean := 0.0;
    ghost var total := 0.0;
    SumOfNone(values, start);
    for k := 0 to period
      invariant total == Sum(values[start..start + k])
      invariant mean * k as real == total
    {
      var value := values[start + k];
      SumGrows(values, start, start + k);
      mean := RunningNext(mean, value, k, total);
      total := total + value;
    }
    SeedQuotient(mean, total, period);
    MeanOfSeed(values, start, period);
  }

  lemma SumOfNone(xs: seq<real>, start: nat)
    requires start <= |xs|
    ensures Sum(xs[start..start]) == 0.0
  {
  }

  lemma SumGrows(xs: seq<real>, start: nat, end: nat)
    requires start <= end < |xs|
    ensures Sum(xs[start..end + 1]) == Sum(xs[start..end]) + xs[end]
  {
    assert xs[start..end + 1][..end - start] == xs[start..end];
  }

  lemma SeedQuotient(mean: real, sum: real, period: nat)
    requires period >= 1 && mean * period as real == sum
    ensures mean == sum / period as real
  {
  }

  /** One step of the recurrence, with period one written out. */
  method Next(mean: real, value: real, period: nat) returns (next: real)
    requires period >= 1
    ensures next == Toward(mean, value, period)
  {
    next := if period == 1 then value else mean + (value - mean) / period as real;
  }

  /** The smoothed series, with zeros before the first mean. */
  function Smoothed(xs: seq<real>, start: nat, period: nat): (means: seq<real>)
    requires period >= 1
    ensures |means| == |xs|
  {
    seq(|xs|, i requires 0 <= i < |xs| => if i < start + period - 1 then 0.0 else Mean(xs, start, period, i))
  }

  /** The smoothed series computed in one pass. */
  method RunningMeans(values: seq<real>, period: nat, start: nat) returns (means: seq<real>)
    requires period >= 1
    ensures means == Smoothed(values, start, period)
  {
    var first := start + period - 1;
    ghost var smoothed := Smoothed(values, start, period);
    means := seq(|values|, _ => 0.0);
    if first >= |values| {
      return;
    }
    var mean := SeedMean(values, period, start);
    means := means[first := mean];
    for i := first + 1 to |values|
      invariant mean == Mean(values, start, period, i - 1)
      invariant means == smoothed[..i] + seq(|values| - i, _ => 0.0)
    {
      mean := Next(mean, values[i], period);
      means := means[i := mean];
    }
  }
}
