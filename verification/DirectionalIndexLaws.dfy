/** What the average directional index promises for every series of bars and every period. */
module DirectionalIndexLaws {
  import opened Wilder
  import opened DirectionalIndex

  predicate AllOrdered(bars: seq<Bar>) {
    forall i :: 0 <= i < |bars| ==> Ordered(bars[i])
  }

  // ----- what the indicators are

  /** The true range: the bar, stretched to the previous close if that is outside. */
  predicate IsRange(bar: Bar, previous: Bar, range: real) {
    && (bar.low <= previous.close <= bar.high ==> range == bar.high - bar.low)
    && (previous.close > bar.high ==> range == previous.close - bar.low)
    && (previous.close < bar.low ==> range == bar.high - previous.close)
  }

  /** The move in one direction: all of it if it is positive and larger than the opposite one, and otherwise nothing. */
  predicate IsMove(move: real, opposite: real, counted: real) {
    (counted == move && move > 0.0 && move > opposite) || (counted == 0.0 && (move <= 0.0 || move <= opposite))
  }

  lemma RangeIsSpan(bar: Bar, previous: Bar)
    requires Ordered(bar) && Ordered(previous)
    ensures IsRange(bar, previous, RangeOf(bar, previous))
    ensures forall range :: IsRange(bar, previous, range) ==> range == RangeOf(bar, previous)
  {
  }

  lemma {:induction false} MeanSame(xs: seq<real>, zs: seq<real>, start: nat, period: nat, i: nat)
    requires period >= 1 && start + period - 1 <= i < |xs| && |zs| == |xs|
    requires forall j :: start <= j <= i ==> zs[j] == xs[j]
    ensures Mean(zs, start, period, i) == Mean(xs, start, period, i)
  {
    if i == start + period - 1 {
      assert zs[start..start + period] == xs[start..start + period];
    } else {
      MeanSame(xs, zs, start, period, i - 1);
    }
  }

  /** The range of the first bar is its own, and it makes no move; later bars are compared with the one before. */
  lemma RawMeaning(bars: seq<Bar>, i: nat)
    requires AllOrdered(bars) && i < |bars|
    ensures i == 0 ==> RawAt(bars, 0) == Triple(bars[0].high - bars[0].low, 0.0, 0.0)
    ensures i > 0 ==> IsRange(bars[i], bars[i - 1], RawAt(bars, i).range)
    ensures i > 0 ==> IsMove(bars[i].high - bars[i - 1].high, bars[i - 1].low - bars[i].low, RawAt(bars, i).plus)
    ensures i > 0 ==> IsMove(bars[i - 1].low - bars[i].low, bars[i].high - bars[i - 1].high, RawAt(bars, i).minus)
  {
    if i > 0 {
      RangeIsSpan(bars[i], bars[i - 1]);
    }
  }

  /** `ranges`, `ups` and `downs` are the ranges and the moves of the bars after the first one. */
  ghost predicate AreMovements(bars: seq<Bar>, ranges: seq<real>, ups: seq<real>, downs: seq<real>) {
    && |ranges| == |ups| == |downs| == |bars|
    && forall j :: 1 <= j < |bars| ==>
         && IsRange(bars[j], bars[j - 1], ranges[j])
         && IsMove(bars[j].high - bars[j - 1].high, bars[j - 1].low - bars[j].low, ups[j])
         && IsMove(bars[j - 1].low - bars[j].low, bars[j].high - bars[j - 1].high, downs[j])
  }

  lemma MovementsAre(bars: seq<Bar>, j: nat, range: real, up: real, down: real)
    requires AllOrdered(bars) && 1 <= j < |bars|
    requires IsRange(bars[j], bars[j - 1], range)
    requires IsMove(bars[j].high - bars[j - 1].high, bars[j - 1].low - bars[j].low, up)
    requires IsMove(bars[j - 1].low - bars[j].low, bars[j].high - bars[j - 1].high, down)
    ensures Ranges(bars)[j] == range && Pluses(bars)[j] == up && Minuses(bars)[j] == down
  {
    RangeIsSpan(bars[j], bars[j - 1]);
  }

  lemma MeansOfMovements(bars: seq<Bar>, ranges: seq<real>, ups: seq<real>, downs: seq<real>, period: nat, i: nat)
    requires AllOrdered(bars) && AreMovements(bars, ranges, ups, downs) && 1 <= period <= i < |bars|
    ensures MeansAt(bars, period, i) == Triple(Mean(ranges, 1, period, i), Mean(ups, 1, period, i), Mean(downs, 1, period, i))
  {
    hide Mean, Ranges, Pluses, Minuses, IsRange, IsMove, AllOrdered;
    forall j | 1 <= j < |bars|
      ensures Ranges(bars)[j] == ranges[j] && Pluses(bars)[j] == ups[j] && Minuses(bars)[j] == downs[j]
    {
      MovementsAre(bars, j, ranges[j], ups[j], downs[j]);
    }
    MeanSame(Ranges(bars), ranges, 1, period, i);
    MeanSame(Pluses(bars), ups, 1, period, i);
    MeanSame(Minuses(bars), downs, 1, period, i);
  }

  /** `percent` percent of the whole is the part; of nothing it is zero percent. */
  predicate IsShare(percent: real, part: real, whole: real) {
    percent * whole == 100.0 * part && (whole == 0.0 ==> percent == 0.0)
  }

  lemma DiIsShare(movement: real, range: real)
    requires range == 0.0 ==> movement == 0.0
    ensures IsShare(Di(movement, range), movement, range)
  {
  }

  lemma DxIsShare(plusDi: real, minusDi: real)
    requires plusDi >= 0.0 && minusDi >= 0.0
    ensures IsShare(DxOf(plusDi, minusDi), if plusDi < minusDi then minusDi - plusDi else plusDi - minusDi, plusDi + minusDi)
  {
  }

  /** The indicators in terms of the smoothed moves and ranges: each direction is the share of its moves in the range,
      and the index the share of their difference in their sum. */
  lemma IndicatorMeaning(bars: seq<Bar>, ranges: seq<real>, ups: seq<real>, downs: seq<real>, period: nat, i: nat)
    requires AllOrdered(bars) && AreMovements(bars, ranges, ups, downs) && 1 <= period <= i < |bars|
    ensures IsShare(PlusDi(bars, period, i), Mean(ups, 1, period, i), Mean(ranges, 1, period, i))
    ensures IsShare(MinusDi(bars, period, i), Mean(downs, 1, period, i), Mean(ranges, 1, period, i))
    ensures var plus, minus := PlusDi(bars, period, i), MinusDi(bars, period, i);
            IsShare(Dx(bars, period, i), if plus < minus then minus - plus else plus - minus, plus + minus)
  {
    hide Mean, Di, DxOf, IsRange, IsMove, AreMovements, AllOrdered, IsShare;
    MeansOfMovements(bars, ranges, ups, downs, period, i);
    SmoothedMovementsWithinRange(bars, period, i);
    IndicatorBounds(bars, period, i);
    var m := MeansAt(bars, period, i);
    DiIsShare(m.plus, m.range);
    DiIsShare(m.minus, m.range);
    DxIsShare(PlusDi(bars, period, i), MinusDi(bars, period, i));
  }

  /** The average index smooths the index from its first valid place on. */
  lemma AdxMeaning(bars: seq<Bar>, period: nat, i: nat, dxs: seq<real>)
    requires 1 <= period && 2 * period - 1 <= i < |bars| == |dxs|
    requires forall j :: period <= j < |bars| ==> dxs[j] == Dx(bars, period, j)
    ensures Adx(bars, period, i) == Mean(dxs, period, period, i)
  {
    hide Mean, Dx;
    MeanSame(Dxs(bars, period), dxs, period, period, i);
  }

  // ----- bounds

  /** One bar after another never moves further than its true range, and only one way. */
  lemma MovementsWithinRange(bar: Bar, previous: Bar)
    requires Ordered(bar) && Ordered(previous)
    ensures PlusOf(bar, previous) >= 0.0 && MinusOf(bar, previous) >= 0.0
    ensures PlusOf(bar, previous) + MinusOf(bar, previous) <= RangeOf(bar, previous)
    ensures PlusOf(bar, previous) == 0.0 || MinusOf(bar, previous) == 0.0
  {
  }

  lemma SmoothedMovementsWithinRange(bars: seq<Bar>, period: nat, i: nat)
    requires AllOrdered(bars) && 1 <= period <= i < |bars|
    ensures var m := MeansAt(bars, period, i);
            m.plus >= 0.0 && m.minus >= 0.0 && m.plus + m.minus <= m.range
  {
    var ranges, pluses, minuses := Ranges(bars), Pluses(bars), Minuses(bars);
    var moves := seq(|bars|, j requires 0 <= j < |bars| => pluses[j] + minuses[j]);
    var slack := seq(|bars|, j requires 0 <= j < |bars| => ranges[j] - moves[j]);
    forall j | 1 <= j <= i
      ensures pluses[j] >= 0.0 && minuses[j] >= 0.0 && slack[j] >= 0.0
    {
      MovementsWithinRange(bars[j], bars[j - 1]);
    }
    MeanAdds(pluses, minuses, moves, 1, period, i);
    MeanAdds(moves, slack, ranges, 1, period, i);
    MeanNonnegative(pluses, 1, period, i);
    MeanNonnegative(minuses, 1, period, i);
    MeanNonnegative(slack, 1, period, i);
  }

  lemma Percentage(x: real, y: real)
    requires y > 0.0 && 0.0 <= x <= y
    ensures 0.0 <= 100.0 * x / y <= 100.0
  {
  }

  lemma DiBounds(plus: real, minus: real, range: real)
    requires plus >= 0.0 && minus >= 0.0 && plus + minus <= range
    ensures Di(plus, range) >= 0.0 && Di(minus, range) >= 0.0
    ensures Di(plus, range) + Di(minus, range) <= 100.0
  {
  }

  lemma DxBounds(plusDi: real, minusDi: real)
    requires plusDi >= 0.0 && minusDi >= 0.0
    ensures 0.0 <= DxOf(plusDi, minusDi) <= 100.0
  {
    if plusDi + minusDi > 0.0 {
      Percentage(Abs(plusDi - minusDi), plusDi + minusDi);
    }
  }

  /** The indicators stay in their ranges wherever they are valid. */
  lemma IndicatorBounds(bars: seq<Bar>, period: nat, i: nat)
    requires AllOrdered(bars) && 1 <= period <= i < |bars|
    ensures PlusDi(bars, period, i) >= 0.0 && MinusDi(bars, period, i) >= 0.0
    ensures PlusDi(bars, period, i) + MinusDi(bars, period, i) <= 100.0
    ensures 0.0 <= Dx(bars, period, i) <= 100.0
    ensures 2 * period - 1 <= i ==> 0.0 <= Adx(bars, period, i) <= 100.0
  {
    DiAndDxBounds(bars, period, i);
    if 2 * period - 1 <= i {
      forall j | period <= j <= i
        ensures 0.0 <= Dxs(bars, period)[j] <= 100.0
      {
        DiAndDxBounds(bars, period, j);
      }
      MeanBounded(Dxs(bars, period), period, period, i, 0.0, 100.0);
    }
  }

  lemma DiAndDxBounds(bars: seq<Bar>, period: nat, i: nat)
    requires AllOrdered(bars) && 1 <= period <= i < |bars|
    ensures PlusDi(bars, period, i) >= 0.0 && MinusDi(bars, period, i) >= 0.0
    ensures PlusDi(bars, period, i) + MinusDi(bars, period, i) <= 100.0
    ensures 0.0 <= Dx(bars, period, i) <= 100.0
  {
    SmoothedMovementsWithinRange(bars, period, i);
    var m := MeansAt(bars, period, i);
    DiBounds(m.plus, m.minus, m.range);
    DxBounds(PlusDi(bars, period, i), MinusDi(bars, period, i));
  }

  // ----- prices upside down

  function Mirror(bar: Bar): Bar {
    Bar(-bar.low, -bar.high, -bar.close)
  }

  function MirrorAll(bars: seq<Bar>): (mirrored: seq<Bar>)
    ensures |mirrored| == |bars|
  {
    seq(|bars|, i requires 0 <= i < |bars| => Mirror(bars[i]))
  }

  lemma MirrorBar(bar: Bar, previous: Bar)
    ensures RangeOf(Mirror(bar), Mirror(previous)) == RangeOf(bar, previous)
    ensures PlusOf(Mirror(bar), Mirror(previous)) == MinusOf(bar, previous)
    ensures MinusOf(Mirror(bar), Mirror(previous)) == PlusOf(bar, previous)
  {
  }

  lemma MirrorSeries(bars: seq<Bar>)
    ensures Ranges(MirrorAll(bars)) == Ranges(bars)
    ensures Pluses(MirrorAll(bars)) == Minuses(bars)
    ensures Minuses(MirrorAll(bars)) == Pluses(bars)
  {
    forall j | 1 <= j < |bars|
      ensures Ranges(MirrorAll(bars))[j] == Ranges(bars)[j] && Pluses(MirrorAll(bars))[j] == Minuses(bars)[j] &&
              Minuses(MirrorAll(bars))[j] == Pluses(bars)[j]
    {
      MirrorBar(bars[j], bars[j - 1]);
    }
  }

  lemma DxSymmetric(p: real, m: real)
    ensures DxOf(p, m) == DxOf(m, p)
  {
  }

  lemma MirrorDi(bars: seq<Bar>, period: nat, i: nat)
    requires 1 <= period <= i < |bars|
    ensures PlusDi(MirrorAll(bars), period, i) == MinusDi(bars, period, i)
    ensures MinusDi(MirrorAll(bars), period, i) == PlusDi(bars, period, i)
    ensures Dx(MirrorAll(bars), period, i) == Dx(bars, period, i)
  {
    MirrorSeries(bars);
    DxSymmetric(PlusDi(bars, period, i), MinusDi(bars, period, i));
  }

  /** Mirroring the prices swaps the two directions and leaves the strength of the trend alone. */
  lemma MirrorSwaps(bars: seq<Bar>, period: nat, i: nat)
    requires 1 <= period <= i < |bars|
    ensures PlusDi(MirrorAll(bars), period, i) == MinusDi(bars, period, i)
    ensures MinusDi(MirrorAll(bars), period, i) == PlusDi(bars, period, i)
    ensures Dx(MirrorAll(bars), period, i) == Dx(bars, period, i)
    ensures 2 * period - 1 <= i ==> Adx(MirrorAll(bars), period, i) == Adx(bars, period, i)
  {
    MirrorDi(bars, period, i);
    SameAdx(bars, MirrorAll(bars), period, i) by {
      forall j | period <= j < |bars|
        ensures Dx(MirrorAll(bars), period, j) == Dx(bars, period, j)
      {
        MirrorDi(bars, period, j);
      }
    }
  }

  lemma SameAdx(bars: seq<Bar>, other: seq<Bar>, period: nat, i: nat)
    requires |other| == |bars| && 1 <= period <= i < |bars|
    requires forall j :: period <= j < |bars| ==> Dx(other, period, j) == Dx(bars, period, j)
    ensures 2 * period - 1 <= i ==> Adx(other, period, i) == Adx(bars, period, i)
  {
    assert Dxs(other, period) == Dxs(bars, period);
  }

  // ----- prices on another scale

  /** Every price of a bar through the same map. */
  function Reprice(bar: Bar, price: real -> real): Bar {
    Bar(price(bar.high), price(bar.low), price(bar.close))
  }

  function RepriceAll(bars: seq<Bar>, price: real -> real): (repriced: seq<Bar>)
    ensures |repriced| == |bars|
  {
    seq(|bars|, i requires 0 <= i < |bars| => Reprice(bars[i], price))
  }

  predicate Below(x: real, y: real) {
    x < y
  }

  /** `f` keeps the order and the sign of differences. */
  ghost predicate KeepsOrder(f: real -> real) {
    && f(0.0) == 0.0
    && (forall x, y {:trigger Below(x, y)} :: Below(x, y) ==> f(x) < f(y))
    && (forall x {:trigger f(-x)} :: f(-x) == -f(x))
  }

  /** A difference of two prices becomes `f` of the difference. */
  ghost predicate MapsDifferences(price: real -> real, f: real -> real) {
    forall x, y {:trigger Below(x, y)} :: price(x) - price(y) == f(x - y)
  }

  lemma DifferenceThrough(price: real -> real, f: real -> real, x: real, y: real)
    requires MapsDifferences(price, f)
    ensures price(x) - price(y) == f(x - y)
  {
    assert Below(x, y) == (x < y);
  }

  lemma MaxThrough(f: real -> real, x: real, y: real)
    requires KeepsOrder(f)
    ensures Max(f(x), f(y)) == f(Max(x, y))
  {
    assert Below(x, y) || Below(y, x) || x == y;
  }

  lemma AbsThrough(f: real -> real, x: real)
    requires KeepsOrder(f)
    ensures Abs(f(x)) == f(Abs(x))
  {
    assert f(-x) == -f(x);
    assert Below(x, 0.0) || Below(0.0, x) || x == 0.0;
  }

  lemma RangeThrough(f: real -> real, span: real, high: real, low: real)
    requires KeepsOrder(f)
    ensures Max(f(span), Max(Abs(f(high)), Abs(f(low)))) == f(Max(span, Max(Abs(high), Abs(low))))
  {
    AbsThrough(f, high);
    AbsThrough(f, low);
    MaxThrough(f, Abs(high), Abs(low));
    MaxThrough(f, span, Max(Abs(high), Abs(low)));
  }

  lemma MovementThrough(f: real -> real, move: real, opposite: real)
    requires KeepsOrder(f)
    ensures Movement(f(move), f(opposite)) == f(Movement(move, opposite))
  {
    assert Below(0.0, move) || Below(move, 0.0) || move == 0.0;
    assert Below(opposite, move) || Below(move, opposite) || move == opposite;
  }

  /** The five differences that decide a bar's movements, all through `f`. */
  ghost predicate DifferencesThrough(f: real -> real, b: Bar, p: Bar, bar: Bar, previous: Bar) {
    && b.high - b.low == f(bar.high - bar.low)
    && b.high - p.close == f(bar.high - previous.close)
    && b.low - p.close == f(bar.low - previous.close)
    && b.high - p.high == f(bar.high - previous.high)
    && p.low - b.low == f(previous.low - bar.low)
  }

  lemma BarThrough(f: real -> real, b: Bar, p: Bar, bar: Bar, previous: Bar)
    requires KeepsOrder(f) && DifferencesThrough(f, b, p, bar, previous)
    ensures RangeOf(b, p) == f(RangeOf(bar, previous))
    ensures PlusOf(b, p) == f(PlusOf(bar, previous))
    ensures MinusOf(b, p) == f(MinusOf(bar, previous))
  {
    RangeThrough(f, bar.high - bar.low, bar.high - previous.close, bar.low - previous.close);
    MovementThrough(f, bar.high - previous.high, previous.low - bar.low);
    MovementThrough(f, previous.low - bar.low, bar.high - previous.high);
  }

  /** Every value after the first is `f` of the original one. */
  ghost predicate Through(f: real -> real, xs: seq<real>, zs: seq<real>) {
    |zs| == |xs| && forall j :: 1 <= j < |xs| ==> zs[j] == f(xs[j])
  }

  /** Every movement after the first bar is `f` of the original one. */
  ghost predicate SeriesThrough(f: real -> real, bars: seq<Bar>, other: seq<Bar>) {
    && |other| == |bars|
    && Through(f, Ranges(bars), Ranges(other))
    && Through(f, Pluses(bars), Pluses(other))
    && Through(f, Minuses(bars), Minuses(other))
  }

  lemma RepricedSeries(f: real -> real, price: real -> real, bars: seq<Bar>)
    requires KeepsOrder(f) && MapsDifferences(price, f)
    ensures SeriesThrough(f, bars, RepriceAll(bars, price))
  {
    hide KeepsOrder, MapsDifferences, DifferencesThrough, Reprice, Ranges, Pluses, Minuses;
    var other := RepriceAll(bars, price);
    forall j | 1 <= j < |bars|
      ensures Ranges(other)[j] == f(Ranges(bars)[j]) && Pluses(other)[j] == f(Pluses(bars)[j]) &&
              Minuses(other)[j] == f(Minuses(bars)[j])
    {
      RepricedDifferences(f, price, bars[j], bars[j - 1]);
      SeriesAt(f, bars, other, j);
    }
  }

  lemma SeriesAt(f: real -> real, bars: seq<Bar>, other: seq<Bar>, j: nat)
    requires KeepsOrder(f) && |other| == |bars| && 1 <= j < |bars|
    requires DifferencesThrough(f, other[j], other[j - 1], bars[j], bars[j - 1])
    ensures Ranges(other)[j] == f(Ranges(bars)[j])
    ensures Pluses(other)[j] == f(Pluses(bars)[j])
    ensures Minuses(other)[j] == f(Minuses(bars)[j])
  {
    hide RangeOf, PlusOf, MinusOf, KeepsOrder, DifferencesThrough;
    BarThrough(f, other[j], other[j - 1], bars[j], bars[j - 1]);
  }

  lemma RepricedDifferences(f: real -> real, price: real -> real, bar: Bar, previous: Bar)
    requires MapsDifferences(price, f)
    ensures DifferencesThrough(f, Reprice(bar, price), Reprice(previous, price), bar, previous)
  {
    DifferenceThrough(price, f, bar.high, bar.low);
    DifferenceThrough(price, f, bar.high, previous.close);
    DifferenceThrough(price, f, bar.low, previous.close);
    DifferenceThrough(price, f, bar.high, previous.high);
    DifferenceThrough(price, f, previous.low, bar.low);
  }

  lemma MeanThrough(f: real -> real, k: real, xs: seq<real>, zs: seq<real>, period: nat, i: nat)
    requires Through(f, xs, zs) && Scales(f, k) && 1 <= period <= i < |xs|
    ensures Mean(zs, 1, period, i) == f(Mean(xs, 1, period, i))
  {
    hide Mean, Scales;
    MeanScales(f, xs, zs, k, 1, period, i);
  }

  lemma MeansThrough(f: real -> real, k: real, bars: seq<Bar>, other: seq<Bar>, period: nat, i: nat)
    requires SeriesThrough(f, bars, other) && Scales(f, k)
    requires 1 <= period <= i < |bars|
    ensures var m := MeansAt(bars, period, i);
            MeansAt(other, period, i) == Triple(f(m.range), f(m.plus), f(m.minus))
  {
    hide Mean, Scales, Through, Ranges, Pluses, Minuses;
    MeanThrough(f, k, Ranges(bars), Ranges(other), period, i);
    MeanThrough(f, k, Pluses(bars), Pluses(other), period, i);
    MeanThrough(f, k, Minuses(bars), Minuses(other), period, i);
  }

  ghost predicate SameDis(a: Triple, b: Triple) {
    Di(a.plus, a.range) == Di(b.plus, b.range) && Di(a.minus, a.range) == Di(b.minus, b.range)
  }

  lemma Nonzero(k: real, y: real)
    requires k > 0.0
    ensures k * y == 0.0 <==> y == 0.0
  {
  }

  lemma SameQuotient(q: real, a: real, b: real)
    requires b != 0.0 && q * b == a
    ensures a / b == q
  {
  }

  lemma ProductMoves(k: real, q: real, y: real)
    ensures q * (k * y) == k * (q * y)
  {
  }

  lemma Cancel(k: real, x: real, y: real)
    requires k > 0.0 && y != 0.0
    ensures k * y != 0.0 && (k * x) / (k * y) == x / y
  {
    var q := x / y;
    assert q * y == x;
    Nonzero(k, y);
    ProductMoves(k, q, y);
    SameQuotient(q, k * x, k * y);
  }

  lemma DiThrough(k: real, movement: real, range: real, scaledMovement: real, scaledRange: real)
    requires k > 0.0 && scaledMovement == k * movement && scaledRange == k * range
    ensures Di(scaledMovement, scaledRange) == Di(movement, range)
  {
    Nonzero(k, range);
    if range != 0.0 {
      ProductMoves(k, 100.0, movement);
      Cancel(k, 100.0 * movement, range);
    }
  }

  lemma DisThrough(f: real -> real, k: real, m: Triple, scaled: Triple)
    requires k > 0.0 && Scales(f, k)
    requires scaled == Triple(f(m.range), f(m.plus), f(m.minus))
    ensures SameDis(scaled, m)
  {
    hide Scales, Di;
    Scaled(f, k, m.range);
    Scaled(f, k, m.plus);
    Scaled(f, k, m.minus);
    DiThrough(k, m.plus, m.range, scaled.plus, scaled.range);
    DiThrough(k, m.minus, m.range, scaled.minus, scaled.range);
  }

  lemma MeansGiveSameDis(bars: seq<Bar>, other: seq<Bar>, f: real -> real, k: real, period: nat, i: nat)
    requires k > 0.0 && |bars| == |other| && 1 <= period <= i < |bars|
    requires SeriesThrough(f, bars, other) && Scales(f, k)
    ensures SameDis(MeansAt(other, period, i), MeansAt(bars, period, i))
  {
    hide MeansAt, SameDis, Scales, SeriesThrough;
    MeansThrough(f, k, bars, other, period, i);
    DisThrough(f, k, MeansAt(bars, period, i), MeansAt(other, period, i));
  }

  lemma DiRescales(bars: seq<Bar>, other: seq<Bar>, f: real -> real, k: real, period: nat, i: nat)
    requires k > 0.0 && |bars| == |other| && 1 <= period <= i < |bars|
    requires SeriesThrough(f, bars, other) && Scales(f, k)
    ensures PlusDi(other, period, i) == PlusDi(bars, period, i)
    ensures MinusDi(other, period, i) == MinusDi(bars, period, i)
  {
    hide Scales, SeriesThrough, Di, Mean;
    MeansGiveSameDis(bars, other, f, k, period, i);
  }

  /** The directional index depends on the two directions alone. */
  lemma DxFollows(bars: seq<Bar>, other: seq<Bar>, period: nat, i: nat)
    requires |other| == |bars| && 1 <= period <= i < |bars|
    requires PlusDi(other, period, i) == PlusDi(bars, period, i)
    requires MinusDi(other, period, i) == MinusDi(bars, period, i)
    ensures Dx(other, period, i) == Dx(bars, period, i)
  {
  }

  /** `price` multiplies by `factor` and adds `shift`. */
  ghost predicate Shifts(price: real -> real, factor: real, shift: real) {
    forall x :: price(x) == factor * x + shift
  }

  lemma ScaledOrder(k: real, x: real, y: real)
    requires k > 0.0 && x < y
    ensures k * x < k * y
  {
  }

  lemma ScalingKeepsOrder(f: real -> real, k: real)
    requires k > 0.0 && Scales(f, k)
    ensures KeepsOrder(f)
  {
    hide Scales;
    Scaled(f, k, 0.0);
    forall x, y | Below(x, y)
      ensures f(x) < f(y)
    {
      ScaledOrder(k, x, y);
      Scaled(f, k, x);
      Scaled(f, k, y);
    }
    forall x
      ensures f(-x) == -f(x)
    {
      Scaled(f, k, x);
      Scaled(f, k, -x);
    }
  }

  lemma ShiftMapsDifferences(price: real -> real, f: real -> real, factor: real, shift: real)
    requires Shifts(price, factor, shift) && Scales(f, factor)
    ensures MapsDifferences(price, f)
  {
    hide Scales, Shifts;
    forall x, y
      ensures price(x) - price(y) == f(x - y)
    {
      Shifted(price, factor, shift, x);
      Shifted(price, factor, shift, y);
      Scaled(f, factor, x - y);
      Distribute(factor, x, y);
    }
  }

  lemma Shifted(price: real -> real, factor: real, shift: real, x: real)
    requires Shifts(price, factor, shift)
    ensures price(x) == factor * x + shift
  {
  }

  /** The unit and the origin of the prices do not matter. */
  lemma RescaleKeeps(bars: seq<Bar>, factor: real, shift: real, period: nat, i: nat)
    requires factor > 0.0 && 1 <= period <= i < |bars|
    ensures var rescaled := RepriceAll(bars, x => factor * x + shift);
            PlusDi(rescaled, period, i) == PlusDi(bars, period, i) &&
            MinusDi(rescaled, period, i) == MinusDi(bars, period, i) &&
            Dx(rescaled, period, i) == Dx(bars, period, i) &&
            (2 * period - 1 <= i ==> Adx(rescaled, period, i) == Adx(bars, period, i))
  {
    hide PlusDi, MinusDi, Dx, Adx, RepriceAll;
    RescaleKeepsAll(bars, x => factor * x + shift, x => factor * x, factor, shift, period, i);
  }

  lemma RescaleKeepsAll(bars: seq<Bar>, price: real -> real, f: real -> real, factor: real, shift: real, period: nat, i: nat)
    requires factor > 0.0 && 1 <= period <= i < |bars|
    requires Shifts(price, factor, shift)
    requires Scales(f, factor)
    ensures var rescaled := RepriceAll(bars, price);
            PlusDi(rescaled, period, i) == PlusDi(bars, period, i) &&
            MinusDi(rescaled, period, i) == MinusDi(bars, period, i) &&
            Dx(rescaled, period, i) == Dx(bars, period, i) &&
            (2 * period - 1 <= i ==> Adx(rescaled, period, i) == Adx(bars, period, i))
  {
    hide RepriceAll, Scales, Shifts, KeepsOrder, MapsDifferences, SeriesThrough, PlusDi, MinusDi, Dx, Adx;
    var rescaled := RepriceAll(bars, price);
    ScalingKeepsOrder(f, factor);
    ShiftMapsDifferences(price, f, factor, shift);
    RepricedSeries(f, price, bars);
    DiRescales(bars, rescaled, f, factor, period, i);
    DxFollows(bars, rescaled, period, i);
    SameAdx(bars, rescaled, period, i) by {
      forall j | period <= j < |bars|
        ensures Dx(rescaled, period, j) == Dx(bars, period, j)
      {
        DiRescales(bars, rescaled, f, factor, period, j);
        DxFollows(bars, rescaled, period, j);
      }
    }
  }

  // ----- one-sided markets

  lemma FullRatio(p: real, m: real)
    requires p >= 0.0 && m >= 0.0
    ensures DxOf(p, m) == 100.0 <==> (p == 0.0) != (m == 0.0)
  {
    if p + m > 0.0 {
      RatioIsFull(Abs(p - m), p + m);
    }
  }

  lemma RatioIsFull(x: real, y: real)
    requires y > 0.0
    ensures 100.0 * x / y == 100.0 <==> x == y
  {
  }

  lemma ZeroDi(movement: real, range: real)
    requires 0.0 <= movement <= range
    ensures Di(movement, range) == 0.0 <==> movement == 0.0
  {
  }

  /** Past period one the index is 100 exactly when all movement so far has gone one way, and some has. */
  lemma FullStrength(bars: seq<Bar>, period: nat, i: nat)
    requires AllOrdered(bars) && 2 <= period <= i < |bars|
    ensures Dx(bars, period, i) == 100.0 <==>
              (forall j :: 1 <= j <= i ==> Pluses(bars)[j] == 0.0) != (forall j :: 1 <= j <= i ==> Minuses(bars)[j] == 0.0)
  {
    var m := MeansAt(bars, period, i);
    SmoothedMovementsWithinRange(bars, period, i);
    forall j | 1 <= j <= i
      ensures Pluses(bars)[j] >= 0.0 && Minuses(bars)[j] >= 0.0
    {
      MovementsWithinRange(bars[j], bars[j - 1]);
    }
    MeanNonnegative(Pluses(bars), 1, period, i);
    MeanNonnegative(Minuses(bars), 1, period, i);
    DiBounds(m.plus, m.minus, m.range);
    ZeroDi(m.plus, m.range);
    ZeroDi(m.minus, m.range);
    FullRatio(PlusDi(bars, period, i), MinusDi(bars, period, i));
  }

  predicate Rises(bar: Bar, previous: Bar) {
    bar.high > previous.high && bar.low >= previous.low
  }

  lemma MeanOfOne(xs: seq<real>, start: nat, i: nat)
    requires start <= i < |xs|
    ensures Mean(xs, start, 1, i) == xs[i]
  {
    if i == start {
      SumOfOne(xs, start);
    }
  }

  lemma SumOfOne(xs: seq<real>, start: nat)
    requires start < |xs|
    ensures Sum(xs[start..start + 1]) == xs[start]
  {
    assert xs[start..start + 1] == [xs[start]];
    assert [xs[start]][..0] == [];
  }

  /** At period one the index is 100 exactly when the last bar moved one way. */
  lemma FullStrengthAtOne(bars: seq<Bar>, i: nat)
    requires AllOrdered(bars) && 1 <= i < |bars|
    ensures Dx(bars, 1, i) == 100.0 <==> (Pluses(bars)[i] == 0.0) != (Minuses(bars)[i] == 0.0)
  {
    MeanOfOne(Ranges(bars), 1, i);
    MeanOfOne(Pluses(bars), 1, i);
    MeanOfOne(Minuses(bars), 1, i);
    MovementsWithinRange(bars[i], bars[i - 1]);
    var m := MeansAt(bars, 1, i);
    DiBounds(m.plus, m.minus, m.range);
    ZeroDi(m.plus, m.range);
    ZeroDi(m.minus, m.range);
    FullRatio(PlusDi(bars, 1, i), MinusDi(bars, 1, i));
  }

  lemma RisingDx(bars: seq<Bar>, period: nat, i: nat)
    requires AllOrdered(bars) && 1 <= period <= i < |bars|
    requires forall j :: 1 <= j <= i ==> Rises(bars[j], bars[j - 1])
    ensures Dx(bars, period, i) == 100.0
  {
    forall j | 1 <= j <= i
      ensures Pluses(bars)[j] > 0.0 && Minuses(bars)[j] == 0.0
    {
      assert Rises(bars[j], bars[j - 1]);
    }
    if period == 1 {
      FullStrengthAtOne(bars, i);
    } else {
      FullStrength(bars, period, i);
    }
  }

  /** A market whose highs rise and whose lows do not fall, bar after bar, has full strength. */
  lemma RisingMarket(bars: seq<Bar>, period: nat, i: nat)
    requires AllOrdered(bars) && 1 <= period <= i < |bars|
    requires forall j :: 1 <= j <= i ==> Rises(bars[j], bars[j - 1])
    ensures Dx(bars, period, i) == 100.0
    ensures 2 * period - 1 <= i ==> Adx(bars, period, i) == 100.0
  {
    RisingDx(bars, period, i);
    if 2 * period - 1 <= i {
      MeanBounded(Dxs(bars, period), period, period, i, 100.0, 100.0) by {
        forall j | period <= j <= i
          ensures Dxs(bars, period)[j] == 100.0
        {
          RisingDx(bars, period, j);
        }
      }
    }
  }
}
