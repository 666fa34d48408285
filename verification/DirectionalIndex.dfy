/** The average directional index of scripts/chart_adx_fixture.py, over any series of bars.  The script fixes
    the period at two; the functions take any period, as the documentation of the Go binding states them. */
module DirectionalIndex {
  import opened Wilder

  datatype Bar = Bar(high: real, low: real, close: real)

  predicate Ordered(bar: Bar) {
    bar.low <= bar.close <= bar.high
  }

  function Max(x: real, y: real): real {
    if x < y then y else x
  }

  function Abs(x: real): real {
    if x < 0.0 then -x else x
  }

  // ----- the movements of one bar

  function RangeOf(bar: Bar, previous: Bar): real {
    Max(bar.high - bar.low, Max(Abs(bar.high - previous.close), Abs(bar.low - previous.close)))
  }

  /** The larger of the two movements away from the previous bar, if it is the one asked for. */
  function Movement(move: real, opposite: real): real {
    if move > 0.0 && move > opposite then move else 0.0
  }

  function PlusOf(bar: Bar, previous: Bar): real {
    Movement(bar.high - previous.high, previous.low - bar.low)
  }

  function MinusOf(bar: Bar, previous: Bar): real {
    Movement(previous.low - bar.low, bar.high - previous.high)
  }

  function Ranges(bars: seq<Bar>): (ranges: seq<real>)
    ensures |ranges| == |bars|
  {
    seq(|bars|, i requires 0 <= i < |bars| =>
      if i == 0 then bars[0].high - bars[0].low else RangeOf(bars[i], bars[i - 1]))
  }

  function Pluses(bars: seq<Bar>): (pluses: seq<real>)
    ensures |pluses| == |bars|
  {
    seq(|bars|, i requires 0 <= i < |bars| => if i == 0 then 0.0 else PlusOf(bars[i], bars[i - 1]))
  }

  function Minuses(bars: seq<Bar>): (minuses: seq<real>)
    ensures |minuses| == |bars|
  {
    seq(|bars|, i requires 0 <= i < |bars| => if i == 0 then 0.0 else MinusOf(bars[i], bars[i - 1]))
  }

  // ----- the indicators

  function Di(meanMovement: real, meanRange: real): real {
    if meanRange == 0.0 then 0.0 else 100.0 * meanMovement / meanRange
  }

  function DxOf(plusDi: real, minusDi: real): real {
    if plusDi + minusDi == 0.0 then 0.0 else 100.0 * Abs(plusDi - minusDi) / (plusDi + minusDi)
  }

  function PlusDi(bars: seq<Bar>, period: nat, i: nat): real
    requires 1 <= period <= i < |bars|
  {
    Di(Mean(Pluses(bars), 1, period, i), Mean(Ranges(bars), 1, period, i))
  }

  function MinusDi(bars: seq<Bar>, period: nat, i: nat): real
    requires 1 <= period <= i < |bars|
  {
    Di(Mean(Minuses(bars), 1, period, i), Mean(Ranges(bars), 1, period, i))
  }

  function Dx(bars: seq<Bar>, period: nat, i: nat): real
    requires 1 <= period <= i < |bars|
  {
    DxOf(PlusDi(bars, period, i), MinusDi(bars, period, i))
  }

  function Dxs(bars: seq<Bar>, period: nat): (dxs: seq<real>)
    requires period >= 1
    ensures |dxs| == |bars|
  {
    seq(|bars|, i requires 0 <= i < |bars| => if i < period then 0.0 else Dx(bars, period, i))
  }

  function Adx(bars: seq<Bar>, period: nat, i: nat): real
    requires period >= 1 && 2 * period - 1 <= i < |bars|
  {
    Mean(Dxs(bars, period), period, period, i)
  }

  // ----- the rows of the fixture

  datatype Triple = Triple(range: real, plus: real, minus: real)

  function Add(a: Triple, b: Triple): Triple {
    Triple(a.range + b.range, a.plus + b.plus, a.minus + b.minus)
  }

  function Half(a: Triple): Triple {
    Triple(a.range / 2.0, a.plus / 2.0, a.minus / 2.0)
  }

  datatype Row = Row(raw: Triple, means: Triple, plusDi: real, minusDi: real, dx: real, adx: real)

  function RawAt(bars: seq<Bar>, i: nat): Triple
    requires i < |bars|
  {
    Triple(Ranges(bars)[i], Pluses(bars)[i], Minuses(bars)[i])
  }

  function MeansAt(bars: seq<Bar>, period: nat, i: nat): Triple
    requires 1 <= period <= i < |bars|
  {
    Triple(Mean(Ranges(bars), 1, period, i), Mean(Pluses(bars), 1, period, i), Mean(Minuses(bars), 1, period, i))
  }

  /** Row `i`: the movements, and from index `period` on the means and the indicators. */
  function RowAt(bars: seq<Bar>, period: nat, i: nat): Row
    requires period >= 1 && i < |bars|
  {
    if i < period then Row(RawAt(bars, i), Triple(0.0, 0.0, 0.0), 0.0, 0.0, 0.0, 0.0)
    else Row(RawAt(bars, i), MeansAt(bars, period, i), PlusDi(bars, period, i), MinusDi(bars, period, i),
             Dx(bars, period, i), if i < 2 * period - 1 then 0.0 else Adx(bars, period, i))
  }

  lemma MeanOfTwo(xs: seq<real>, start: nat)
    requires start + 1 < |xs|
    ensures Mean(xs, start, 2, start + 1) == (xs[start] + xs[start + 1]) / 2.0
  {
    var seed := xs[start..start + 2];
    assert seed[..1] == [xs[start]] && [xs[start]][..0] == [];
    assert Sum(seed) == Sum([]) + xs[start] + xs[start + 1];
  }

  lemma MeanByHalves(xs: seq<real>, start: nat, i: nat)
    requires start + 2 <= i < |xs|
    ensures Mean(xs, start, 2, i) == (Mean(xs, start, 2, i - 1) + xs[i]) / 2.0
  {
  }

  lemma MeansByHalves(bars: seq<Bar>, i: nat)
    requires 2 <= i < |bars|
    ensures MeansAt(bars, 2, i)
         == Half(Add(if i == 2 then RawAt(bars, 1) else MeansAt(bars, 2, i - 1), RawAt(bars, i)))
  {
    if i == 2 {
      MeanOfTwo(Ranges(bars), 1);
      MeanOfTwo(Pluses(bars), 1);
      MeanOfTwo(Minuses(bars), 1);
    } else {
      MeanByHalves(Ranges(bars), 1, i);
      MeanByHalves(Pluses(bars), 1, i);
      MeanByHalves(Minuses(bars), 1, i);
    }
  }

  lemma AdxByHalves(bars: seq<Bar>, i: nat)
    requires 3 <= i < |bars|
    ensures Adx(bars, 2, i) == ((if i == 3 then Dx(bars, 2, 2) else Adx(bars, 2, i - 1)) + Dx(bars, 2, i)) / 2.0
  {
    if i == 3 {
      MeanOfTwo(Dxs(bars, 2), 2);
    } else {
      MeanByHalves(Dxs(bars, 2), 2, i);
    }
  }

  /** The loop of the script, with period two. */
  method Fixture(bars: seq<Bar>) returns (rows: seq<Row>)
    ensures |rows| == |bars|
    ensures forall i :: 0 <= i < |bars| ==> rows[i] == RowAt(bars, 2, i)
  {
    hide RawAt, MeansAt, PlusDi, MinusDi, Dx, Adx, Half;
    rows := [];
    var zero := Triple(0.0, 0.0, 0.0);
    var seed, previous, firstDx, previousAdx := zero, zero, 0.0, 0.0;
    for i := 0 to |bars|
      invariant |rows| == i
      invariant forall j :: 0 <= j < i ==> rows[j] == RowAt(bars, 2, j)
      invariant i <= 1 ==> seed == zero
      invariant i == 2 ==> seed == RawAt(bars, 1)
      invariant i >= 3 ==> previous == MeansAt(bars, 2, i - 1)
      invariant i >= 3 ==> firstDx == Dx(bars, 2, 2)
      invariant i >= 4 ==> previousAdx == Adx(bars, 2, i - 1)
    {
      var raw := Movements(bars, i);
      if i == 1 || i == 2 {
        seed := Add(seed, raw);
      }
      if i >= 2 {
        MeansByHalves(bars, i);
        previous := if i == 2 then Half(seed) else Half(Add(previous, raw));
        var plusDi, minusDi, dx := Indicators(previous, bars, i);
        if i == 2 {
          firstDx := dx;
        }
        if i >= 3 {
          AdxByHalves(bars, i);
          previousAdx := if i == 3 then (firstDx + dx) / 2.0 else (previousAdx + dx) / 2.0;
        }
        rows := rows + [Row(raw, previous, plusDi, minusDi, dx, if i >= 3 then previousAdx else 0.0)];
      } else {
        rows := rows + [Row(raw, zero, 0.0, 0.0, 0.0, 0.0)];
      }
    }
  }

  method Indicators(means: Triple, ghost bars: seq<Bar>, ghost i: nat) returns (plusDi: real, minusDi: real, dx: real)
    requires 2 <= i < |bars| && means == MeansAt(bars, 2, i)
    ensures plusDi == PlusDi(bars, 2, i) && minusDi == MinusDi(bars, 2, i) && dx == Dx(bars, 2, i)
  {
    plusDi := Di(means.plus, means.range);
    minusDi := Di(means.minus, means.range);
    dx := DxOf(plusDi, minusDi);
  }

  method Movements(bars: seq<Bar>, i: nat) returns (raw: Triple)
    requires i < |bars|
    ensures raw == RawAt(bars, i)
  {
    var bar := bars[i];
    if i == 0 {
      raw := Triple(bar.high - bar.low, 0.0, 0.0);
    } else {
      var previous := bars[i - 1];
      var up, down := bar.high - previous.high, previous.low - bar.low;
      raw := Triple(RangeOf(bar, previous), Movement(up, down), Movement(down, up));
    }
  }
}
