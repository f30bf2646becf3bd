/**
 What the indicator formulas say about prices: how fast the averages forget, which move a true range measures,
 and when the RSI is at its ends or reflects a mirrored price series.
 */
module IndicatorMeaning {
  import opened Common
  import opened Indicators
  import Grid

  function Power(base: real, n: nat): real {
    if n == 0 then 1.0 else Times(Power(base, n - 1), base)
  }

  // ---------- averages forget geometrically ----------

  lemma EmaStep(previous: real, target: real, m: real)
    ensures NextEma(previous, target, m) - target == Times(previous - target, 1.0 - m)
  {
  }

  lemma Regroup(a: real, b: real, c: real)
    ensures Times(Times(a, b), c) == Times(a, Times(b, c))
  {
  }

  /** The weight of a new input is two parts in `period + 1`. */
  lemma EmaWeightMeaning(period: int)
    requires period > 0
    ensures EmaMultiplier(period) * (period + 1) as real == 2.0
  {
    Grid.DivMul(2.0, (period + 1) as real);
  }

  /** Once the input stays at `target`, the EMA's distance from it shrinks by 1 - 2/(period + 1) per input. */
  lemma {:induction false} EmaForgets(values: seq<real>, period: int, j: nat, i: nat, target: real)
    requires period > 0 && j <= i < |values|
    requires forall k :: j < k <= i ==> values[k] == target
    ensures EmaAt(values, period, i) - target
         == Times(EmaAt(values, period, j) - target, Power(1.0 - EmaMultiplier(period), i - j))
    decreases i
  {
    var rate := 1.0 - EmaMultiplier(period);
    if i == j {
      TimesOne(EmaAt(values, period, j) - target);
    } else {
      EmaForgets(values, period, j, i - 1, target);
      EmaStep(EmaAt(values, period, i - 1), target, EmaMultiplier(period));
      Regroup(EmaAt(values, period, j) - target, Power(rate, i - 1 - j), rate);
      hide Times, NextEma, EmaMultiplier;
    }
  }

  lemma TimesOne(x: real)
    ensures Times(x, 1.0) == x
  {
  }

  function WilderRate(period: int): real
    requires period > 0
  {
    (period - 1) as real / period as real
  }

  lemma WilderStep(current: real, target: real, period: int)
    requires period > 0
    ensures NextAverage(current, target, period) - target == Times(current - target, WilderRate(period))
  {
    var p, w := period as real, (period - 1) as real;
    assert w == p - 1.0;
    var next, rate := NextAverage(current, target, period), WilderRate(period);
    Grid.DivMul(current * w + target, p);
    Grid.DivMul(w, p);
    assert next * p == current * w + target;
    assert rate * p == w;
    Scaled(current - target, rate, p, w);
    Expand(next, current, target, p, w);
    Grid.MulEqual(next - target, Times(current - target, rate), p);
  }

  lemma Scaled(d: real, rate: real, p: real, w: real)
    requires rate * p == w
    ensures Times(d, rate) * p == d * w
  {
    assert Times(d, rate) * p == d * (rate * p);
  }

  lemma Expand(next: real, current: real, target: real, p: real, w: real)
    requires next * p == current * w + target && w == p - 1.0
    ensures (next - target) * p == (current - target) * w
  {
    assert (next - target) * p == next * p - target * p;
    assert (current - target) * w == current * w - target * w;
    assert target * w == target * p - target;
  }

  /** Once the true range stays at `target`, Wilder's average approaches it by a factor (period - 1)/period per bar. */
  lemma {:induction false} WilderForgets(values: seq<real>, period: int, m: nat, n: nat, target: real)
    requires 0 < period <= m <= n <= |values|
    requires forall k :: m <= k < n ==> values[k] == target
    ensures WilderAt(values, period, n) - target
         == Times(WilderAt(values, period, m) - target, Power(WilderRate(period), n - m))
    decreases n
  {
    if n == m {
      TimesOne(WilderAt(values, period, m) - target);
    } else {
      WilderForgets(values, period, m, n - 1, target);
      WilderStep(WilderAt(values, period, n - 1), target, period);
      Regroup(WilderAt(values, period, m) - target, Power(WilderRate(period), n - 1 - m), WilderRate(period));
      hide Times, NextAverage, WilderRate;
    }
  }

  // ---------- true range ----------

  /** The true range is the length of the smallest price interval holding the bar and the previous close. */
  lemma TrueRangeMeaning(highs: seq<real>, lows: seq<real>, closes: seq<real>, i: nat)
    requires i < |highs| == |lows| == |closes| && lows[i] <= highs[i]
    ensures var previous := if i > 0 then closes[i - 1] else closes[i];
            TrueRange(highs, lows, closes, i) == Max(highs[i], previous) - Min(lows[i], previous)
  {
  }

  // ---------- the ends of the RSI ----------

  lemma {:induction false} SumOfNothing(values: seq<real>)
    requires NonNegative(values)
    ensures Sum(values) >= 0.0
    ensures Sum(values) == 0.0 <==> forall k :: 0 <= k < |values| ==> values[k] == 0.0
  {
    if values != [] {
      var n := |values| - 1;
      SumOfNothing(values[..n]);
      assert (forall k :: 0 <= k < |values| ==> values[k] == 0.0)
        <==> values[n] == 0.0 && forall k :: 0 <= k < n ==> values[..n][k] == 0.0;
    }
  }

  lemma QuotientZero(x: real, d: real)
    requires d > 0.0 && x >= 0.0
    ensures x / d == 0.0 <==> x == 0.0
  {
    Grid.DivMul(x, d);
  }

  lemma TimesZero(a: real, b: real)
    requires a >= 0.0 && b > 0.0
    ensures a * b >= 0.0
    ensures a * b == 0.0 <==> a == 0.0
  {
  }

  lemma AverageZero(current: real, value: real, period: int)
    requires period > 1 && current >= 0.0 && value >= 0.0
    ensures NextAverage(current, value, period) == 0.0 <==> current == 0.0 && value == 0.0
  {
    var w := (period - 1) as real;
    TimesZero(current, w);
    QuotientZero(current * w + value, period as real);
  }

  /** An average of non-negative inputs vanishes only if all of them do; a period of one looks at the last alone. */
  lemma {:induction false} WilderIsZeroIff(values: seq<real>, period: int, n: nat)
    requires 1 < period <= n <= |values| && NonNegative(values)
    ensures WilderAt(values, period, n) == 0.0 <==> forall k :: 0 <= k < n ==> values[k] == 0.0
    decreases n
  {
    if n == period {
      SumOfNothing(values[..n]);
      QuotientZero(Sum(values[..n]), period as real);
      assert forall k :: 0 <= k < n ==> values[..n][k] == values[k];
    } else {
      WilderIsZeroIff(values, period, n - 1);
      AverageIsNonNegative(values, period, n - 1);
      AverageZero(WilderAt(values, period, n - 1), values[n - 1], period);
      hide NextAverage;
    }
  }

  /** Which of the first `i` changes an RSI of this period still remembers: all of them, or for period 1 the last. */
  predicate Remembers(period: int, i: nat, k: nat) {
    k < i && (period == 1 ==> k == i - 1)
  }

  /** The average of non-negative inputs vanishes exactly when all it remembers do. */
  lemma AverageIsZeroIff(values: seq<real>, period: int, n: nat)
    requires 0 < period <= n <= |values| && NonNegative(values)
    ensures WilderAt(values, period, n) == 0.0 <==> forall k: nat :: Remembers(period, n, k) ==> values[k] == 0.0
  {
    hide WilderAt;
    if period > 1 {
      WilderIsZeroIff(values, period, n);
      assert forall k: nat :: k < n ==> Remembers(period, n, k);
    } else {
      PeriodOneIsTheLast(values, n);
      assert Remembers(period, n, n - 1);
    }
  }

  lemma PeriodOneIsTheLast(values: seq<real>, n: nat)
    requires 1 <= n <= |values|
    ensures WilderAt(values, 1, n) == values[n - 1]
  {
    if n == 1 {
      assert values[..1][..0] == [];
      assert Sum(values[..1]) == values[0];
    }
  }

  /** The RSI is 100 exactly while no price it remembers has fallen; flat prices count as not fallen. */
  lemma RsiIsFullIff(values: seq<real>, period: int, i: nat)
    requires 0 < period <= i < |values|
    ensures RsiSeries(values, period)[i] == Some(100.0)
       <==> forall k: nat :: Remembers(period, i, k) ==> values[k] <= values[k + 1]
  {
    AverageIsZeroIff(Losses(values), period, i);
    AverageIsNonNegative(Gains(values), period, i);
    AverageIsNonNegative(Losses(values), period, i);
    RsiValueWithin(WilderAt(Gains(values), period, i), WilderAt(Losses(values), period, i));
    hide WilderAt, RsiValue;
    assert forall k: nat :: k < i ==> (Losses(values)[k] == 0.0 <==> values[k] <= values[k + 1]);
  }

  // ---------- mirrored prices ----------

  function Negated(values: seq<real>): (r: seq<real>)
    ensures |r| == |values|
  {
    seq(|values|, i requires 0 <= i < |values| => -values[i])
  }

  lemma NegatedChanges(values: seq<real>)
    ensures Gains(Negated(values)) == Losses(values) && Losses(Negated(values)) == Gains(values)
  {
  }

  lemma QuotientsAddUp(g: real, l: real)
    requires g > 0.0 && l > 0.0
    ensures RsiValue(l, g) == 100.0 - RsiValue(g, l)
  {
    var a, b := g / l, l / g;
    Grid.DivMul(g, l);
    Grid.DivMul(l, g);
    var x, y := 100.0 / (1.0 + a), 100.0 / (1.0 + b);
    ShareOf(a, g, l, x);
    ShareOf(b, l, g, y);
    Together(x, y, g, l);
  }

  lemma ShareOf(ratio: real, g: real, l: real, share: real)
    requires g > 0.0 && l > 0.0 && ratio * l == g && ratio >= 0.0 && share == 100.0 / (1.0 + ratio)
    ensures share * (g + l) == 100.0 * l
  {
    Grid.DivMul(100.0, 1.0 + ratio);
    assert share * (1.0 + ratio) == 100.0;
    assert (1.0 + ratio) * l == g + l;
    assert share * (g + l) == share * ((1.0 + ratio) * l) == (share * (1.0 + ratio)) * l;
  }

  lemma Together(x: real, y: real, g: real, l: real)
    requires g > 0.0 && l > 0.0 && x * (g + l) == 100.0 * l && y * (l + g) == 100.0 * g
    ensures x + y == 100.0
  {
    assert (x + y) * (g + l) == x * (g + l) + y * (g + l);
    Grid.MulEqual(x + y, 100.0, g + l);
  }

  lemma RsiValueOfOpposites(g: real, l: real)
    requires g >= 0.0 && l >= 0.0
    ensures RsiValue(l, g) == 100.0 - RsiValue(g, l) <==> g > 0.0 || l > 0.0
  {
    if g > 0.0 && l > 0.0 {
      QuotientsAddUp(g, l);
    } else if g > 0.0 {
      NothingGained(g);
    } else if l > 0.0 {
      NothingGained(l);
    }
  }

  lemma NothingGained(loss: real)
    requires loss > 0.0
    ensures RsiValue(0.0, loss) == 0.0
  {
    assert 0.0 / loss == 0.0;
  }

  /** The RSI of the mirrored series is 100 minus the RSI exactly when some price it remembers has moved at all. */
  lemma RsiMirrorsIff(values: seq<real>, period: int, i: nat)
    requires 0 < period <= i < |values|
    ensures RsiSeries(values, period)[i].Some? && RsiSeries(Negated(values), period)[i].Some?
    ensures RsiSeries(Negated(values), period)[i].value == 100.0 - RsiSeries(values, period)[i].value
       <==> exists k: nat :: Remembers(period, i, k) && values[k] != values[k + 1]
  {
    var gains, losses := Gains(values), Losses(values);
    NegatedChanges(values);
    AverageIsZeroIff(gains, period, i);
    AverageIsZeroIff(losses, period, i);
    AverageIsNonNegative(gains, period, i);
    AverageIsNonNegative(losses, period, i);
    hide WilderAt, RsiValue;
    RsiValueOfOpposites(WilderAt(gains, period, i), WilderAt(losses, period, i));
    assert forall k: nat :: k < i ==> (gains[k] == 0.0 && losses[k] == 0.0 <==> values[k] == values[k + 1]);
  }

  // ---------- where the averages start, and what the RSI divides ----------

  /** The first defined average is the plain mean of the first `period` inputs. */
  lemma FirstAverageIsTheMean(values: seq<real>, period: int)
    requires 0 < period <= |values|
    ensures WilderAt(values, period, period) * period as real == Sum(values[..period])
  {
    Grid.DivMul(Sum(values[..period]), period as real);
  }

  /** The EMA starts at the first input. */
  lemma EmaStartsAtFirst(values: seq<real>, period: int)
    requires period > 0 && values != []
    ensures EmaAt(values, period, 0) == values[0]
  {
  }

  /** Sums add up, in any split. */
  lemma {:induction false} SumOfParts(a: seq<real>, b: seq<real>)
    ensures Sum(a + b) == Sum(a) + Sum(b)
    ensures Sum([]) == 0.0 && (|a| == 1 ==> Sum(a) == a[0])
    decreases |b|
  {
    if |a| == 1 {
      assert a[..0] == [];
    }
    if b == [] {
      assert a + b == a;
    } else {
      var n := |b| - 1;
      assert (a + b)[..|a| + n] == a + b[..n];
      SumOfParts(a, b[..n]);
    }
  }

  /** ATR and RSI are undefined exactly before enough inputs: `period` bars, or `period` price changes. */
  lemma DefinedFrom(highs: seq<real>, lows: seq<real>, closes: seq<real>, values: seq<real>, period: int, i: nat)
    requires period > 0 && |highs| == |lows| == |closes|
    ensures i < |highs| ==> AtrSeries(highs, lows, closes, period).Ok? && |AtrSeries(highs, lows, closes, period).value| == |highs|
                            && (AtrSeries(highs, lows, closes, period).value[i].None? <==> i < period - 1)
    ensures i < |values| ==> (RsiSeries(values, period)[i].None? <==> i < period)
  {
  }

  /** When the ATR is refused. */
  lemma AtrErrors(highs: seq<real>, lows: seq<real>, closes: seq<real>, period: int)
    ensures var r := AtrSeries(highs, lows, closes, period);
            var none := highs == [] || lows == [] || closes == [];
            && (r == Err(PeriodNotPositive) <==> period <= 0)
            && (r == Err(LengthsDiffer) <==> period > 0 && !none && !(|highs| == |lows| && |lows| == |closes|))
            && (period > 0 && none ==> r == Ok([]))
  {
  }

  /** A change is a gain or a loss, never both. */
  lemma ChangeIsGainOrLoss(values: seq<real>, k: nat)
    requires k + 1 < |values|
    ensures Gains(values)[k] - Losses(values)[k] == values[k + 1] - values[k]
    ensures Gains(values)[k] >= 0.0 && Losses(values)[k] >= 0.0 && (Gains(values)[k] == 0.0 || Losses(values)[k] == 0.0)
  {
  }

  lemma RsiEntry(values: seq<real>, period: int, i: nat)
    requires 0 < period <= i < |values|
    ensures WilderAt(Gains(values), period, i) >= 0.0 && WilderAt(Losses(values), period, i) >= 0.0
    ensures RsiSeries(values, period)[i]
         == Some(RsiValue(WilderAt(Gains(values), period, i), WilderAt(Losses(values), period, i)))
  {
    hide WilderAt, RsiValue;
    AverageIsNonNegative(Gains(values), period, i);
    AverageIsNonNegative(Losses(values), period, i);
  }

  /** The RSI is the share of the average gain in average gain and loss together, in percent. */
  lemma RsiIsShareOfGains(values: seq<real>, period: int, i: nat)
    requires 0 < period <= i < |values| && RsiSeries(values, period)[i].Some?
    ensures var gain, loss := WilderAt(Gains(values), period, i), WilderAt(Losses(values), period, i);
            && (loss == 0.0 ==> RsiSeries(values, period)[i].value == 100.0)
            && RsiSeries(values, period)[i].value * (gain + loss) == 100.0 * (if loss == 0.0 then gain + loss else gain)
  {
    hide WilderAt, RsiValue, RsiSeries, Gains, Losses;
    RsiEntry(values, period, i);
    RsiValueIsShare(WilderAt(Gains(values), period, i), WilderAt(Losses(values), period, i));
  }

  lemma RsiValueIsShare(gain: real, loss: real)
    requires gain >= 0.0 && loss >= 0.0
    ensures loss == 0.0 ==> RsiValue(gain, loss) == 100.0
    ensures RsiValue(gain, loss) * (gain + loss) == 100.0 * (if loss == 0.0 then gain + loss else gain)
  {
    if loss > 0.0 {
      if gain > 0.0 {
        var ratio := gain / loss;
        Grid.DivMul(gain, loss);
        var share := 100.0 / (1.0 + ratio);
        ShareOf(ratio, gain, loss, share);
        Complement(share, gain, loss);
      } else {
        NothingGained(loss);
      }
    }
  }

  lemma Complement(share: real, gain: real, loss: real)
    requires share * (gain + loss) == 100.0 * loss
    ensures (100.0 - share) * (gain + loss) == 100.0 * gain
  {
    assert (100.0 - share) * (gain + loss) == 100.0 * (gain + loss) - share * (gain + loss);
  }

  // ---------- moving average convergence / divergence ----------

  /** Line, signal and histogram, value by value. */
  lemma MacdMeaning(values: seq<real>, fast: int, slow: int, signal: int, i: nat)
    requires MacdOf(values, fast, slow, signal).Ok? && i < |values|
    ensures var macd := MacdOf(values, fast, slow, signal).value;
            && |macd.line| == |macd.signal| == |macd.histogram| == |values|
            && macd.line[i] == EmaAt(values, fast, i) - EmaAt(values, slow, i)
            && macd.signal[i] == EmaAt(macd.line, signal, i)
            && macd.histogram[i] == macd.line[i] - macd.signal[i]
  {
    hide EmaAt;
  }

  lemma MacdErrors(values: seq<real>, fast: int, slow: int, signal: int)
    ensures MacdOf(values, fast, slow, signal).Ok? <==> 0 < fast < slow && signal > 0
  {
    hide EmaAt;
  }

  /** A longer period gives a new input less weight. */
  lemma LongerPeriodWeighsLess(fast: int, slow: int)
    requires 0 < fast <= slow
    ensures EmaMultiplier(slow) <= EmaMultiplier(fast)
  {
    var f, s := (fast + 1) as real, (slow + 1) as real;
    Grid.DivMul(2.0, f);
    Grid.DivMul(2.0, s);
    Smaller(2.0 / f, 2.0 / s, f, s);
  }

  lemma Smaller(a: real, b: real, f: real, s: real)
    requires 0.0 < f <= s && a * f == 2.0 && b * s == 2.0 && b >= 0.0
    ensures b <= a
  {
    Grid.MulMonotone(f, s, if b > 0.0 then b else 1.0);
    Grid.MulStrict(a, b, f);
  }

  lemma LagShrinks(value: real, previousFast: real, previousSlow: real, mFast: real, mSlow: real)
    requires previousSlow <= previousFast <= value && 0.0 < mSlow <= mFast <= 1.0
    ensures NextEma(previousSlow, value, mSlow) <= NextEma(previousFast, value, mFast) <= value
  {
    var a, b := value - previousFast, value - previousSlow;
    var x, y := Times(a, 1.0 - mFast), Times(b, 1.0 - mSlow);
    EmaStep(previousFast, value, mFast);
    EmaStep(previousSlow, value, mSlow);
    Opposite(previousFast, value, mFast);
    Opposite(previousSlow, value, mSlow);
    TimesRises(a, b, 1.0 - mFast, 1.0 - mSlow);
  }

  lemma Opposite(previous: real, value: real, m: real)
    ensures Times(previous - value, 1.0 - m) == -Times(value - previous, 1.0 - m)
  {
  }

  lemma TimesRises(a: real, b: real, c: real, d: real)
    requires 0.0 <= a <= b && 0.0 <= c <= d
    ensures 0.0 <= Times(a, c) <= Times(b, d)
  {
    NotNegative(a, c);
    NotNegative(a, d - c);
    NotNegative(b - a, d);
    assert Times(a, c) + Times(a, d - c) == Times(a, d);
    assert Times(a, d) + Times(b - a, d) == Times(b, d);
  }

  lemma NotNegative(a: real, b: real)
    requires a >= 0.0 && b >= 0.0
    ensures Times(a, b) >= 0.0
  {
  }

  /** While prices have not fallen the faster average leads: the MACD line is not negative. */
  lemma {:induction false} RisingPricesLiftTheLine(values: seq<real>, fast: int, slow: int, i: nat)
    requires 0 < fast <= slow && i < |values|
    requires forall k :: 0 <= k < i ==> values[k] <= values[k + 1]
    ensures EmaAt(values, slow, i) <= EmaAt(values, fast, i) <= values[i]
  {
    if i > 0 {
      RisingPricesLiftTheLine(values, fast, slow, i - 1);
      LongerPeriodWeighsLess(fast, slow);
      hide EmaMultiplier, NextEma;
      LagShrinks(values[i], EmaAt(values, fast, i - 1), EmaAt(values, slow, i - 1), EmaMultiplier(fast), EmaMultiplier(slow));
    }
  }
}
