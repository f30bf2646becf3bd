/**
 Moving averages, relative strength and average true range.  Each is computed by one pass that updates a
 running average; the specifications give the value at every index directly, and from them follow the two
 promises that matter to callers: values stay inside the range of what was seen, and nothing computed for
 a bar depends on later bars.
 */
module Indicators {
  import opened Common
  import Grid

  datatype IndicatorError = PeriodNotPositive | LengthsDiffer | FastNotBelowSlow

  function Max(a: real, b: real): real {
    if a >= b then a else b
  }

  function Min(a: real, b: real): real {
    if a <= b then a else b
  }

  function Sum(values: seq<real>): real {
    if values == [] then 0.0 else Sum(values[..|values| - 1]) + values[|values| - 1]
  }

  ghost predicate AllWithin(values: seq<real>, lo: real, hi: real) {
    forall i :: 0 <= i < |values| ==> lo <= values[i] <= hi
  }

  // ---------- exponential moving average ----------

  function EmaMultiplier(period: int): (m: real)
    requires period > 0
    ensures 0.0 < m <= 1.0
  {
    2.0 / (period + 1) as real
  }

  function NextEma(previous: real, value: real, multiplier: real): real {
    (value - previous) * multiplier + previous
  }

  function EmaAt(values: seq<real>, period: int, i: nat): real
    requires period > 0 && i < |values|
  {
    if i == 0 then values[0]
    else
      NextEma(EmaAt(values, period, i - 1), values[i], EmaMultiplier(period))
  }

  function EmaSeries(values: seq<real>, period: int): seq<real>
    requires period > 0
  {
    seq(|values|, i requires 0 <= i < |values| => EmaAt(values, period, i))
  }

  method Ema(values: seq<real>, period: int) returns (r: Result<seq<real>, IndicatorError>)
    ensures r == if period <= 0 then Err(PeriodNotPositive) else Ok(EmaSeries(values, period))
  {
    if period <= 0 {
      return Err(PeriodNotPositive);
    }
    if values == [] {
      assert EmaSeries(values, period) == [];
      return Ok([]);
    }
    var multiplier := EmaMultiplier(period);
    var result := [values[0]];
    for k := 1 to |values|
      invariant |result| == k
      invariant forall i :: 0 <= i < k ==> result[i] == EmaAt(values, period, i)
    {
      result := result + [NextEma(result[|result| - 1], values[k], multiplier)];
    }
    assert result == EmaSeries(values, period);
    return Ok(result);
  }

  lemma Shrinks(d: real, weight: real) returns (p: real)
    requires 0.0 <= weight <= 1.0
    ensures p == d * weight
    ensures if d >= 0.0 then 0.0 <= p <= d else d <= p <= 0.0
  {
    p := d * weight;
    var rest := d * (1.0 - weight);
    assert p + rest == d;
    SignOf(d, weight);
    SignOf(d, 1.0 - weight);
  }

  lemma SignOf(d: real, weight: real)
    requires 0.0 <= weight
    ensures if d >= 0.0 then d * weight >= 0.0 else d * weight <= 0.0
  {
  }

  lemma StepStaysWithin(previous: real, d: real, weight: real, lo: real, hi: real)
    requires 0.0 <= weight <= 1.0 && lo <= previous <= hi && lo <= previous + d <= hi
    ensures lo <= d * weight + previous <= hi
  {
    var p := Shrinks(d, weight);
    assert lo <= p + previous <= hi;
  }

  lemma BlendStaysWithin(previous: real, value: real, weight: real, lo: real, hi: real)
    requires 0.0 <= weight <= 1.0 && lo <= previous <= hi && lo <= value <= hi
    ensures lo <= NextEma(previous, value, weight) <= hi
  {
    StepStaysWithin(previous, value - previous, weight, lo, hi);
  }

  /** Every average lies between the least and the greatest value seen so far. */
  lemma {:induction false} EmaIsBounded(values: seq<real>, period: int, i: nat, lo: real, hi: real)
    requires period > 0 && i < |values| && AllWithin(values[..i + 1], lo, hi)
    ensures lo <= EmaAt(values, period, i) <= hi
  {
    assert values[..i + 1][i] == values[i];
    if i > 0 {
      assert values[..i] == values[..i + 1][..i];
      EmaIsBounded(values, period, i - 1, lo, hi);
      BlendStaysWithin(EmaAt(values, period, i - 1), values[i], EmaMultiplier(period), lo, hi);
    }
  }

  lemma {:induction false} EmaAtIsCausal(values: seq<real>, more: seq<real>, period: int, i: nat)
    requires period > 0 && i < |values|
    ensures EmaAt(values + more, period, i) == EmaAt(values, period, i)
  {
    if i > 0 {
      EmaAtIsCausal(values, more, period, i - 1);
    }
  }

  /** The series of a prefix is the prefix of the series. */
  lemma EmaIsCausal(values: seq<real>, more: seq<real>, period: int)
    requires period > 0
    ensures EmaSeries(values + more, period)[..|values|] == EmaSeries(values, period)
  {
    forall i | 0 <= i < |values|
      ensures EmaAt(values + more, period, i) == EmaAt(values, period, i)
    {
      EmaAtIsCausal(values, more, period, i);
    }
  }

  // ---------- moving average convergence / divergence ----------

  datatype Macd = Macd(line: seq<real>, signal: seq<real>, histogram: seq<real>)

  function Differences(a: seq<real>, b: seq<real>): seq<real>
    requires |a| == |b|
  {
    seq(|a|, i requires 0 <= i < |a| => a[i] - b[i])
  }

  function MacdOf(values: seq<real>, fast: int, slow: int, signal: int): Result<Macd, IndicatorError> {
    if fast <= 0 || slow <= 0 || signal <= 0 then Err(PeriodNotPositive)
    else if fast >= slow then Err(FastNotBelowSlow)
    else
      var line := Differences(EmaSeries(values, fast), EmaSeries(values, slow));
      var signalLine := EmaSeries(line, signal);
      Ok(Macd(line, signalLine, Differences(line, signalLine)))
  }

  lemma DifferencesOfPrefixes(a: seq<real>, b: seq<real>, n: nat)
    requires |a| == |b| && n <= |a|
    ensures Differences(a, b)[..n] == Differences(a[..n], b[..n])
  {
  }

  lemma MacdIsCausal(values: seq<real>, more: seq<real>, fast: int, slow: int, signal: int)
    requires MacdOf(values, fast, slow, signal).Ok?
    ensures MacdOf(values + more, fast, slow, signal).Ok?
    ensures var short := MacdOf(values, fast, slow, signal).value;
            var long := MacdOf(values + more, fast, slow, signal).value;
            && long.line[..|values|] == short.line
            && long.signal[..|values|] == short.signal
            && long.histogram[..|values|] == short.histogram
  {
    var n := |values|;
    var long := MacdOf(values + more, fast, slow, signal).value;
    EmaIsCausal(values, more, fast);
    EmaIsCausal(values, more, slow);
    DifferencesOfPrefixes(EmaSeries(values + more, fast), EmaSeries(values + more, slow), n);
    assert long.line == long.line[..n] + long.line[n..];
    EmaIsCausal(long.line[..n], long.line[n..], signal);
    DifferencesOfPrefixes(long.line, long.signal, n);
  }

  // ---------- Wilder smoothing ----------

  function NextAverage(current: real, value: real, period: int): real
    requires period > 0
  {
    (current * (period - 1) as real + value) / period as real
  }

  /** The running average after `n` inputs: a plain mean first, then one part in `period` of each new input. */
  function WilderAt(values: seq<real>, period: int, n: nat): real
    requires 0 < period <= n <= |values|
    decreases n
  {
    if n == period then Sum(values[..period]) / period as real
    else NextAverage(WilderAt(values, period, n - 1), values[n - 1], period)
  }

  lemma {:induction false} SumIsBounded(values: seq<real>, lo: real, hi: real)
    requires AllWithin(values, lo, hi)
    ensures Times(|values| as real, lo) <= Sum(values) <= Times(|values| as real, hi)
  {
    if values == [] {
      assert Times(0.0, lo) == 0.0 && Times(0.0, hi) == 0.0;
    } else {
      var n := |values| - 1;
      SumIsBounded(values[..n], lo, hi);
      OneMoreTime(n as real, lo);
      OneMoreTime(n as real, hi);
      assert |values| as real == n as real + 1.0;
    }
  }

  lemma QuotientWithin(total: real, n: real, lo: real, hi: real)
    requires n > 0.0 && Times(n, lo) <= total <= Times(n, hi)
    ensures lo <= total / n <= hi
  {
    Grid.DivMul(total, n);
    Grid.MulStrict(total / n, lo, n);
    Grid.MulStrict(hi, total / n, n);
  }

  lemma OneMoreTime(w: real, x: real)
    ensures Times(w + 1.0, x) == Times(w, x) + x
  {
  }

  lemma NextAverageIs(previous: real, value: real, period: int)
    requires period > 0
    ensures NextAverage(previous, value, period) == (Times((period - 1) as real, previous) + value) / period as real
  {
  }

  lemma RunningMeanWithin(previous: real, value: real, period: int, lo: real, hi: real)
    requires period > 0 && lo <= previous <= hi && lo <= value <= hi
    ensures lo <= NextAverage(previous, value, period) <= hi
  {
    hide Times, NextAverage;
    var w := (period - 1) as real;
    NextAverageIs(previous, value, period);
    TimesMonotone(w, lo, previous);
    TimesMonotone(w, previous, hi);
    OneMoreTime(w, lo);
    OneMoreTime(w, hi);
    var total := Times(w, previous) + value;
    assert period as real == w + 1.0;
    QuotientWithin(total, period as real, lo, hi);
  }

  lemma TimesMonotone(w: real, a: real, b: real)
    requires w >= 0.0 && a <= b
    ensures Times(w, a) <= Times(w, b)
  {
    if w > 0.0 {
      TimesCommutes(w, a);
      TimesCommutes(w, b);
      Grid.MulMonotone(a, b, w);
    } else {
      assert w == 0.0;
    }
  }

  lemma TimesCommutes(w: real, x: real)
    ensures Times(w, x) == x * w
  {
  }

  lemma MeanIsBounded(values: seq<real>, lo: real, hi: real)
    requires |values| > 0 && AllWithin(values, lo, hi)
    ensures lo <= Sum(values) / |values| as real <= hi
  {
    SumIsBounded(values, lo, hi);
    QuotientWithin(Sum(values), |values| as real, lo, hi);
  }

  lemma {:induction false} WilderIsBounded(values: seq<real>, period: int, n: nat, lo: real, hi: real)
    requires 0 < period <= n <= |values|
    requires forall i :: 0 <= i < n ==> lo <= values[i] <= hi
    ensures lo <= WilderAt(values, period, n) <= hi
    decreases n
  {
    if n == period {
      MeanIsBounded(values[..n], lo, hi);
    } else {
      WilderIsBounded(values, period, n - 1, lo, hi);
      RunningMeanWithin(WilderAt(values, period, n - 1), values[n - 1], period, lo, hi);
    }
  }

  lemma {:induction false} WilderIsCausal(values: seq<real>, more: seq<real>, period: int, n: nat)
    requires 0 < period <= n <= |values|
    ensures WilderAt(values + more, period, n) == WilderAt(values, period, n)
    decreases n
  {
    if n == period {
      assert (values + more)[..period] == values[..period];
    } else {
      WilderIsCausal(values, more, period, n - 1);
    }
  }

  // ---------- average true range ----------

  function TrueRange(highs: seq<real>, lows: seq<real>, closes: seq<real>, i: nat): (r: real)
    requires i < |highs| == |lows| == |closes|
    ensures r >= highs[i] - lows[i] && r >= 0.0
  {
    var previousClose := if i > 0 then closes[i - 1] else closes[i];
    Max(Max(highs[i] - lows[i], Abs(highs[i] - previousClose)), Abs(lows[i] - previousClose))
  }

  function TrueRanges(highs: seq<real>, lows: seq<real>, closes: seq<real>): (r: seq<real>)
    requires |highs| == |lows| == |closes|
    ensures |r| == |highs|
  {
    seq(|highs|, i requires 0 <= i < |highs| => TrueRange(highs, lows, closes, i))
  }

  /** Nothing until `period` inputs are in, then the running average. */
  function WilderSeries(values: seq<real>, period: int): (r: seq<Option<real>>)
    requires period > 0
    ensures |r| == |values|
  {
    seq(|values|, i requires 0 <= i < |values| =>
      if i + 1 < period then None else Some(WilderAt(values, period, i + 1)))
  }

  function AtrSeries(highs: seq<real>, lows: seq<real>, closes: seq<real>, period: int)
    : Result<seq<Option<real>>, IndicatorError>
  {
    if period <= 0 then Err(PeriodNotPositive)
    else if highs == [] || lows == [] || closes == [] then Ok([])
    else if !(|highs| == |lows| == |closes|) then Err(LengthsDiffer)
    else Ok(WilderSeries(TrueRanges(highs, lows, closes), period))
  }

  method Atr(highs: seq<real>, lows: seq<real>, closes: seq<real>, period: int)
    returns (r: Result<seq<Option<real>>, IndicatorError>)
    ensures r == AtrSeries(highs, lows, closes, period)
  {
    if period <= 0 {
      return Err(PeriodNotPositive);
    }
    if highs == [] || lows == [] || closes == [] {
      return Ok([]);
    }
    if !(|highs| == |lows| == |closes|) {
      return Err(LengthsDiffer);
    }
    var trueRanges: seq<real> := [];
    for index := 0 to |highs|
      invariant |trueRanges| == index
      invariant forall i :: 0 <= i < index ==> trueRanges[i] == TrueRange(highs, lows, closes, i)
    {
      var previousClose := if index > 0 then closes[index - 1] else closes[index];
      trueRanges := trueRanges
        + [Max(Max(highs[index] - lows[index], Abs(highs[index] - previousClose)), Abs(lows[index] - previousClose))];
    }
    assert trueRanges == TrueRanges(highs, lows, closes);
    var result := Smooth(trueRanges, period);
    return Ok(result);
  }

  /** The smoothing loop of the average true range. */
  method Smooth(values: seq<real>, period: int) returns (result: seq<Option<real>>)
    requires period > 0
    ensures result == WilderSeries(values, period)
  {
    if |values| < period {
      result := seq(|values|, _ => None);
      return;
    }
    var current := Sum(values[..period]) / period as real;
    result := seq(period - 1, _ => None) + [Some(current)];
    for k := period to |values|
      invariant |result| == k && current == WilderAt(values, period, k)
      invariant forall i :: 0 <= i < k ==> result[i] == WilderSeries(values, period)[i]
    {
      current := NextAverage(current, values[k], period);
      result := result + [Some(current)];
    }
  }

  /** A defined ATR lies between the least and the greatest true range seen so far, so it is never negative. */
  lemma AtrIsBounded(highs: seq<real>, lows: seq<real>, closes: seq<real>, period: int, i: nat, lo: real, hi: real)
    requires AtrSeries(highs, lows, closes, period).Ok? && i < |AtrSeries(highs, lows, closes, period).value|
    requires AtrSeries(highs, lows, closes, period).value[i].Some?
    requires forall k :: 0 <= k <= i ==> lo <= TrueRange(highs, lows, closes, k) <= hi
    ensures lo <= AtrSeries(highs, lows, closes, period).value[i].value <= hi
  {
    WilderIsBounded(TrueRanges(highs, lows, closes), period, i + 1, lo, hi);
  }

  lemma WilderSeriesIsCausal(values: seq<real>, more: seq<real>, period: int)
    requires period > 0
    ensures WilderSeries(values + more, period)[..|values|] == WilderSeries(values, period)
  {
    forall n | period <= n <= |values|
      ensures WilderAt(values + more, period, n) == WilderAt(values, period, n)
    {
      WilderIsCausal(values, more, period, n);
    }
  }

  lemma TrueRangesAreCausal(highs: seq<real>, lows: seq<real>, closes: seq<real>, n: nat)
    requires |highs| == |lows| == |closes| && n <= |highs|
    ensures TrueRanges(highs, lows, closes)[..n] == TrueRanges(highs[..n], lows[..n], closes[..n])
  {
  }

  /** The ATR of the first `n` bars is the first `n` values of the ATR: later bars change nothing. */
  lemma AtrIsCausal(highs: seq<real>, lows: seq<real>, closes: seq<real>, period: int, n: nat)
    requires period > 0 && |highs| == |lows| == |closes| && n <= |highs|
    ensures AtrSeries(highs, lows, closes, period).Ok?
    ensures |AtrSeries(highs, lows, closes, period).value| == |highs|
    ensures AtrSeries(highs[..n], lows[..n], closes[..n], period)
         == Ok(AtrSeries(highs, lows, closes, period).value[..n])
  {
    var ranges := TrueRanges(highs, lows, closes);
    TrueRangesAreCausal(highs, lows, closes, n);
    assert ranges == ranges[..n] + ranges[n..];
    WilderSeriesIsCausal(ranges[..n], ranges[n..], period);
  }

  // ---------- relative strength ----------

  function GainAt(values: seq<real>, i: nat): (r: real)
    requires i + 1 < |values|
    ensures r >= 0.0
  {
    Max(values[i + 1] - values[i], 0.0)
  }

  function LossAt(values: seq<real>, i: nat): (r: real)
    requires i + 1 < |values|
    ensures r >= 0.0
  {
    Abs(Min(values[i + 1] - values[i], 0.0))
  }

  function Gains(values: seq<real>): (r: seq<real>)
    ensures |r| == if values == [] then 0 else |values| - 1
    ensures NonNegative(r)
  {
    if values == [] then []
    else seq(|values| - 1, i requires 0 <= i < |values| - 1 => GainAt(values, i))
  }

  function Losses(values: seq<real>): (r: seq<real>)
    ensures |r| == if values == [] then 0 else |values| - 1
    ensures NonNegative(r)
  {
    if values == [] then []
    else seq(|values| - 1, i requires 0 <= i < |values| - 1 => LossAt(values, i))
  }

  function RsiValue(gain: real, loss: real): real
    requires gain >= 0.0 && loss >= 0.0
  {
    if loss == 0.0 then 100.0
    else
      assert gain / loss >= 0.0;
      100.0 - 100.0 / (1.0 + gain / loss)
  }

  ghost predicate NonNegative(values: seq<real>) {
    forall i :: 0 <= i < |values| ==> values[i] >= 0.0
  }

  function UpperBound(values: seq<real>): real {
    if values == [] then 0.0 else Max(UpperBound(values[..|values| - 1]), values[|values| - 1])
  }

  lemma {:induction false} BoundedAbove(values: seq<real>)
    ensures forall i :: 0 <= i < |values| ==> values[i] <= UpperBound(values)
  {
    if values != [] {
      BoundedAbove(values[..|values| - 1]);
    }
  }

  lemma AverageIsNonNegative(values: seq<real>, period: int, n: nat)
    requires 0 < period <= n <= |values| && NonNegative(values)
    ensures WilderAt(values, period, n) >= 0.0
  {
    BoundedAbove(values);
    WilderIsBounded(values, period, n, 0.0, UpperBound(values));
  }

  /** The strength after `n` price changes. */
  function RsiOf(gains: seq<real>, losses: seq<real>, period: int, n: nat): real
    requires 0 < period <= n <= |gains| == |losses| && NonNegative(gains) && NonNegative(losses)
  {
    AverageIsNonNegative(gains, period, n);
    AverageIsNonNegative(losses, period, n);
    RsiValue(WilderAt(gains, period, n), WilderAt(losses, period, n))
  }

  /** Nothing until `period` price changes are in, then the strength after each further change. */
  function RsiSeries(values: seq<real>, period: int): (r: seq<Option<real>>)
    requires period > 0
    ensures |r| == |values|
  {
    seq(|values|, i requires 0 <= i < |values| =>
      if i < period then None else Some(RsiOf(Gains(values), Losses(values), period, i)))
  }

  /** The averaging loop over gains and losses. */
  method Strengths(gains: seq<real>, losses: seq<real>, period: int) returns (result: seq<Option<real>>)
    requires 0 < period <= |gains| == |losses| && NonNegative(gains) && NonNegative(losses)
    ensures |result| == |gains| + 1
    ensures forall i :: 0 <= i < period ==> result[i] == None
    ensures forall i :: period <= i <= |gains| ==> result[i] == Some(RsiOf(gains, losses, period, i))
  {
    var avgGain := Sum(gains[..period]) / period as real;
    var avgLoss := Sum(losses[..period]) / period as real;
    AverageIsNonNegative(gains, period, period);
    AverageIsNonNegative(losses, period, period);
    result := seq(period, _ => None) + [Some(RsiValue(avgGain, avgLoss))];
    for k := period to |gains|
      invariant |result| == k + 1
      invariant avgGain == WilderAt(gains, period, k) && avgLoss == WilderAt(losses, period, k)
      invariant forall i :: 0 <= i < period ==> result[i] == None
      invariant forall i :: period <= i <= k ==> result[i] == Some(RsiOf(gains, losses, period, i))
    {
      avgGain := NextAverage(avgGain, gains[k], period);
      avgLoss := NextAverage(avgLoss, losses[k], period);
      AverageIsNonNegative(gains, period, k + 1);
      AverageIsNonNegative(losses, period, k + 1);
      result := result + [Some(RsiValue(avgGain, avgLoss))];
    }
  }

  method Rsi(values: seq<real>, period: int) returns (r: Result<seq<Option<real>>, IndicatorError>)
    ensures r == if period <= 0 then Err(PeriodNotPositive) else Ok(RsiSeries(values, period))
  {
    if period <= 0 {
      return Err(PeriodNotPositive);
    }
    if |values| < period + 1 {
      var nothing: seq<Option<real>> := seq(|values|, _ => None);
      assert nothing == RsiSeries(values, period);
      return Ok(nothing);
    }
    var result := Strengths(Gains(values), Losses(values), period);
    assert result == RsiSeries(values, period);
    return Ok(result);
  }

  lemma RsiValueWithin(gain: real, loss: real)
    requires gain >= 0.0 && loss >= 0.0
    ensures 0.0 <= RsiValue(gain, loss) <= 100.0
    ensures RsiValue(gain, loss) == 100.0 <==> loss == 0.0
  {
    if loss != 0.0 {
      var rs := gain / loss;
      assert rs >= 0.0;
      var share := 100.0 / (1.0 + rs);
      assert share * (1.0 + rs) == 100.0;
      QuotientWithin(100.0, 1.0 + rs, 0.0, 100.0);
    }
  }

  /** Every defined RSI lies in [0, 100]. */
  lemma RsiIsBounded(values: seq<real>, period: int, i: nat)
    requires period > 0 && i < |values| && RsiSeries(values, period)[i].Some?
    ensures 0.0 <= RsiSeries(values, period)[i].value <= 100.0
  {
    AverageIsNonNegative(Gains(values), period, i);
    AverageIsNonNegative(Losses(values), period, i);
    RsiValueWithin(WilderAt(Gains(values), period, i), WilderAt(Losses(values), period, i));
  }

  lemma RsiOfIsCausal(gains: seq<real>, losses: seq<real>, moreGains: seq<real>, moreLosses: seq<real>, period: int, n: nat)
    requires 0 < period <= n <= |gains| == |losses| && |moreGains| == |moreLosses|
    requires NonNegative(gains + moreGains) && NonNegative(losses + moreLosses)
    requires NonNegative(gains) && NonNegative(losses)
    ensures RsiOf(gains + moreGains, losses + moreLosses, period, n) == RsiOf(gains, losses, period, n)
  {
    WilderIsCausal(gains, moreGains, period, n);
    WilderIsCausal(losses, moreLosses, period, n);
  }

  lemma ChangeIsKnown(values: seq<real>, more: seq<real>, i: nat)
    requires i + 1 < |values|
    ensures GainAt(values + more, i) == GainAt(values, i) && LossAt(values + more, i) == LossAt(values, i)
  {
  }

  lemma ChangesExtend(values: seq<real>, more: seq<real>) returns (moreGains: seq<real>, moreLosses: seq<real>)
    requires values != []
    ensures Gains(values + more) == Gains(values) + moreGains
    ensures Losses(values + more) == Losses(values) + moreLosses
    ensures |moreGains| == |moreLosses|
  {
    hide GainAt, LossAt;
    var n, all := |values| - 1, values + more;
    moreGains, moreLosses := Gains(all)[n..], Losses(all)[n..];
    forall i | 0 <= i < n
      ensures Gains(all)[i] == Gains(values)[i] && Losses(all)[i] == Losses(values)[i]
    {
      ChangeIsKnown(values, more, i);
    }
    assert Gains(all)[..n] == Gains(values);
    assert Losses(all)[..n] == Losses(values);
  }

  lemma RsiIsCausal(values: seq<real>, more: seq<real>, period: int)
    requires period > 0
    ensures RsiSeries(values + more, period)[..|values|] == RsiSeries(values, period)
  {
    forall i | 0 <= i < |values|
      ensures RsiSeries(values + more, period)[i] == RsiSeries(values, period)[i]
    {
      if i >= period {
        var moreGains, moreLosses := ChangesExtend(values, more);
        RsiOfIsCausal(Gains(values), Losses(values), moreGains, moreLosses, period, i);
      }
    }
  }
}
