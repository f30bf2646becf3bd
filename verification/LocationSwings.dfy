/**
 What the swing scan finds: bars that stand strictly above, or strictly below, every other bar within
 `lookback` places on either side, once the last of those bars has closed.
 */
module LocationSwings {
  import opened LocationModel

  lemma {:induction false} GreatestMeaning(values: seq<real>)
    requires values != []
    ensures Greatest(values) in values
    ensures forall j :: 0 <= j < |values| ==> values[j] <= Greatest(values)
    decreases |values|
  {
    if |values| > 1 {
      GreatestMeaning(values[..|values| - 1]);
    }
  }

  lemma {:induction false} LeastMeaning(values: seq<real>)
    requires values != []
    ensures Least(values) in values
    ensures forall j :: 0 <= j < |values| ==> values[j] >= Least(values)
    decreases |values|
  {
    if |values| > 1 {
      LeastMeaning(values[..|values| - 1]);
    }
  }

  ghost predicate Once(values: seq<real>, p: nat)
    requires p < |values|
  {
    forall j :: 0 <= j < |values| && j != p ==> values[j] != values[p]
  }

  lemma {:induction false} NoneCounted(values: seq<real>, x: real)
    ensures CountOf(values, x) == 0 <==> x !in values
    decreases |values|
  {
    if values != [] {
      var n := |values| - 1;
      NoneCounted(values[..n], x);
      assert values == values[..n] + [values[n]];
    }
  }

  lemma {:induction false} CountOnce(values: seq<real>, p: nat)
    requires p < |values|
    ensures CountOf(values, values[p]) == 1 <==> Once(values, p)
    decreases |values|
  {
    var n := |values| - 1;
    NoneCounted(values[..n], values[p]);
    if p < n {
      CountOnce(values[..n], p);
      assert CountOf(values[..n], values[p]) > 0;
    }
  }

  /** A value that is the greatest and occurs once is strictly above all others. */
  lemma StrictPeak(values: seq<real>, p: nat)
    requires p < |values|
    ensures values[p] == Greatest(values) && CountOf(values, values[p]) == 1
       <==> forall j :: 0 <= j < |values| && j != p ==> values[j] < values[p]
  {
    hide Greatest, CountOf;
    GreatestMeaning(values);
    CountOnce(values, p);
  }

  lemma StrictTrough(values: seq<real>, p: nat)
    requires p < |values|
    ensures values[p] == Least(values) && CountOf(values, values[p]) == 1
       <==> forall j :: 0 <= j < |values| && j != p ==> values[j] > values[p]
  {
    hide Least, CountOf;
    LeastMeaning(values);
    CountOnce(values, p);
  }

  /** Bar `i` stands out from the `lookback` bars on either side of it. */
  ghost predicate StandsOut(role: Role, history: seq<ClosedCandle>, lookback: nat, i: nat)
    requires lookback <= i && i + lookback < |history|
  {
    forall j :: i - lookback <= j <= i + lookback && j != i ==>
      if role == Resistance then history[j].candle.high < history[i].candle.high
      else history[j].candle.low > history[i].candle.low
  }

  ghost predicate SwingOf(swing: Swing, history: seq<ClosedCandle>, lookback: nat, cutoff: int, i: nat)
    requires lookback <= i && i + lookback < |history|
  {
    && StandsOut(swing.role, history, lookback, i)
    && swing.level == (if swing.role == Resistance then history[i].candle.high else history[i].candle.low)
    && swing.formedAt == history[i].openTime && swing.id == ZoneId(swing.role, swing.formedAt)
    && swing.confirmedAt == history[i + lookback].closedAt <= cutoff
  }

  lemma PeakMeaning(history: seq<ClosedCandle>, lookback: nat, i: nat)
    requires lookback <= i && i + lookback < |history|
    ensures var window := Highs(history[i - lookback..i + lookback + 1]);
            var high := history[i].candle.high;
            high == Greatest(window) && CountOf(window, high) == 1 <==> StandsOut(Resistance, history, lookback, i)
  {
    hide Greatest, CountOf;
    var window := Highs(history[i - lookback..i + lookback + 1]);
    StrictPeak(window, lookback);
    assert forall j :: 0 <= j < |window| ==> window[j] == history[i - lookback + j].candle.high;
    if forall j :: 0 <= j < |window| && j != lookback ==> window[j] < window[lookback] {
      forall j | i - lookback <= j <= i + lookback && j != i
        ensures history[j].candle.high < history[i].candle.high
      {
        assert window[j - (i - lookback)] < window[lookback];
      }
    }
  }

  lemma TroughMeaning(history: seq<ClosedCandle>, lookback: nat, i: nat)
    requires lookback <= i && i + lookback < |history|
    ensures var window := Lows(history[i - lookback..i + lookback + 1]);
            var low := history[i].candle.low;
            low == Least(window) && CountOf(window, low) == 1 <==> StandsOut(Support, history, lookback, i)
  {
    hide Least, CountOf;
    var window := Lows(history[i - lookback..i + lookback + 1]);
    StrictTrough(window, lookback);
    assert forall j :: 0 <= j < |window| ==> window[j] == history[i - lookback + j].candle.low;
    if forall j :: 0 <= j < |window| && j != lookback ==> window[j] > window[lookback] {
      forall j | i - lookback <= j <= i + lookback && j != i
        ensures history[j].candle.low > history[i].candle.low
      {
        assert window[j - (i - lookback)] > window[lookback];
      }
    }
  }

  lemma SwingsAtMeaning(history: seq<ClosedCandle>, lookback: nat, cutoff: int, i: nat, swing: Swing)
    requires lookback <= i && i + lookback < |history|
    ensures swing in SwingsAt(history, lookback, cutoff, i) <==> SwingOf(swing, history, lookback, cutoff, i)
  {
    PeakMeaning(history, lookback, i);
    TroughMeaning(history, lookback, i);
    hide Greatest, Least, CountOf, StandsOut;
  }

  lemma {:induction false} SwingsBeforeMeaning(history: seq<ClosedCandle>, lookback: nat, cutoff: int, m: nat, swing: Swing)
    requires m > lookback ==> m + lookback <= |history|
    ensures swing in SwingsBefore(history, lookback, cutoff, m)
       <==> exists i :: lookback <= i < m && SwingOf(swing, history, lookback, cutoff, i)
  {
    hide SwingsAt, SwingOf;
    if m > lookback {
      SwingsBeforeMeaning(history, lookback, cutoff, m - 1, swing);
      SwingsAtMeaning(history, lookback, cutoff, m - 1, swing);
    }
  }

  /** The scan finds every confirmed swing of the history and nothing else. */
  lemma SwingPointsMeaning(history: seq<ClosedCandle>, lookback: nat, cutoff: int, swing: Swing)
    ensures swing in SwingPoints(history, lookback, cutoff)
       <==> exists i :: lookback <= i && i + lookback < |history| && SwingOf(swing, history, lookback, cutoff, i)
  {
    hide SwingsBefore, SwingOf;
    SwingsBeforeMeaning(history, lookback, cutoff, SwingEnd(history, lookback), swing);
  }
}
