/**
 Per-asset time-series helpers of the league analysis script
 (scripts/phrecia_time_series_analysis.py): the analysis window, turning
 per-day (total, count) tallies into a date-sorted series of daily means,
 the trailing moving average, the best single buy-then-sell trade, and the
 enumeration of every profitable buy-then-sell pair.
 */
module TimeSeries {
  import opened Common
  import Pairs

  /** 2025-02-20 as a day ordinal. */
  const Start: int := 739302
  /** 2025-03-20 as a day ordinal. */
  const End: int := 739330

  predicate InRange(day: int)
  {
    Start <= day <= End
  }

  /** The window filter accepts exactly the days of the calendar window. */
  lemma InRangeIsWindow(day: int)
    ensures InRange(day) <==> day in Days(Start, End)
    ensures |Days(Start, End)| == 29
  {
  }

  datatype DailyValue = DailyValue(day: int, value: real)

  /** The running sum and number of raw observations of one asset on one day. */
  datatype Tally = Tally(total: real, count: int)

  function Mean(t: Tally): real
    requires t.count != 0
  {
    t.total / (t.count as real)
  }

  function DayList(vs: seq<DailyValue>): (r: seq<int>)
    ensures |r| == |vs|
    ensures forall i :: 0 <= i < |vs| ==> r[i] == vs[i].day
  {
    seq(|vs|, i requires 0 <= i < |vs| => vs[i].day)
  }

  function ValueList(vs: seq<DailyValue>): (r: seq<real>)
    ensures |r| == |vs|
    ensures forall i :: 0 <= i < |vs| ==> r[i] == vs[i].value
  {
    seq(|vs|, i requires 0 <= i < |vs| => vs[i].value)
  }

  /**
   One entry per tallied day, in ascending day order, holding that day's
   mean. A zero count would be a division by zero in the script; the
   aggregation that builds the tallies never records one.
   */
  function BuildDailyValues(series: map<int, Tally>): (r: seq<DailyValue>)
    requires forall d :: d in series ==> series[d].count != 0
    ensures |r| == |series|
    ensures StrictlyIncreasing(DayList(r))
    ensures forall i :: 0 <= i < |r| ==> r[i].day in series && r[i].value == series[r[i].day].total / (series[r[i].day].count as real)
    ensures forall d :: d in series ==> d in DayList(r)
  {
    var days := SortedKeys(series.Keys);
    var r := seq(|days|, i requires 0 <= i < |days| => DailyValue(days[i], Mean(series[days[i]])));
    assert DayList(r) == days;
    r
  }

  // ---------------------------------------------------------------------
  // Moving average
  // ---------------------------------------------------------------------

  function Sum(xs: seq<real>): real
  {
    if xs == [] then 0.0 else xs[0] + Sum(xs[1..])
  }

  lemma {:induction false} SumAppend(xs: seq<real>, x: real)
    ensures Sum(xs + [x]) == Sum(xs) + x
  {
    if xs != [] {
      assert (xs + [x])[1..] == xs[1..] + [x];
      SumAppend(xs[1..], x);
    }
  }

  /** First position of the trailing window that ends (inclusively) just before `k`. */
  function WindowStart(k: nat, window: nat): nat
  {
    if k > window then k - window else 0
  }

  /** Mean of the last `min(i + 1, window)` values up to and including position `i`. */
  function TrailingMean(xs: seq<real>, i: nat, window: nat): real
    requires window > 0 && i < |xs|
  {
    var lo := WindowStart(i + 1, window);
    Sum(xs[lo..i + 1]) / ((i + 1 - lo) as real)
  }

  /**
   The trailing moving average, computed with a running sum over a buffer
   of at most `window` values; a non-positive window is refused before any
   output is produced.
   */
  method MovingAverage(values: seq<DailyValue>, window: int) returns (r: Result<seq<real>>)
    ensures r.Failure? <==> window <= 0
    ensures r.Failure? ==> r.error == WindowNotPositive
    ensures r.Success? ==> |r.value| == |values|
    ensures r.Success? ==> forall i :: 0 <= i < |values| ==> r.value[i] == TrailingMean(ValueList(values), i, window)
  {
    if window <= 0 {
      return Failure(WindowNotPositive);
    }
    ghost var xs := ValueList(values);
    var ma: seq<real> := [];
    var runningSum := 0.0;
    var windowValues: seq<real> := [];
    var k := 0;
    while k < |values|
      invariant k <= |values|
      invariant |ma| == k
      invariant forall i :: 0 <= i < k ==> ma[i] == TrailingMean(xs, i, window)
      invariant windowValues == xs[WindowStart(k, window)..k]
      invariant |windowValues| <= window
      invariant runningSum == Sum(windowValues)
    {
      var item := values[k];
      SumAppend(windowValues, item.value);
      windowValues := windowValues + [item.value];
      runningSum := runningSum + item.value;
      if |windowValues| > window {
        runningSum := runningSum - windowValues[0];
        windowValues := windowValues[1..];
      }
      assert windowValues == xs[WindowStart(k + 1, window)..k + 1];
      ma := ma + [runningSum / (|windowValues| as real)];
      k := k + 1;
    }
    return Success(ma);
  }

  // ---------------------------------------------------------------------
  // Trades
  // ---------------------------------------------------------------------

  /**
   A buy-then-sell pair as the script reports it: both days, both values,
   the absolute gain, and the gain relative to the buy value (absent when
   the buy value is not positive).
   */
  datatype Quote = Quote(buyDay: int, buyValue: real, sellDay: int, sellValue: real, gain: real, gainPct: Option<real>)

  function GainPct(buyValue: real, gain: real): (r: Option<real>)
    ensures r.Some? <==> buyValue > 0.0
    ensures r.Some? ==> r.value * buyValue == gain
  {
    if buyValue > 0.0 then Some(gain / buyValue) else None
  }

  function Gain(values: seq<DailyValue>, i: nat, j: nat): real
    requires i < |values| && j < |values|
  {
    values[j].value - values[i].value
  }

  function QuoteAt(values: seq<DailyValue>, i: nat, j: nat): (q: Quote)
    requires i < |values| && j < |values|
  {
    var g := Gain(values, i, j);
    Quote(values[i].day, values[i].value, values[j].day, values[j].value, g, GainPct(values[i].value, g))
  }

  /** The best gain so far; minus infinity before the first candidate. */
  datatype BestSoFar = NegInfinity | Finite(gain: real)

  predicate Exceeds(x: real, best: BestSoFar)
  {
    best.NegInfinity? || x > best.gain
  }

  /**
   The single buy-then-sell pair of greatest gain, in one pass that keeps
   the running minimum. Absent exactly when there are fewer than two
   values; otherwise the gain may be negative. Ties go to the earliest sell
   position and, before it, to the first position of the minimum.
   */
  method BestTrade(values: seq<DailyValue>) returns (r: Option<Quote>, ghost buy: nat, ghost sell: nat)
    ensures r.None? <==> |values| < 2
    ensures r.Some? ==> buy < sell < |values| && r.value == QuoteAt(values, buy, sell)
    ensures r.Some? ==> forall i, j :: 0 <= i < j < |values| ==> Gain(values, i, j) <= r.value.gain
    ensures r.Some? ==> forall i, j :: 0 <= i < j < sell ==> Gain(values, i, j) < r.value.gain
    ensures r.Some? ==> forall k :: 0 <= k < sell ==> values[buy].value <= values[k].value
    ensures r.Some? ==> forall k :: 0 <= k < buy ==> values[buy].value < values[k].value
  {
    if |values| < 2 {
      return None, 0, 0;
    }
    var minDay := values[0].day;
    var minValue := values[0].value;
    ghost var minIdx: nat := 0;
    var bestGain := NegInfinity;
    var bestBuyDay := minDay;
    var bestBuyValue := minValue;
    var bestSellDay := values[0].day;
    var bestSellValue := values[0].value;
    buy, sell := 0, 0;

    var k := 1;
    while k < |values|
      invariant 1 <= k <= |values|
      invariant minIdx < k && minDay == values[minIdx].day && minValue == values[minIdx].value
      invariant forall t :: 0 <= t < k ==> minValue <= values[t].value
      invariant forall t :: 0 <= t < minIdx ==> minValue < values[t].value
      invariant bestGain.NegInfinity? <==> k == 1
      invariant k > 1 ==> buy < sell < k
      invariant k > 1 ==> bestGain.gain == Gain(values, buy, sell)
      invariant k > 1 ==> bestBuyDay == values[buy].day && bestBuyValue == values[buy].value
      invariant k > 1 ==> bestSellDay == values[sell].day && bestSellValue == values[sell].value
      invariant k > 1 ==> forall i, j :: 0 <= i < j < k ==> Gain(values, i, j) <= bestGain.gain
      invariant k > 1 ==> forall i, j :: 0 <= i < j < sell ==> Gain(values, i, j) < bestGain.gain
      invariant k > 1 ==> forall t :: 0 <= t < sell ==> values[buy].value <= values[t].value
      invariant k > 1 ==> forall t :: 0 <= t < buy ==> values[buy].value < values[t].value
    {
      var item := values[k];
      var gain := item.value - minValue;
      if Exceeds(gain, bestGain) {
        bestGain := Finite(gain);
        bestBuyDay := minDay;
        bestBuyValue := minValue;
        bestSellDay := item.day;
        bestSellValue := item.value;
        buy, sell := minIdx, k;
      }
      if item.value < minValue {
        minValue := item.value;
        minDay := item.day;
        minIdx := k;
      }
      k := k + 1;
    }

    var gainPct := GainPct(bestBuyValue, bestGain.gain);
    r := Some(Quote(bestBuyDay, bestBuyValue, bestSellDay, bestSellValue, bestGain.gain, gainPct));
  }

  /**
   The two filters of the profitable-pair enumeration, in the order the
   script applies them: a gain that does not exceed `minGain` is skipped; a
   positive buy value yields a relative gain, which is skipped when below a
   given minimum; a non-positive buy value is skipped whenever a minimum
   is given.
   */
  predicate Accepts(buyValue: real, sellValue: real, minGain: real, minGainPct: Option<real>)
  {
    var gain := sellValue - buyValue;
    if gain <= minGain then false
    else if buyValue > 0.0 then
      var pct := gain / buyValue;
      !(minGainPct.Some? && pct < minGainPct.value)
    else minGainPct.None?
  }

  /** The filter chain accepts exactly the pairs that meet both conditions. */
  lemma AcceptsMeansBothFilters(buyValue: real, sellValue: real, minGain: real, minGainPct: Option<real>)
    ensures Accepts(buyValue, sellValue, minGain, minGainPct) <==>
              sellValue - buyValue > minGain
              && (minGainPct.Some? ==> buyValue > 0.0 && (sellValue - buyValue) / buyValue >= minGainPct.value)
  {
  }

  /** `q` reports a pair of positions `i < j` that passes both filters. */
  ghost predicate ReportsAcceptedPair(values: seq<DailyValue>, minGain: real, minGainPct: Option<real>, q: Quote)
  {
    exists i, j :: 0 <= i < j < |values| && Accepts(values[i].value, values[j].value, minGain, minGainPct)
                   && q == QuoteAt(values, i, j)
  }

  predicate ByBuyThenSellDay(r: seq<Quote>)
  {
    forall k, l :: 0 <= k < l < |r| ==>
      r[k].buyDay < r[l].buyDay || (r[k].buyDay == r[l].buyDay && r[k].sellDay < r[l].sellDay)
  }

  function QuotesOf(values: seq<DailyValue>, pairs: seq<Pairs.IndexPair>): (r: seq<Quote>)
    requires forall k :: 0 <= k < |pairs| ==> pairs[k].0 < |values| && pairs[k].1 < |values|
    ensures |r| == |pairs|
    ensures forall k :: 0 <= k < |pairs| ==> r[k] == QuoteAt(values, pairs[k].0, pairs[k].1)
  {
    seq(|pairs|, k requires 0 <= k < |pairs| => QuoteAt(values, pairs[k].0, pairs[k].1))
  }

  /**
   Every pair of positions `i < j` that passes both filters, in the order
   of the nested loops (by buy position, then by sell position).
   */
  function ProfitableTrades(values: seq<DailyValue>, minGain: real, minGainPct: Option<real>): (r: seq<Quote>)
    ensures |values| < 2 ==> r == []
    ensures forall q :: q in r ==> ReportsAcceptedPair(values, minGain, minGainPct, q)
    ensures forall i, j :: 0 <= i < j < |values| && Accepts(values[i].value, values[j].value, minGain, minGainPct)
              ==> QuoteAt(values, i, j) in r
    ensures StrictlyIncreasing(DayList(values)) ==> ByBuyThenSellDay(r)
  {
    if |values| < 2 then []
    else
      var xs := ValueList(values);
      var pairs := Pairs.KeptPairs(xs, (b, s) => Accepts(b, s, minGain, minGainPct));
      KeptAccepted(xs, minGain, minGainPct, pairs);
      QuotesSound(values, minGain, minGainPct, pairs);
      QuotesComplete(values, minGain, minGainPct, pairs);
      QuotesOrdered(values, pairs);
      QuotesOf(values, pairs)
  }

  /** The kept pairs of both filters, stated without the filter as a function value. */
  ghost predicate AcceptedPairs(xs: seq<real>, minGain: real, minGainPct: Option<real>, pairs: seq<Pairs.IndexPair>)
  {
    && (forall k :: 0 <= k < |pairs| ==>
          Pairs.Forward(|xs|, pairs[k].0, pairs[k].1) && Accepts(xs[pairs[k].0], xs[pairs[k].1], minGain, minGainPct))
    && (forall i: nat, j: nat :: Pairs.Forward(|xs|, i, j) && Accepts(xs[i], xs[j], minGain, minGainPct) ==> (i, j) in pairs)
    && Pairs.SortedLex(pairs)
  }

  lemma KeptAccepted(xs: seq<real>, minGain: real, minGainPct: Option<real>, pairs: seq<Pairs.IndexPair>)
    requires pairs == Pairs.KeptPairs(xs, (b, s) => Accepts(b, s, minGain, minGainPct))
    ensures AcceptedPairs(xs, minGain, minGainPct, pairs)
  {
  }

  lemma QuotesSound(values: seq<DailyValue>, minGain: real, minGainPct: Option<real>, pairs: seq<Pairs.IndexPair>)
    requires AcceptedPairs(ValueList(values), minGain, minGainPct, pairs)
    ensures forall q :: q in QuotesOf(values, pairs) ==> ReportsAcceptedPair(values, minGain, minGainPct, q)
  {
    var xs := ValueList(values);
    var quotes := QuotesOf(values, pairs);
    forall k | 0 <= k < |pairs|
      ensures ReportsAcceptedPair(values, minGain, minGainPct, quotes[k])
    {
      var i, j := pairs[k].0, pairs[k].1;
      assert Accepts(xs[i], xs[j], minGain, minGainPct);
    }
  }

  lemma QuotesComplete(values: seq<DailyValue>, minGain: real, minGainPct: Option<real>, pairs: seq<Pairs.IndexPair>)
    requires AcceptedPairs(ValueList(values), minGain, minGainPct, pairs)
    ensures forall i, j :: 0 <= i < j < |values| && Accepts(values[i].value, values[j].value, minGain, minGainPct)
              ==> QuoteAt(values, i, j) in QuotesOf(values, pairs)
  {
    var xs := ValueList(values);
    var quotes := QuotesOf(values, pairs);
    forall i, j | 0 <= i < j < |values| && Accepts(values[i].value, values[j].value, minGain, minGainPct)
      ensures QuoteAt(values, i, j) in quotes
    {
      assert Pairs.Forward(|xs|, i, j) && Accepts(xs[i], xs[j], minGain, minGainPct);
      var k :| 0 <= k < |pairs| && pairs[k] == (i, j);
      assert quotes[k] == QuoteAt(values, i, j);
    }
  }

  lemma QuotesOrdered(values: seq<DailyValue>, pairs: seq<Pairs.IndexPair>)
    requires forall k :: 0 <= k < |pairs| ==> pairs[k].0 < pairs[k].1 < |values|
    requires Pairs.SortedLex(pairs)
    ensures StrictlyIncreasing(DayList(values)) ==> ByBuyThenSellDay(QuotesOf(values, pairs))
  {
    var quotes := QuotesOf(values, pairs);
    if StrictlyIncreasing(DayList(values)) {
      forall k, l | 0 <= k < l < |quotes|
        ensures quotes[k].buyDay < quotes[l].buyDay || (quotes[k].buyDay == quotes[l].buyDay && quotes[k].sellDay < quotes[l].sellDay)
      {
        assert Pairs.LexLess(pairs[k], pairs[l]);
        assert DayList(values)[pairs[k].0] == quotes[k].buyDay;
        assert DayList(values)[pairs[l].0] == quotes[l].buyDay;
        assert DayList(values)[pairs[k].1] == quotes[k].sellDay;
        assert DayList(values)[pairs[l].1] == quotes[l].sellDay;
      }
    }
  }

  /**
   The best single trade dominates the enumeration: no enumerated pair,
   whatever the filters, gains more than the maximal gain `best`.
   */
  lemma BestGainDominatesProfitable(values: seq<DailyValue>, best: real, minGain: real, minGainPct: Option<real>)
    requires forall i, j :: 0 <= i < j < |values| ==> Gain(values, i, j) <= best
    ensures forall q :: q in ProfitableTrades(values, minGain, minGainPct) ==> minGain < q.gain <= best
  {
    var r := ProfitableTrades(values, minGain, minGainPct);
    forall q | q in r
      ensures minGain < q.gain <= best
    {
      var i, j :| 0 <= i < j < |values| && Accepts(values[i].value, values[j].value, minGain, minGainPct)
                  && q == QuoteAt(values, i, j);
    }
  }
}
