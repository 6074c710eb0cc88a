/**
 Candidate trades of the profit-timeline script
 (scripts/phrecia_profit_timeline_gantt.py): the simulation window, the
 trade and trade-log records, the enumeration of every strictly profitable
 same-asset buy-then-sell pair, and the ending capital of a trade log.
 */
module Timeline {
  import opened Common
  import Pairs

  /** 2025-02-20 as a day ordinal. */
  const Start: int := 739302
  /** 2025-02-26 as a day ordinal. */
  const End: int := 739308
  const StartingCapital: real := 100.0

  /** One asset's identity and its day-to-price series. */
  datatype AssetSeries = AssetSeries(assetId: string, typeName: string, name: string, series: map<int, real>)

  datatype Trade = Trade(assetId: string, name: string, typeName: string,
                         buyDate: int, sellDate: int, buyPrice: real, sellPrice: real)

  /** A trade taken on the capital path, with the capital it started and ended with. */
  datatype LogEntry = LogEntry(trade: Trade, capitalStart: real, capitalEnd: real, units: real)

  /** The relative gain of a trade; 0.0 when the buy price is not positive. */
  function GainPct(t: Trade): (r: real)
    ensures t.buyPrice > 0.0 ==> t.buyPrice * (1.0 + r) == t.sellPrice
    ensures t.buyPrice <= 0.0 ==> r == 0.0
  {
    if t.buyPrice <= 0.0 then 0.0 else (t.sellPrice - t.buyPrice) / t.buyPrice
  }

  /** The window of the timeline: every day of 2025-02-20 .. 2025-02-26. */
  function BuildDates(): (r: seq<int>)
    ensures |r| == 7 && r[0] == Start && r[6] == End
    ensures Consecutive(r) && StrictlyIncreasing(r)
  {
    var r := Days(Start, End);
    ConsecutiveIsIncreasing(r);
    r
  }

  /** `t` is a strictly profitable trade of asset `a` between two priced days. */
  ghost predicate CandidateOf(a: AssetSeries, t: Trade)
  {
    && t.assetId == a.assetId && t.name == a.name && t.typeName == a.typeName
    && t.buyDate in a.series && t.sellDate in a.series && t.buyDate < t.sellDate
    && t.buyPrice == a.series[t.buyDate] && t.sellPrice == a.series[t.sellDate]
    && t.buyPrice > 0.0 && t.sellPrice > t.buyPrice
  }

  ghost predicate Candidate(assets: seq<AssetSeries>, t: Trade)
  {
    exists k :: 0 <= k < |assets| && CandidateOf(assets[k], t)
  }

  predicate Profitable(buyPrice: real, sellPrice: real)
  {
    buyPrice > 0.0 && sellPrice > buyPrice
  }

  function PriceList(days: seq<int>, series: map<int, real>): (r: seq<real>)
    requires forall i :: 0 <= i < |days| ==> days[i] in series
    ensures |r| == |days|
    ensures forall i :: 0 <= i < |days| ==> r[i] == series[days[i]]
  {
    seq(|days|, i requires 0 <= i < |days| => series[days[i]])
  }

  function TradeAt(a: AssetSeries, days: seq<int>, p: Pairs.IndexPair): Trade
    requires p.0 < |days| && p.1 < |days|
    requires forall i :: 0 <= i < |days| ==> days[i] in a.series
  {
    Trade(a.assetId, a.name, a.typeName, days[p.0], days[p.1], a.series[days[p.0]], a.series[days[p.1]])
  }

  predicate ByBuyThenSellDate(r: seq<Trade>)
  {
    forall k, l :: 0 <= k < l < |r| ==>
      r[k].buyDate < r[l].buyDate || (r[k].buyDate == r[l].buyDate && r[k].sellDate < r[l].sellDate)
  }

  function TradesOfPairs(a: AssetSeries, days: seq<int>, pairs: seq<Pairs.IndexPair>): (r: seq<Trade>)
    requires forall i :: 0 <= i < |days| ==> days[i] in a.series
    requires forall k :: 0 <= k < |pairs| ==> pairs[k].0 < |days| && pairs[k].1 < |days|
    ensures |r| == |pairs|
    ensures forall k :: 0 <= k < |pairs| ==> r[k] == TradeAt(a, days, pairs[k])
  {
    seq(|pairs|, k requires 0 <= k < |pairs| => TradeAt(a, days, pairs[k]))
  }

  /**
   The candidate trades of one asset: over its priced days in ascending
   order, every buy day with a positive price paired with every later day
   whose price is strictly higher, by buy day and then by sell day.
   */
  function AssetTrades(a: AssetSeries): (r: seq<Trade>)
    ensures forall t :: t in r ==> CandidateOf(a, t)
    ensures forall t :: CandidateOf(a, t) ==> t in r
    ensures ByBuyThenSellDate(r)
  {
    var days := SortedKeys(a.series.Keys);
    var prices := PriceList(days, a.series);
    var pairs := Pairs.KeptPairs(prices, Profitable);
    KeptProfitable(prices, pairs);
    AssetTradesSound(a, days, prices, pairs);
    AssetTradesComplete(a, days, prices, pairs);
    AssetTradesOrdered(a, days, pairs);
    TradesOfPairs(a, days, pairs)
  }

  /** The sorted days of a series with their prices. */
  ghost predicate PricedDays(a: AssetSeries, days: seq<int>, prices: seq<real>)
  {
    && StrictlyIncreasing(days) && (forall x :: x in days <==> x in a.series)
    && |prices| == |days| && (forall i :: 0 <= i < |days| ==> days[i] in a.series && prices[i] == a.series[days[i]])
  }

  /** The kept pairs of the profit filter, stated without the filter as a function value. */
  ghost predicate ProfitablePairs(prices: seq<real>, pairs: seq<Pairs.IndexPair>)
  {
    && (forall k :: 0 <= k < |pairs| ==>
          Pairs.Forward(|prices|, pairs[k].0, pairs[k].1) && Profitable(prices[pairs[k].0], prices[pairs[k].1]))
    && (forall i: nat, j: nat :: Pairs.Forward(|prices|, i, j) && Profitable(prices[i], prices[j]) ==> (i, j) in pairs)
    && Pairs.SortedLex(pairs)
  }

  lemma KeptProfitable(prices: seq<real>, pairs: seq<Pairs.IndexPair>)
    requires pairs == Pairs.KeptPairs(prices, Profitable)
    ensures ProfitablePairs(prices, pairs)
  {
  }

  /** A profitable forward pair of sorted days names a candidate trade of the asset. */
  lemma PairIsCandidate(a: AssetSeries, days: seq<int>, prices: seq<real>, p: Pairs.IndexPair)
    requires PricedDays(a, days, prices)
    requires p.0 < p.1 < |days| && Profitable(prices[p.0], prices[p.1])
    ensures CandidateOf(a, TradeAt(a, days, p))
  {
    assert days[p.0] < days[p.1];
    assert days[p.0] in days && days[p.1] in days;
  }

  /** A candidate trade is the trade of a profitable forward pair of sorted days. */
  lemma CandidateIsPair(a: AssetSeries, days: seq<int>, prices: seq<real>, t: Trade) returns (p: Pairs.IndexPair)
    requires PricedDays(a, days, prices) && CandidateOf(a, t)
    ensures p.0 < p.1 < |days| && Profitable(prices[p.0], prices[p.1])
    ensures TradeAt(a, days, p) == t
  {
    var i := IndexOf(days, t.buyDate);
    var j := IndexOf(days, t.sellDate);
    assert i < j;
    p := (i, j);
  }

  lemma AssetTradesSound(a: AssetSeries, days: seq<int>, prices: seq<real>, pairs: seq<Pairs.IndexPair>)
    requires PricedDays(a, days, prices) && ProfitablePairs(prices, pairs)
    ensures forall t :: t in TradesOfPairs(a, days, pairs) ==> CandidateOf(a, t)
  {
    var r := TradesOfPairs(a, days, pairs);
    forall k | 0 <= k < |pairs|
      ensures CandidateOf(a, r[k])
    {
      PairIsCandidate(a, days, prices, pairs[k]);
    }
  }

  lemma AssetTradesComplete(a: AssetSeries, days: seq<int>, prices: seq<real>, pairs: seq<Pairs.IndexPair>)
    requires PricedDays(a, days, prices) && ProfitablePairs(prices, pairs)
    ensures forall t :: CandidateOf(a, t) ==> t in TradesOfPairs(a, days, pairs)
  {
    var r := TradesOfPairs(a, days, pairs);
    forall t | CandidateOf(a, t)
      ensures t in r
    {
      var p := CandidateIsPair(a, days, prices, t);
      assert Pairs.Forward(|prices|, p.0, p.1);
      var k :| 0 <= k < |pairs| && pairs[k] == p;
      assert r[k] == t;
    }
  }

  lemma AssetTradesOrdered(a: AssetSeries, days: seq<int>, pairs: seq<Pairs.IndexPair>)
    requires StrictlyIncreasing(days) && (forall i :: 0 <= i < |days| ==> days[i] in a.series)
    requires forall k :: 0 <= k < |pairs| ==> pairs[k].0 < pairs[k].1 < |days|
    requires Pairs.SortedLex(pairs)
    ensures ByBuyThenSellDate(TradesOfPairs(a, days, pairs))
  {
    var r := TradesOfPairs(a, days, pairs);
    forall k, l | 0 <= k < l < |r|
      ensures r[k].buyDate < r[l].buyDate || (r[k].buyDate == r[l].buyDate && r[k].sellDate < r[l].sellDate)
    {
      assert Pairs.LexLess(pairs[k], pairs[l]);
    }
  }

  /**
   Every candidate trade of every asset, asset by asset in the series
   order, each asset's trades by buy day and then by sell day.
   */
  function BuildTrades(assets: seq<AssetSeries>): (r: seq<Trade>)
    ensures forall t :: t in r ==> Candidate(assets, t)
    ensures forall k, t :: 0 <= k < |assets| && CandidateOf(assets[k], t) ==> t in r
    ensures |assets| > 0 ==> |AssetTrades(assets[0])| <= |r| && r[..|AssetTrades(assets[0])|] == AssetTrades(assets[0])
  {
    if assets == [] then []
    else
      var first := AssetTrades(assets[0]);
      var rest := BuildTrades(assets[1..]);
      JoinTrades(assets, first, rest);
      first + rest
  }

  /** The first asset's candidates followed by the rest's are the candidates of all of them. */
  lemma JoinTrades(assets: seq<AssetSeries>, first: seq<Trade>, rest: seq<Trade>)
    requires |assets| > 0
    requires forall t :: t in first ==> CandidateOf(assets[0], t)
    requires forall t :: CandidateOf(assets[0], t) ==> t in first
    requires forall t :: t in rest ==> Candidate(assets[1..], t)
    requires forall k, t :: 0 <= k < |assets[1..]| && CandidateOf(assets[1..][k], t) ==> t in rest
    ensures forall t :: t in first + rest ==> Candidate(assets, t)
    ensures forall k, t :: 0 <= k < |assets| && CandidateOf(assets[k], t) ==> t in first + rest
    ensures (first + rest)[..|first|] == first
  {
    forall t | t in first + rest
      ensures Candidate(assets, t)
    {
      if t in rest {
        CandidateOfTail(assets, t);
      } else {
        assert CandidateOf(assets[0], t);
      }
    }
    forall k, t | 0 <= k < |assets| && CandidateOf(assets[k], t)
      ensures t in first + rest
    {
      if k > 0 {
        assert assets[1..][k - 1] == assets[k];
        assert t in rest;
      }
    }
    assert (first + rest)[..|first|] == first;
  }

  lemma CandidateOfTail(assets: seq<AssetSeries>, t: Trade)
    requires |assets| > 0 && Candidate(assets[1..], t)
    ensures Candidate(assets, t)
  {
    var k :| 0 <= k < |assets[1..]| && CandidateOf(assets[1..][k], t);
    assert assets[1..][k] == assets[k + 1];
  }

  /** Blocks laid end to end. */
  function Flatten<T>(blocks: seq<seq<T>>): (r: seq<T>)
  {
    if blocks == [] then [] else blocks[0] + Flatten(blocks[1..])
  }

  /** Where block `k` starts in `Flatten(blocks)`: the lengths of the blocks before it, summed. */
  function BlockStart<T>(blocks: seq<seq<T>>, k: nat): nat
    requires k <= |blocks|
  {
    if k == 0 then 0 else BlockStart(blocks, k - 1) + |blocks[k - 1]|
  }

  lemma {:induction false} BlockStartTail<T>(blocks: seq<seq<T>>, k: nat)
    requires k < |blocks|
    ensures BlockStart(blocks, k + 1) == |blocks[0]| + BlockStart(blocks[1..], k)
  {
    if k > 0 {
      BlockStartTail(blocks, k - 1);
      assert blocks[1..][k - 1] == blocks[k];
    }
  }

  /** Block `k` of a flattening sits between its start and the next block's. */
  ghost predicate BlockAt<T>(blocks: seq<seq<T>>, k: nat)
    requires k < |blocks|
  {
    BlockStart(blocks, k) <= BlockStart(blocks, k + 1) <= |Flatten(blocks)|
    && Flatten(blocks)[BlockStart(blocks, k)..BlockStart(blocks, k + 1)] == blocks[k]
  }

  lemma {:induction false} FlattenBlocks<T>(blocks: seq<seq<T>>)
    ensures |Flatten(blocks)| == BlockStart(blocks, |blocks|)
    ensures forall k :: 0 <= k < |blocks| ==> BlockAt(blocks, k)
  {
    if blocks != [] {
      var first := blocks[0];
      var rest := Flatten(blocks[1..]);
      var r := Flatten(blocks);
      FlattenBlocks(blocks[1..]);
      BlockStartTail(blocks, |blocks| - 1);
      forall k | 0 <= k < |blocks|
        ensures BlockAt(blocks, k)
      {
        if k == 0 {
          assert r[0..|first|] == first;
        } else {
          assert BlockAt(blocks[1..], k - 1);
          BlockStartTail(blocks, k - 1);
          BlockStartTail(blocks, k);
          assert blocks[1..][k - 1] == blocks[k];
          SliceOfTail(first, rest, BlockStart(blocks[1..], k - 1), BlockStart(blocks[1..], k));
        }
      }
    }
  }

  /** A slice of the second part of a concatenation, located in the whole. */
  lemma SliceOfTail<T>(first: seq<T>, rest: seq<T>, a: nat, b: nat)
    requires a <= b <= |rest|
    ensures (first + rest)[|first| + a..|first| + b] == rest[a..b]
  {
    assert forall i :: 0 <= i < b - a ==> (first + rest)[|first| + a..|first| + b][i] == rest[a..b][i];
  }

  /** Each asset's trade list, in asset order. */
  function AssetBlocks(assets: seq<AssetSeries>): (r: seq<seq<Trade>>)
    ensures |r| == |assets| && forall k :: 0 <= k < |assets| ==> r[k] == AssetTrades(assets[k])
  {
    seq(|assets|, k requires 0 <= k < |assets| => AssetTrades(assets[k]))
  }

  /**
   How many trades the assets before asset `k` contribute, the sum of
   `|AssetTrades(assets[l])|` over `l < k`: where asset `k`'s trades start.
   */
  function Offset(assets: seq<AssetSeries>, k: nat): nat
    requires k <= |assets|
  {
    BlockStart(AssetBlocks(assets), k)
  }

  lemma {:induction false} BuildTradesFlattens(assets: seq<AssetSeries>)
    ensures BuildTrades(assets) == Flatten(AssetBlocks(assets))
  {
    if assets != [] {
      BuildTradesFlattens(assets[1..]);
      assert AssetBlocks(assets)[1..] == AssetBlocks(assets[1..]);
    }
  }

  /** Asset `k`'s trades fill `trades` from `Offset(assets, k)` up to `Offset(assets, k + 1)`. */
  ghost predicate AssetBlock(assets: seq<AssetSeries>, trades: seq<Trade>, k: nat)
    requires k < |assets|
  {
    Offset(assets, k) <= Offset(assets, k + 1) <= |trades|
    && trades[Offset(assets, k)..Offset(assets, k + 1)] == AssetTrades(assets[k])
  }

  /**
   The trade list is the assets' trade lists laid end to end in asset
   order, each listed once: nothing before, between or after the blocks.
   */
  lemma BuildTradesInBlocks(assets: seq<AssetSeries>)
    ensures |BuildTrades(assets)| == Offset(assets, |assets|)
    ensures forall k :: 0 <= k < |assets| ==> AssetBlock(assets, BuildTrades(assets), k)
  {
    BuildTradesFlattens(assets);
    var blocks := AssetBlocks(assets);
    FlattenBlocks(blocks);
    forall k | 0 <= k < |assets|
      ensures AssetBlock(assets, BuildTrades(assets), k)
    {
      assert BlockAt(blocks, k);
    }
  }

  /** The capital at the end of a trade log: the last trade's, or the starting capital. */
  function EndingCapital(log: seq<LogEntry>): (r: real)
    ensures log == [] ==> r == StartingCapital
    ensures log != [] ==> r == log[|log| - 1].capitalEnd
  {
    if log == [] then StartingCapital else log[|log| - 1].capitalEnd
  }
}
