/**
 The greedy switching strategy against the capital-path optimiser: fed the
 same assets and the same ascending window, the strategy's trades form a
 chronological, non-overlapping chain of the optimiser's candidate trades
 whose compounded capital is the strategy's final capital, so the
 strategy never ends above the optimiser.
 */
module Comparison {
  import opened Common
  import Timeline
  import TimelineDp
  import Strategy

  /** An asset of the strategy as a series of the timeline (named by its id). */
  function AsSeries(a: Strategy.AssetPrices): (r: Timeline.AssetSeries)
    ensures r.assetId == a.assetId && r.series == a.series
  {
    Timeline.AssetSeries(a.assetId, a.assetType, a.assetId, a.series)
  }

  function AsAssets(prices: seq<Strategy.AssetPrices>): (r: seq<Timeline.AssetSeries>)
    ensures |r| == |prices|
    ensures forall i :: 0 <= i < |prices| ==> r[i] == AsSeries(prices[i])
  {
    seq(|prices|, i requires 0 <= i < |prices| => AsSeries(prices[i]))
  }

  /** A realised trade of the strategy as a candidate trade of the timeline. */
  function AsTimelineTrade(prices: seq<Strategy.AssetPrices>, t: Strategy.Trade): (r: Timeline.Trade)
    requires Strategy.Find(prices, t.assetId).Some?
    ensures r.assetId == t.assetId && r.buyDate == t.buyDate && r.sellDate == t.sellDate
    ensures r.buyPrice == t.buyPrice && r.sellPrice == t.sellPrice
  {
    var a := AsSeries(prices[Strategy.Find(prices, t.assetId).value]);
    Timeline.Trade(t.assetId, a.name, a.typeName, t.buyDate, t.sellDate, t.buyPrice, t.sellPrice)
  }

  function AsChain(prices: seq<Strategy.AssetPrices>, trades: seq<Strategy.Trade>): (r: seq<Timeline.Trade>)
    requires forall k :: 0 <= k < |trades| ==> Strategy.Find(prices, trades[k].assetId).Some?
    ensures |r| == |trades|
    ensures forall k :: 0 <= k < |trades| ==> r[k] == AsTimelineTrade(prices, trades[k])
  {
    seq(|trades|, k requires 0 <= k < |trades| => AsTimelineTrade(prices, trades[k]))
  }

  /** The last step of compounding a prefix of a chain. */
  lemma ChainCapitalLast(chain: seq<Timeline.Trade>, m: nat)
    requires 0 < m <= |chain| && forall t :: t in chain ==> t.buyPrice != 0.0
    ensures forall t :: t in chain[..m] ==> t.buyPrice != 0.0
    ensures forall t :: t in chain[..m - 1] ==> t.buyPrice != 0.0
    ensures TimelineDp.ChainCapital(chain[..m]) == TimelineDp.Grow(TimelineDp.ChainCapital(chain[..m - 1]), chain[m - 1])
  {
    assert chain[..m][..m - 1] == chain[..m - 1];
    assert chain[..m][m - 1] == chain[m - 1];
  }

  /** A chain whose trades buy and sell at the prices of a ledger's trades. */
  predicate SamePrices(chain: seq<Timeline.Trade>, trades: seq<Strategy.Trade>)
  {
    && |chain| == |trades|
    && forall k :: 0 <= k < |trades| ==>
         chain[k].buyPrice == trades[k].buyPrice && chain[k].sellPrice == trades[k].sellPrice
  }

  /** Compounding the first `m` trades of a ledger reaches the capital the `m`-th one ends with. */
  lemma {:induction false} ChainCapitalFollowsLedger(chain: seq<Timeline.Trade>, trades: seq<Strategy.Trade>,
                                                     capital: real, m: nat)
    requires Strategy.Ledger(trades, capital) && SamePrices(chain, trades) && m <= |trades|
    ensures forall t :: t in chain ==> t.buyPrice != 0.0
    ensures forall t :: t in chain[..m] ==> t.buyPrice != 0.0
    ensures TimelineDp.ChainCapital(chain[..m]) == if m == 0 then Strategy.StartingCapital else trades[m - 1].capitalEnd
    decreases m
  {
    assert forall t :: t in chain ==> t.buyPrice != 0.0 by {
      forall t | t in chain
        ensures t.buyPrice != 0.0
      {
        var k :| 0 <= k < |chain| && chain[k] == t;
      }
    }
    if m > 0 {
      ChainCapitalFollowsLedger(chain, trades, capital, m - 1);
      ChainCapitalLast(chain, m);
      var t := trades[m - 1];
      assert t.capitalEnd == Strategy.Proceeds(t);
      assert TimelineDp.ChainCapital(chain[..m - 1]) == t.capitalStart;
    }
  }

  /** A profitable trade of the strategy, at its asset's own prices, is a candidate of the timeline. */
  lemma TradeIsCandidate(prices: seq<Strategy.AssetPrices>, s: Strategy.Trade)
    requires Strategy.PricedTrade(prices, s) && Strategy.ProfitableTrade(s) && s.buyDate < s.sellDate
    ensures Strategy.Find(prices, s.assetId).Some?
    ensures Timeline.CandidateOf(AsSeries(prices[Strategy.Find(prices, s.assetId).value]), AsTimelineTrade(prices, s))
  {
  }

  /** The strategy's trades are findable by their asset ids. */
  lemma TradesFound(prices: seq<Strategy.AssetPrices>, trades: seq<Strategy.Trade>)
    requires forall k :: 0 <= k < |trades| ==> Strategy.PricedTrade(prices, trades[k])
    ensures forall k :: 0 <= k < |trades| ==> Strategy.Find(prices, trades[k].assetId).Some?
  {
    forall k | 0 <= k < |trades|
      ensures Strategy.Find(prices, trades[k].assetId).Some?
    {
      assert Strategy.PricedTrade(prices, trades[k]);
    }
  }

  /** Every trade of a chronological, profitable ledger at the assets' own prices is a candidate inside the window. */
  lemma ChainOfCandidates(dates: seq<int>, prices: seq<Strategy.AssetPrices>, trades: seq<Strategy.Trade>)
    requires Strategy.Chronological(dates, trades)
    requires forall k :: 0 <= k < |trades| ==> Strategy.PricedTrade(prices, trades[k]) && Strategy.ProfitableTrade(trades[k])
    ensures forall k :: 0 <= k < |trades| ==> Strategy.Find(prices, trades[k].assetId).Some?
    ensures var chain := AsChain(prices, trades);
            && (forall t :: t in chain ==> t in Timeline.BuildTrades(AsAssets(prices)) && t.buyDate in dates && t.sellDate in dates)
            && (forall k :: 0 <= k < |chain| - 1 ==> chain[k].sellDate <= chain[k + 1].buyDate)
  {
    TradesFound(prices, trades);
    var assets := AsAssets(prices);
    var chain := AsChain(prices, trades);
    forall t | t in chain
      ensures t in Timeline.BuildTrades(assets) && t.buyDate in dates && t.sellDate in dates
    {
      var k :| 0 <= k < |chain| && chain[k] == t;
      var s := trades[k];
      assert Strategy.PricedTrade(prices, s) && Strategy.ProfitableTrade(s) && s.buyDate < s.sellDate;
      TradeIsCandidate(prices, s);
      var i := Strategy.Find(prices, s.assetId).value;
      assert Timeline.CandidateOf(assets[i], t);
    }
  }

  /** A ledger's trades, read as timeline trades, compound to the ledger's final capital. */
  lemma LedgerChain(prices: seq<Strategy.AssetPrices>, trades: seq<Strategy.Trade>, capital: real)
    requires Strategy.Ledger(trades, capital)
    requires forall k :: 0 <= k < |trades| ==> Strategy.PricedTrade(prices, trades[k])
    ensures forall k :: 0 <= k < |trades| ==> Strategy.Find(prices, trades[k].assetId).Some?
    ensures forall t :: t in AsChain(prices, trades) ==> t.buyPrice != 0.0
    ensures TimelineDp.ChainCapital(AsChain(prices, trades)) == capital
  {
    TradesFound(prices, trades);
    var chain := AsChain(prices, trades);
    assert SamePrices(chain, trades);
    ChainCapitalFollowsLedger(chain, trades, capital, |trades|);
    assert chain[..|trades|] == chain;
  }

  /**
   A chronological ledger of profitable trades at the assets' own prices
   ends with no more capital than the optimiser's trade log over the same
   window and assets.
   */
  lemma LedgerWithinOptimum(dates: seq<int>, prices: seq<Strategy.AssetPrices>, trades: seq<Strategy.Trade>, capital: real)
    requires |dates| > 0 && StrictlyIncreasing(dates)
    requires Strategy.Ledger(trades, capital) && Strategy.Chronological(dates, trades)
    requires forall k :: 0 <= k < |trades| ==> Strategy.PricedTrade(prices, trades[k]) && Strategy.ProfitableTrade(trades[k])
    ensures TimelineDp.AllTradable(Timeline.BuildTrades(AsAssets(prices)))
    ensures capital <= Timeline.EndingCapital(TimelineDp.OptimizeTrades(Timeline.BuildTrades(AsAssets(prices)), dates))
  {
    LedgerChain(prices, trades, capital);
    ChainOfCandidates(dates, prices, trades);
    TimelineDp.OptimalOverCandidates(AsAssets(prices), dates, AsChain(prices, trades));
  }

  /**
   Over the same ascending window and the same assets (with unique ids),
   the greedy strategy never ends with more capital than the optimiser's
   trade log.
   */
  lemma GreedyNeverBeatsOptimizer(dates: seq<int>, prices: seq<Strategy.AssetPrices>)
    requires |dates| > 0 && StrictlyIncreasing(dates) && Strategy.DistinctIds(prices)
    ensures TimelineDp.AllTradable(Timeline.BuildTrades(AsAssets(prices)))
    ensures Strategy.SimulateGreedy(dates, prices).1
            <= Timeline.EndingCapital(TimelineDp.OptimizeTrades(Timeline.BuildTrades(AsAssets(prices)), dates))
  {
    var r := Strategy.SimulateGreedy(dates, prices);
    LedgerWithinOptimum(dates, prices, r.0, r.1);
  }
}
