/**
 The greedy day-by-day switching strategy (scripts/phrecia_strategy.py):
 for every day of the window pick the asset with the greatest next-day
 price factor above 1.0, then hold one position at a time, switching (and
 so realising a trade) only when the daily pick changes, and closing the
 last position on the final day.

 The asset-to-series dictionary is a sequence of `AssetPrices` in the
 dictionary's iteration order; the script's dictionary keys are unique, so
 the lemmas that need lookups to agree with iteration ask for
 `DistinctIds`.
 */
module Strategy {
  import opened Common

  /** 2025-02-20 as a day ordinal. */
  const Start: int := 739302
  /** 2025-03-20 as a day ordinal. */
  const End: int := 739330
  const StartingCapital: real := 100.0

  /** One asset: its identifier, its kind ("currency" or "item") and its day-to-price series. */
  datatype AssetPrices = AssetPrices(assetId: string, assetType: string, series: map<int, real>)

  /** A realised trade; the script leaves `assetType` empty. */
  datatype Trade = Trade(assetId: string, assetType: string, buyDate: int, sellDate: int,
                         buyPrice: real, sellPrice: real, capitalStart: real, capitalEnd: real)

  datatype DailyChoice = DailyChoice(day: int, assetId: Option<string>, assetType: Option<string>,
                                     buyPrice: Option<real>, sellPrice: Option<real>, factor: real)

  function Gain(t: Trade): (r: real)
    ensures t.capitalStart + r == t.capitalEnd
    ensures r > 0.0 <==> t.capitalEnd > t.capitalStart
  {
    t.capitalEnd - t.capitalStart
  }

  /** The relative gain of a trade; 0.0 when it started without positive capital. */
  function GainPct(t: Trade): (r: real)
    ensures t.capitalStart > 0.0 ==> t.capitalStart * (1.0 + r) == t.capitalEnd
    ensures t.capitalStart <= 0.0 ==> r == 0.0
  {
    if t.capitalStart <= 0.0 then 0.0 else Gain(t) / t.capitalStart
  }

  /** The relative return of the whole run; 0.0 when the starting capital is not positive. */
  function TotalReturn(start: real, final: real): (r: real)
    ensures start > 0.0 ==> start * (1.0 + r) == final
    ensures start > 0.0 ==> (r >= 0.0 <==> final >= start)
    ensures start <= 0.0 ==> r == 0.0
  {
    if start > 0.0 then
      QuotientSign(final - start, start);
      (final - start) / start
    else 0.0
  }

  /** Dividing by a positive number keeps the sign of the dividend. */
  lemma QuotientSign(x: real, y: real)
    requires y > 0.0
    ensures x / y * y == x
    ensures x / y >= 0.0 <==> x >= 0.0
  {
    var q := x / y;
    assert q * y == x;
    if q >= 0.0 {
      MulNonNegative(q, y);
    } else {
      MulPositive(-q, y);
      assert -q * y == -x;
    }
  }

  /** The strategy window: every day of 2025-02-20 .. 2025-03-20. */
  function BuildDates(): (r: seq<int>)
    ensures |r| == 29 && r[0] == Start && r[28] == End
    ensures Consecutive(r) && StrictlyIncreasing(r)
    ensures forall d :: d in r <==> Start <= d <= End
  {
    var r := Days(Start, End);
    ConsecutiveIsIncreasing(r);
    r
  }

  // ---------------------------------------------------------------------
  // Lookups
  // ---------------------------------------------------------------------

  predicate DistinctIds(prices: seq<AssetPrices>)
  {
    forall i, j :: 0 <= i < j < |prices| ==> prices[i].assetId != prices[j].assetId
  }

  /** The position of the first asset named `id`. */
  function Find(prices: seq<AssetPrices>, id: string): (r: Option<nat>)
    ensures r.None? <==> forall k :: 0 <= k < |prices| ==> prices[k].assetId != id
    ensures r.Some? ==> r.value < |prices| && prices[r.value].assetId == id
    ensures r.Some? ==> forall k :: 0 <= k < r.value ==> prices[k].assetId != id
  {
    if prices == [] then None
    else if prices[0].assetId == id then Some(0)
    else
      match Find(prices[1..], id)
      case None => None
      case Some(j) => Some(j + 1)
  }

  /** The price of asset `id` on `day`, `None` where the script's lookup would fail. */
  function PriceOn(prices: seq<AssetPrices>, id: string, day: int): Option<real>
  {
    match Find(prices, id)
    case None => None
    case Some(i) => if day in prices[i].series then Some(prices[i].series[day]) else None
  }

  /** With unique identifiers, looking an asset up by its id finds its own series. */
  lemma PriceOnDistinct(prices: seq<AssetPrices>, i: nat, day: int)
    requires DistinctIds(prices) && i < |prices|
    ensures Find(prices, prices[i].assetId) == Some(i)
    ensures PriceOn(prices, prices[i].assetId, day) == if day in prices[i].series then Some(prices[i].series[day]) else None
  {
    var f := Find(prices, prices[i].assetId);
    assert f.Some?;
  }

  // ---------------------------------------------------------------------
  // Daily choices
  // ---------------------------------------------------------------------

  /** The asset can be bought on `day` and sold on `next`. */
  predicate Priced(a: AssetPrices, day: int, next: int)
  {
    day in a.series && next in a.series && a.series[day] > 0.0
  }

  function Factor(a: AssetPrices, day: int, next: int): real
    requires Priced(a, day, next)
  {
    a.series[next] / a.series[day]
  }

  lemma FactorAboveOne(a: AssetPrices, day: int, next: int)
    requires Priced(a, day, next)
    ensures Factor(a, day, next) > 1.0 <==> a.series[next] > a.series[day]
  {
    var b, s := a.series[day], a.series[next];
    var f := s / b;
    assert f * b == s;
    if f > 1.0 {
      MulPositive(f - 1.0, b);
      assert (f - 1.0) * b == f * b - b;
    } else {
      MulNonNegative(1.0 - f, b);
      assert (1.0 - f) * b == b - f * b;
    }
  }

  lemma MulPositive(x: real, y: real)
    requires x > 0.0 && y > 0.0
    ensures x * y > 0.0
  {
  }

  lemma MulNonNegative(x: real, y: real)
    requires x >= 0.0 && y >= 0.0
    ensures x * y >= 0.0
  {
  }

  /** The running leader of the scan: the position of the best asset so far and its factor. */
  datatype Leader = Leader(index: Option<nat>, factor: real)

  /**
   The leader after scanning the first `n` assets: it starts at factor 1.0
   with no asset, and an eligible asset takes over only with a strictly
   greater factor, so ties stay with the earlier asset.
   */
  function LeadAmong(prices: seq<AssetPrices>, day: int, next: int, n: nat): (r: Leader)
    requires n <= |prices|
    ensures r.factor >= 1.0
    ensures forall k :: 0 <= k < n && Priced(prices[k], day, next) ==> Factor(prices[k], day, next) <= r.factor
    ensures r.index.None? <==> forall k :: 0 <= k < n && Priced(prices[k], day, next) ==> Factor(prices[k], day, next) <= 1.0
    ensures r.index.None? ==> r.factor == 1.0
    ensures r.index.Some? ==>
              && r.index.value < n && Priced(prices[r.index.value], day, next)
              && r.factor == Factor(prices[r.index.value], day, next) && r.factor > 1.0
              && forall k :: 0 <= k < r.index.value && Priced(prices[k], day, next) ==> Factor(prices[k], day, next) < r.factor
  {
    if n == 0 then Leader(None, 1.0)
    else
      var prev := LeadAmong(prices, day, next, n - 1);
      var a := prices[n - 1];
      if Priced(a, day, next) && Factor(a, day, next) > prev.factor then Leader(Some(n - 1), Factor(a, day, next))
      else prev
  }

  /** `r` reports the asset at position `i`, and no earlier eligible asset reaches its factor. */
  predicate Chosen(prices: seq<AssetPrices>, day: int, next: int, i: nat, r: DailyChoice)
  {
    && i < |prices| && Priced(prices[i], day, next)
    && r.assetId == Some(prices[i].assetId)
    && r.assetType == (if prices[i].assetId != "" then Some(prices[i].assetType) else None)
    && r.buyPrice == Some(prices[i].series[day]) && r.sellPrice == Some(prices[i].series[next])
    && r.factor == Factor(prices[i], day, next)
    && forall k :: 0 <= k < i && Priced(prices[k], day, next) ==> Factor(prices[k], day, next) < r.factor
  }

  /**
   The pick for `day`: the eligible asset with the greatest factor
   `price(next) / price(day)` above 1.0, the first one on ties; no asset
   and factor 1.0 when none exceeds 1.0.
   */
  function BestNextDay(prices: seq<AssetPrices>, day: int, next: int): (r: DailyChoice)
    ensures r.day == day && r.factor >= 1.0
    ensures forall k :: 0 <= k < |prices| && Priced(prices[k], day, next) ==> Factor(prices[k], day, next) <= r.factor
    ensures r.assetId.None? <==> forall k :: 0 <= k < |prices| && Priced(prices[k], day, next) ==> Factor(prices[k], day, next) <= 1.0
    ensures r.assetId.None? ==> r == DailyChoice(day, None, None, None, None, 1.0)
    ensures r.assetId.Some? ==> r.factor > 1.0 && exists i :: Chosen(prices, day, next, i, r)
  {
    var l := LeadAmong(prices, day, next, |prices|);
    match l.index
    case None => DailyChoice(day, None, None, None, None, 1.0)
    case Some(i) =>
      var a := prices[i];
      var r := DailyChoice(day, Some(a.assetId), if a.assetId != "" then Some(a.assetType) else None,
                           Some(a.series[day]), Some(a.series[next]), l.factor);
      assert Chosen(prices, day, next, i, r);
      r
  }

  /** The best next-day pick of every day of the window but the last, in day order. */
  function DayPicks(dates: seq<int>, prices: seq<AssetPrices>): (r: seq<DailyChoice>)
    ensures |r| == if |dates| == 0 then 0 else |dates| - 1
    ensures forall i :: 0 <= i < |r| ==> r[i] == BestNextDay(prices, dates[i], dates[i + 1])
  {
    if |dates| == 0 then []
    else seq(|dates| - 1, i requires 0 <= i < |dates| - 1 => BestNextDay(prices, dates[i], dates[i + 1]))
  }

  /** The first `m` picks, each keyed by its day. */
  function ChoicesUpTo(dates: seq<int>, picks: seq<DailyChoice>, m: nat): (r: map<int, DailyChoice>)
    requires m <= |picks| && m <= |dates|
    ensures forall d :: d in r <==> d in dates[..m]
    ensures StrictlyIncreasing(dates) ==>
              forall i {:trigger r[dates[i]]} :: 0 <= i < m ==> dates[i] in r && r[dates[i]] == picks[i]
  {
    if m == 0 then map[]
    else
      var prev := ChoicesUpTo(dates, picks, m - 1);
      var r := prev[dates[m - 1] := picks[m - 1]];
      assert forall d :: d in r <==> d in dates[..m] by {
        assert dates[..m] == dates[..m - 1] + [dates[m - 1]];
      }
      assert StrictlyIncreasing(dates) ==>
               forall i {:trigger r[dates[i]]} :: 0 <= i < m ==> dates[i] in r && r[dates[i]] == picks[i] by {
        if StrictlyIncreasing(dates) {
          forall i | 0 <= i < m
            ensures dates[i] in r && r[dates[i]] == picks[i]
          {
            if i < m - 1 {
              assert dates[i] < dates[m - 1];
              assert r[dates[i]] == prev[dates[i]];
            }
          }
        }
      }
      r
  }

  /** One pick for every day of the window except the last, keyed by that day. */
  function BestDailyChoices(dates: seq<int>, prices: seq<AssetPrices>): (r: map<int, DailyChoice>)
    ensures |dates| == 0 ==> r == map[]
    ensures |dates| > 0 ==> forall d :: d in r <==> d in dates[..|dates| - 1]
    ensures |dates| > 0 && StrictlyIncreasing(dates) ==> forall d :: d in r <==> d in dates && d != dates[|dates| - 1]
    ensures StrictlyIncreasing(dates) ==>
              forall i {:trigger r[dates[i]]} :: 0 <= i < |dates| - 1 ==> dates[i] in r && r[dates[i]] == BestNextDay(prices, dates[i], dates[i + 1])
  {
    if |dates| == 0 then map[]
    else
      var picks := DayPicks(dates, prices);
      var r := ChoicesUpTo(dates, picks, |dates| - 1);
      assert StrictlyIncreasing(dates) ==> forall d :: d in dates[..|dates| - 1] <==> d in dates && d != dates[|dates| - 1] by {
        if StrictlyIncreasing(dates) {
          forall d | d in dates
            ensures d in dates[..|dates| - 1] <==> d != dates[|dates| - 1]
          {
            var i :| 0 <= i < |dates| && dates[i] == d;
            if i < |dates| - 1 {
              assert dates[..|dates| - 1][i] == d;
            }
          }
        }
      }
      r
  }

  // ---------------------------------------------------------------------
  // Simulation
  // ---------------------------------------------------------------------

  /** The open position: what was bought, when, at what price, and with how much capital. */
  datatype Position = Position(assetId: string, buyDate: int, buyPrice: real, units: real, capital: real)

  /** The simulator's state between days: cash capital, the open position and the realised trades. */
  datatype SimState = SimState(capital: real, open: Option<Position>, trades: seq<Trade>)

  const Initial: SimState := SimState(StartingCapital, None, [])

  function OpenAsset(st: SimState): Option<string>
  {
    if st.open.Some? then Some(st.open.value.assetId) else None
  }

  /** Sell the whole open position at the price of `day`. */
  function Close(st: SimState, day: int, prices: seq<AssetPrices>): (r: SimState)
    requires st.open.Some? && PriceOn(prices, st.open.value.assetId, day).Some?
    ensures r.open.None? && |r.trades| == |st.trades| + 1 && r.trades[..|st.trades|] == st.trades
    ensures var t := r.trades[|st.trades|];
            && t.assetId == st.open.value.assetId && t.buyDate == st.open.value.buyDate && t.sellDate == day
            && t.buyPrice == st.open.value.buyPrice && Some(t.sellPrice) == PriceOn(prices, t.assetId, day)
            && t.capitalStart == st.open.value.capital && t.capitalEnd == r.capital
  {
    var p := st.open.value;
    var sell := PriceOn(prices, p.assetId, day).value;
    var capital := p.units * sell;
    SimState(capital, None, st.trades + [Trade(p.assetId, "", p.buyDate, day, p.buyPrice, sell, p.capital, capital)])
  }

  /** Spend all the capital on `assetId` at the price of `day`. */
  function Open(st: SimState, assetId: string, day: int, prices: seq<AssetPrices>): (r: SimState)
    requires PriceOn(prices, assetId, day).Some? && PriceOn(prices, assetId, day).value != 0.0
    ensures r.capital == st.capital && r.trades == st.trades
    ensures r.open.Some? && r.open.value.assetId == assetId && r.open.value.buyDate == day
    ensures Some(r.open.value.buyPrice) == PriceOn(prices, assetId, day)
    ensures r.open.value.units * r.open.value.buyPrice == st.capital && r.open.value.capital == st.capital
  {
    var buy := PriceOn(prices, assetId, day).value;
    SimState(st.capital, Some(Position(assetId, day, buy, st.capital / buy, st.capital)), st.trades)
  }

  /** The price lookups one day of the simulation performs succeed. */
  predicate StepPriced(st: SimState, day: int, choice: Option<string>, prices: seq<AssetPrices>)
  {
    choice != OpenAsset(st) ==>
      && (st.open.Some? ==> PriceOn(prices, st.open.value.assetId, day).Some?)
      && (choice.Some? ==> PriceOn(prices, choice.value, day).Some? && PriceOn(prices, choice.value, day).value != 0.0)
  }

  /**
   One day of the simulation: when the pick differs from the open asset,
   close the open position (if any) and then open the pick (if any);
   otherwise leave everything as it is.
   */
  function Step(st: SimState, day: int, choice: DailyChoice, prices: seq<AssetPrices>): (r: SimState)
    requires StepPriced(st, day, choice.assetId, prices)
    ensures OpenAsset(r) == choice.assetId
    ensures choice.assetId == OpenAsset(st) ==> r == st
    ensures |st.trades| <= |r.trades| && r.trades[..|st.trades|] == st.trades
    ensures |r.trades| == |st.trades| + (if choice.assetId != OpenAsset(st) && st.open.Some? then 1 else 0)
  {
    if choice.assetId == OpenAsset(st) then st
    else
      var closed := if st.open.Some? then Close(st, day, prices) else st;
      if choice.assetId.Some? then Open(closed, choice.assetId.value, day, prices) else closed
  }

  /** The lookups of buying `a` on `day` and selling it on `next` succeed, and the buy price is not zero. */
  predicate FitsOn(prices: seq<AssetPrices>, a: string, day: int, next: int)
  {
    && PriceOn(prices, a, day).Some? && PriceOn(prices, a, day).value != 0.0
    && PriceOn(prices, a, next).Some?
  }

  /**
   Every day but the last has a pick whose asset is priced on that day
   (at a non-zero price) and on the next day: what the simulation's
   unguarded lookups rely on.
   */
  predicate ChoicesFit(dates: seq<int>, choices: map<int, DailyChoice>, prices: seq<AssetPrices>)
  {
    forall i :: 0 <= i < |dates| - 1 ==>
      && dates[i] in choices
      && (choices[dates[i]].assetId.Some? ==>
            FitsOn(prices, choices[dates[i]].assetId.value, dates[i], dates[i + 1]))
  }

  /** Before day `idx`, the open asset is the previous day's pick (nothing before the first day). */
  predicate Holding(dates: seq<int>, choices: map<int, DailyChoice>, idx: nat, st: SimState)
  {
    && idx < |dates|
    && (idx == 0 ==> st.open.None?)
    && (idx > 0 ==> dates[idx - 1] in choices && OpenAsset(st) == choices[dates[idx - 1]].assetId)
  }

  /** The capital a trade ends with when all its starting capital buys units at the buy price. */
  function Proceeds(t: Trade): real
    requires t.buyPrice != 0.0
  {
    (t.capitalStart / t.buyPrice) * t.sellPrice
  }

  /**
   The trades hand the capital on: the first starts from the starting
   capital, each later one from the previous one's end, each ends with
   what its units fetch, and `capital` is the last one's end (the starting
   capital when there are none).
   */
  predicate Ledger(trades: seq<Trade>, capital: real)
  {
    && (trades == [] ==> capital == StartingCapital)
    && (trades != [] ==> trades[0].capitalStart == StartingCapital && trades[|trades| - 1].capitalEnd == capital)
    && (forall k :: 0 <= k < |trades| - 1 ==> trades[k].capitalEnd == trades[k + 1].capitalStart)
    && (forall k :: 0 <= k < |trades| ==> trades[k].buyPrice != 0.0 && trades[k].capitalEnd == Proceeds(trades[k]))
  }

  /** The trade's prices are the asset's prices on its buy and sell days. */
  predicate PricedTrade(prices: seq<AssetPrices>, t: Trade)
  {
    PriceOn(prices, t.assetId, t.buyDate) == Some(t.buyPrice) && PriceOn(prices, t.assetId, t.sellDate) == Some(t.sellPrice)
  }

  /** The simulator's books balance: the ledger, the trade prices, and an open position bought with all the capital. */
  predicate Books(prices: seq<AssetPrices>, st: SimState)
  {
    && Ledger(st.trades, st.capital)
    && (forall k :: 0 <= k < |st.trades| ==> PricedTrade(prices, st.trades[k]))
    && (st.open.Some? ==>
          var p := st.open.value;
          && p.capital == st.capital && p.buyPrice != 0.0 && p.units == p.capital / p.buyPrice
          && PriceOn(prices, p.assetId, p.buyDate) == Some(p.buyPrice))
  }

  /** A trade that starts from the ledger's capital and spends it all extends the ledger. */
  lemma LedgerAppend(trades: seq<Trade>, capital: real, t: Trade)
    requires Ledger(trades, capital)
    requires t.capitalStart == capital && t.buyPrice != 0.0 && t.capitalEnd == Proceeds(t)
    ensures Ledger(trades + [t], t.capitalEnd)
  {
    var r := trades + [t];
    assert forall k :: 0 <= k < |trades| ==> r[k] == trades[k];
  }

  lemma PricedAppend(prices: seq<AssetPrices>, trades: seq<Trade>, t: Trade)
    requires forall k :: 0 <= k < |trades| ==> PricedTrade(prices, trades[k])
    requires PricedTrade(prices, t)
    ensures forall k :: 0 <= k < |trades| + 1 ==> PricedTrade(prices, (trades + [t])[k])
  {
    var r := trades + [t];
    assert forall k :: 0 <= k < |trades| ==> r[k] == trades[k];
  }

  lemma CloseKeepsBooks(st: SimState, day: int, prices: seq<AssetPrices>)
    requires st.open.Some? && PriceOn(prices, st.open.value.assetId, day).Some?
    requires Books(prices, st)
    ensures Books(prices, Close(st, day, prices))
  {
    var r := Close(st, day, prices);
    var n := |st.trades|;
    var t := r.trades[n];
    assert r.trades == st.trades + [t];
    assert t.capitalEnd == Proceeds(t);
    LedgerAppend(st.trades, st.capital, t);
    PricedAppend(prices, st.trades, t);
  }

  lemma StepKeepsBooks(st: SimState, day: int, choice: DailyChoice, prices: seq<AssetPrices>)
    requires StepPriced(st, day, choice.assetId, prices)
    requires Books(prices, st)
    ensures Books(prices, Step(st, day, choice, prices))
  {
    if choice.assetId != OpenAsset(st) && st.open.Some? {
      CloseKeepsBooks(st, day, prices);
    }
  }

  /** Days `dates[idx]` .. `dates[|dates| - 2]` of the simulation loop. */
  function Run(dates: seq<int>, choices: map<int, DailyChoice>, prices: seq<AssetPrices>, idx: nat, st: SimState): (r: SimState)
    requires ChoicesFit(dates, choices, prices) && Holding(dates, choices, idx, st)
    ensures Holding(dates, choices, |dates| - 1, r)
    ensures |st.trades| <= |r.trades| && r.trades[..|st.trades|] == st.trades
    ensures Books(prices, st) ==> Books(prices, r)
    decreases |dates| - idx
  {
    if idx == |dates| - 1 then st
    else
      RunStep(dates, choices, prices, idx, st);
      var next := Step(st, dates[idx], choices[dates[idx]], prices);
      var r := Run(dates, choices, prices, idx + 1, next);
      PrefixOfPrefix(st.trades, next.trades, r.trades);
      r
  }

  /** One day of the loop is well defined, keeps the open asset in step with the picks, and keeps the books. */
  lemma RunStep(dates: seq<int>, choices: map<int, DailyChoice>, prices: seq<AssetPrices>, idx: nat, st: SimState)
    requires ChoicesFit(dates, choices, prices) && Holding(dates, choices, idx, st) && idx < |dates| - 1
    ensures StepPriced(st, dates[idx], choices[dates[idx]].assetId, prices)
    ensures Holding(dates, choices, idx + 1, Step(st, dates[idx], choices[dates[idx]], prices))
    ensures Books(prices, st) ==> Books(prices, Step(st, dates[idx], choices[dates[idx]], prices))
  {
    var choice := choices[dates[idx]];
    assert choice.assetId.Some? ==> FitsOn(prices, choice.assetId.value, dates[idx], dates[idx + 1]);
    if Books(prices, st) {
      StepKeepsBooks(st, dates[idx], choice, prices);
    }
  }

  /** The loop from day `idx` is one step followed by the loop from the next day. */
  lemma RunUnfold(dates: seq<int>, choices: map<int, DailyChoice>, prices: seq<AssetPrices>, idx: nat, st: SimState)
    requires ChoicesFit(dates, choices, prices) && Holding(dates, choices, idx, st) && idx < |dates| - 1
    ensures StepPriced(st, dates[idx], choices[dates[idx]].assetId, prices)
    ensures Holding(dates, choices, idx + 1, Step(st, dates[idx], choices[dates[idx]], prices))
    ensures Run(dates, choices, prices, idx, st)
            == Run(dates, choices, prices, idx + 1, Step(st, dates[idx], choices[dates[idx]], prices))
  {
    RunStep(dates, choices, prices, idx, st);
  }

  lemma PrefixOfPrefix<T>(a: seq<T>, b: seq<T>, c: seq<T>)
    requires |a| <= |b| <= |c| && b[..|a|] == a && c[..|b|] == b
    ensures c[..|a|] == a
  {
    assert c[..|a|] == c[..|b|][..|a|];
  }

  // ---------------------------------------------------------------------
  // Compounding
  // ---------------------------------------------------------------------

  /** The factor holding `choice` from `day` to `next` grows the capital by: the price ratio, 1.0 in cash. */
  function Ratio(prices: seq<AssetPrices>, choice: Option<string>, day: int, next: int): real
    requires choice.Some? ==> FitsOn(prices, choice.value, day, next)
  {
    match choice
    case None => 1.0
    case Some(a) => PriceOn(prices, a, next).value / PriceOn(prices, a, day).value
  }

  /**
   The factor the capital grows by from day `idx` of the loop to the end:
   the product of the day factors of days `idx` .. `|dates| - 2`.
   */
  function GrowthFrom(dates: seq<int>, choices: map<int, DailyChoice>, prices: seq<AssetPrices>, idx: nat): real
    requires ChoicesFit(dates, choices, prices) && idx < |dates|
    decreases |dates| - idx
  {
    if idx == |dates| - 1 then 1.0
    else Ratio(prices, choices[dates[idx]].assetId, dates[idx], dates[idx + 1]) * GrowthFrom(dates, choices, prices, idx + 1)
  }

  /** What the state is worth on `day`: the open position's units at that day's price, or else the cash. */
  function Worth(st: SimState, day: int, prices: seq<AssetPrices>): real
    requires st.open.Some? ==> PriceOn(prices, st.open.value.assetId, day).Some?
  {
    if st.open.Some? then st.open.value.units * PriceOn(prices, st.open.value.assetId, day).value else st.capital
  }

  /** `v` is `a` grown by the factor `f`. */
  predicate Grown(v: real, a: real, f: real)
  {
    v == a * f
  }

  /** One more day of growth: the factor from day `idx` is that day's ratio times the factor from the next day. */
  lemma GrowthFromStep(dates: seq<int>, choices: map<int, DailyChoice>, prices: seq<AssetPrices>, idx: nat)
    requires ChoicesFit(dates, choices, prices) && idx < |dates| - 1
    ensures Grown(GrowthFrom(dates, choices, prices, idx), Ratio(prices, choices[dates[idx]].assetId, dates[idx], dates[idx + 1]),
                  GrowthFrom(dates, choices, prices, idx + 1))
  {
  }

  lemma HoldAcross(u: real, x: real, y: real)
    requires x != 0.0
    ensures u * y == (u * x) * (y / x)
  {
  }

  lemma SpendAcross(c: real, x: real, y: real)
    requires x != 0.0
    ensures (c / x) * y == c * (y / x)
  {
  }

  /** Selling the open position turns the state's worth that day into cash. */
  lemma CloseAtWorth(st: SimState, day: int, prices: seq<AssetPrices>)
    requires st.open.Some? && PriceOn(prices, st.open.value.assetId, day).Some?
    ensures Close(st, day, prices).capital == Worth(st, day, prices)
  {
  }

  /**
   Over one day, whatever the step sells and buys, the state's worth
   moves by the price ratio of the asset it holds after the step.
   */
  lemma StepCompounds(st: SimState, day: int, next: int, choice: DailyChoice, prices: seq<AssetPrices>)
    requires StepPriced(st, day, choice.assetId, prices)
    requires st.open.Some? ==> PriceOn(prices, st.open.value.assetId, day).Some?
    requires choice.assetId.Some? ==> FitsOn(prices, choice.assetId.value, day, next)
    ensures OpenAsset(Step(st, day, choice, prices)).Some? ==>
              PriceOn(prices, OpenAsset(Step(st, day, choice, prices)).value, next).Some?
    ensures Grown(Worth(Step(st, day, choice, prices), next, prices), Worth(st, day, prices), Ratio(prices, choice.assetId, day, next))
  {
    if choice.assetId.Some? {
      var a := choice.assetId.value;
      var x := PriceOn(prices, a, day).value;
      var y := PriceOn(prices, a, next).value;
      if choice.assetId == OpenAsset(st) {
        HoldAcross(st.open.value.units, x, y);
      } else {
        var closed := if st.open.Some? then Close(st, day, prices) else st;
        if st.open.Some? {
          CloseAtWorth(st, day, prices);
        }
        SpendAcross(closed.capital, x, y);
      }
    } else if st.open.Some? {
      CloseAtWorth(st, day, prices);
    }
  }

  lemma Regroup(a: real, v: real, r: real, h: real, g: real, hg: real)
    requires Grown(v, a, h) && Grown(r, v, g) && Grown(hg, h, g)
    ensures Grown(r, a, hg)
  {
  }

  /** Through the loop from day `idx`, the state's worth grows by the product of the remaining day factors. */
  lemma {:induction false} RunCompounds(dates: seq<int>, choices: map<int, DailyChoice>, prices: seq<AssetPrices>,
                                        idx: nat, st: SimState)
    requires ChoicesFit(dates, choices, prices) && Holding(dates, choices, idx, st)
    requires st.open.Some? ==> PriceOn(prices, st.open.value.assetId, dates[idx]).Some?
    ensures var r := Run(dates, choices, prices, idx, st);
            && (r.open.Some? ==> PriceOn(prices, r.open.value.assetId, dates[|dates| - 1]).Some?)
            && Grown(Worth(r, dates[|dates| - 1], prices), Worth(st, dates[idx], prices), GrowthFrom(dates, choices, prices, idx))
    decreases |dates| - idx
  {
    if idx < |dates| - 1 {
      RunUnfold(dates, choices, prices, idx, st);
      assert choices[dates[idx]].assetId.Some? ==>
               FitsOn(prices, choices[dates[idx]].assetId.value, dates[idx], dates[idx + 1]);
      StepCompounds(st, dates[idx], dates[idx + 1], choices[dates[idx]], prices);
      RunCompounds(dates, choices, prices, idx + 1, Step(st, dates[idx], choices[dates[idx]], prices));
      GrowthFromStep(dates, choices, prices, idx);
      Regroup(Worth(st, dates[idx], prices),
              Worth(Step(st, dates[idx], choices[dates[idx]], prices), dates[idx + 1], prices),
              Worth(Run(dates, choices, prices, idx, st), dates[|dates| - 1], prices),
              Ratio(prices, choices[dates[idx]].assetId, dates[idx], dates[idx + 1]),
              GrowthFrom(dates, choices, prices, idx + 1), GrowthFrom(dates, choices, prices, idx));
    }
  }

  /**
   The whole simulation: run the loop, then sell any position still open
   at the price of the final day. Returns the trades and the final capital.
   */
  function Simulate(dates: seq<int>, choices: map<int, DailyChoice>, prices: seq<AssetPrices>): (r: (seq<Trade>, real))
    requires ChoicesFit(dates, choices, prices)
    ensures Ledger(r.0, r.1)
    ensures forall k :: 0 <= k < |r.0| ==> PricedTrade(prices, r.0[k])
    ensures |dates| >= 2 && choices[dates[|dates| - 2]].assetId.Some? ==>
              && r.0 != []
              && r.0[|r.0| - 1].assetId == choices[dates[|dates| - 2]].assetId.value
              && r.0[|r.0| - 1].sellDate == dates[|dates| - 1]
    ensures |dates| == 0 ==> r.1 == StartingCapital
    ensures |dates| > 0 ==> r.1 == StartingCapital * GrowthFrom(dates, choices, prices, 0)
  {
    if |dates| == 0 then ([], StartingCapital)
    else
      var st := Run(dates, choices, prices, 0, Initial);
      RunCompounds(dates, choices, prices, 0, Initial);
      if st.open.Some? then
        CloseKeepsBooks(st, dates[|dates| - 1], prices);
        CloseAtWorth(st, dates[|dates| - 1], prices);
        var fin := Close(st, dates[|dates| - 1], prices);
        (fin.trades, fin.capital)
      else (st.trades, st.capital)
  }

  // ---------------------------------------------------------------------
  // Chronology
  // ---------------------------------------------------------------------

  /** Every trade sells after it buys, on days of the window, and each sells no later than the next one buys. */
  predicate Chronological(dates: seq<int>, trades: seq<Trade>)
  {
    && (forall k :: 0 <= k < |trades| ==>
          trades[k].buyDate < trades[k].sellDate && trades[k].buyDate in dates && trades[k].sellDate in dates)
    && (forall k :: 0 <= k < |trades| - 1 ==> trades[k].sellDate <= trades[k + 1].buyDate)
  }

  /** Before day `idx`: the trades so far are chronological and sold before it, and the open position was bought before it. */
  predicate Timed(dates: seq<int>, idx: nat, st: SimState)
    requires idx < |dates|
  {
    && Chronological(dates, st.trades)
    && (forall k :: 0 <= k < |st.trades| ==> st.trades[k].sellDate < dates[idx])
    && (st.open.Some? ==>
          && st.open.value.buyDate in dates && st.open.value.buyDate < dates[idx]
          && (st.trades != [] ==> st.trades[|st.trades| - 1].sellDate <= st.open.value.buyDate))
  }

  /** The trades are chronological and all sold by `day`. */
  predicate SettledBy(dates: seq<int>, trades: seq<Trade>, day: int)
  {
    Chronological(dates, trades) && forall k :: 0 <= k < |trades| ==> trades[k].sellDate <= day
  }

  /** Selling the open position on a later day of the window keeps the trades chronological. */
  lemma CloseKeepsChronological(dates: seq<int>, st: SimState, day: int, prices: seq<AssetPrices>)
    requires st.open.Some? && PriceOn(prices, st.open.value.assetId, day).Some?
    requires SettledBy(dates, st.trades, st.open.value.buyDate)
    requires st.open.value.buyDate in dates && st.open.value.buyDate < day && day in dates
    ensures SettledBy(dates, Close(st, day, prices).trades, day)
  {
    var r := Close(st, day, prices);
    var n := |st.trades|;
    assert r.trades == st.trades + [r.trades[n]];
    assert forall k :: 0 <= k < n ==> r.trades[k] == st.trades[k];
  }

  /** Before day `idx`, the trades are settled and any open position was bought on an earlier day of the window. */
  lemma TimedSettled(dates: seq<int>, idx: nat, st: SimState)
    requires StrictlyIncreasing(dates) && idx < |dates| && Timed(dates, idx, st)
    ensures SettledBy(dates, st.trades, dates[idx])
    ensures st.open.Some? ==> SettledBy(dates, st.trades, st.open.value.buyDate)
  {
    if st.open.Some? && st.trades != [] {
      var n := |st.trades|;
      forall k | 0 <= k < n
        ensures st.trades[k].sellDate <= st.open.value.buyDate
      {
        SellsInOrder(st.trades, k, n - 1);
      }
    }
  }

  /** In a chronological ledger every trade sells no later than any later trade sells. */
  lemma {:induction false} SellsInOrder(trades: seq<Trade>, k: nat, l: nat)
    requires forall j :: 0 <= j < |trades| ==> trades[j].buyDate < trades[j].sellDate
    requires forall j :: 0 <= j < |trades| - 1 ==> trades[j].sellDate <= trades[j + 1].buyDate
    requires k <= l < |trades|
    ensures trades[k].sellDate <= trades[l].sellDate
    decreases l - k
  {
    if k < l {
      SellsInOrder(trades, k + 1, l);
      assert trades[k].sellDate <= trades[k + 1].buyDate < trades[k + 1].sellDate;
    }
  }

  /** Trades settled by `day`, and a position opened on `day` or none, are timed for the next day. */
  lemma SettledTimed(dates: seq<int>, idx: nat, r: SimState)
    requires StrictlyIncreasing(dates) && idx < |dates| - 1
    requires SettledBy(dates, r.trades, dates[idx])
    requires r.open.Some? ==> r.open.value.buyDate == dates[idx]
    ensures Timed(dates, idx + 1, r)
  {
    assert dates[idx] < dates[idx + 1];
    assert dates[idx] in dates;
  }

  lemma StepKeepsTimed(dates: seq<int>, choices: map<int, DailyChoice>, prices: seq<AssetPrices>, idx: nat, st: SimState)
    requires StrictlyIncreasing(dates) && ChoicesFit(dates, choices, prices)
    requires Holding(dates, choices, idx, st) && idx < |dates| - 1
    requires Timed(dates, idx, st)
    ensures StepPriced(st, dates[idx], choices[dates[idx]].assetId, prices)
    ensures Timed(dates, idx + 1, Step(st, dates[idx], choices[dates[idx]], prices))
  {
    RunStep(dates, choices, prices, idx, st);
    var day := dates[idx];
    var choice := choices[day];
    var r := Step(st, day, choice, prices);
    TimedSettled(dates, idx, st);
    if choice.assetId == OpenAsset(st) {
      assert day < dates[idx + 1];
    } else if st.open.Some? {
      assert day in dates;
      CloseKeepsChronological(dates, st, day, prices);
      var closed := Close(st, day, prices);
      assert r.trades == closed.trades;
      SettledTimed(dates, idx, r);
    } else {
      SettledTimed(dates, idx, r);
    }
  }

  lemma {:induction false} RunKeepsTimed(dates: seq<int>, choices: map<int, DailyChoice>, prices: seq<AssetPrices>,
                                         idx: nat, st: SimState)
    requires StrictlyIncreasing(dates) && ChoicesFit(dates, choices, prices)
    requires Holding(dates, choices, idx, st) && Timed(dates, idx, st)
    ensures Timed(dates, |dates| - 1, Run(dates, choices, prices, idx, st))
    decreases |dates| - idx
  {
    if idx < |dates| - 1 {
      RunStep(dates, choices, prices, idx, st);
      StepKeepsTimed(dates, choices, prices, idx, st);
      var next := Step(st, dates[idx], choices[dates[idx]], prices);
      RunKeepsTimed(dates, choices, prices, idx + 1, next);
      RunUnfold(dates, choices, prices, idx, st);
    }
  }

  /** Over an ascending window, the simulation's trades are chronological and non-overlapping. */
  lemma SimulateChronological(dates: seq<int>, choices: map<int, DailyChoice>, prices: seq<AssetPrices>)
    requires ChoicesFit(dates, choices, prices) && StrictlyIncreasing(dates)
    ensures Chronological(dates, Simulate(dates, choices, prices).0)
  {
    if |dates| > 0 {
      RunKeepsTimed(dates, choices, prices, 0, Initial);
      var st := Run(dates, choices, prices, 0, Initial);
      if st.open.Some? {
        assert dates[|dates| - 1] in dates;
        TimedSettled(dates, |dates| - 1, st);
        CloseKeepsChronological(dates, st, dates[|dates| - 1], prices);
      }
    }
  }

  // ---------------------------------------------------------------------
  // Profitability
  // ---------------------------------------------------------------------

  /** Buying `a` on `day` and selling on `next` succeeds at a positive price and gains. */
  predicate RisesOn(prices: seq<AssetPrices>, a: string, day: int, next: int)
  {
    && FitsOn(prices, a, day, next)
    && PriceOn(prices, a, day).value > 0.0
    && PriceOn(prices, a, next).value > PriceOn(prices, a, day).value
  }

  /** Every pick of the window rises to the next day, as the greedy picks do. */
  predicate ChoicesRise(dates: seq<int>, choices: map<int, DailyChoice>, prices: seq<AssetPrices>)
  {
    forall i :: 0 <= i < |dates| - 1 ==>
      && dates[i] in choices
      && (choices[dates[i]].assetId.Some? ==> RisesOn(prices, choices[dates[i]].assetId.value, dates[i], dates[i + 1]))
  }

  lemma RiseFits(dates: seq<int>, choices: map<int, DailyChoice>, prices: seq<AssetPrices>)
    requires ChoicesRise(dates, choices, prices)
    ensures ChoicesFit(dates, choices, prices)
  {
  }

  predicate ProfitableTrade(t: Trade)
  {
    0.0 < t.buyPrice < t.sellPrice && 0.0 < t.capitalStart < t.capitalEnd
  }

  /** Before day `idx`: capital has not fallen, every trade gained, and the open asset has risen since it was bought. */
  predicate Gaining(dates: seq<int>, prices: seq<AssetPrices>, idx: nat, st: SimState)
    requires idx < |dates|
  {
    && st.capital >= StartingCapital
    && (forall k :: 0 <= k < |st.trades| ==> ProfitableTrade(st.trades[k]))
    && (st.open.Some? ==>
          && st.open.value.buyPrice > 0.0
          && PriceOn(prices, st.open.value.assetId, dates[idx]).Some?
          && PriceOn(prices, st.open.value.assetId, dates[idx]).value > st.open.value.buyPrice)
  }

  /** All capital in a rising asset grows. */
  lemma GrowthExceeds(c: real, b: real, s: real)
    requires c > 0.0 && b > 0.0 && s > b
    ensures (c / b) * s > c
  {
    var u := c / b;
    QuotientSign(c, b);
    assert u != 0.0;
    MulPositive(u, s - b);
    assert u * (s - b) == u * s - u * b;
  }

  /** Selling a risen position realises a profitable trade and raises the capital. */
  lemma CloseGains(st: SimState, day: int, prices: seq<AssetPrices>)
    requires st.open.Some? && PriceOn(prices, st.open.value.assetId, day).Some?
    requires Books(prices, st) && st.capital >= StartingCapital
    requires forall k :: 0 <= k < |st.trades| ==> ProfitableTrade(st.trades[k])
    requires 0.0 < st.open.value.buyPrice < PriceOn(prices, st.open.value.assetId, day).value
    ensures Close(st, day, prices).capital > st.capital
    ensures forall k :: 0 <= k < |Close(st, day, prices).trades| ==> ProfitableTrade(Close(st, day, prices).trades[k])
  {
    var p := st.open.value;
    var closed := Close(st, day, prices);
    var n := |st.trades|;
    var t := closed.trades[n];
    assert closed.trades == st.trades + [t];
    assert p.units == p.capital / p.buyPrice;
    GrowthExceeds(p.capital, p.buyPrice, t.sellPrice);
    assert ProfitableTrade(t);
  }

  lemma StepKeepsGaining(dates: seq<int>, choices: map<int, DailyChoice>, prices: seq<AssetPrices>, idx: nat, st: SimState)
    requires ChoicesRise(dates, choices, prices)
    requires Holding(dates, choices, idx, st) && idx < |dates| - 1
    requires Books(prices, st) && Gaining(dates, prices, idx, st)
    ensures StepPriced(st, dates[idx], choices[dates[idx]].assetId, prices)
    ensures Gaining(dates, prices, idx + 1, Step(st, dates[idx], choices[dates[idx]], prices))
  {
    var day := dates[idx];
    var choice := choices[day];
    assert choice.assetId.Some? ==> RisesOn(prices, choice.assetId.value, day, dates[idx + 1]);
    if choice.assetId != OpenAsset(st) && st.open.Some? {
      CloseGains(st, day, prices);
    }
  }

  lemma {:induction false} RunKeepsGaining(dates: seq<int>, choices: map<int, DailyChoice>, prices: seq<AssetPrices>,
                                           idx: nat, st: SimState)
    requires ChoicesRise(dates, choices, prices)
    requires Holding(dates, choices, idx, st) && Books(prices, st) && Gaining(dates, prices, idx, st)
    ensures ChoicesFit(dates, choices, prices)
    ensures Gaining(dates, prices, |dates| - 1, Run(dates, choices, prices, idx, st))
    decreases |dates| - idx
  {
    if idx < |dates| - 1 {
      StepKeepsGaining(dates, choices, prices, idx, st);
      RunStep(dates, choices, prices, idx, st);
      var next := Step(st, dates[idx], choices[dates[idx]], prices);
      RunKeepsGaining(dates, choices, prices, idx + 1, next);
      RunUnfold(dates, choices, prices, idx, st);
    }
  }

  /**
   When every pick rises, every trade of the simulation sells above its
   buy price and ends with more capital than it started with, and the run
   never ends below the starting capital.
   */
  lemma SimulateProfitable(dates: seq<int>, choices: map<int, DailyChoice>, prices: seq<AssetPrices>)
    requires ChoicesRise(dates, choices, prices)
    ensures ChoicesFit(dates, choices, prices)
    ensures forall k :: 0 <= k < |Simulate(dates, choices, prices).0| ==> ProfitableTrade(Simulate(dates, choices, prices).0[k])
    ensures Simulate(dates, choices, prices).1 >= StartingCapital
    ensures TotalReturn(StartingCapital, Simulate(dates, choices, prices).1) >= 0.0
  {
    RiseFits(dates, choices, prices);
    if |dates| > 0 {
      RunKeepsGaining(dates, choices, prices, 0, Initial);
      var st := Run(dates, choices, prices, 0, Initial);
      if st.open.Some? {
        CloseGains(st, dates[|dates| - 1], prices);
      }
    }
    var fin := Simulate(dates, choices, prices).1;
    var ret := TotalReturn(StartingCapital, fin);
    assert StartingCapital * (1.0 + ret) == fin;
  }

  // ---------------------------------------------------------------------
  // The whole strategy
  // ---------------------------------------------------------------------

  /** With unique asset ids, the asset picked for a day can be bought then and sold higher on the next day. */
  lemma BestNextDayRises(prices: seq<AssetPrices>, day: int, next: int)
    requires DistinctIds(prices)
    ensures var c := BestNextDay(prices, day, next);
            c.assetId.Some? ==> RisesOn(prices, c.assetId.value, day, next)
  {
    var c := BestNextDay(prices, day, next);
    if c.assetId.Some? {
      var j: nat :| Chosen(prices, day, next, j, c);
      PriceOnDistinct(prices, j, day);
      PriceOnDistinct(prices, j, next);
      FactorAboveOne(prices[j], day, next);
    }
  }

  /** Over an ascending window with unique asset ids, every greedy pick rises to the next day. */
  lemma BestDailyChoicesRise(dates: seq<int>, prices: seq<AssetPrices>)
    requires DistinctIds(prices) && StrictlyIncreasing(dates)
    ensures ChoicesRise(dates, BestDailyChoices(dates, prices), prices)
  {
    var choices := BestDailyChoices(dates, prices);
    forall i | 0 <= i < |dates| - 1
      ensures dates[i] in choices
      ensures choices[dates[i]].assetId.Some? ==> RisesOn(prices, choices[dates[i]].assetId.value, dates[i], dates[i + 1])
    {
      assert choices[dates[i]] == BestNextDay(prices, dates[i], dates[i + 1]);
      BestNextDayRises(prices, dates[i], dates[i + 1]);
    }
  }

  /** The best next-day factor of every day of the window but the last, in day order. */
  function BestFactors(dates: seq<int>, prices: seq<AssetPrices>): (r: seq<real>)
    ensures |r| == if |dates| == 0 then 0 else |dates| - 1
    ensures forall i :: 0 <= i < |r| ==> r[i] == BestNextDay(prices, dates[i], dates[i + 1]).factor
  {
    var picks := DayPicks(dates, prices);
    seq(|picks|, i requires 0 <= i < |picks| => picks[i].factor)
  }

  /** The product of `fs[i..]`. */
  function ProductFrom(fs: seq<real>, i: nat): real
    requires i <= |fs|
    decreases |fs| - i
  {
    if i == |fs| then 1.0 else fs[i] * ProductFrom(fs, i + 1)
  }

  /** The greedy pick's price ratio, as the simulation sees it, is the factor it was chosen by. */
  lemma BestRatio(prices: seq<AssetPrices>, day: int, next: int)
    requires DistinctIds(prices)
    ensures var c := BestNextDay(prices, day, next);
            && (c.assetId.Some? ==> FitsOn(prices, c.assetId.value, day, next))
            && Ratio(prices, c.assetId, day, next) == c.factor
  {
    var c := BestNextDay(prices, day, next);
    if c.assetId.Some? {
      var j: nat :| Chosen(prices, day, next, j, c);
      PriceOnDistinct(prices, j, day);
      PriceOnDistinct(prices, j, next);
    }
  }

  lemma ProductFromStep(fs: seq<real>, i: nat)
    requires i < |fs|
    ensures Grown(ProductFrom(fs, i), fs[i], ProductFrom(fs, i + 1))
  {
  }

  lemma SameGrowth(x: real, a: real, b: real, y: real, c: real, d: real)
    requires Grown(x, a, b) && Grown(y, c, d) && a == c && b == d
    ensures x == y
  {
  }

  /** Day `i` of the loop grows the capital by `fs[i]`, for every day but the last. */
  predicate RatiosAre(dates: seq<int>, choices: map<int, DailyChoice>, prices: seq<AssetPrices>, fs: seq<real>)
    requires ChoicesFit(dates, choices, prices)
  {
    && |fs| + 1 == |dates|
    && forall i :: 0 <= i < |fs| ==> Ratio(prices, choices[dates[i]].assetId, dates[i], dates[i + 1]) == fs[i]
  }

  /** One day of `GrowthIsProduct`: equal growth from the next day on gives equal growth from this day on. */
  lemma GrowthIsProductDay(dates: seq<int>, choices: map<int, DailyChoice>, prices: seq<AssetPrices>, fs: seq<real>, idx: nat)
    requires ChoicesFit(dates, choices, prices) && RatiosAre(dates, choices, prices, fs) && idx < |dates| - 1
    requires GrowthFrom(dates, choices, prices, idx + 1) == ProductFrom(fs, idx + 1)
    ensures GrowthFrom(dates, choices, prices, idx) == ProductFrom(fs, idx)
  {
    GrowthFromStep(dates, choices, prices, idx);
    ProductFromStep(fs, idx);
    SameGrowth(GrowthFrom(dates, choices, prices, idx),
               Ratio(prices, choices[dates[idx]].assetId, dates[idx], dates[idx + 1]), GrowthFrom(dates, choices, prices, idx + 1),
               ProductFrom(fs, idx), fs[idx], ProductFrom(fs, idx + 1));
  }

  /** When day `i` grows the capital by `fs[i]`, the growth from day `idx` on is the product of `fs[idx..]`. */
  lemma {:induction false} GrowthIsProduct(dates: seq<int>, choices: map<int, DailyChoice>, prices: seq<AssetPrices>,
                                           fs: seq<real>, idx: nat)
    requires ChoicesFit(dates, choices, prices) && RatiosAre(dates, choices, prices, fs) && idx < |dates|
    ensures GrowthFrom(dates, choices, prices, idx) == ProductFrom(fs, idx)
    decreases |dates| - idx
  {
    if idx < |dates| - 1 {
      GrowthIsProduct(dates, choices, prices, fs, idx + 1);
      GrowthIsProductDay(dates, choices, prices, fs, idx);
    }
  }

  /** Each greedy pick grows the capital by the best next-day factor of its day. */
  lemma GreedyRatios(dates: seq<int>, prices: seq<AssetPrices>)
    requires DistinctIds(prices) && StrictlyIncreasing(dates) && |dates| > 0
    requires ChoicesFit(dates, BestDailyChoices(dates, prices), prices)
    ensures RatiosAre(dates, BestDailyChoices(dates, prices), prices, BestFactors(dates, prices))
  {
    var choices := BestDailyChoices(dates, prices);
    var fs := BestFactors(dates, prices);
    forall i | 0 <= i < |fs|
      ensures Ratio(prices, choices[dates[i]].assetId, dates[i], dates[i + 1]) == fs[i]
    {
      assert choices[dates[i]] == BestNextDay(prices, dates[i], dates[i + 1]);
      BestRatio(prices, dates[i], dates[i + 1]);
    }
  }

  /** The greedy run ends with the starting capital times the best factors, and sells its last pick on the final day. */
  lemma GreedyEnds(dates: seq<int>, prices: seq<AssetPrices>)
    requires DistinctIds(prices) && StrictlyIncreasing(dates)
    requires ChoicesFit(dates, BestDailyChoices(dates, prices), prices)
    ensures var r := Simulate(dates, BestDailyChoices(dates, prices), prices);
            && (|dates| > 0 ==> r.1 == StartingCapital * ProductFrom(BestFactors(dates, prices), 0))
            && (|dates| >= 2 && BestNextDay(prices, dates[|dates| - 2], dates[|dates| - 1]).assetId.Some? ==>
                  && r.0 != []
                  && r.0[|r.0| - 1].assetId == BestNextDay(prices, dates[|dates| - 2], dates[|dates| - 1]).assetId.value
                  && r.0[|r.0| - 1].sellDate == dates[|dates| - 1])
  {
    var choices := BestDailyChoices(dates, prices);
    if |dates| > 0 {
      GreedyRatios(dates, prices);
      GrowthIsProduct(dates, choices, prices, BestFactors(dates, prices), 0);
    }
    if |dates| >= 2 {
      assert choices[dates[|dates| - 2]] == BestNextDay(prices, dates[|dates| - 2], dates[|dates| - 1]);
    }
  }

  /**
   The greedy picks followed by the simulation, over the window `dates`:
   the trades hand the capital on from the starting capital, trade at the
   assets' own prices, are chronological and non-overlapping, and each
   one gains, so the run never ends below the starting capital.
   */
  function SimulateGreedy(dates: seq<int>, prices: seq<AssetPrices>): (r: (seq<Trade>, real))
    requires DistinctIds(prices) && StrictlyIncreasing(dates)
    ensures Ledger(r.0, r.1) && Chronological(dates, r.0)
    ensures forall k :: 0 <= k < |r.0| ==> PricedTrade(prices, r.0[k]) && ProfitableTrade(r.0[k])
    ensures r.1 >= StartingCapital
    ensures |dates| > 0 ==> r.1 == StartingCapital * ProductFrom(BestFactors(dates, prices), 0)
    ensures |dates| >= 2 && BestNextDay(prices, dates[|dates| - 2], dates[|dates| - 1]).assetId.Some? ==>
              && r.0 != []
              && r.0[|r.0| - 1].assetId == BestNextDay(prices, dates[|dates| - 2], dates[|dates| - 1]).assetId.value
              && r.0[|r.0| - 1].sellDate == dates[|dates| - 1]
  {
    var choices := BestDailyChoices(dates, prices);
    BestDailyChoicesRise(dates, prices);
    RiseFits(dates, choices, prices);
    SimulateChronological(dates, choices, prices);
    SimulateProfitable(dates, choices, prices);
    GreedyEnds(dates, prices);
    Simulate(dates, choices, prices)
  }

  /** The script's run: the greedy strategy over 2025-02-20 .. 2025-03-20, with its total return. */
  function RunStrategy(prices: seq<AssetPrices>): (r: (seq<Trade>, real, real))
    requires DistinctIds(prices)
    ensures (r.0, r.1) == SimulateGreedy(BuildDates(), prices)
    ensures StartingCapital * (1.0 + r.2) == r.1 && r.2 >= 0.0
  {
    var (trades, capital) := SimulateGreedy(BuildDates(), prices);
    (trades, capital, TotalReturn(StartingCapital, capital))
  }
}
