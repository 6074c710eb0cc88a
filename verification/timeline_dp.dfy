/**
 The global capital-path optimiser of the profit-timeline script
 (`optimize_trades` in scripts/phrecia_profit_timeline_gantt.py).

 Days are the nodes of a graph; a cash edge joins each day of the window
 to the next one, and each candidate trade is an edge from its buy day to
 its sell day that multiplies capital by sell price / buy price. Scanning
 the days in order, the optimiser keeps, per day, the greatest capital
 recorded so far and a back pointer to the day (and trade, if any) it came
 from; the trade log is then read off the back pointers from the last day.
 */
module TimelineDp {
  import opened Common
  import opened Timeline

  /** Where a day's recorded capital came from: a cash carry (`None`) or a trade. */
  datatype Back = Back(from: int, via: Option<Trade>)

  /** The optimiser's state: best capital per day and the matching back pointers. */
  datatype Table = Table(best: map<int, real>, prev: map<int, Back>)

  /** A trade the optimiser can take: it sells after it buys, and its buy price is not zero. */
  predicate Tradable(t: Trade)
  {
    t.buyDate < t.sellDate && t.buyPrice != 0.0
  }

  predicate AllTradable(trades: seq<Trade>)
  {
    forall t :: t in trades ==> t.buyDate < t.sellDate && t.buyPrice != 0.0
  }

  /** Capital after putting all of `capital` into `t` on its buy day and selling on its sell day. */
  function Grow(capital: real, t: Trade): real
    requires t.buyPrice != 0.0
  {
    (capital / t.buyPrice) * t.sellPrice
  }

  lemma GrowMonotone(c1: real, c2: real, t: Trade)
    requires c1 <= c2 && t.buyPrice > 0.0 && t.sellPrice >= 0.0
    ensures Grow(c1, t) <= Grow(c2, t)
  {
    assert c1 / t.buyPrice <= c2 / t.buyPrice;
  }

  /** The trades that buy on `day`, in their original order. */
  function BuyingOn(trades: seq<Trade>, day: int): (r: seq<Trade>)
    ensures forall t :: t in r <==> t in trades && t.buyDate == day
  {
    if trades == [] then []
    else (if trades[0].buyDate == day then [trades[0]] else []) + BuyingOn(trades[1..], day)
  }

  /**
   `r` is `trades` filtered to the trades buying on `day`, read off at the
   strictly increasing positions `pos`, which are exactly the positions of
   those trades: input order and repeats are kept.
   */
  ghost predicate PositionsOf(trades: seq<Trade>, day: int, r: seq<Trade>, pos: seq<nat>)
  {
    && |pos| == |r|
    && (forall i :: 0 <= i < |pos| ==> pos[i] < |trades| && r[i] == trades[pos[i]])
    && (forall i, j :: 0 <= i < j < |pos| ==> pos[i] < pos[j])
    && (forall j :: 0 <= j < |trades| ==> (trades[j].buyDate == day <==> j in pos))
  }

  /** The trades of `day` keep their order and repeats from `trades`. */
  lemma {:induction false} BuyingOnPositions(trades: seq<Trade>, day: int) returns (pos: seq<nat>)
    ensures PositionsOf(trades, day, BuyingOn(trades, day), pos)
  {
    if trades == [] {
      pos := [];
    } else {
      var tail := BuyingOnPositions(trades[1..], day);
      pos := ConsPositions(trades, day, BuyingOn(trades[1..], day), tail);
      assert BuyingOn(trades, day) == (if trades[0].buyDate == day then [trades[0]] else []) + BuyingOn(trades[1..], day);
    }
  }

  /** Positions of the day's trades in `trades[1..]` give their positions in `trades`. */
  lemma ConsPositions(trades: seq<Trade>, day: int, rest: seq<Trade>, tail: seq<nat>) returns (pos: seq<nat>)
    requires |trades| > 0 && PositionsOf(trades[1..], day, rest, tail)
    ensures PositionsOf(trades, day, (if trades[0].buyDate == day then [trades[0]] else []) + rest, pos)
  {
    if trades[0].buyDate == day {
      pos := KeepFirst(trades, day, rest, tail);
    } else {
      pos := SkipFirst(trades, day, rest, tail);
      assert [] + rest == rest;
    }
  }

  /** The first trade buys on `day`: position 0 comes first, then the others moved up by one. */
  lemma KeepFirst(trades: seq<Trade>, day: int, rest: seq<Trade>, tail: seq<nat>) returns (pos: seq<nat>)
    requires |trades| > 0 && trades[0].buyDate == day && PositionsOf(trades[1..], day, rest, tail)
    ensures PositionsOf(trades, day, [trades[0]] + rest, pos)
  {
    var shifted := Shift(tail);
    ShiftValues(trades, rest, tail);
    ShiftMembers(trades, day, tail);
    pos := [0] + shifted;
    PrependZero(trades, day, rest, shifted);
  }

  /** Putting position 0 in front of positions that all lie past it. */
  lemma PrependZero(trades: seq<Trade>, day: int, rest: seq<Trade>, shifted: seq<nat>)
    requires |trades| > 0 && trades[0].buyDate == day && |shifted| == |rest|
    requires forall i :: 0 <= i < |shifted| ==> 0 < shifted[i] < |trades| && rest[i] == trades[shifted[i]]
    requires forall i, j :: 0 <= i < j < |shifted| ==> shifted[i] < shifted[j]
    requires forall j :: 0 < j < |trades| ==> (trades[j].buyDate == day <==> j in shifted)
    ensures PositionsOf(trades, day, [trades[0]] + rest, [0] + shifted)
  {
    PrependValues(trades, rest, shifted);
    PrependOrder(shifted);
    PrependMembers(trades, day, shifted);
  }

  lemma PrependValues(trades: seq<Trade>, rest: seq<Trade>, shifted: seq<nat>)
    requires |trades| > 0 && |shifted| == |rest|
    requires forall i :: 0 <= i < |shifted| ==> shifted[i] < |trades| && rest[i] == trades[shifted[i]]
    ensures forall i :: 0 <= i < |shifted| + 1 ==>
              ([0] + shifted)[i] < |trades| && ([trades[0]] + rest)[i] == trades[([0] + shifted)[i]]
  {
    var pos := [0] + shifted;
    var r := [trades[0]] + rest;
    forall i | 0 < i < |pos|
      ensures pos[i] < |trades| && r[i] == trades[pos[i]]
    {
      assert pos[i] == shifted[i - 1] && r[i] == rest[i - 1];
    }
  }

  lemma PrependOrder(shifted: seq<nat>)
    requires forall i :: 0 <= i < |shifted| ==> 0 < shifted[i]
    requires forall i, j :: 0 <= i < j < |shifted| ==> shifted[i] < shifted[j]
    ensures forall i, j :: 0 <= i < j < |shifted| + 1 ==> ([0] + shifted)[i] < ([0] + shifted)[j]
  {
    var pos := [0] + shifted;
    forall i, j | 0 <= i < j < |pos|
      ensures pos[i] < pos[j]
    {
      assert pos[j] == shifted[j - 1];
      if i > 0 {
        assert pos[i] == shifted[i - 1];
      }
    }
  }

  lemma PrependMembers(trades: seq<Trade>, day: int, shifted: seq<nat>)
    requires |trades| > 0 && trades[0].buyDate == day
    requires forall j :: 0 < j < |trades| ==> (trades[j].buyDate == day <==> j in shifted)
    ensures forall j :: 0 <= j < |trades| ==> (trades[j].buyDate == day <==> j in [0] + shifted)
  {
    forall j | 0 <= j < |trades|
      ensures trades[j].buyDate == day <==> j in [0] + shifted
    {
      assert j in [0] + shifted <==> j == 0 || j in shifted;
    }
  }

  /** The first trade buys on another day: the positions move up by one. */
  lemma SkipFirst(trades: seq<Trade>, day: int, rest: seq<Trade>, tail: seq<nat>) returns (pos: seq<nat>)
    requires |trades| > 0 && trades[0].buyDate != day && PositionsOf(trades[1..], day, rest, tail)
    ensures PositionsOf(trades, day, rest, pos)
  {
    pos := Shift(tail);
    ShiftValues(trades, rest, tail);
    ShiftMembers(trades, day, tail);
  }

  /** Every position moved up by one. */
  function Shift(s: seq<nat>): (r: seq<nat>)
    ensures |r| == |s| && forall i :: 0 <= i < |s| ==> r[i] == s[i] + 1
  {
    seq(|s|, i requires 0 <= i < |s| => s[i] + 1)
  }

  /** Positions of `rest` in `trades[1..]`, moved up by one, are its positions in `trades`, still ascending. */
  lemma ShiftValues(trades: seq<Trade>, rest: seq<Trade>, tail: seq<nat>)
    requires |trades| > 0 && |tail| == |rest|
    requires forall i :: 0 <= i < |tail| ==> tail[i] < |trades[1..]| && rest[i] == trades[1..][tail[i]]
    requires forall i, j :: 0 <= i < j < |tail| ==> tail[i] < tail[j]
    ensures forall i :: 0 <= i < |tail| ==> 0 < Shift(tail)[i] < |trades| && rest[i] == trades[Shift(tail)[i]]
    ensures forall i, j :: 0 <= i < j < |tail| ==> Shift(tail)[i] < Shift(tail)[j]
  {
    forall i | 0 <= i < |tail|
      ensures 0 < Shift(tail)[i] < |trades| && rest[i] == trades[Shift(tail)[i]]
    {
      assert trades[1..][tail[i]] == trades[tail[i] + 1];
    }
  }

  /** The positions of `day` in `trades[1..]`, moved up by one, are its positions in `trades` after the first. */
  lemma ShiftMembers(trades: seq<Trade>, day: int, tail: seq<nat>)
    requires |trades| > 0
    requires forall j :: 0 <= j < |trades[1..]| ==> (trades[1..][j].buyDate == day <==> j in tail)
    ensures forall j :: 0 < j < |trades| ==> (trades[j].buyDate == day <==> j in Shift(tail))
  {
    var shifted := Shift(tail);
    forall j | 0 < j < |trades|
      ensures trades[j].buyDate == day <==> j in shifted
    {
      assert trades[1..][j - 1] == trades[j];
      if j - 1 in tail {
        var i :| 0 <= i < |tail| && tail[i] == j - 1;
        assert shifted[i] == j;
      }
      if j in shifted {
        var i :| 0 <= i < |shifted| && shifted[i] == j;
        assert tail[i] == j - 1;
      }
    }
  }

  // ---------------------------------------------------------------------
  // How one update step may change the table
  // ---------------------------------------------------------------------

  predicate SameKeys(tab: Table)
  {
    tab.best.Keys == tab.prev.Keys
  }

  /** Recorded days stay recorded and their capital never decreases. */
  ghost predicate Grows(a: Table, b: Table)
  {
    forall d :: d in a.best ==> d in b.best && b.best[d] >= a.best[d]
  }

  /** Nothing on or before `day` changes. */
  ghost predicate FixedUpTo(a: Table, b: Table, day: int)
  {
    forall d :: d <= day ==>
      (d in a.best <==> d in b.best) && (d in a.prev <==> d in b.prev)
      && (d in a.best ==> b.best[d] == a.best[d])
      && (d in a.prev ==> b.prev[d] == a.prev[d])
  }

  ghost predicate Kept(a: Table, b: Table, d: int)
    requires d in b.best && d in b.prev
  {
    d in a.best && d in a.prev && b.best[d] == a.best[d] && b.prev[d] == a.prev[d]
  }

  /** Day `d` now holds the result of a trade from `ts` bought on `day` with `capital`. */
  ghost predicate RecordedTrade(b: Table, d: int, day: int, capital: real, ts: seq<Trade>)
    requires d in b.best && d in b.prev
  {
    var back := b.prev[d];
    back.from == day && back.via.Some? && back.via.value in ts && back.via.value.sellDate == d
    && Tradable(back.via.value) && b.best[d] == Grow(capital, back.via.value)
  }

  /** Day `d` now holds `capital` carried as cash from `day`. */
  ghost predicate RecordedCash(b: Table, d: int, day: int, capital: real)
    requires d in b.best && d in b.prev
  {
    b.prev[d] == Back(day, None) && b.best[d] == capital
  }

  /**
   Relaxes one trade edge bought on `day` with `capital`: the sell day
   takes the trade's result when it has no value yet or the result is
   strictly greater.
   */
  function Update(tab: Table, day: int, capital: real, t: Trade): (r: Table)
    requires SameKeys(tab) && t.buyDate == day && Tradable(t)
    ensures SameKeys(r)
    ensures Grows(tab, r) && FixedUpTo(tab, r, day)
    ensures t.sellDate in r.best && r.best[t.sellDate] >= Grow(capital, t)
    ensures forall d :: d in r.best ==> Kept(tab, r, d) || RecordedTrade(r, d, day, capital, [t])
    ensures t.sellDate in tab.best && Grow(capital, t) <= tab.best[t.sellDate] ==> r == tab
    ensures !(t.sellDate in tab.best && Grow(capital, t) <= tab.best[t.sellDate]) ==>
              r.best[t.sellDate] == Grow(capital, t) && r.prev[t.sellDate] == Back(day, Some(t))
  {
    var end := Grow(capital, t);
    if t.sellDate !in tab.best || end > tab.best[t.sellDate]
    then Table(tab.best[t.sellDate := end], tab.prev[t.sellDate := Back(day, Some(t))])
    else tab
  }

  /** Relaxing the first edge and then the others relaxes all of them. */
  lemma RelaxLift(tab: Table, next: Table, r: Table, day: int, capital: real, ts: seq<Trade>)
    requires ts != [] && forall t :: t in ts ==> t.buyDate == day && t.buyDate < t.sellDate && t.buyPrice != 0.0
    requires Grows(tab, next) && FixedUpTo(tab, next, day) && Grows(next, r) && FixedUpTo(next, r, day)
    requires ts[0] in ts && ts[0].sellDate in next.best && next.best[ts[0].sellDate] >= Grow(capital, ts[0])
    requires forall t :: t in ts[1..] ==> t.sellDate in r.best && r.best[t.sellDate] >= Grow(capital, t)
    requires forall d :: d in next.best ==> d in next.prev
    requires forall d :: d in next.best ==> Kept(tab, next, d) || RecordedTrade(next, d, day, capital, [ts[0]])
    requires forall d :: d in r.best ==> d in r.prev
    requires forall d :: d in r.best ==> Kept(next, r, d) || RecordedTrade(r, d, day, capital, ts[1..])
    ensures Grows(tab, r) && FixedUpTo(tab, r, day)
    ensures forall t :: t in ts ==> t.sellDate in r.best && r.best[t.sellDate] >= Grow(capital, t)
    ensures forall d :: d in r.best ==> Kept(tab, r, d) || RecordedTrade(r, d, day, capital, ts)
  {
    forall t | t in ts
      ensures t.sellDate in r.best && r.best[t.sellDate] >= Grow(capital, t)
    {
      if t != ts[0] {
        assert t in ts[1..];
      }
    }
    forall d | d in r.best
      ensures Kept(tab, r, d) || RecordedTrade(r, d, day, capital, ts)
    {
      if RecordedTrade(r, d, day, capital, ts[1..]) {
        assert r.prev[d].via.value in ts;
      } else {
        assert Kept(next, r, d);
        if !Kept(tab, next, d) {
          assert RecordedTrade(next, d, day, capital, [ts[0]]);
        }
      }
    }
  }

  /** Relaxes every trade edge of `ts` leaving `day` with `capital`, in order. */
  function Relax(tab: Table, day: int, capital: real, ts: seq<Trade>): (r: Table)
    requires SameKeys(tab)
    requires forall t :: t in ts ==> t.buyDate == day && t.buyDate < t.sellDate && t.buyPrice != 0.0
    ensures SameKeys(r)
    ensures Grows(tab, r) && FixedUpTo(tab, r, day)
    ensures forall t :: t in ts ==> t.sellDate in r.best && r.best[t.sellDate] >= Grow(capital, t)
    ensures forall d :: d in r.best ==> Kept(tab, r, d) || RecordedTrade(r, d, day, capital, ts)
    decreases |ts|
  {
    if ts == [] then tab
    else
      assert ts[0] in ts;
      assert forall u :: u in ts[1..] ==> u in ts;
      var next := Update(tab, day, capital, ts[0]);
      var r := Relax(next, day, capital, ts[1..]);
      RelaxLift(tab, next, r, day, capital, ts);
      r
  }

  /** Carries `capital` as cash from `day` to `next` when that improves on what `next` holds. */
  function Carry(tab: Table, day: int, next: int, capital: real): (r: Table)
    requires SameKeys(tab) && day < next
    ensures SameKeys(r)
    ensures Grows(tab, r) && FixedUpTo(tab, r, day)
    ensures next in r.best && r.best[next] >= capital
    ensures forall d :: d in r.best ==> Kept(tab, r, d) || RecordedCash(r, d, day, capital)
    ensures next in tab.best && capital <= tab.best[next] ==> r == tab
    ensures !(next in tab.best && capital <= tab.best[next]) ==> RecordedCash(r, next, day, capital)
  {
    if next !in tab.best || capital > tab.best[next]
    then Table(tab.best[next := capital], tab.prev[next := Back(day, None)])
    else tab
  }

  /**
   A day reached by the scan without a value takes the previous day's
   capital as cash (or the starting capital on the first day). The scan
   always arrives with a value already present, because the previous
   day's cash edge seeds it.
   */
  function Seed(tab: Table, dates: seq<int>, idx: nat): (r: Table)
    requires idx < |dates|
    requires idx > 0 ==> dates[idx - 1] in tab.best
    ensures dates[idx] in r.best
    ensures dates[idx] in tab.best ==> r == tab
  {
    var day := dates[idx];
    if day in tab.best then tab
    else if idx > 0 then Table(tab.best[day := tab.best[dates[idx - 1]]], tab.prev[day := Back(dates[idx - 1], None)])
    else Table(tab.best[day := StartingCapital], tab.prev[day := Back(day, None)])
  }

  /** Processes one day of the scan: seed it, take its trades, carry its cash forward. */
  function Step(trades: seq<Trade>, dates: seq<int>, idx: nat, tab: Table): (r: Table)
    requires idx < |dates| && StrictlyIncreasing(dates) && AllTradable(trades)
    requires SameKeys(tab) && dates[idx] in tab.best
    requires idx > 0 ==> dates[idx - 1] in tab.best
  {
    var day := dates[idx];
    var seeded := Seed(tab, dates, idx);
    var capital := seeded.best[day];
    var relaxed := Relax(seeded, day, capital, BuyingOn(trades, day));
    if idx + 1 < |dates| then Carry(relaxed, day, dates[idx + 1], capital) else relaxed
  }

  // ---------------------------------------------------------------------
  // Scan invariant
  // ---------------------------------------------------------------------

  /** The back pointer of day `d` agrees with the recorded capitals. */
  ghost predicate LinkOk(tab: Table, first: int, d: int)
    requires d in tab.prev && d in tab.best
  {
    var b := tab.prev[d];
    b.from in tab.best && first <= b.from < d
    && match b.via
       case None => tab.best[d] == tab.best[b.from]
       case Some(t) => Tradable(t) && t.buyDate == b.from && t.sellDate == d && tab.best[d] == Grow(tab.best[b.from], t)
  }

  /** Every back pointer is consistent and leads back towards `first`. */
  ghost predicate Linked(tab: Table, first: int)
  {
    SameKeys(tab) && first in tab.best
    && forall d {:trigger LinkOk(tab, first, d)} :: d in tab.prev && d != first ==> LinkOk(tab, first, d)
  }

  /** Every trade named by a back pointer comes from `trades`. */
  ghost predicate ViaTrades(tab: Table, trades: seq<Trade>)
  {
    forall d :: d in tab.prev && tab.prev[d].via.Some? ==> tab.prev[d].via.value in trades
  }

  ghost predicate FromBefore(tab: Table, first: int, bound: int)
  {
    forall d :: d in tab.prev && d != first ==> tab.prev[d].from < bound
  }

  /** Days `dates[..n]` are seeded, and each one's cash edge has been relaxed. */
  ghost predicate CarriedUpTo(tab: Table, dates: seq<int>, n: nat)
  {
    && (forall i :: 0 <= i < |dates| && i <= n ==> dates[i] in tab.best)
    && (forall i :: 0 <= i < n && i + 1 < |dates| ==> tab.best[dates[i]] <= tab.best[dates[i + 1]])
  }

  /** Every trade buying on one of `dates[..n]` has been relaxed. */
  ghost predicate TradedUpTo(tab: Table, trades: seq<Trade>, dates: seq<int>, n: nat)
    requires n <= |dates|
    requires forall i :: 0 <= i < n ==> dates[i] in tab.best
    requires AllTradable(trades)
  {
    forall i, t :: 0 <= i < n && t in trades && t.buyDate == dates[i] ==>
      t.sellDate in tab.best && tab.best[t.sellDate] >= Grow(tab.best[dates[i]], t)
  }

  ghost predicate ScanInv(trades: seq<Trade>, dates: seq<int>, n: nat, tab: Table)
    requires |dates| > 0 && n <= |dates| && AllTradable(trades)
  {
    var first := dates[0];
    && Linked(tab, first) && ViaTrades(tab, trades)
    && tab.best[first] == StartingCapital && tab.prev[first] == Back(first, None)
    && (n < |dates| ==> FromBefore(tab, first, dates[n]))
    && CarriedUpTo(tab, dates, n)
    && TradedUpTo(tab, trades, dates, n)
  }

  function Init(first: int): (r: Table)
    ensures Linked(r, first) && r.best[first] == StartingCapital && r.prev[first] == Back(first, None)
    ensures forall d :: d in r.prev ==> d == first
  {
    Table(map[first := StartingCapital], map[first := Back(first, None)])
  }

  lemma StepKeepsLinks(trades: seq<Trade>, dates: seq<int>, idx: nat, tab: Table)
    requires |dates| > 0 && idx < |dates| && StrictlyIncreasing(dates) && AllTradable(trades)
    requires ScanInv(trades, dates, idx, tab)
    ensures var r := Step(trades, dates, idx, tab);
            Linked(r, dates[0]) && ViaTrades(r, trades)
            && r.best[dates[0]] == StartingCapital && r.prev[dates[0]] == Back(dates[0], None)
            && (idx + 1 < |dates| ==> FromBefore(r, dates[0], dates[idx + 1]))
  {
    var first := dates[0];
    var day := dates[idx];
    var capital := tab.best[day];
    var ts := BuyingOn(trades, day);
    var relaxed := Relax(tab, day, capital, ts);
    var r := Step(trades, dates, idx, tab);
    assert first <= day;
    forall d | d in r.prev && d != first
      ensures LinkOk(r, first, d) && r.prev[d].from <= day
    {
      if idx + 1 < |dates| && !Kept(relaxed, r, d) {
        assert RecordedCash(r, d, day, capital);
      } else if !Kept(tab, relaxed, d) {
        assert RecordedTrade(relaxed, d, day, capital, ts);
      } else {
        assert LinkOk(tab, first, d);
      }
    }
    forall d | d in r.prev && r.prev[d].via.Some?
      ensures r.prev[d].via.value in trades
    {
      if idx + 1 < |dates| && !Kept(relaxed, r, d) {
      } else if !Kept(tab, relaxed, d) {
        assert RecordedTrade(relaxed, d, day, capital, ts);
      }
    }
  }

  lemma StepKeepsProgress(trades: seq<Trade>, dates: seq<int>, idx: nat, tab: Table)
    requires |dates| > 0 && idx < |dates| && StrictlyIncreasing(dates) && AllTradable(trades)
    requires ScanInv(trades, dates, idx, tab)
    ensures var r := Step(trades, dates, idx, tab);
            CarriedUpTo(r, dates, idx + 1) && TradedUpTo(r, trades, dates, idx + 1)
  {
    StepKeepsCarried(trades, dates, idx, tab);
    StepKeepsTraded(trades, dates, idx, tab);
  }

  lemma StepKeepsCarried(trades: seq<Trade>, dates: seq<int>, idx: nat, tab: Table)
    requires |dates| > 0 && idx < |dates| && StrictlyIncreasing(dates) && AllTradable(trades)
    requires ScanInv(trades, dates, idx, tab)
    ensures CarriedUpTo(Step(trades, dates, idx, tab), dates, idx + 1)
  {
    var day := dates[idx];
    var capital := tab.best[day];
    var r := Step(trades, dates, idx, tab);
    assert Grows(tab, r) && FixedUpTo(tab, r, day);
    assert r.best[day] == capital;
    forall i | 0 <= i < |dates| && i <= idx + 1
      ensures dates[i] in r.best
    {
      if i <= idx {
        assert dates[i] in tab.best;
      }
    }
    forall i | 0 <= i < idx + 1 && i + 1 < |dates|
      ensures r.best[dates[i]] <= r.best[dates[i + 1]]
    {
      if i < idx {
        assert dates[i] <= day && dates[i + 1] <= day;
      }
    }
  }

  lemma StepKeepsTraded(trades: seq<Trade>, dates: seq<int>, idx: nat, tab: Table)
    requires |dates| > 0 && idx < |dates| && StrictlyIncreasing(dates) && AllTradable(trades)
    requires ScanInv(trades, dates, idx, tab)
    ensures var r := Step(trades, dates, idx, tab);
            (forall i :: 0 <= i < |dates| && i <= idx ==> dates[i] in r.best)
            && TradedUpTo(r, trades, dates, idx + 1)
  {
    var day := dates[idx];
    var capital := tab.best[day];
    var ts := BuyingOn(trades, day);
    var relaxed := Relax(tab, day, capital, ts);
    var r := Step(trades, dates, idx, tab);
    assert Grows(tab, r) && FixedUpTo(tab, r, day);
    assert r.best[day] == capital;
    forall i | 0 <= i < |dates| && i <= idx
      ensures dates[i] in r.best
    {
      assert dates[i] in tab.best;
    }
    forall i, t | 0 <= i < idx + 1 && t in trades && t.buyDate == dates[i]
      ensures t.sellDate in r.best && r.best[t.sellDate] >= Grow(r.best[dates[i]], t)
    {
      if i < idx {
        assert dates[i] <= day;
        assert tab.best[t.sellDate] >= Grow(tab.best[dates[i]], t);
      } else {
        assert t in ts;
        assert relaxed.best[t.sellDate] >= Grow(capital, t);
      }
    }
  }

  /** Scans `dates[n..]`; the result satisfies the invariant for the whole window. */
  function Scan(trades: seq<Trade>, dates: seq<int>, n: nat, tab: Table): (r: Table)
    requires |dates| > 0 && n <= |dates| && StrictlyIncreasing(dates) && AllTradable(trades)
    requires ScanInv(trades, dates, n, tab)
    ensures ScanInv(trades, dates, |dates|, r)
    decreases |dates| - n
  {
    if n == |dates| then tab
    else
      StepKeepsLinks(trades, dates, n, tab);
      StepKeepsProgress(trades, dates, n, tab);
      Scan(trades, dates, n + 1, Step(trades, dates, n, tab))
  }

  /** The optimiser's final table for `trades` over the window `dates`. */
  function BestCapital(trades: seq<Trade>, dates: seq<int>): (r: Table)
    requires |dates| > 0 && StrictlyIncreasing(dates) && AllTradable(trades)
    ensures ScanInv(trades, dates, |dates|, r)
  {
    Scan(trades, dates, 0, Init(dates[0]))
  }

  // ---------------------------------------------------------------------
  // Reconstruction
  // ---------------------------------------------------------------------

  /** A log entry spends all its starting capital on its trade and sells everything. */
  predicate EntryOk(e: LogEntry)
  {
    Tradable(e.trade)
    && e.units == e.capitalStart / e.trade.buyPrice
    && e.capitalEnd == e.units * e.trade.sellPrice
  }

  /** Consecutive entries do not overlap and hand their capital on unchanged. */
  predicate Chained(log: seq<LogEntry>)
  {
    forall k :: 0 <= k < |log| - 1 ==>
      log[k].trade.sellDate <= log[k + 1].trade.buyDate && log[k].capitalEnd == log[k + 1].capitalStart
  }

  /** Appending an entry that starts where the log ends keeps the log chained. */
  lemma ChainedAppend(log: seq<LogEntry>, e: LogEntry)
    requires Chained(log)
    requires log != [] ==> log[|log| - 1].trade.sellDate <= e.trade.buyDate && log[|log| - 1].capitalEnd == e.capitalStart
    ensures Chained(log + [e])
  {
    var r := log + [e];
    forall k | 0 <= k < |r| - 1
      ensures r[k].trade.sellDate <= r[k + 1].trade.buyDate && r[k].capitalEnd == r[k + 1].capitalStart
    {
      if k < |log| - 1 {
        assert r[k] == log[k] && r[k + 1] == log[k + 1];
      }
    }
  }

  /**
   What the back-pointer walk from `current` delivers: well-formed entries
   between `first` and `current`, each one the trade recorded for its sell
   day, chained from the capital of `first` to the capital of `current`.
   */
  ghost predicate PathOk(tab: Table, first: int, current: int, r: seq<LogEntry>)
  {
    && (forall k :: 0 <= k < |r| ==> EntryOk(r[k]))
    && (forall k :: 0 <= k < |r| ==> first <= r[k].trade.buyDate && r[k].trade.sellDate <= current)
    && (forall k :: 0 <= k < |r| ==>
          r[k].trade.sellDate in tab.prev && tab.prev[r[k].trade.sellDate].via == Some(r[k].trade))
    && Chained(r)
    && first in tab.best
    && (r != [] ==> r[0].capitalStart == tab.best[first])
    && (current in tab.best && r == [] ==> tab.best[current] == tab.best[first])
    && (current in tab.best && r != [] ==> r[|r| - 1].capitalEnd == tab.best[current])
  }

  lemma PathOkCash(tab: Table, first: int, from: int, current: int, p: seq<LogEntry>)
    requires PathOk(tab, first, from, p)
    requires from < current && from in tab.best && current in tab.best && tab.best[current] == tab.best[from]
    ensures PathOk(tab, first, current, p)
  {
  }

  /** The log entry that spends `start` on trade `t` and sells everything. */
  function Entry(t: Trade, start: real): (e: LogEntry)
    requires t.buyPrice != 0.0
    ensures e.trade == t && e.capitalStart == start && e.capitalEnd == Grow(start, t)
  {
    var units := start / t.buyPrice;
    LogEntry(t, start, units * t.sellPrice, units)
  }

  lemma PathOkTrade(tab: Table, first: int, current: int, p: seq<LogEntry>, t: Trade)
    requires current in tab.prev && current in tab.best && tab.prev[current].via == Some(t)
    requires Tradable(t) && t.sellDate == current && t.buyDate in tab.best && first <= t.buyDate
    requires tab.best[current] == Grow(tab.best[t.buyDate], t)
    requires PathOk(tab, first, t.buyDate, p)
    ensures PathOk(tab, first, current, p + [Entry(t, tab.best[t.buyDate])])
  {
    var e := Entry(t, tab.best[t.buyDate]);
    ChainedAppend(p, e);
    var r := p + [e];
    assert forall k :: 0 <= k < |p| ==> r[k] == p[k];
    assert r[|p|] == e;
    assert EntryOk(e);
  }

  /**
   The trades on the back-pointer path from `current` to `first`, oldest
   first. (The script collects them newest first and reverses the list.)
   */
  function Path(tab: Table, first: int, current: int): (r: seq<LogEntry>)
    requires Linked(tab, first) && current >= first
    ensures PathOk(tab, first, current, r)
    decreases current - first
  {
    if current == first || current !in tab.prev then []
    else
      var b := tab.prev[current];
      assert LinkOk(tab, first, current);
      var p := Path(tab, first, b.from);
      if b.via.None? then
        PathOkCash(tab, first, b.from, current, p);
        p
      else
        var t := b.via.value;
        PathOkTrade(tab, first, current, p, t);
        p + [Entry(t, tab.best[t.buyDate])]
  }

  /**
   The capital-maximising trade log over the window `dates`: chronological
   and non-overlapping, each entry's capital handed on to the next, the
   first entry starting from the starting capital, and the log's ending
   capital equal to the best capital recorded for the last day.
   */
  function OptimizeTrades(trades: seq<Trade>, dates: seq<int>): (r: seq<LogEntry>)
    requires |dates| > 0 && StrictlyIncreasing(dates) && AllTradable(trades)
    ensures forall k :: 0 <= k < |r| ==> EntryOk(r[k]) && r[k].trade in trades
    ensures forall k :: 0 <= k < |r| ==> dates[0] <= r[k].trade.buyDate && r[k].trade.sellDate <= dates[|dates| - 1]
    ensures Chained(r)
    ensures r != [] ==> r[0].capitalStart == StartingCapital
    ensures EndingCapital(r) == BestCapital(trades, dates).best[dates[|dates| - 1]]
  {
    var tab := BestCapital(trades, dates);
    assert dates[0] <= dates[|dates| - 1];
    Path(tab, dates[0], dates[|dates| - 1])
  }

  // ---------------------------------------------------------------------
  // Optimality
  // ---------------------------------------------------------------------

  /** The capital left after taking the trades of `chain` in order, starting from the starting capital. */
  function ChainCapital(chain: seq<Trade>): real
    requires forall t :: t in chain ==> t.buyPrice != 0.0
  {
    if chain == [] then StartingCapital
    else Grow(ChainCapital(chain[..|chain| - 1]), chain[|chain| - 1])
  }

  /**
   A chain of trades from `trades` that the optimiser could follow: every
   trade buys at a positive price and sells at a non-negative one, both
   days lie in the window, and each trade sells no later than the next
   one buys.
   */
  ghost predicate FollowableChain(trades: seq<Trade>, dates: seq<int>, chain: seq<Trade>)
  {
    && (forall t :: t in chain ==> t in trades && t.buyPrice > 0.0 && t.sellPrice >= 0.0
                                     && t.buyDate in dates && t.sellDate in dates)
    && (forall k :: 0 <= k < |chain| - 1 ==> chain[k].sellDate <= chain[k + 1].buyDate)
  }

  lemma {:induction false} BestCapitalMonotone(tab: Table, dates: seq<int>, i: nat, j: nat)
    requires CarriedUpTo(tab, dates, |dates|)
    requires i <= j < |dates|
    ensures tab.best[dates[i]] <= tab.best[dates[j]]
    decreases j - i
  {
    if i < j {
      BestCapitalMonotone(tab, dates, i, j - 1);
    }
  }

  lemma BestCapitalMonotoneDays(tab: Table, dates: seq<int>, x: int, y: int)
    requires CarriedUpTo(tab, dates, |dates|) && StrictlyIncreasing(dates)
    requires x in dates && y in dates && x <= y
    ensures x in tab.best && y in tab.best && tab.best[x] <= tab.best[y]
  {
    var i := IndexOf(dates, x);
    var j := IndexOf(dates, y);
    BestCapitalMonotone(tab, dates, i, j);
  }

  lemma {:induction false} ChainBound(trades: seq<Trade>, dates: seq<int>, chain: seq<Trade>, d: int)
    requires |dates| > 0 && StrictlyIncreasing(dates) && AllTradable(trades)
    requires FollowableChain(trades, dates, chain)
    requires d in dates && (chain != [] ==> chain[|chain| - 1].sellDate <= d)
    ensures d in BestCapital(trades, dates).best
    ensures ChainCapital(chain) <= BestCapital(trades, dates).best[d]
    decreases |chain|
  {
    var tab := BestCapital(trades, dates);
    BestCapitalMonotoneDays(tab, dates, dates[0], d);
    if chain != [] {
      var front := chain[..|chain| - 1];
      var t := chain[|chain| - 1];
      assert forall u :: u in front ==> u in chain;
      assert FollowableChain(trades, dates, front);
      assert t in chain;
      assert front != [] ==> front[|front| - 1] == chain[|chain| - 2];
      ChainBound(trades, dates, front, t.buyDate);
      var i := IndexOf(dates, t.buyDate);
      assert tab.best[t.sellDate] >= Grow(tab.best[dates[i]], t);
      GrowMonotone(ChainCapital(front), tab.best[t.buyDate], t);
      BestCapitalMonotoneDays(tab, dates, t.sellDate, d);
    }
  }

  /**
   No followable chain of trades ends with more capital than the
   optimiser's log; in particular (the empty chain) the log never ends
   below the starting capital.
   */
  lemma OptimizeTradesIsOptimal(trades: seq<Trade>, dates: seq<int>, chain: seq<Trade>)
    requires |dates| > 0 && StrictlyIncreasing(dates) && AllTradable(trades)
    requires FollowableChain(trades, dates, chain)
    ensures ChainCapital(chain) <= EndingCapital(OptimizeTrades(trades, dates))
    ensures StartingCapital <= EndingCapital(OptimizeTrades(trades, dates))
  {
    var last := dates[|dates| - 1];
    if chain != [] {
      var t := chain[|chain| - 1];
      assert t in chain;
      var j := IndexOf(dates, t.sellDate);
      assert j < |dates| - 1 ==> dates[j] < last;
    }
    ChainBound(trades, dates, chain, last);
    ChainBound(trades, dates, [], last);
    assert EndingCapital(OptimizeTrades(trades, dates)) == BestCapital(trades, dates).best[last];
  }

  /**
   The ending capital of the optimiser's log is the best capital recorded
   for the last day, and never below the starting capital; an empty log
   ends with exactly the starting capital.
   */
  lemma EndingCapitalIsBest(trades: seq<Trade>, dates: seq<int>)
    requires |dates| > 0 && StrictlyIncreasing(dates) && AllTradable(trades)
    ensures var log := OptimizeTrades(trades, dates);
            && EndingCapital(log) == BestCapital(trades, dates).best[dates[|dates| - 1]]
            && EndingCapital(log) >= StartingCapital
            && (log == [] ==> BestCapital(trades, dates).best[dates[|dates| - 1]] == StartingCapital)
  {
    OptimizeTradesIsOptimal(trades, dates, []);
  }

  /** The candidates of `BuildTrades` are all tradable. */
  lemma CandidatesAreTradable(assets: seq<AssetSeries>)
    ensures AllTradable(BuildTrades(assets))
  {
    forall t | t in BuildTrades(assets)
      ensures Tradable(t)
    {
      var k :| 0 <= k < |assets| && CandidateOf(assets[k], t);
    }
  }

  /**
   Over the candidates of the assets, the optimiser's ending capital is at
   least the capital of every chronological, non-overlapping chain of
   candidates whose days lie in the window.
   */
  lemma OptimalOverCandidates(assets: seq<AssetSeries>, dates: seq<int>, chain: seq<Trade>)
    requires |dates| > 0 && StrictlyIncreasing(dates)
    requires forall t :: t in chain ==> t in BuildTrades(assets) && t.buyDate in dates && t.sellDate in dates
    requires forall k :: 0 <= k < |chain| - 1 ==> chain[k].sellDate <= chain[k + 1].buyDate
    ensures AllTradable(BuildTrades(assets))
    ensures ChainCapital(chain) <= EndingCapital(OptimizeTrades(BuildTrades(assets), dates))
  {
    var trades := BuildTrades(assets);
    CandidatesAreTradable(assets);
    forall t | t in chain
      ensures t.buyPrice > 0.0 && t.sellPrice >= 0.0
    {
      var k :| 0 <= k < |assets| && CandidateOf(assets[k], t);
    }
    OptimizeTradesIsOptimal(trades, dates, chain);
  }
}
