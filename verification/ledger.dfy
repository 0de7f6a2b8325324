/** Finalisation of a back-test (`exitSim`): the synthetic closing sell, the
    liquidation of the asset balance, the profit and buy-and-hold ratios, and
    the win/loss scan over the executed trades. Amounts are rationals; the
    8-decimal rounding of the liquidated balance is written out. */
module Ledger {
  import opened Common

  datatype TradeKind = Buy | Sell

  /** A trade executed by the strategy (`my_trades` entries). */
  datatype Trade = Trade(price: real, size: real, kind: TradeKind, time: int)

  /** A candle. */
  datatype Period = Period(time: int, open: real, high: real, low: real, close: real, volume: real)

  datatype Balance = Balance(currency: real, asset: real)

  /** The parts of the simulation state finalisation reads. `period` is the
      open period (absent when no trade was ever seen); a start capital or
      start price of 0 stands for an unset (falsy) one. `minPeriods` is the
      defaulted value (`MinPeriods`). */
  datatype SimState = SimState(
    period: Option<Period>,
    lookback: seq<Period>,
    balance: Balance,
    myTrades: seq<Trade>,
    startCapital: real,
    startPrice: real,
    dayCount: nat,
    minPeriods: int)

  const Scale8: real := 100000000.0

  /** `numbro(x).format('0.00000000')` read back as a number: x rounded to
      8 decimals, halves upward. */
  function Round8(x: real): (r: real)
    ensures (r * Scale8).Floor as real == r * Scale8
    ensures x - 1.0 / (2.0 * Scale8) < r <= x + 1.0 / (2.0 * Scale8)
  {
    var k := (x * Scale8 + 0.5).Floor;
    assert (k as real) <= x * Scale8 + 0.5 < (k as real) + 1.0;
    (k as real) / Scale8
  }

  /** `a / b` where the source does not guard b: a finite value, or `None` for
      JavaScript's Infinity/NaN when b is 0. */
  function Ratio(a: real, b: real): (r: Option<real>)
    ensures r.Some? <==> b != 0.0
    ensures r.Some? ==> r.value * b == a
  {
    if b == 0.0 then None else Some(a / b)
  }

  /** Profit relative to the start capital, 0 when there is none. */
  function Profit(amount: real, startCapital: real): (r: real)
    ensures startCapital == 0.0 ==> r == 0.0
    ensures startCapital != 0.0 ==> amount == startCapital * (1.0 + r)
  {
    if startCapital != 0.0 then (amount - startCapital) / startCapital else 0.0
  }

  /** Value of the start capital had it been converted to the asset at the
      start price and held until `close`; the final currency when there is no
      start price. */
  function BuyHold(close: real, startCapital: real, startPrice: real, currency: real): (r: real)
    ensures startPrice == 0.0 ==> r == currency
    ensures startPrice != 0.0 ==> r * startPrice == close * startCapital
  {
    if startPrice != 0.0 then close * (startCapital / startPrice) else currency
  }

  /** Without a start price the benchmark is the final balance itself, so the
      strategy is exactly level with it. */
  lemma NoStartPriceLevelsBuyHold(close: real, startCapital: real, currency: real)
    requires currency != 0.0
    ensures Ratio(currency - BuyHold(close, startCapital, 0.0, currency), BuyHold(close, startCapital, 0.0, currency)) == Some(0.0)
  {
  }

  /** State of the win/loss scan: the most recent buy price, losses, sells. */
  datatype Scan = Scan(lastBuy: Option<real>, losses: nat, sells: nat)

  /** The `forEach` over `my_trades`, after the first n trades. */
  function ScanUpTo(trades: seq<Trade>, n: nat): (s: Scan)
    requires n <= |trades|
    ensures s.losses <= s.sells <= n
  {
    if n == 0 then Scan(None, 0, 0)
    else
      var prev := ScanUpTo(trades, n - 1);
      var t := trades[n - 1];
      if t.kind == Buy then prev.(lastBuy := Some(t.price))
      else
        var loss := TruthyReal(prev.lastBuy) && t.price < prev.lastBuy.value;
        Scan(prev.lastBuy, prev.losses + (if loss then 1 else 0), prev.sells + 1)
  }

  /** Reference definitions, index by index: the price of the nearest buy
      before position i, and whether the trade at i is a losing sell. */
  function LastBuyBefore(trades: seq<Trade>, i: nat): (r: Option<real>)
    requires i <= |trades|
    ensures r.None? <==> forall j :: 0 <= j < i ==> trades[j].kind != Buy
    ensures r.Some? ==> exists j :: 0 <= j < i && trades[j].kind == Buy && trades[j].price == r.value
                                  && forall k :: j < k < i ==> trades[k].kind != Buy
  {
    if i == 0 then None
    else if trades[i - 1].kind == Buy then Some(trades[i - 1].price)
    else LastBuyBefore(trades, i - 1)
  }

  predicate IsLoss(trades: seq<Trade>, i: nat)
    requires i < |trades|
  {
    var b := LastBuyBefore(trades, i);
    trades[i].kind == Sell && TruthyReal(b) && trades[i].price < b.value
  }

  function CountSells(trades: seq<Trade>, n: nat): nat
    requires n <= |trades|
  {
    if n == 0 then 0 else CountSells(trades, n - 1) + (if trades[n - 1].kind == Sell then 1 else 0)
  }

  function CountLosses(trades: seq<Trade>, n: nat): nat
    requires n <= |trades|
  {
    if n == 0 then 0 else CountLosses(trades, n - 1) + (if IsLoss(trades, n - 1) then 1 else 0)
  }

  /** The single forward scan computes exactly the reference counts: a sell is
      a loss iff some buy precedes it, the nearest such buy price is non-zero,
      and the sell price is below it; every non-buy trade is a sell. */
  lemma {:induction false} ScanMatchesReference(trades: seq<Trade>, n: nat)
    requires n <= |trades|
    ensures ScanUpTo(trades, n).lastBuy == LastBuyBefore(trades, n)
    ensures ScanUpTo(trades, n).losses == CountLosses(trades, n)
    ensures ScanUpTo(trades, n).sells == CountSells(trades, n)
  {
    if n > 0 {
      ScanMatchesReference(trades, n - 1);
    }
  }

  /** `(a - b) / b` read back: a is b grown by that ratio. */
  lemma RelativeDifference(a: real, b: real)
    ensures Ratio(a - b, b).Some? ==> a == b * (1.0 + Ratio(a - b, b).value)
  {
    if b != 0.0 {
      var v := (a - b) / b;
      assert v * b == a - b;
      assert b * (1.0 + v) == b + v * b;
    }
  }

  /** Results of finalisation, the values the report prints. */
  datatype Summary = Summary(
    currency: real,
    profit: real,
    buyHold: real,
    buyHoldProfit: real,
    vsBuyHold: Option<real>,
    tradeCount: nat,
    dayCount: nat,
    avgTradesPerDay: Option<real>,
    wins: nat,
    losses: nat,
    sells: nat)

  datatype Finalized =
    | NoTrades
    | Finalized(trades: seq<Trade>, balance: Balance, lookback: seq<Period>, chart: seq<Period>, summary: Summary)

  /** The synthetic closing sell and the liquidation of the asset balance. */
  function Liquidate(trades: seq<Trade>, b: Balance, last: Period): (r: (seq<Trade>, Balance))
    ensures |trades| == 0 ==> r.0 == trades
    ensures |trades| > 0 ==> r.0 == trades + [Trade(last.close, b.asset, Sell, last.time)]
    ensures r.1.asset == 0.0
    ensures b.currency + last.close * b.asset - 1.0 / (2.0 * Scale8) < r.1.currency <= b.currency + last.close * b.asset + 1.0 / (2.0 * Scale8)
  {
    var closing := if |trades| > 0 then trades + [Trade(last.close, b.asset, Sell, last.time)] else trades;
    (closing, Balance(Round8(b.currency + last.close * b.asset), 0.0))
  }

  /** The figures the report prints, from the trades including the closing
      sell and the liquidated balance. */
  function Summarize(s: SimState, last: Period, trades: seq<Trade>, balance: Balance): (r: Summary)
    ensures r.tradeCount == |trades| && r.dayCount == s.dayCount
    ensures r.sells == CountSells(trades, |trades|) && r.losses == CountLosses(trades, |trades|)
    ensures r.wins + r.losses == r.sells
    ensures r.currency == balance.currency
    ensures s.startCapital == 0.0 ==> r.profit == 0.0 && r.buyHoldProfit == 0.0
    ensures s.startCapital != 0.0 ==> r.currency == s.startCapital * (1.0 + r.profit)
    ensures s.startCapital != 0.0 ==> r.buyHold == s.startCapital * (1.0 + r.buyHoldProfit)
    ensures s.startPrice == 0.0 ==> r.buyHold == r.currency
    ensures s.startPrice != 0.0 ==> r.buyHold * s.startPrice == last.close * s.startCapital
    ensures r.vsBuyHold.Some? <==> r.buyHold != 0.0
    ensures s.startPrice == 0.0 && r.currency != 0.0 ==> r.vsBuyHold == Some(0.0)
    ensures r.vsBuyHold.Some? ==> r.currency == r.buyHold * (1.0 + r.vsBuyHold.value)
    ensures r.avgTradesPerDay.Some? <==> s.dayCount > 0
    ensures r.avgTradesPerDay.Some? ==> r.avgTradesPerDay.value == r.tradeCount as real / s.dayCount as real
  {
    var cur := balance.currency;
    var bh := BuyHold(last.close, s.startCapital, s.startPrice, cur);
    var scan := ScanUpTo(trades, |trades|);
    ScanMatchesReference(trades, |trades|);
    var r := Summary(cur, Profit(cur, s.startCapital), bh, Profit(bh, s.startCapital), Ratio(cur - bh, bh),
                     |trades|, s.dayCount, Ratio(|trades| as real, s.dayCount as real),
                     scan.sells - scan.losses, scan.losses, scan.sells);
    SummaryRatios(s, last, r);
    r
  }

  /** The ratio figures of a summary built as `exitSim` builds them. */
  lemma SummaryRatios(s: SimState, last: Period, r: Summary)
    requires r.dayCount == s.dayCount
    requires r.profit == Profit(r.currency, s.startCapital)
    requires r.buyHold == BuyHold(last.close, s.startCapital, s.startPrice, r.currency)
    requires r.buyHoldProfit == Profit(r.buyHold, s.startCapital)
    requires r.vsBuyHold == Ratio(r.currency - r.buyHold, r.buyHold)
    requires r.avgTradesPerDay == Ratio(r.tradeCount as real, s.dayCount as real)
    ensures s.startCapital == 0.0 ==> r.profit == 0.0 && r.buyHoldProfit == 0.0
    ensures s.startCapital != 0.0 ==> r.currency == s.startCapital * (1.0 + r.profit)
    ensures s.startCapital != 0.0 ==> r.buyHold == s.startCapital * (1.0 + r.buyHoldProfit)
    ensures s.startPrice == 0.0 ==> r.buyHold == r.currency
    ensures s.startPrice != 0.0 ==> r.buyHold * s.startPrice == last.close * s.startCapital
    ensures r.vsBuyHold.Some? <==> r.buyHold != 0.0
    ensures s.startPrice == 0.0 && r.currency != 0.0 ==> r.vsBuyHold == Some(0.0)
    ensures r.vsBuyHold.Some? ==> r.currency == r.buyHold * (1.0 + r.vsBuyHold.value)
    ensures r.avgTradesPerDay.Some? <==> s.dayCount > 0
    ensures r.avgTradesPerDay.Some? ==> r.avgTradesPerDay.value * s.dayCount as real == r.tradeCount as real
  {
    RelativeDifference(r.currency, r.buyHold);
  }

  /** `exitSim` up to the report lines: no open period means the run stops
      with exit status 1 before any output; otherwise the balance is
      liquidated, the open period joins the lookback, and the ratios and the
      win/loss counts are computed over the trades including the closing sell. */
  function Finalize(s: SimState): (f: Finalized)
    ensures s.period.None? <==> f.NoTrades?
    ensures f.Finalized? ==>
      && (f.trades, f.balance) == Liquidate(s.myTrades, s.balance, s.period.value)
      && f.summary == Summarize(s, s.period.value, f.trades, f.balance)
      && f.balance.asset == 0.0
      && f.lookback == [s.period.value] + s.lookback
      && f.chart == SliceTo(f.lookback, |f.lookback| - s.minPeriods)
      && f.summary.tradeCount == |f.trades|
      && (|s.myTrades| > 0 ==> |f.trades| == |s.myTrades| + 1 && f.trades[|s.myTrades|].kind == Sell)
      && (|s.myTrades| == 0 ==> f.trades == [])
      && f.summary.sells == CountSells(f.trades, |f.trades|)
      && f.summary.losses == CountLosses(f.trades, |f.trades|)
      && f.summary.wins + f.summary.losses == f.summary.sells
      && f.summary.currency == f.balance.currency
      && (s.startCapital == 0.0 ==> f.summary.profit == 0.0)
      && (s.startPrice == 0.0 && f.summary.currency != 0.0 ==> f.summary.vsBuyHold == Some(0.0))
      && (f.summary.vsBuyHold.Some? ==> f.summary.currency == f.summary.buyHold * (1.0 + f.summary.vsBuyHold.value))
  {
    match s.period
    case None => NoTrades
    case Some(last) =>
      var (trades, balance) := Liquidate(s.myTrades, s.balance, last);
      var lookback := [last] + s.lookback;
      var chart := SliceTo(lookback, |lookback| - s.minPeriods);
      Finalized(trades, balance, lookback, chart, Summarize(s, last, trades, balance))
  }
}
