/** The text report a back-test writes: a fixed sequence of lines, joined by
    newlines, that the training command later parses back. Number formatting
    (numbro's `0.00000000`, `0.00%`, `0.00`) is a parameter; colours are left
    out because the written text has them stripped. */
module Report {
  import opened Common
  import opened Ledger

  /** How numbers are rendered: `balance` for 8-decimal amounts, `percent`
      for a ratio shown as a percentage with 2 decimals (without the trailing
      `%`, which every report line writes itself), `fixed2` for 2 decimals,
      and `nonFinite` for what the formatter prints for Infinity/NaN. */
  datatype Format = Format(balance: real -> string, percent: real -> string, fixed2: real -> string, nonFinite: string)

  function PercentOf(fmt: Format, x: Option<real>): string {
    match x
    case Some(v) => fmt.percent(v)
    case None => fmt.nonFinite
  }

  function Fixed2Of(fmt: Format, x: Option<real>): string {
    match x
    case Some(v) => fmt.fixed2(v)
    case None => fmt.nonFinite
  }

  function EndBalanceLine(fmt: Format, s: Summary): string {
    "end balance: " + fmt.balance(s.currency) + " (" + fmt.percent(s.profit) + "%)"
  }

  function BuyHoldLine(fmt: Format, s: Summary): string {
    "buy hold: " + fmt.balance(s.buyHold) + " (" + fmt.percent(s.buyHoldProfit) + "%)"
  }

  function VsBuyHoldLine(fmt: Format, s: Summary): string {
    "vs. buy hold: " + PercentOf(fmt, s.vsBuyHold) + "%"
  }

  function TradesLine(fmt: Format, s: Summary): string {
    NatToString(s.tradeCount) + " trades over " + NatToString(s.dayCount) + " days (avg "
      + Fixed2Of(fmt, s.avgTradesPerDay) + " trades/day)"
  }

  function WinLossLine(s: Summary): string {
    "win/loss: " + NatToString(s.wins) + " / " + NatToString(s.losses)
  }

  /** The error rate as printed: losses per sell, or the literal `0.00` when
      there was no sell. */
  function ErrorRateText(fmt: Format, s: Summary): (r: string)
    ensures s.sells == 0 ==> r == "0.00"
    ensures s.sells > 0 ==> r == fmt.percent(s.losses as real / s.sells as real)
  {
    if s.sells > 0 then fmt.percent(s.losses as real / s.sells as real) else "0.00"
  }

  function ErrorRateLine(fmt: Format, s: Summary): string {
    "error rate: " + ErrorRateText(fmt, s) + "%"
  }

  /** The report lines in their fixed order: the options JSON (only when
      options are shown), end balance, buy hold, vs. buy hold, the trade-count
      line (always), then win/loss and error rate only when trades exist. */
  function ReportLines(fmt: Format, s: Summary, showOptions: bool, optionsJson: string): (lines: seq<string>)
    ensures var o := if showOptions then 1 else 0;
      && |lines| == o + 4 + (if s.tradeCount > 0 then 2 else 0)
      && (showOptions ==> lines[0] == optionsJson)
      && lines[o] == EndBalanceLine(fmt, s)
      && lines[o + 1] == BuyHoldLine(fmt, s)
      && lines[o + 2] == VsBuyHoldLine(fmt, s)
      && lines[o + 3] == TradesLine(fmt, s)
      && (s.tradeCount > 0 ==> lines[o + 4] == WinLossLine(s) && lines[o + 5] == ErrorRateLine(fmt, s))
  {
    (if showOptions then [optionsJson] else [])
      + [EndBalanceLine(fmt, s), BuyHoldLine(fmt, s), VsBuyHoldLine(fmt, s), TradesLine(fmt, s)]
      + (if s.tradeCount > 0 then [WinLossLine(s), ErrorRateLine(fmt, s)] else [])
  }

  /** How a back-test ends: with no period ever built it exits with status 1
      before printing anything; otherwise it writes the report and exits 0. */
  datatype SimOutcome =
    | NoTradesFound
    | Completed(finalized: Finalized, lines: seq<string>, text: string)

  function ExitCode(o: SimOutcome): int {
    if o.NoTradesFound? then 1 else 0
  }

  /** `exitSim` end to end. */
  function RunExit(fmt: Format, st: SimState, showOptions: bool, optionsJson: string): (o: SimOutcome)
    ensures st.period.None? <==> o.NoTradesFound?
    ensures ExitCode(o) == (if st.period.None? then 1 else 0)
    ensures o.Completed? ==> o.finalized == Finalize(st) && o.text == Join(o.lines, "\n")
    ensures o.Completed? ==> o.lines == ReportLines(fmt, o.finalized.summary, showOptions, optionsJson)
    ensures o.Completed? ==> (o.finalized.summary.tradeCount > 0 <==> |st.myTrades| > 0)
    ensures o.Completed? ==> |o.lines| == (if showOptions then 1 else 0) + 4 + (if |st.myTrades| > 0 then 2 else 0)
  {
    var f := Finalize(st);
    if f.NoTrades? then NoTradesFound
    else
      var lines := ReportLines(fmt, f.summary, showOptions, optionsJson);
      Completed(f, lines, Join(lines, "\n"))
  }
}
