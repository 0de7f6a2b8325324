# zenbot back-test and training core, modelled in Dafny

This project models the deterministic core of zenbot's two offline commands.
`sim` replays stored trades through a strategy and writes a text report.
`train` builds candlesticks from the trade store and, after the optimiser has
produced a strategy, back-tests it on a training window and an optional test
window. It then reads the two reports back and writes a final model file
named after the results.

The modules follow the program's structure:

- `Common` (common.dfy): the JavaScript helpers the code relies on. This
  covers truthiness, `substr` and `slice` with their negative-argument
  rules, `split` and `join`, and decimal printing of naturals.
- `Paging` (paging.dfy): the trade-store query of `getNext` (sim) and
  `getTrades` (train). It covers the single switch into reverse
  ("symmetrical") mode, the time mirror around the reverse point, the cursor,
  and the back-test replay loop as a method with loop invariants.
- `Ledger` (ledger.dfy): `exitSim`'s finalisation. This is the closing
  sell, the liquidation rounded to 8 decimals, the profit and buy-and-hold
  ratios, and the win/loss scan, which is checked against an index-by-index
  reference definition.
- `Report` (report.dfy): the report lines in their fixed order and the
  exit status of a back-test.
- `Regex` (regex.dfy): the fragment of JavaScript regular expressions the
  report parser uses. A pattern is a literal or `[0-9]` head followed by
  greedy `.*` and literal pieces. A match is leftmost, with backtracking,
  and `.` never crosses a line terminator.
- `Parser` (parser.dfy): `parseSimulation`, which searches five patterns
  in the last 512 characters of a result file.
- `RoundTrip` (roundtrip.dfy): the round trip. Parsing a printed report gives
  back the printed values.
- `TrainConfig` (trainconfig.dfy): the training options with their
  defaults, the indicator whitelist, the training and test window, the
  candlesticks, and the final model's JSON fields and file name.
- `Orchestrator` (orchestrator.dfy): `trainingDone`'s process flow, written
  as a trace of actions. The actions are: spawn a child, log, write, rename,
  unlink, exit, or crash.

## Model

| member | source | states |
|---|---|---|
| Paging.BuildQuery | commands/sim.js:338-363 | The fetch query keeps the selector and a page size of 1000. It is ascending unless a cursor exists while reversing. Forward pages are bounded by `end` and follow the cursor with `$gt`. A reversing query drops `end`, asks `$lt cursor` and `$gte queryStart`, and sorts descending. |
| Paging.ForwardQueryWindow | commands/sim.js:345-358 | A forward query with a cursor admits exactly the selector's trades after the cursor and not after `end`. |
| Paging.ReverseQueryWindow | commands/sim.js:349-354 | A reversing query admits exactly the selector's trades before the cursor and not before `queryStart`. |
| Paging.Select | commands/sim.js:364-366 | A fetched page holds `min(#admitted, limit)` store records, each admitted by the query. It is empty exactly when no record is admitted. |
| Paging.SelectIsEarliest | commands/sim.js:364-366 | From a time-ordered store, the page is the first admitted records in the query's sort order. An admitted record left out only occurs when the page is full, and it comes no earlier in that order than every record of the page. |
| Paging.SelectOrder | commands/sim.js:342-355 | From a time-ordered store, a page is ascending, or descending when the query sorts by `time: -1`. |
| Paging.MirrorTime | commands/sim.js:374-379 | A mirrored time lies as far after the reverse point as the original lies before it. |
| Paging.MirrorInvolution | commands/sim.js:374-379 | Mirroring a time twice gives it back. |
| Paging.Mirror | commands/sim.js:374-379 | A mirrored trade keeps its original time in `orig_time`, and its selector, price and size are unchanged. |
| Paging.MirrorReversesOrder | commands/sim.js:374-379 | A descending page of trades before the reverse point becomes an ascending page after it, and each trade carries its original time. |
| Paging.QueryStart | commands/sim.js:172-181 | `queryStart` exists iff `start` is truthy. It is a multiple of the period, at most `min_periods + 2` periods and less than `min_periods + 3` periods before `start`, with `min_periods` defaulted to 1. |
| Paging.QueryStartUnique | commands/sim.js:176-181 | Only one multiple of the period lies in that interval, so it is exactly the period bucket of `start` moved back by `min_periods + 2` periods. |
| Paging.SimStep | commands/sim.js:337-390 | One `getNext` round. An empty page flips into reverse mode iff the run is symmetrical and not yet reversing, and otherwise stops. A delivered page is exactly the fetched batch, mirrored while reversing. It has 1 to 1000 trades and keeps the paging invariant. The next cursor is the last delivered trade's `orig_time` while reversing and its `time` otherwise, which in both cases is the store time of the last fetched record. Each delivery strictly shrinks the records left to fetch. |
| Paging.Replay | commands/sim.js:337-390 | The replay loop terminates. It returns the run of rounds it made: it starts with no cursor going forward, and each state is the previous round's next state. The pages are exactly the pages those rounds delivered, in order, and the round after the last state stops. Pages before `split` come from the store within the selector and `end`. Pages from `split` on are mirrored past the reverse point. It ends reversed iff the run is symmetrical. |
| Paging.SimReverseProgress | commands/sim.js:380-387 | While reversing, the cursor moves to the oldest original time of the page, so the next reversing query no longer admits that trade. |
| Paging.TrainReverseRefetches | commands/train.js:603-612 | While reversing, training sets the cursor to the mirrored time, which lies past the reverse point. For any page of trades before the reverse point, the next `$lt cursor` query therefore admits every trade of that page again, so no reversing fetch after a page is empty. |
| Ledger.Round8 | commands/sim.js:215-218 | The liquidated balance is a multiple of 1e-8 within half a unit of the exact value. |
| Ledger.Ratio | commands/sim.js:249-260 | A quotient is finite iff the divisor is non-zero, and then it multiplies back to the dividend. |
| Ledger.Profit | commands/sim.js:220-224 | Profit is 0 without a start capital. Otherwise the amount is `start_capital * (1 + profit)`. |
| Ledger.BuyHold | commands/sim.js:233-237 | Buy-and-hold is the final currency without a start price. Otherwise it times the start price equals close times start capital. |
| Ledger.NoStartPriceLevelsBuyHold | commands/sim.js:233-256 | Without a start price and with a non-zero final currency, vs. buy hold is exactly 0. With a zero currency it is 0/0, which JavaScript makes NaN. |
| Ledger.ScanMatchesReference | commands/sim.js:262-274 | The single forward scan over `my_trades` counts exactly the reference sells and losses. A loss is a sell below the price of the nearest preceding buy, when that price is non-zero. |
| Ledger.Liquidate | commands/sim.js:207-218 | With trades, a closing sell of the whole asset at the last close is appended, and otherwise the trades are unchanged. The asset becomes 0 and the currency is the rounded liquidation value. |
| Ledger.Summarize | commands/sim.js:220-287 | The report figures. Trade and day counts. Sells and losses equal the reference counts, and wins + losses = sells. Without a start capital, profit and buy-hold profit are 0. Otherwise the currency is `start_capital * (1 + profit)` and buy-and-hold is `start_capital * (1 + buyHoldProfit)`. Buy-and-hold is the currency without a start price, and otherwise times the start price it equals close times start capital. Vs. buy hold is finite iff buy-and-hold is non-zero, and then currency = buyHold * (1 + vs). It is 0 without a start price. The average is trades / days, finite iff days > 0. |
| Ledger.SummaryRatios | commands/sim.js:220-260 | The same ratio facts for any summary whose fields are built from `Profit`, `BuyHold` and `Ratio` as `exitSim` builds them. |
| Ledger.Finalize | commands/sim.js:183-305 | No open period means no finalisation. Otherwise the trades and balance are exactly the closing sell and liquidation of `Liquidate`, and the summary is `Summarize` over them, with the facts above restated. The open period is prepended to the lookback, and the chart drops the last `min_periods` entries. |
| Report.ErrorRateText | commands/sim.js:275-287 | The error rate is losses per sell, or the literal `0.00` without sells. |
| Report.ReportLines | commands/sim.js:203-287 | The lines in order: the options JSON (when shown), end balance, buy hold, vs. buy hold, and the trades line. Win/loss and error rate follow exactly when trades exist. |
| Report.RunExit | commands/sim.js:183-293 | With no period the run exits with status 1. Otherwise it finalises the state and writes the report lines of the final summary, in their fixed order, joined by newlines, and exits 0. There are 4 or 6 lines (plus options), according to whether trades exist. |
| Regex.SearchFromFound | commands/train.js:327-342 | What `match` returns is a match of the pattern at a start no earlier than the search start. |
| Regex.SearchFromLeftmost | commands/train.js:327-342 | No start before the returned one matches: the match is leftmost. |
| Regex.MatchedPiecesOccur | commands/train.js:311-317 | Every literal piece of a found match occurs at the position the match assigns it. |
| Regex.GreedyPicks | commands/train.js:311-317 | A greedy `.*` stops at the last position on its line from which the rest of the pattern matches. |
| Regex.GreedyOrdered | commands/train.js:311-317 | The pieces of a match follow each other without overlap. |
| Regex.NoMatchWithoutHead | commands/train.js:327-342 | A pattern whose head literal does not occur has no match, so its field stays unset. |
| Regex.SearchShift | commands/train.js:327-342 | Searching after a prefix finds the suffix's match shifted by the prefix length. |
| Regex.SearchLines | commands/train.js:311-342 | In a text of lines, the leftmost match is the one in the first line that has a match. |
| Parser.ReportTail | commands/train.js:322-324 | `substr(length - 512)` keeps the last 512 characters of long files and all of files up to 256 characters. Between those lengths it keeps only `512 - length`. |
| Parser.LastChars | commands/train.js:322-324 | The corrected tail: the last `min(length, 512)` characters. |
| Parser.TailsAgree | commands/train.js:322-324 | The two tails agree iff the file has at least 512 or at most 256 characters. |
| Parser.CaptureLines | commands/train.js:327-342 | A capture in `a + "\n" + b` comes from `a` when the pattern matches there, and otherwise from `b`. |
| Parser.PatternsWellFormed | commands/train.js:311-317 | None of the five patterns can match across a line terminator. |
| Parser.ParseLines | commands/train.js:310-345 | Parsing two lines gives each field from the first line that has it. |
| Parser.ParseJoin | commands/train.js:310-345 | Parsing a newline-joined text equals merging the per-line parses in order. |
| RoundTrip.ReportRoundTrip | commands/train.js:310-345 | Parsing a printed report gives back the printed profit, buy-hold profit and vs. buy hold. It also gives the whole trades line and the average, and the error rate exactly when trades exist. |
| RoundTrip.RunExitRoundTrip | commands/sim.js:262-293 | The text a completed back-test writes parses back, by the training command's patterns, to the printed figures of its own final summary. |
| RoundTrip.SimulationRoundTrip | commands/train.js:310-345 | A report between lines that match no pattern, fitting in the last 512 characters of a file of at least 512 or at most 256 characters, is read back as printed. |
| RoundTrip.LastCharsFileTail | commands/train.js:322-324 | With the corrected tail, such a report is read back whatever the file length. |
| RoundTrip.ShortFileLosesEndBalance | commands/train.js:322-324 | A 400-character file starting with an end-balance line: the corrected tail reads the end balance, but `substr` loses it. |
| RoundTrip.QuietSuffix | commands/train.js:322-324 | Cutting a text in which no pattern matches leaves a text in which none matches. |
| TrainConfig.OrElse | commands/train.js:31-39 | `x \|\| d` gives x when it is truthy and d otherwise. |
| TrainConfig.GetTrainOptions | commands/train.js:27-44 | Without options, the documented defaults. With options, the population count and crossover probability keep a truthy value or default to 100 and 0.03. The indicator list joins back to the given string, or is the default list. The result is always complete: every number is non-zero and the list is non-empty. |
| TrainConfig.GetTrainOptionsFields | commands/train.js:31-39 | Each of the eight numeric options keeps a truthy given value. Otherwise it takes its documented default: 100, 100, 10, 0.5, 0.3, 0.3, 0.2 and 0.03. |
| TrainConfig.GetTrainOptionsIdempotent | commands/train.js:27-44 | Resolving already-resolved options (indicators re-joined with commas) changes nothing. |
| TrainConfig.Unknown | commands/train.js:155-172 | The names not in the whitelist: each comes from the input, and every unlisted input name is among them. |
| TrainConfig.ValidateIndicators | commands/train.js:155-172 | Exit status 1 exactly when a comma-separated indicator is not available. |
| TrainConfig.ValidatedIndicatorsAvailable | commands/train.js:155-172 | After validation, the resolved options (defaults included) name only available indicators. |
| TrainConfig.DayOf | commands/train.js:174-202 | The day bucket of a time contains it. |
| TrainConfig.ResolveWindow | commands/train.js:150-202 | `days_test` defaults to 0. With test days, the end is always today minus the test days. Otherwise a given end is kept unless it is derived as the start's day plus `days_training`. A given start is kept. An unset start becomes the end's day minus `days_training`. When that is day 0, which is falsy, or when there is no end, the start counts back from today instead. |
| TrainConfig.TrainingThenTest | commands/train.js:192-202 | With only day counts, training spans exactly `days_training` whole days and ends `days_test` days before today. |
| TrainConfig.StartPlusDays | commands/train.js:174-182 | A start with a training length ends `days_training` days after the start's day, so the start lies inside. |
| TrainConfig.ToCandlestick | commands/train.js:545-551 | Prices are copied and the time is converted to seconds. |
| Common.MinPeriods | commands/sim.js:172 | An unset or zero `min_periods` becomes 1, in both commands (also commands/train.js:213). `Paging.QueryStart`, `Ledger.SimState` and `TrainConfig.CreateCandlesticks` work with the defaulted value. |
| TrainConfig.UnshiftAll | commands/train.js:540-553 | Unshifting periods one by one puts them in reverse order in front of what was there. |
| TrainConfig.CreateCandlesticks | commands/train.js:518-553 | No open period exits. Otherwise the candlesticks are the chart periods, open period first in the lookback and last `min_periods` dropped, in reverse order. |
| TrainConfig.ChartSlice | commands/train.js:540-543 | The chart drops the last `min_periods` periods. With more `min_periods` than periods, the negative end keeps `2 * length - min_periods` of them, or none. |
| TrainConfig.CandlesChronological | commands/train.js:540-557 | From a newest-first lookback, the candlesticks run oldest to newest, and the last one is the open period. |
| TrainConfig.EndAfterTraining | commands/train.js:351-353 | A set end is kept. An unset end becomes the newest candlestick's time in milliseconds. Without candlesticks there is no end: reading the missing candle's time throws inside the optimiser's `then`, and the `catch` at commands/train.js:559-563 prints 'Training error. Aborting.' and exits 1. |
| TrainConfig.EndIsOpenPeriod | commands/train.js:351-353 | That derived end is exactly the open period's time. |
| TrainConfig.JsText | commands/train.js:283-304 | A missing field prints as `undefined`. |
| TrainConfig.TestVsBuyHold | commands/train.js:279-281 | The test part of the name is `noTest` without a test result, and otherwise its vs. buy hold. |
| TrainConfig.NameIsJoin | commands/train.js:282-303 | The file name is its seven parts joined by `=`. |
| TrainConfig.FinalModelNameSplits | commands/train.js:282-303 | When no part holds `=`, splitting the name at `=` gives back its seven parts, including both vs. buy hold values. |
| TrainConfig.NoTestSegment | commands/train.js:279-303 | A name written without a test result reads back `noTest` as its test part. |
| TrainConfig.FinalModelOf | commands/train.js:262-277 | The JSON holds the selector and period. The training start is the given instant, or the current time when unset, as `moment(undefined)` gives. It holds the training end and both results. `startTest` is present iff test days are configured, and then equals the training end. The options are `getTrainOptions` of the raw options, which are complete. |
| Orchestrator.Finish | commands/train.js:449-493 | Write the final model with both results, rename the report(s) after its name, unlink the temporary model, and exit 0. Nothing before the exit is terminal. |
| Orchestrator.NameDatesMatchModel | commands/train.js:262-303 | The `from` and `to` dates in the file name are the training start and the training end that the JSON records. The `created` date is the time of writing. |
| Orchestrator.ReadReport | commands/train.js:310-324 | A present report is parsed by `parseSimulation` from the tail that `substr(length - 512)` keeps. A missing one is absent. |
| Orchestrator.Trace | commands/train.js:389-495 | Starts by spawning training and ends with exactly one terminal action. A non-zero training code logs and exits with that code. It exits 0 iff training succeeded, left a report and, with test days, the test left one. |
| Orchestrator.Orchestrate | commands/train.js:389-495 | The same, over the children's exits and the report files they leave. |
| Orchestrator.TestRunsOnlyAfterTraining | commands/train.js:389-412 | The test child is spawned iff training succeeded, left a report, and test days are configured. |
| Orchestrator.ModelRecordsResults | commands/train.js:444-490 | A successful trace writes the final model with the training result, and with the test result exactly when test days are configured. |
| Orchestrator.RunRecordsReports | commands/train.js:400-490 | The final model of a run carries the `parseSimulation` results of the reports the children left, including the `substr` tail quirk. |
| Orchestrator.TestFailureOnlyLogged | commands/train.js:434-473 | A failing test child is only logged. Without that log entry the trace equals the one for a test exiting 0. |
| Orchestrator.WithoutTestLogMembers | commands/train.js:434-442 | Removing the log entries removes exactly them. |
| Orchestrator.SignalIsNoFailure | commands/train.js:389-398 | A training child killed by a signal (code `null`) is treated as a clean exit. |
| Orchestrator.NoTestDays | commands/train.js:405-493 | Without test days the test child is irrelevant, and the model is named without a test result. |
| Orchestrator.NoTestInName | commands/train.js:474-493 | The successful run without test days writes a model whose name reads back `noTest`. |
| Common.SplitJoin | commands/train.js:40-42 | Splitting at a character and joining back gives the original string. |
| Common.JoinSplit | commands/train.js:282-303 | Joining parts free of the separator and splitting again gives the parts back. |

## Left out

- Date handling (`moment`, `timebucket`): times are milliseconds, and a day or period bucket is a floor division. "Today", the current time and the date format are parameters.
- Number formatting (`numbro`): the three formats and the text printed for Infinity/NaN are parameters of `Report.Format`.
- Report.Format: NaN, +Infinity and -Infinity share the one `nonFinite` text, because `Ratio` yields no value for any division by zero. JavaScript prints them differently: vs. buy hold with a zero buy-and-hold is NaN for a zero currency and Infinity for a positive one.
- Parser.ReportTail: lengths and positions count characters (Unicode scalar values), not JavaScript's UTF-16 code units. A result file with a character outside the Basic Multilingual Plane in its tail is cut at a different position by `substr`, and `.` in the patterns matches half of such a character. The same holds for `Common.Substr` and the patterns of `Regex`. UTF-8 decoding of the file, with U+FFFD for invalid bytes, is not modelled: the file arrives as text.
- Orchestrator.Context and TrainConfig.ResolveWindow: the source reads the clock separately each time. `moment()` is read three times for the final model: the JSON's unset start, the name's from-date and the name's created date. `tb('1d')` is read twice for the window. The model takes one `now` and one `today`. So `Orchestrator.NameDatesMatchModel` (for an unset start) and `TrainConfig.TrainingThenTest` hold only when no millisecond or midnight passes between those reads.
- The HTML report template, colours, `console` output and the options listing are not modelled. The training runs pass `--disable_options`, and the round trip requires any shown options line to match no pattern.
- The candle engine, the strategy, the exchange simulator and the optimiser (`createStrategy`, `forex.analytics`) are outside the core. Their results are inputs: a strategy string, a simulation state, and the child processes' exits and files.
- Child processes, `fs.writeFileSync`, `fs.rename` and `fs.unlink` are actions of a trace. Their asynchrony and failures are not modelled.
- `writeTempModel` and its SHA-256 file name are not modelled. The temporary model shows up only as `UnlinkTempModel`.
- The command-line option parsing and config overrides are not modelled. Options arrive already parsed, with falsy values as `None` or 0.
- Floating point: amounts are exact rationals. NaN and Infinity appear only as `Ratio` returning `None`.
- Paging.Replay: store times are assumed positive. A cursor of 0 is falsy in JavaScript and would restart paging from `queryStart`.
- Paging.SimStep: `engine.exit` at commands/sim.js:372 is not followed by a `return`. The model stops there, since the engine's exit ends the process.
- Paging: the training loop `getTrades` shares `BuildQuery` and `Select`. Its reversing cursor is only modelled by `Paging.TrainReverseRefetches`, not as a separate loop, because that loop does not terminate.
- Orchestrator.Trace: the "Running simulation" log lines and the argument lists of the spawned children are not modelled.
- Ledger.Round8: rounds halves upward on the exact value, without numbro's floating-point effects.

## Findings

| source | as written | input that shows it | evidently intended | confidence | as-written member | corrected member |
|---|---|---|---|---|---|---|
| commands/train.js:611 | While reversing, the cursor is set to the last trade's mirrored `time`, which lies after the reverse point. | A symmetrical training run whose store has trades before the reverse point. The next `$lt cursor` query admits every trade of the page again; it may add trades at the reverse point or after `end_training`. Each later fetch still admits the oldest trade already seen before the reverse point, so no fetch is empty and paging never ends. | The cursor takes the original time, as commands/sim.js:382-383 does. | not executed | Paging.TrainReverseRefetches | Paging.SimReverseProgress |
| commands/train.js:322-324 | `substr(length - 512)` with a negative argument for files shorter than 512 characters, which JavaScript counts from the end. | A 400-character result file starting with the end-balance line is read from position 288, so the end balance is lost. | Read the last 512 characters, or the whole shorter file. | not executed | RoundTrip.ShortFileLosesEndBalance | Parser.LastChars |
