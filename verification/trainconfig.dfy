/** The training command's configuration logic: the optimiser options with
    their defaults, the indicator whitelist, the training/test window, the
    candlesticks handed to the optimiser, and the final model artifact (its
    file name and its JSON fields). Dates are milliseconds; formatting a
    date as text is a parameter. */
module TrainConfig {
  import opened Common
  import opened Ledger
  import opened Parser

  // ---- Optimiser options ----

  /** The option fields as they arrive: absent, or a number / a string. */
  datatype RawTrainOptions = RawTrainOptions(
    populationCount: Option<real>,
    generationCount: Option<real>,
    selectionAmount: Option<real>,
    leafValueMutationProbability: Option<real>,
    leafSignMutationProbability: Option<real>,
    logicalNodeMutationProbability: Option<real>,
    leafIndicatorMutationProbability: Option<real>,
    crossoverProbability: Option<real>,
    indicators: Option<string>)

  datatype TrainOptions = TrainOptions(
    populationCount: real,
    generationCount: real,
    selectionAmount: real,
    leafValueMutationProbability: real,
    leafSignMutationProbability: real,
    logicalNodeMutationProbability: real,
    leafIndicatorMutationProbability: real,
    crossoverProbability: real,
    indicators: seq<string>)

  const DefaultIndicators: seq<string> := ["CCI", "MACD", "RSI", "SAR", "Stochastic"]

  const AvailableIndicators: seq<string> := [
    "ATR", "BOP", "CCI", "MACD", "MACD_Signal", "MACD_Histogram",
    "Momentum", "RSI", "SAR", "SMA15_SMA50", "Stochastic"]

  /** `if (s)` on a string field: absent and empty are falsy. */
  predicate TruthyText(x: Option<string>) {
    x.Some? && |x.value| > 0
  }

  /** `x || d` on a numeric field. */
  function OrElse(x: Option<real>, d: real): (r: real)
    ensures TruthyReal(x) ==> r == x.value
    ensures !TruthyReal(x) ==> r == d
  {
    if TruthyReal(x) then x.value else d
  }

  /** `getTrainOptions(so)`; `None` is a call without options. */
  function GetTrainOptions(so: Option<RawTrainOptions>): (r: TrainOptions)
    ensures so.None? ==> r == DefaultOptions()
    ensures so.Some? && TruthyText(so.value.indicators) ==> Join(r.indicators, ",") == so.value.indicators.value
    ensures so.Some? && !TruthyText(so.value.indicators) ==> r.indicators == DefaultIndicators
    ensures so.Some? && TruthyReal(so.value.populationCount) ==> r.populationCount == so.value.populationCount.value
    ensures so.Some? && !TruthyReal(so.value.populationCount) ==> r.populationCount == 100.0
    ensures so.Some? && TruthyReal(so.value.crossoverProbability) ==> r.crossoverProbability == so.value.crossoverProbability.value
    ensures so.Some? && !TruthyReal(so.value.crossoverProbability) ==> r.crossoverProbability == 0.03
    ensures Complete(r)
  {
    var item := so.GetOr(RawTrainOptions(None, None, None, None, None, None, None, None, None));
    assert TruthyText(item.indicators) ==> Join(Split(item.indicators.value, ','), ",") == item.indicators.value by {
      if TruthyText(item.indicators) { SplitJoin(item.indicators.value, ','); }
    }
    TrainOptions(
      OrElse(item.populationCount, 100.0),
      OrElse(item.generationCount, 100.0),
      OrElse(item.selectionAmount, 10.0),
      OrElse(item.leafValueMutationProbability, 0.5),
      OrElse(item.leafSignMutationProbability, 0.3),
      OrElse(item.logicalNodeMutationProbability, 0.3),
      OrElse(item.leafIndicatorMutationProbability, 0.2),
      OrElse(item.crossoverProbability, 0.03),
      if TruthyText(item.indicators) then Split(item.indicators.value, ',') else DefaultIndicators)
  }

  /** Field by field: each numeric option keeps its truthy value and
      otherwise takes its documented default. */
  lemma GetTrainOptionsFields(raw: RawTrainOptions)
    ensures var r := GetTrainOptions(Some(raw));
      && r.populationCount == (if TruthyReal(raw.populationCount) then raw.populationCount.value else 100.0)
      && r.generationCount == (if TruthyReal(raw.generationCount) then raw.generationCount.value else 100.0)
      && r.selectionAmount == (if TruthyReal(raw.selectionAmount) then raw.selectionAmount.value else 10.0)
      && r.leafValueMutationProbability
         == (if TruthyReal(raw.leafValueMutationProbability) then raw.leafValueMutationProbability.value else 0.5)
      && r.leafSignMutationProbability
         == (if TruthyReal(raw.leafSignMutationProbability) then raw.leafSignMutationProbability.value else 0.3)
      && r.logicalNodeMutationProbability
         == (if TruthyReal(raw.logicalNodeMutationProbability) then raw.logicalNodeMutationProbability.value else 0.3)
      && r.leafIndicatorMutationProbability
         == (if TruthyReal(raw.leafIndicatorMutationProbability) then raw.leafIndicatorMutationProbability.value else 0.2)
      && r.crossoverProbability
         == (if TruthyReal(raw.crossoverProbability) then raw.crossoverProbability.value else 0.03)
  {
  }

  /** The documented defaults. */
  function DefaultOptions(): TrainOptions {
    TrainOptions(100.0, 100.0, 10.0, 0.5, 0.3, 0.3, 0.2, 0.03, DefaultIndicators)
  }

  /** Every numeric field set (non-zero), and a non-empty comma-free list. */
  predicate Complete(o: TrainOptions) {
    && o.populationCount != 0.0 && o.generationCount != 0.0 && o.selectionAmount != 0.0
    && o.leafValueMutationProbability != 0.0 && o.leafSignMutationProbability != 0.0
    && o.logicalNodeMutationProbability != 0.0 && o.leafIndicatorMutationProbability != 0.0
    && o.crossoverProbability != 0.0
    && |o.indicators| > 0 && forall i :: 0 <= i < |o.indicators| ==> ',' !in o.indicators[i]
  }

  /** Options written back as the raw fields they came from. */
  function AsRaw(o: TrainOptions): RawTrainOptions {
    RawTrainOptions(
      Some(o.populationCount), Some(o.generationCount), Some(o.selectionAmount),
      Some(o.leafValueMutationProbability), Some(o.leafSignMutationProbability),
      Some(o.logicalNodeMutationProbability), Some(o.leafIndicatorMutationProbability),
      Some(o.crossoverProbability), Some(Join(o.indicators, ",")))
  }

  lemma JoinNonEmpty(parts: seq<string>)
    requires |parts| > 0 && |parts[0]| > 0
    ensures |Join(parts, ",")| > 0
  {
  }

  /** Defaulting is idempotent: feeding the resolved options back in (the
      indicator list joined with commas) resolves to the same options. */
  lemma GetTrainOptionsIdempotent(so: Option<RawTrainOptions>)
    ensures GetTrainOptions(Some(AsRaw(GetTrainOptions(so)))) == GetTrainOptions(so)
  {
    var o := GetTrainOptions(so);
    JoinSplit(o.indicators, ',');
    SplitJoin(Join(o.indicators, ","), ',');
    if !(so.Some? && TruthyText(so.value.indicators)) {
      JoinNonEmpty(DefaultIndicators);
    }
  }

  // ---- Indicator whitelist ----

  /** The names not in the whitelist, in their order. */
  function Unknown(names: seq<string>): (r: seq<string>)
    ensures |r| <= |names|
    ensures forall i :: 0 <= i < |r| ==> r[i] in names && r[i] !in AvailableIndicators
    ensures forall i :: 0 <= i < |names| && names[i] !in AvailableIndicators ==> names[i] in r
  {
    if |names| == 0 then []
    else
      var rest := Unknown(names[1..]);
      assert forall i :: 1 <= i < |names| ==> names[i] == names[1..][i - 1];
      if names[0] in AvailableIndicators then rest else [names[0]] + rest
  }

  /** The validation step: exit status 1 (after printing the unknown names)
      when a comma-separated indicator is not available; nothing otherwise. */
  function ValidateIndicators(indicators: Option<string>): (r: Option<int>)
    ensures r.Some? ==> r.value == 1
    ensures r.Some? <==> (TruthyText(indicators) &&
      exists i :: 0 <= i < |Split(indicators.value, ',')| && Split(indicators.value, ',')[i] !in AvailableIndicators)
  {
    if TruthyText(indicators) && |Unknown(Split(indicators.value, ','))| > 0 then
      var u := Unknown(Split(indicators.value, ','));
      assert u[0] in Split(indicators.value, ',');
      Some(1)
    else None
  }

  /** Options that pass validation name only available indicators, the
      defaults included. */
  lemma ValidatedIndicatorsAvailable(raw: RawTrainOptions)
    requires ValidateIndicators(raw.indicators).None?
    ensures forall i :: 0 <= i < |GetTrainOptions(Some(raw)).indicators| ==>
      GetTrainOptions(Some(raw)).indicators[i] in AvailableIndicators
  {
    var names := GetTrainOptions(Some(raw)).indicators;
    forall i | 0 <= i < |names|
      ensures names[i] in AvailableIndicators
    {
      if TruthyText(raw.indicators) {
        assert names[i] in Split(raw.indicators.value, ',');
      } else {
        assert names == DefaultIndicators;
        assert names[i] in DefaultIndicators;
      }
    }
  }

  // ---- The training and test window ----

  const DayMs: int := 86400000

  /** The day bucket of a time: `tb(t).resize('1d')`. */
  function DayOf(ms: int): (d: int)
    ensures d * DayMs <= ms < (d + 1) * DayMs
  {
    ms / DayMs
  }

  /** The window options as given (times already in milliseconds). */
  datatype WindowInput = WindowInput(
    startTraining: Option<int>, endTraining: Option<int>, daysTraining: Option<int>, daysTest: Option<int>)

  datatype Window = Window(startTraining: Option<int>, endTraining: Option<int>, daysTest: int)

  /** The window resolution of the `train` action, with `today` the index of
      the current day: an end derived from the start, a start derived from the
      end, a start counted back from today, and a test period that always
      fixes the end at today minus the test days. A start derived as day 0
      is falsy, so it too is counted back from today. */
  function ResolveWindow(w: WindowInput, today: int): (r: Window)
    ensures r.daysTest == (if Truthy(w.daysTest) then w.daysTest.value else 0)
    ensures r.daysTest > 0 ==> r.endTraining == Some((today - r.daysTest) * DayMs)
    ensures r.daysTest <= 0 && !(Truthy(w.startTraining) && Truthy(w.daysTraining) && !Truthy(w.endTraining)) ==>
      r.endTraining == w.endTraining
    ensures Truthy(w.startTraining) ==> r.startTraining == w.startTraining
    ensures !Truthy(w.daysTraining) ==> r.startTraining == w.startTraining
    ensures r.daysTest <= 0 && Truthy(w.startTraining) && Truthy(w.daysTraining) && !Truthy(w.endTraining) ==>
      r.endTraining == Some((DayOf(w.startTraining.value) + w.daysTraining.value) * DayMs)
    ensures !Truthy(w.startTraining) && Truthy(w.endTraining) && Truthy(w.daysTraining)
            && DayOf(w.endTraining.value) != w.daysTraining.value ==>
      r.startTraining == Some((DayOf(w.endTraining.value) - w.daysTraining.value) * DayMs)
    ensures !Truthy(w.startTraining) && !Truthy(w.endTraining) && Truthy(w.daysTraining) ==>
      r.startTraining == Some((today - r.daysTest - w.daysTraining.value) * DayMs)
    ensures !Truthy(w.startTraining) && Truthy(w.endTraining) && Truthy(w.daysTraining)
            && DayOf(w.endTraining.value) == w.daysTraining.value ==>
      r.startTraining == Some((today - r.daysTest - w.daysTraining.value) * DayMs)
  {
    var daysTest := if Truthy(w.daysTest) then w.daysTest.value else 0;
    var start := w.startTraining;
    var end := w.endTraining;
    var end1 :=
      if Truthy(start) && Truthy(w.daysTraining) && !Truthy(end)
      then Some((DayOf(start.value) + w.daysTraining.value) * DayMs) else end;
    var start1 :=
      if Truthy(end1) && Truthy(w.daysTraining) && !Truthy(start)
      then Some((DayOf(end1.value) - w.daysTraining.value) * DayMs) else start;
    var start2 :=
      if !Truthy(start1) && Truthy(w.daysTraining)
      then Some((today - daysTest - w.daysTraining.value) * DayMs) else start1;
    var end2 := if daysTest > 0 then Some((today - daysTest) * DayMs) else end1;
    Window(start2, end2, daysTest)
  }

  /** With test days and a training length but no dates, training covers
      exactly the given number of whole days and ends where the test period
      begins, the given number of test days before today. */
  lemma TrainingThenTest(w: WindowInput, today: int)
    requires !Truthy(w.startTraining) && !Truthy(w.endTraining) && Truthy(w.daysTraining)
    requires Truthy(w.daysTest) && w.daysTest.value > 0
    ensures var r := ResolveWindow(w, today);
      && r.startTraining.Some? && r.endTraining.Some?
      && r.endTraining.value - r.startTraining.value == w.daysTraining.value * DayMs
      && today * DayMs - r.endTraining.value == w.daysTest.value * DayMs
  {
  }

  /** A start and a training length: the window runs from the start to the
      end of the given number of days counted from the start's day, so the
      start lies inside it when the length is positive. */
  lemma StartPlusDays(w: WindowInput, today: int)
    requires Truthy(w.startTraining) && !Truthy(w.endTraining) && Truthy(w.daysTraining)
    requires !Truthy(w.daysTest) || w.daysTest.value <= 0
    ensures var r := ResolveWindow(w, today);
      && r.endTraining.Some?
      && r.endTraining.value - DayOf(w.startTraining.value) * DayMs == w.daysTraining.value * DayMs
      && (w.daysTraining.value > 0 ==> w.startTraining.value < r.endTraining.value)
  {
    var s := w.startTraining.value;
    assert s < (DayOf(s) + 1) * DayMs;
  }

  // ---- Candlesticks ----

  /** A candlestick for the optimiser: prices copied, time in seconds. */
  datatype Candlestick = Candlestick(open: real, high: real, low: real, close: real, time: real)

  function ToCandlestick(p: Period): (c: Candlestick)
    ensures c.open == p.open && c.high == p.high && c.low == p.low && c.close == p.close
    ensures c.time * 1000.0 == p.time as real
  {
    Candlestick(p.open, p.high, p.low, p.close, p.time as real / 1000.0)
  }

  /** `candlesticks.unshift(...)` over `ps` in order, onto `acc`. */
  function {:induction false} UnshiftAll(acc: seq<Candlestick>, ps: seq<Period>): (r: seq<Candlestick>)
    ensures |r| == |acc| + |ps|
    ensures forall i :: 0 <= i < |ps| ==> r[i] == ToCandlestick(ps[|ps| - 1 - i])
    ensures forall j :: 0 <= j < |acc| ==> r[|ps| + j] == acc[j]
    decreases |ps|
  {
    if |ps| == 0 then acc
    else
      var acc' := [ToCandlestick(ps[0])] + acc;
      var r := UnshiftAll(acc', ps[1..]);
      assert forall i :: 0 <= i < |ps| - 1 ==> r[i] == ToCandlestick(ps[|ps| - 1 - i]) by {
        forall i | 0 <= i < |ps| - 1
          ensures r[i] == ToCandlestick(ps[|ps| - 1 - i])
        {
          assert ps[1..][|ps| - 2 - i] == ps[|ps| - 1 - i];
        }
      }
      assert r[|ps| - 1] == acc'[0];
      forall j | 0 <= j < |acc|
        ensures r[|ps| + j] == acc[j]
      {
        assert r[|ps| - 1 + (j + 1)] == acc'[j + 1];
      }
      r
  }

  datatype CandleOutcome = NoTradesFound | Candles(candles: seq<Candlestick>)

  /** The periods the optimiser sees: the open period prepended to the
      lookback, with the last `min_periods` entries sliced off. */
  function Chart(period: Period, lookback: seq<Period>, minPeriods: int): seq<Period> {
    SliceTo([period] + lookback, |lookback| + 1 - minPeriods)
  }

  /** The chart as `slice(0, length - min_periods)` cuts it: the last
      `min_periods` periods are dropped, and when there are fewer periods
      than that the negative end counts from the end again, keeping
      `2 * length - min_periods` of them (none once that is negative). */
  lemma ChartSlice(period: Period, lookback: seq<Period>, minPeriods: nat)
    ensures var all := [period] + lookback;
      && (minPeriods <= |all| ==> Chart(period, lookback, minPeriods) == all[..|all| - minPeriods])
      && (minPeriods > |all| ==> Chart(period, lookback, minPeriods) == all[..Max(2 * |all| - minPeriods, 0)])
  {
    DropLastSlice([period] + lookback, minPeriods);
  }

  /** `createCandlesticks`: exit status 1 without an open period; otherwise
      the chart periods, oldest first. `minPeriods` is the defaulted value
      (`MinPeriods`). */
  function CreateCandlesticks(period: Option<Period>, lookback: seq<Period>, minPeriods: int): (r: CandleOutcome)
    ensures period.None? <==> r.NoTradesFound?
    ensures r.Candles? ==>
      var chart := Chart(period.value, lookback, minPeriods);
      && |r.candles| == |chart|
      && forall i :: 0 <= i < |chart| ==> r.candles[i] == ToCandlestick(chart[|chart| - 1 - i])
  {
    match period
    case None => NoTradesFound
    case Some(p) => Candles(UnshiftAll([], Chart(p, lookback, minPeriods)))
  }

  /** The lookback holds the newest period first. */
  predicate NewestFirst(ps: seq<Period>) {
    forall i, j :: 0 <= i < j < |ps| ==> ps[j].time < ps[i].time
  }

  /** The candlesticks run oldest to newest, and the newest one is the open
      period whenever any is kept. */
  lemma CandlesChronological(period: Period, lookback: seq<Period>, minPeriods: int)
    requires NewestFirst([period] + lookback)
    ensures var r := CreateCandlesticks(Some(period), lookback, minPeriods).candles;
      && (forall i, j :: 0 <= i < j < |r| ==> r[i].time < r[j].time)
      && (|r| > 0 ==> r[|r| - 1] == ToCandlestick(period))
  {
    var chart := Chart(period, lookback, minPeriods);
    var r := CreateCandlesticks(Some(period), lookback, minPeriods).candles;
    var all := [period] + lookback;
    assert chart == all[..|chart|];
    forall i, j | 0 <= i < j < |r|
      ensures r[i].time < r[j].time
    {
      var a := chart[|chart| - 1 - i];
      var b := chart[|chart| - 1 - j];
      assert a == all[|chart| - 1 - i] && b == all[|chart| - 1 - j];
      assert a.time < b.time;
      assert r[i].time * 1000.0 == a.time as real;
      assert r[j].time * 1000.0 == b.time as real;
    }
  }

  /** `trainingDone`: an unset end becomes the newest candlestick's time in
      milliseconds. `None` stands for the TypeError of reading the time of a
      missing candlestick; it is thrown inside the optimiser's `then` and
      caught by its `catch`, which prints 'Training error. Aborting.' and
      exits with status 1 after the temporary model was written. */
  function EndAfterTraining(end: Option<int>, candles: seq<Candlestick>): (r: Option<int>)
    ensures end.Some? ==> r == end
    ensures end.None? && |candles| > 0 ==>
      var ms := candles[|candles| - 1].time * 1000.0;
      r.Some? && r.value as real <= ms < r.value as real + 1.0
    ensures end.None? && |candles| == 0 ==> r.None?
  {
    if end.Some? then end
    else if |candles| == 0 then None
    else Some((candles[|candles| - 1].time * 1000.0).Floor)
  }

  /** The unset end of a training run is the open period's own time. */
  lemma EndIsOpenPeriod(period: Period, lookback: seq<Period>, minPeriods: int)
    requires NewestFirst([period] + lookback)
    requires |Chart(period, lookback, minPeriods)| > 0
    ensures EndAfterTraining(None, CreateCandlesticks(Some(period), lookback, minPeriods).candles) == Some(period.time)
  {
    CandlesChronological(period, lookback, minPeriods);
    var c := ToCandlestick(period);
    assert c.time * 1000.0 == period.time as real;
  }

  // ---- The final model ----

  /** `String(x)` of a parsed field: `undefined` when absent. */
  function JsText(x: Option<string>): (r: string)
    ensures x.Some? ==> r == x.value
    ensures x.None? ==> r == "undefined"
  {
    match x
    case Some(v) => v
    case None => "undefined"
  }

  /** The test's vs-buy-hold part of the file name. */
  function TestVsBuyHold(test: Option<SimulationResult>): (r: string)
    ensures test.None? ==> r == "noTest"
    ensures test.Some? ==> r == JsText(test.value.vsBuyHold)
  {
    match test
    case None => "noTest"
    case Some(t) => JsText(t.vsBuyHold)
  }

  /** The parts of the final model's file name between its `=` signs. */
  function NameSegments(selector: string, period: string, from: string, to: string,
                        training: SimulationResult, test: Option<SimulationResult>, created: string): seq<string>
  {
    ["models/forex.model_" + selector + "_period",
     period + "_from",
     from + "_to",
     to + "_trainingVsBuyHold",
     JsText(training.vsBuyHold) + "_testVsBuyHold",
     TestVsBuyHold(test) + "_created",
     created + ".json"]
  }

  /** `models/forex.model_<selector>_period=<p>_from=<f>_to=<t>_trainingVsBuyHold=<v>_testVsBuyHold=<w>_created=<c>.json`. */
  function FinalModelName(selector: string, period: string, from: string, to: string,
                          training: SimulationResult, test: Option<SimulationResult>, created: string): string
  {
    "models/forex.model_" + selector + "_period" + "=" + period + "_from" + "=" + from + "_to" + "=" + to
      + "_trainingVsBuyHold" + "=" + JsText(training.vsBuyHold) + "_testVsBuyHold" + "=" + TestVsBuyHold(test)
      + "_created" + "=" + created + ".json"
  }

  lemma JoinSeven(p: seq<string>)
    requires |p| == 7
    ensures Join(p, "=") == p[0] + "=" + p[1] + "=" + p[2] + "=" + p[3] + "=" + p[4] + "=" + p[5] + "=" + p[6]
  {
    JoinSnoc(p[..2], "=");
    JoinSnoc(p[..3], "=");
    JoinSnoc(p[..4], "=");
    JoinSnoc(p[..5], "=");
    JoinSnoc(p[..6], "=");
    JoinSnoc(p, "=");
    assert p[..2][..1] == [p[0]];
    assert p[..3][..2] == p[..2] && p[..4][..3] == p[..3] && p[..5][..4] == p[..4];
    assert p[..6][..5] == p[..5] && p[..6] == p[..|p| - 1];
  }

  lemma Regroup(u: string, v: string, w: string)
    ensures u + (v + w) == u + v + w
  {
  }

  /** Appending a part `x + k` after `=` to a prefix is appending `=`, x
      and the key k one by one. */
  lemma AppendPart(u: string, x: string, k: string)
    ensures u + "=" + (x + k) == u + "=" + x + k
  {
    Regroup(u + "=", x, k);
  }

  /** The name is its seven parts joined with `=`. */
  lemma NameIsJoin(selector: string, period: string, from: string, to: string,
                   training: SimulationResult, test: Option<SimulationResult>, created: string)
    ensures Join(NameSegments(selector, period, from, to, training, test, created), "=")
         == FinalModelName(selector, period, from, to, training, test, created)
  {
    var p := NameSegments(selector, period, from, to, training, test, created);
    var v := JsText(training.vsBuyHold);
    var w := TestVsBuyHold(test);
    JoinSeven(p);
    var u0 := "models/forex.model_" + selector + "_period";
    AppendPart(u0, period, "_from");
    var u1 := u0 + "=" + period + "_from";
    AppendPart(u1, from, "_to");
    var u2 := u1 + "=" + from + "_to";
    AppendPart(u2, to, "_trainingVsBuyHold");
    var u3 := u2 + "=" + to + "_trainingVsBuyHold";
    AppendPart(u3, v, "_testVsBuyHold");
    var u4 := u3 + "=" + v + "_testVsBuyHold";
    AppendPart(u4, w, "_created");
    var u5 := u4 + "=" + w + "_created";
    AppendPart(u5, created, ".json");
  }

  predicate NoEquals(s: string) { '=' !in s }

  /** The name splits back at its `=` signs into its seven parts when no part
      contains one, so the training and test vs-buy-hold values (or
      `noTest`) can be read back from it. */
  lemma FinalModelNameSplits(selector: string, period: string, from: string, to: string,
                             training: SimulationResult, test: Option<SimulationResult>, created: string)
    requires NoEquals(selector) && NoEquals(period) && NoEquals(from) && NoEquals(to) && NoEquals(created)
    requires NoEquals(JsText(training.vsBuyHold)) && NoEquals(TestVsBuyHold(test))
    ensures Split(FinalModelName(selector, period, from, to, training, test, created), '=')
         == NameSegments(selector, period, from, to, training, test, created)
  {
    var parts := NameSegments(selector, period, from, to, training, test, created);
    NameIsJoin(selector, period, from, to, training, test, created);
    JoinSplit(parts, '=');
  }

  /** A name written without a test result reads back `noTest` as its test part. */
  lemma NoTestSegment(selector: string, period: string, from: string, to: string,
                      training: SimulationResult, created: string)
    requires NoEquals(selector) && NoEquals(period) && NoEquals(from) && NoEquals(to) && NoEquals(created)
    requires NoEquals(JsText(training.vsBuyHold))
    ensures var parts := Split(FinalModelName(selector, period, from, to, training, None, created), '=');
      |parts| == 7 && parts[5] == "noTest_created"
  {
    NoTestHasNoEquals();
    FinalModelNameSplits(selector, period, from, to, training, None, created);
    NoTestSixthSegment(selector, period, from, to, training, created);
  }

  lemma NoTestHasNoEquals()
    ensures NoEquals(TestVsBuyHold(None))
  {
    assert TestVsBuyHold(None) == "noTest";
  }

  lemma NoTestSixthSegment(selector: string, period: string, from: string, to: string,
                           training: SimulationResult, created: string)
    ensures var segs := NameSegments(selector, period, from, to, training, None, created);
      |segs| == 7 && segs[5] == "noTest_created"
  {
  }

  /** The JSON document of the final model: times are instants in
      milliseconds; `startTest` is left out of the JSON when absent. */
  datatype FinalModel = FinalModel(
    selector: string,
    period: string,
    startTraining: int,
    endTraining: int,
    resultTraining: SimulationResult,
    startTest: Option<int>,
    resultTest: Option<SimulationResult>,
    options: TrainOptions,
    strategy: string)

  /** `writeFinalModel`'s document. `moment(undefined)` is the current time,
      so an unset training start is written as `now`. */
  function FinalModelOf(selector: string, period: string, w: Window, raw: RawTrainOptions, strategy: string,
                        training: SimulationResult, test: Option<SimulationResult>, now: int): (m: FinalModel)
    requires w.endTraining.Some?
    ensures w.startTraining.Some? ==> m.startTraining == w.startTraining.value
    ensures w.startTraining.None? ==> m.startTraining == now
    ensures m.endTraining == w.endTraining.value
    ensures m.startTest.Some? <==> w.daysTest > 0
    ensures m.startTest.Some? ==> m.startTest.value == m.endTraining
    ensures m.resultTraining == training && m.resultTest == test
    ensures m.options == GetTrainOptions(Some(raw)) && Complete(m.options)
  {
    var start := if w.startTraining.Some? then w.startTraining.value else now;
    FinalModel(selector, period, start, w.endTraining.value, training,
               if w.daysTest > 0 then w.endTraining else None, test,
               GetTrainOptions(Some(raw)), strategy)
  }
}
