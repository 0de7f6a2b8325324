/** The end of a training run (`trainingDone` after the temporary model is
    written): the back-test on the training window, then, when test days are
    configured, the back-test on the test window, and finally the model file
    with both results. The child processes, the file system and the process
    exit become the actions of a trace; a child's run is given as its exit
    event and the report file it leaves behind. */
module Orchestrator {
  import opened Common
  import opened Parser
  import opened TrainConfig

  /** A child's `exit` event: an exit code, or a signal (code `null`). */
  datatype ChildExit = Code(code: int) | Signal(name: string)

  /** `if (code)`: a non-zero exit code; a signal is not a failure. */
  predicate Failed(e: ChildExit) {
    e.Code? && e.code != 0
  }

  /** A back-test child: how it exited, and the report file it left (absent
      when there is none to read). */
  datatype ChildRun = ChildRun(exit: ChildExit, report: Option<string>)

  datatype Action =
    | SpawnTraining
    | TrainingFailed(code: int)
    | SpawnTest
    | TestFailed(code: int)
    | WriteFinalModel(name: string, model: FinalModel)
    | RenameTrainingReport(target: string)
    | RenameTestReport(target: string)
    | UnlinkTempModel
    | Exit(code: int)
    | Crash

  /** Actions that end the process: `process.exit`, or the uncaught
      exception of reading a missing report. */
  predicate Terminal(a: Action) {
    a.Exit? || a.Crash?
  }

  /** What the final model is made of besides the two results: `stamp`
      formats an instant as `YYYYMMDD_HHmmssZZ`, and `now` is the current
      time when the model is written. */
  datatype Context = Context(
    selector: string,
    period: string,
    window: Window,
    raw: RawTrainOptions,
    strategy: string,
    stamp: int -> string,
    now: int)

  /** The training start as `moment(so.start_training)` reads it: the
      current time when unset. */
  function TrainingStart(ctx: Context): int {
    if ctx.window.startTraining.Some? then ctx.window.startTraining.value else ctx.now
  }

  function ModelName(ctx: Context, training: SimulationResult, test: Option<SimulationResult>): string
    requires ctx.window.endTraining.Some?
  {
    FinalModelName(ctx.selector, ctx.period, ctx.stamp(TrainingStart(ctx)), ctx.stamp(ctx.window.endTraining.value),
                   training, test, ctx.stamp(ctx.now))
  }

  /** Writing the final model, renaming the report(s) after it, removing the
      temporary model and exiting 0. */
  function Finish(ctx: Context, training: SimulationResult, test: Option<SimulationResult>): (t: seq<Action>)
    requires ctx.window.endTraining.Some?
    ensures |t| == (if test.Some? then 5 else 4)
    ensures t[0].WriteFinalModel? && t[0].name == ModelName(ctx, training, test)
    ensures t[0].model.resultTraining == training && t[0].model.resultTest == test
    ensures t[1] == RenameTrainingReport(t[0].name + "-simTrainingResult.html")
    ensures test.Some? ==> t[2] == RenameTestReport(t[0].name + "-simTestResult.html")
    ensures t[|t| - 2] == UnlinkTempModel && t[|t| - 1] == Exit(0)
    ensures forall i :: 0 <= i < |t| - 1 ==> !Terminal(t[i]) && !t[i].SpawnTest?
  {
    var name := ModelName(ctx, training, test);
    [WriteFinalModel(name, FinalModelOf(ctx.selector, ctx.period, ctx.window, ctx.raw, ctx.strategy, training, test, ctx.now)),
     RenameTrainingReport(name + "-simTrainingResult.html")]
    + (if test.Some? then [RenameTestReport(name + "-simTestResult.html")] else [])
    + [UnlinkTempModel, Exit(0)]
  }

  /** The `from` and `to` dates in the final model's name are the training
      start (the current time when unset) and the training end that its JSON
      records; the `created` date is the time of writing, which the JSON does
      not hold. */
  lemma NameDatesMatchModel(ctx: Context, training: SimulationResult, test: Option<SimulationResult>)
    requires ctx.window.endTraining.Some?
    ensures var a := Finish(ctx, training, test)[0];
      a.name == FinalModelName(ctx.selector, ctx.period, ctx.stamp(a.model.startTraining), ctx.stamp(a.model.endTraining),
                               training, test, ctx.stamp(ctx.now))
  {
  }

  /** A report file as `trainingDone` reads it: absent files stay absent,
      present ones are parsed by `parseSimulation`, from the tail that
      `substr(length - 512)` keeps. */
  function ReadReport(report: Option<string>): (r: Option<SimulationResult>)
    ensures r.Some? <==> report.Some?
    ensures report.Some? ==> r.value == ParseReport(ReportTail(report.value))
  {
    match report
    case None => None
    case Some(text) => Some(ParseSimulation(text))
  }

  /** The trace of the training child's `exit` handler and what follows it,
      given the two children's exits and their parsed reports. */
  function Trace(ctx: Context, trainExit: ChildExit, trained: Option<SimulationResult>,
                 testExit: ChildExit, tested: Option<SimulationResult>): (t: seq<Action>)
    requires ctx.window.endTraining.Some?
    ensures |t| > 0 && t[0] == SpawnTraining
    ensures Terminal(t[|t| - 1]) && forall i :: 0 <= i < |t| - 1 ==> !Terminal(t[i])
    ensures Failed(trainExit) ==> t == [SpawnTraining, TrainingFailed(trainExit.code), Exit(trainExit.code)]
    ensures t[|t| - 1] == Exit(0) <==>
      !Failed(trainExit) && trained.Some? && (ctx.window.daysTest > 0 ==> tested.Some?)
  {
    if Failed(trainExit) then [SpawnTraining, TrainingFailed(trainExit.code), Exit(trainExit.code)]
    else if trained.None? then [SpawnTraining, Crash]
    else if ctx.window.daysTest > 0 then
      var logged := if Failed(testExit) then [TestFailed(testExit.code)] else [];
      var rest := if tested.None? then [Crash] else Finish(ctx, trained.value, tested);
      [SpawnTraining, SpawnTest] + logged + rest
    else
      [SpawnTraining] + Finish(ctx, trained.value, None)
  }

  /** The whole run: both children's reports are read back before the
      trace is decided. */
  function Orchestrate(ctx: Context, train: ChildRun, test: ChildRun): (t: seq<Action>)
    requires ctx.window.endTraining.Some?
    ensures |t| > 0 && t[0] == SpawnTraining && Terminal(t[|t| - 1])
    ensures Failed(train.exit) ==> t == [SpawnTraining, TrainingFailed(train.exit.code), Exit(train.exit.code)]
    ensures t[|t| - 1] == Exit(0) <==>
      !Failed(train.exit) && train.report.Some? && (ctx.window.daysTest > 0 ==> test.report.Some?)
  {
    Trace(ctx, train.exit, ReadReport(train.report), test.exit, ReadReport(test.report))
  }

  /** The test child is spawned exactly when the training child succeeded,
      left a report, and test days are configured. */
  lemma TestRunsOnlyAfterTraining(ctx: Context, trainExit: ChildExit, trained: Option<SimulationResult>,
                                  testExit: ChildExit, tested: Option<SimulationResult>)
    requires ctx.window.endTraining.Some?
    ensures var t := Trace(ctx, trainExit, trained, testExit, tested);
      SpawnTest in t <==> !Failed(trainExit) && trained.Some? && ctx.window.daysTest > 0
  {
    var t := Trace(ctx, trainExit, trained, testExit, tested);
    if !Failed(trainExit) && trained.Some? && ctx.window.daysTest > 0 {
      assert t[1] == SpawnTest;
    } else if !Failed(trainExit) && trained.Some? {
      var f := Finish(ctx, trained.value, None);
      assert t == [SpawnTraining] + f;
      forall i | 0 <= i < |t| ensures !t[i].SpawnTest? {
        if i > 0 { assert t[i] == f[i - 1]; }
      }
    }
  }

  /** A successful trace writes the final model with the training result
      and, exactly when test days are configured, the test result. */
  lemma ModelRecordsResults(ctx: Context, trainExit: ChildExit, trained: Option<SimulationResult>,
                            testExit: ChildExit, tested: Option<SimulationResult>)
    requires ctx.window.endTraining.Some?
    requires !Failed(trainExit) && trained.Some? && (ctx.window.daysTest > 0 ==> tested.Some?)
    ensures var t := Trace(ctx, trainExit, trained, testExit, tested);
      exists i :: 0 <= i < |t| && t[i].WriteFinalModel?
        && t[i].model.resultTraining == trained.value
        && t[i].model.resultTest == (if ctx.window.daysTest > 0 then tested else None)
  {
    var t := Trace(ctx, trainExit, trained, testExit, tested);
    if ctx.window.daysTest > 0 {
      var logged := if Failed(testExit) then [TestFailed(testExit.code)] else [];
      var f := Finish(ctx, trained.value, tested);
      assert t == [SpawnTraining, SpawnTest] + logged + f;
      assert t[2 + |logged|] == f[0];
    } else {
      var f := Finish(ctx, trained.value, None);
      assert t == [SpawnTraining] + f;
      assert t[1] == f[0];
    }
  }

  /** The final model of a whole run carries the parses of the reports the
      children left. */
  lemma RunRecordsReports(ctx: Context, train: ChildRun, test: ChildRun)
    requires ctx.window.endTraining.Some?
    requires !Failed(train.exit) && train.report.Some? && (ctx.window.daysTest > 0 ==> test.report.Some?)
    ensures var t := Orchestrate(ctx, train, test);
      exists i :: 0 <= i < |t| && t[i].WriteFinalModel?
        && t[i].model.resultTraining == ParseSimulation(train.report.value)
        && (t[i].model.resultTest.Some? <==> ctx.window.daysTest > 0)
        && (ctx.window.daysTest > 0 ==> t[i].model.resultTest == Some(ParseSimulation(test.report.value)))
  {
    var trained, tested := ReadReport(train.report), ReadReport(test.report);
    var t := Orchestrate(ctx, train, test);
    assert t == Trace(ctx, train.exit, trained, test.exit, tested);
    ModelRecordsResults(ctx, train.exit, trained, test.exit, tested);
    var i :| 0 <= i < |t| && t[i].WriteFinalModel? && t[i].model.resultTraining == trained.value
      && t[i].model.resultTest == (if ctx.window.daysTest > 0 then tested else None);
    assert t[i].model.resultTraining == ParseSimulation(train.report.value);
  }

  /** The process exit status a trace ends with; an uncaught exception exits
      with status 1. */
  function ExitStatus(t: seq<Action>): int
    requires |t| > 0 && Terminal(t[|t| - 1])
  {
    if t[|t| - 1].Exit? then t[|t| - 1].code else 1
  }

  /** The trace without the log entry of a failed test run. */
  function WithoutTestLog(t: seq<Action>): (r: seq<Action>)
    ensures |r| <= |t|
  {
    if |t| == 0 then [] else (if t[0].TestFailed? then [] else [t[0]]) + WithoutTestLog(t[1..])
  }

  /** Exactly the log entries are removed. */
  lemma {:induction false} WithoutTestLogMembers(t: seq<Action>)
    ensures forall a :: a in WithoutTestLog(t) <==> a in t && !a.TestFailed?
  {
    if |t| > 0 {
      WithoutTestLogMembers(t[1..]);
      assert t == [t[0]] + t[1..];
    }
  }

  lemma {:induction false} WithoutTestLogConcat(a: seq<Action>, b: seq<Action>)
    ensures WithoutTestLog(a + b) == WithoutTestLog(a) + WithoutTestLog(b)
    decreases |a|
  {
    if |a| > 0 {
      assert (a + b)[1..] == a[1..] + b;
      WithoutTestLogConcat(a[1..], b);
    } else {
      assert a + b == b;
    }
  }

  /** Removing the log entries from `head + logged + rest` leaves those of `head + rest`. */
  lemma LogDropped(head: seq<Action>, logged: seq<Action>, rest: seq<Action>)
    requires forall k :: 0 <= k < |logged| ==> logged[k].TestFailed?
    ensures WithoutTestLog(head + logged + rest) == WithoutTestLog(head + rest)
  {
    WithoutTestLogConcat(head + logged, rest);
    WithoutTestLogConcat(head, logged);
    WithoutTestLogConcat(head, rest);
    OnlyLogRemoved(logged);
  }

  lemma {:induction false} OnlyLogRemoved(logged: seq<Action>)
    requires forall k :: 0 <= k < |logged| ==> logged[k].TestFailed?
    ensures WithoutTestLog(logged) == []
  {
    if |logged| > 0 {
      OnlyLogRemoved(logged[1..]);
    }
  }

  /** A failing test run is only logged: apart from that log entry, the trace
      is the one of a test run that exited 0. */
  lemma TestFailureOnlyLogged(ctx: Context, trainExit: ChildExit, trained: Option<SimulationResult>,
                              testExit: ChildExit, tested: Option<SimulationResult>)
    requires ctx.window.endTraining.Some?
    ensures WithoutTestLog(Trace(ctx, trainExit, trained, testExit, tested))
         == WithoutTestLog(Trace(ctx, trainExit, trained, Code(0), tested))
  {
    if !Failed(trainExit) && trained.Some? && ctx.window.daysTest > 0 {
      var head := [SpawnTraining, SpawnTest];
      var rest := if tested.None? then [Crash] else Finish(ctx, trained.value, tested);
      var logged := if Failed(testExit) then [TestFailed(testExit.code)] else [];
      assert Trace(ctx, trainExit, trained, testExit, tested) == head + logged + rest;
      assert Trace(ctx, trainExit, trained, Code(0), tested) == head + [] + rest;
      LogDropped(head, logged, rest);
      LogDropped(head, [], rest);
    }
  }

  /** A training child killed by a signal reports code `null`, which the
      handler treats like a clean exit. */
  lemma SignalIsNoFailure(ctx: Context, train: ChildRun, test: ChildRun, sig: string)
    requires ctx.window.endTraining.Some?
    ensures Orchestrate(ctx, train.(exit := Signal(sig)), test) == Orchestrate(ctx, train.(exit := Code(0)), test)
  {
  }

  /** Without test days the test child never runs, so nothing about it
      matters, and the model name records `noTest`. */
  lemma NoTestDays(ctx: Context, trainExit: ChildExit, trained: Option<SimulationResult>,
                   testExit1: ChildExit, tested1: Option<SimulationResult>,
                   testExit2: ChildExit, tested2: Option<SimulationResult>)
    requires ctx.window.endTraining.Some? && ctx.window.daysTest <= 0
    ensures Trace(ctx, trainExit, trained, testExit1, tested1) == Trace(ctx, trainExit, trained, testExit2, tested2)
    ensures !Failed(trainExit) && trained.Some? ==>
      Trace(ctx, trainExit, trained, testExit1, tested1)[1].name == ModelName(ctx, trained.value, None)
  {
  }

  /** The successful trace without test days, read back from its file name:
      the test part of the name is `noTest`. */
  lemma NoTestInName(ctx: Context, trainExit: ChildExit, trained: Option<SimulationResult>,
                     testExit: ChildExit, tested: Option<SimulationResult>)
    requires ctx.window.endTraining.Some? && ctx.window.daysTest <= 0
    requires !Failed(trainExit) && trained.Some?
    requires NoEquals(ctx.selector) && NoEquals(ctx.period) && NoEquals(ctx.stamp(ctx.now))
    requires NoEquals(ctx.stamp(TrainingStart(ctx))) && NoEquals(ctx.stamp(ctx.window.endTraining.value))
    requires NoEquals(JsText(trained.value.vsBuyHold))
    ensures var t := Trace(ctx, trainExit, trained, testExit, tested);
      t[1].WriteFinalModel? && |Split(t[1].name, '=')| == 7 && Split(t[1].name, '=')[5] == "noTest_created"
  {
    var t := Trace(ctx, trainExit, trained, testExit, tested);
    var f := Finish(ctx, trained.value, None);
    assert t == [SpawnTraining] + f;
    assert t[1] == f[0];
    NoTestSegment(ctx.selector, ctx.period, ctx.stamp(TrainingStart(ctx)), ctx.stamp(ctx.window.endTraining.value),
                  trained.value, ctx.stamp(ctx.now));
  }
}
