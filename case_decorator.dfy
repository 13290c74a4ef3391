/** The `App` performance decorator: it repeats the decorated case, measures
    each repetition's duration from its screen recording and charts the
    collected performance series, then persists one result row and only
    after that asserts the thresholds.

    The concurrent work of a repetition (the case itself, the performance
    collector, the device log) is not modelled as concurrency: what it
    leaves behind once joined is an input, one `RunEnv` per repetition. */
module CaseDecorator {
  import opened Wrappers
  import opened Duration
  import opened Sampler
  import opened Verdict
  import opened Keyframes

  /** What one repetition's joined concurrent work leaves behind: errors the
      case appended to CASE_ERROR, errors the collector appended to
      PERF_ERROR, the performance series it published in the cache (the
      CPU_INFO, MEM_INFO and FPS_INFO entries are always published
      together), the recording and the frame folder as listed after
      extraction. */
  datatype RunEnv = RunEnv(
    caseErrors: seq<string>,
    perfErrors: seq<string>,
    published: Option<Streams>,
    recording: Recording,
    listing: seq<Frame>)

  /** The decorator's arguments; an absent path is the empty string, and
      `files` are the readable images. */
  datatype Args = Args(
    runList: seq<string>,
    platform: string,
    startPath: string,
    stopPath: string,
    durationTimes: int,
    durationThreshold: real,
    memThreshold: real,
    files: map<string, Grid>)

  /** The PERF table row the wrapper inserts. */
  datatype Row = Row(durationTimes: int, durationList: seq<real>, durationAvg: real,
                     memoryMax: real, runList: seq<string>, result: int)

  /** The process-wide state the wrapper reads and writes: the decorator's
      error lists, the report images, the performance entries of the cache
      and the rows of the PERF table. */
  datatype Globals = Globals(
    caseError: seq<string>,
    perfError: seq<string>,
    recordError: seq<string>,
    reportImage: seq<Image>,
    perfInfo: Option<Streams>,
    rows: seq<Row>)

  /** Where a run of repetitions stands: the state, the local lists and the
      exception that ended it, if any. */
  datatype Progress = Progress(g: Globals, acc: Acc, failure: Option<Error>)

  /** The assertion reasons the wrapper can fail with. */
  const CASE_FAILED := "CASE_ERROR"
  const MEMORY_EXCEEDED := "memory_max"
  const DURATION_EXCEEDED := "duration_avg"

  /** The state once a repetition's concurrent work has been joined. */
  function Joined(g: Globals, a: Args, env: RunEnv): Globals {
    var perf := PERFORMANCE in a.runList;
    g.(caseError := g.caseError + env.caseErrors,
       perfError := if perf then g.perfError + env.perfErrors else g.perfError,
       perfInfo := if perf && env.published.Some? then env.published else g.perfInfo)
  }

  /** The duration step of a repetition: extraction fails on a zero frame
      rate; without a recording error the measured duration and the two
      matched frames are collected. */
  function DurationStep(g: Globals, acc: Acc, a: Args, env: RunEnv): Result<Acc> {
    if DURATION !in a.runList then Ok(acc)
    else
      var w :- FrameWindow(env.recording.fps, env.recording.frameCount, FRAME_SECONDS as real, FRAME_SECONDS as real);
      if g.recordError != [] then Ok(acc)
      else
        var m :- Measure(a.files, a.startPath, a.stopPath, env.listing);
        Ok(Collect(acc, m))
  }

  /** The chart step of repetition `t`: with Performance requested and no
      performance error, the CPU, memory and fps series are charted; a
      missing CPU_INFO entry is a TypeError. */
  function ChartStep(g: Globals, acc: Acc, a: Args, t: nat): Result<Acc> {
    if PERFORMANCE !in a.runList || g.perfError != [] then Ok(acc) else Charts(acc, g.perfInfo, t)
  }

  /** Repetition `t` of the loop. */
  function Repetition(g: Globals, acc: Acc, a: Args, env: RunEnv, t: nat): Progress {
    if DispatchError(a.runList, a.platform).Some? then Progress(g, acc, DispatchError(a.runList, a.platform))
    else
      var g1 := Joined(g, a, env);
      if g1.caseError != [] then Progress(g1, acc, Some(AssertionError(CASE_FAILED)))
      else
        match DurationStep(g1, acc, a, env)
        case Err(e) => Progress(g1, acc, Some(e))
        case Ok(acc1) =>
          match ChartStep(g1, acc1, a, t)
          case Err(e) => Progress(g1, acc1, Some(e))
          case Ok(acc2) => Progress(g1, acc2, None)
  }

  /** The repetitions in order, stopping at the first exception. */
  function Runs(g: Globals, a: Args, envs: seq<RunEnv>): Progress {
    if envs == [] then Progress(g, NoAcc, None)
    else
      var p := Runs(g, a, envs[..|envs| - 1]);
      if p.failure.Some? then p else Repetition(p.g, p.acc, a, envs[|envs| - 1], |envs| - 1)
  }

  /** After the loop: report images, the averages, the row, then the
      threshold assertions. */
  function Tail(g: Globals, acc: Acc, a: Args): (Globals, Result<()>) {
    var perf := PERFORMANCE in a.runList;
    var g1 := if perf && g.perfError == [] then
        g.(reportImage := g.reportImage + PhotoList(acc.cpu, acc.mem, acc.fps, [], [], acc.start, acc.stop))
      else g;
    var avg := DurationAvg(acc.durations);
    var mm := MemoryMax(perf, if g1.perfInfo.Some? then Some(g1.perfInfo.value.mem) else None);
    if mm.Err? then (g1, Err(mm.error))
    else
      var result := AssertResult(mm.value, a.memThreshold, avg, a.durationThreshold);
      var g2 := g1.(rows := g1.rows + [Row(a.durationTimes, acc.durations, avg, mm.value, a.runList, result)]);
      if mm.value > a.memThreshold then (g2, Err(AssertionError(MEMORY_EXCEEDED)))
      else if avg > a.durationThreshold then (g2, Err(AssertionError(DURATION_EXCEEDED)))
      else (g2, Ok(()))
  }

  /** Once a repetition has raised, later environments change nothing. */
  /** One more repetition after a prefix of the loop that did not fail. */
  lemma RunsNext(g: Globals, a: Args, envs: seq<RunEnv>, t: nat)
    requires t < |envs| && Runs(g, a, envs[..t]).failure.None?
    ensures var p := Runs(g, a, envs[..t]);
      Runs(g, a, envs[..t + 1]) == Repetition(p.g, p.acc, a, envs[t], t)
  {
    assert envs[..t + 1][..t] == envs[..t];
  }

  lemma {:induction false} RunsStopAtFailure(g: Globals, a: Args, envs: seq<RunEnv>, i: nat, j: nat)
    requires i <= j <= |envs|
    requires Runs(g, a, envs[..i]).failure.Some?
    ensures Runs(g, a, envs[..j]) == Runs(g, a, envs[..i])
  {
    if j > i {
      RunsStopAtFailure(g, a, envs, i, j - 1);
      assert envs[..j][..j - 1] == envs[..j - 1];
    }
  }

  /** The repetitions a call makes. */
  function RunCount(a: Args): nat {
    Repetitions(AppRunTimes(a.runList, a.durationTimes))
  }

  /** Duration needs a reference frame: without either path the call fails
      before anything else happens. */
  predicate MissingReferences(a: Args) {
    DURATION in a.runList && a.startPath == "" && a.stopPath == ""
  }

  /** One call of the wrapper, one environment per repetition. */
  function AppCall(g: Globals, a: Args, envs: seq<RunEnv>): (Globals, Result<()>)
    requires |envs| == RunCount(a)
  {
    if MissingReferences(a) then (g, Err(FileNotFoundError))
    else
      var p := Runs(g.(reportImage := []), a, envs);
      if p.failure.Some? then (p.g, Err(p.failure.value))
      else Tail(p.g, p.acc, a)
  }

  /** The inputs the image code needs: readable images and listed `.jpg`
      files are gray grids of the hash size. */
  predicate EnvsOk(a: Args, envs: seq<RunEnv>) {
    FilesOk(a.files) && forall k :: 0 <= k < |envs| ==> ListingOk(envs[k].listing)
  }

  // ---------------------------------------------------------------------
  // Properties of a call
  // ---------------------------------------------------------------------

  /** The exceptions a repetition can raise. */
  predicate LoopError(e: Error) {
    e in {ValueError, ZeroDivisionError, ImageReadError, TypeError, IndexError, AssertionError(CASE_FAILED)}
  }

  lemma DurationStepFacts(g: Globals, acc: Acc, a: Args, env: RunEnv)
    requires AccKinds(acc)
    ensures var d := DurationStep(g, acc, a, env);
      && (d.Ok? ==> AccKinds(d.value) && d.value.cpu == acc.cpu && d.value.mem == acc.mem && d.value.fps == acc.fps)
      && (d.Err? ==> LoopError(d.error))
      && (d.Ok? && DURATION in a.runList && g.recordError == [] ==> |d.value.durations| == |acc.durations| + 1)
  {
    if DURATION in a.runList {
      var w := FrameWindow(env.recording.fps, env.recording.frameCount, FRAME_SECONDS as real, FRAME_SECONDS as real);
      if w.Ok? && g.recordError == [] {
        var m := Measure(a.files, a.startPath, a.stopPath, env.listing);
        if m.Err? {
          assert m.error in {ImageReadError, TypeError, ValueError, IndexError};
        }
      }
    }
  }

  lemma ChartStepFacts(g: Globals, acc: Acc, a: Args, t: nat)
    requires AccKinds(acc)
    ensures var c := ChartStep(g, acc, a, t);
      && (c.Ok? ==> AccKinds(c.value) && c.value.durations == acc.durations)
      && (c.Err? ==> c.error == TypeError)
  {
  }

  lemma RepetitionInvariant(g: Globals, acc: Acc, a: Args, env: RunEnv, t: nat)
    requires AccKinds(acc)
    ensures var p := Repetition(g, acc, a, env, t);
      && p.g.rows == g.rows && p.g.recordError == g.recordError && p.g.reportImage == g.reportImage
      && AccKinds(p.acc)
      && (p.failure.Some? ==> LoopError(p.failure.value))
      && (p.failure.None? && DURATION in a.runList && g.recordError == [] ==>
            |p.acc.durations| == |acc.durations| + 1)
  {
    var g1 := Joined(g, a, env);
    DurationStepFacts(g1, acc, a, env);
    var d := DurationStep(g1, acc, a, env);
    if d.Ok? {
      ChartStepFacts(g1, d.value, a, t);
    }
  }

  /** The loop never touches the PERF rows, the recording errors or the
      report images; it raises only loop errors; each image list keeps its
      kind; and when Duration is measured without a recording error, every
      completed repetition contributes exactly one duration. */
  lemma {:induction false} RunsInvariant(g: Globals, a: Args, envs: seq<RunEnv>)
    ensures var p := Runs(g, a, envs);
      && p.g.rows == g.rows && p.g.recordError == g.recordError && p.g.reportImage == g.reportImage
      && AccKinds(p.acc)
      && (p.failure.Some? ==> LoopError(p.failure.value))
      && (p.failure.None? && DURATION in a.runList && g.recordError == [] ==> |p.acc.durations| == |envs|)
  {
    if envs != [] {
      var p := Runs(g, a, envs[..|envs| - 1]);
      RunsInvariant(g, a, envs[..|envs| - 1]);
      if p.failure.None? {
        RepetitionInvariant(p.g, p.acc, a, envs[|envs| - 1], |envs| - 1);
      }
    }
  }

  /** FileNotFoundError is raised exactly when Duration is requested with
      neither reference path, and then nothing has changed. */
  lemma FileNotFoundOnlyWithoutReferences(g: Globals, a: Args, envs: seq<RunEnv>)
    requires |envs| == RunCount(a)
    ensures AppCall(g, a, envs).1 == Err(FileNotFoundError) <==> MissingReferences(a)
    ensures MissingReferences(a) ==> AppCall(g, a, envs).0 == g
  {
    RunsInvariant(g.(reportImage := []), a, envs);
  }

  /** Persist, then assert: a call adds at most one row and keeps the old
      ones; it succeeds only after adding a passing row; a threshold
      assertion fires only after adding a failing row, and only for a
      measure above its threshold. */
  lemma PersistThenAssert(g: Globals, a: Args, envs: seq<RunEnv>)
    requires |envs| == RunCount(a)
    ensures var (g', r) := AppCall(g, a, envs);
      g'.rows == g.rows || (|g'.rows| == |g.rows| + 1 && g'.rows[..|g.rows|] == g.rows)
    ensures var (g', r) := AppCall(g, a, envs);
      r.Ok? ==> |g'.rows| == |g.rows| + 1 && g'.rows[|g.rows|].result == 1
    ensures var (g', r) := AppCall(g, a, envs);
      (r == Err(AssertionError(MEMORY_EXCEEDED)) || r == Err(AssertionError(DURATION_EXCEEDED)))
      <==> (|g'.rows| == |g.rows| + 1 && g'.rows[|g.rows|].result == -1)
    ensures var (g', r) := AppCall(g, a, envs);
      r == Err(AssertionError(MEMORY_EXCEEDED)) ==> g'.rows[|g.rows|].memoryMax > a.memThreshold
    ensures var (g', r) := AppCall(g, a, envs);
      r == Err(AssertionError(DURATION_EXCEEDED)) ==>
        g'.rows[|g.rows|].durationAvg > a.durationThreshold && g'.rows[|g.rows|].memoryMax <= a.memThreshold
  {
    RunsInvariant(g.(reportImage := []), a, envs);
    var p := Runs(g.(reportImage := []), a, envs);
    if !MissingReferences(a) && p.failure.None? {
      var avg := DurationAvg(p.acc.durations);
      var perf := PERFORMANCE in a.runList;
      var g1 := if perf && p.g.perfError == [] then
          p.g.(reportImage := p.g.reportImage + PhotoList(p.acc.cpu, p.acc.mem, p.acc.fps, [], [], p.acc.start, p.acc.stop))
        else p.g;
      var mm := MemoryMax(perf, if g1.perfInfo.Some? then Some(g1.perfInfo.value.mem) else None);
      if mm.Ok? {
        AssertResultMeaning(mm.value, a.memThreshold, avg, a.durationThreshold);
      }
    }
  }

  /** `App` never clears CASE_ERROR: once a case has failed, every later
      call that reaches its first repetition fails its case assertion and
      adds no row, whatever its own case does. */
  lemma StaleCaseErrorFailsLaterCalls(g: Globals, a: Args, envs: seq<RunEnv>)
    requires |envs| == RunCount(a)
    requires g.caseError != [] && !MissingReferences(a) && RunCount(a) > 0
    requires DispatchError(a.runList, a.platform).None?
    ensures AppCall(g, a, envs).1 == Err(AssertionError(CASE_FAILED))
    ensures AppCall(g, a, envs).0.rows == g.rows
  {
    var g0 := g.(reportImage := []);
    assert envs[..1][..0] == [];
    assert Runs(g0, a, envs[..1]).failure == Some(AssertionError(CASE_FAILED));
    RunsStopAtFailure(g0, a, envs, 1, |envs|);
    assert envs[..|envs|] == envs;
  }

  /** A successful Duration call without recording errors records one
      duration per repetition: DURATION_TIMES of them when asked for once. */
  lemma DurationsPerRepetition(g: Globals, a: Args, envs: seq<RunEnv>)
    requires |envs| == RunCount(a)
    requires AppCall(g, a, envs).1.Ok? && DURATION in a.runList && g.recordError == []
    ensures var g' := AppCall(g, a, envs).0;
      |g'.rows| == |g.rows| + 1 && |g'.rows[|g.rows|].durationList| == RunCount(a)
    ensures a.durationTimes == 1 ==> |AppCall(g, a, envs).0.rows[|g.rows|].durationList| == DURATION_TIMES
  {
    RunsInvariant(g.(reportImage := []), a, envs);
    PersistThenAssert(g, a, envs);
  }

  /** The report images a call leaves are in report order: CPU charts, memory
      charts, fps charts, then start and stop frames. */
  lemma ReportImagesOrdered(g: Globals, a: Args, envs: seq<RunEnv>)
    requires |envs| == RunCount(a) && !MissingReferences(a)
    ensures RankOrdered(AppCall(g, a, envs).0.reportImage)
  {
    var g0 := g.(reportImage := []);
    var p := Runs(g0, a, envs);
    assert p.g.reportImage == [] && AccKinds(p.acc) by {
      RunsInvariant(g0, a, envs);
    }
    if p.failure.None? {
      TailImagesOrdered(p.g, p.acc, a);
    }
  }

  /** Started from no report images, the tail leaves them in report order. */
  lemma TailImagesOrdered(g: Globals, acc: Acc, a: Args)
    requires g.reportImage == [] && AccKinds(acc)
    ensures RankOrdered(Tail(g, acc, a).0.reportImage)
  {
    PhotoListOrdered(acc.cpu, acc.mem, acc.fps, [], [], acc.start, acc.stop);
  }

  // ---------------------------------------------------------------------
  // The wrapper as a procedure over the process state
  // ---------------------------------------------------------------------

  class Session {
    var caseError: seq<string>
    var perfError: seq<string>
    var recordError: seq<string>
    var reportImage: seq<Image>
    var perfInfo: Option<Streams>
    var rows: seq<Row>

    function State(): Globals
      reads this
    {
      Globals(caseError, perfError, recordError, reportImage, perfInfo, rows)
    }

    constructor (g: Globals)
      ensures State() == g
    {
      caseError, perfError, recordError := g.caseError, g.perfError, g.recordError;
      reportImage, perfInfo, rows := g.reportImage, g.perfInfo, g.rows;
    }

    /** The joined effects of one repetition's concurrent work. */
    method Join(a: Args, env: RunEnv)
      modifies this
      ensures State() == Joined(old(State()), a, env)
    {
      caseError := caseError + env.caseErrors;
      if PERFORMANCE in a.runList {
        perfError := perfError + env.perfErrors;
        if env.published.Some? {
          perfInfo := env.published;
        }
      }
    }

    /** One repetition of the loop. */
    method RunOnce(a: Args, env: RunEnv, t: nat, acc: Acc) returns (acc': Acc, failure: Option<Error>)
      requires FilesOk(a.files) && ListingOk(env.listing)
      modifies this
      ensures var p := Repetition(old(State()), acc, a, env, t);
        State() == p.g && failure == p.failure && (failure.None? ==> acc' == p.acc)
    {
      acc' := acc;
      var bad := FirstUnsupported(a.runList, a.platform);
      if bad.Some? {
        return acc, Some(ValueError);
      }
      Join(a, env);
      if caseError != [] {
        return acc, Some(AssertionError(CASE_FAILED));
      }
      if DURATION in a.runList {
        var written := ExtractFrames(env.recording.video, env.recording.fps, env.recording.frameCount,
                                     FRAME_SECONDS as real, FRAME_SECONDS as real);
        if written.Err? {
          return acc, Some(written.error);
        }
        if recordError == [] {
          var m := MeasureRun(a.files, a.startPath, a.stopPath, env.listing);
          if m.Err? {
            return acc, Some(m.error);
          }
          acc' := Collect(acc', m.value);
        }
      }
      if PERFORMANCE in a.runList && perfError == [] {
        if perfInfo.None? {
          return acc', Some(TypeError);
        }
        acc' := AddCharts(acc', t);
      }
      failure := None;
    }

    /** The aggregation, the row insert and the threshold assertions. */
    method Finish(a: Args, acc: Acc) returns (r: Result<()>)
      modifies this
      ensures (State(), r) == Tail(old(State()), acc, a)
    {
      var perf := PERFORMANCE in a.runList;
      if perf && perfError == [] {
        reportImage := reportImage + PhotoList(acc.cpu, acc.mem, acc.fps, [], [], acc.start, acc.stop);
      }
      var durationAvg := DurationAvg(acc.durations);
      var memoryMax := MemoryMax(perf, if perfInfo.Some? then Some(perfInfo.value.mem) else None);
      if memoryMax.Err? {
        return Err(memoryMax.error);
      }
      var assertResult := AssertResult(memoryMax.value, a.memThreshold, durationAvg, a.durationThreshold);
      rows := rows + [Row(a.durationTimes, acc.durations, durationAvg, memoryMax.value, a.runList, assertResult)];
      if memoryMax.value > a.memThreshold {
        return Err(AssertionError(MEMORY_EXCEEDED));
      }
      if durationAvg > a.durationThreshold {
        return Err(AssertionError(DURATION_EXCEEDED));
      }
      r := Ok(());
    }

    /** The repetition loop, `range(run_times)` with one environment per
        repetition. */
    method Repeat(a: Args, envs: seq<RunEnv>) returns (acc: Acc, failure: Option<Error>)
      requires EnvsOk(a, envs)
      modifies this
      ensures var p := Runs(old(State()), a, envs);
        State() == p.g && failure == p.failure && (failure.None? ==> acc == p.acc)
    {
      ghost var g0 := State();
      acc := NoAcc;
      var t := 0;
      while t < |envs|
        invariant 0 <= t <= |envs|
        invariant Runs(g0, a, envs[..t]) == Progress(State(), acc, None)
      {
        RunsNext(g0, a, envs, t);
        acc, failure := RunOnce(a, envs[t], t, acc);
        if failure.Some? {
          RunsStopAtFailure(g0, a, envs, t + 1, |envs|);
          assert envs[..|envs|] == envs;
          return;
        }
        t := t + 1;
      }
      assert envs[..t] == envs;
      failure := None;
    }

    /** `App(...)(func)(...)`: one decorated call. */
    method App(a: Args, envs: seq<RunEnv>) returns (r: Result<()>)
      requires |envs| == RunCount(a) && EnvsOk(a, envs)
      modifies this
      ensures (State(), r) == AppCall(old(State()), a, envs)
    {
      if MissingReferences(a) {
        return Err(FileNotFoundError);
      }
      reportImage := [];
      var acc, failure := Repeat(a, envs);
      if failure.Some? {
        return Err(failure.value);
      }
      r := Finish(a, acc);
    }
  }
}
