/** The `AppPerf` decorator: a run mode picks what a repetition does
    (nothing, record and split frames, measure durations, or stress with
    performance collection). CASE_ERROR, PERF_ERROR and LOGS_ERROR are
    cleared at the start of every repetition, RECORD_ERROR is not; the
    threshold assertions come before the result record is queued for the
    spreadsheet, so a breaching run is never written.

    As for `App`, a repetition's concurrent work is an input: what it
    leaves behind once joined. */
module PerfDecorator {
  import opened Wrappers
  import opened Duration
  import opened Sampler
  import opened Verdict
  import opened Keyframes

  /** What one repetition's joined concurrent work leaves behind: the errors
      appended by the case, the collector and the recorder,
      the series the collector published, the recording and the frame
      folder as listed after extraction. */
  datatype RunEnv = RunEnv(
    caseErrors: seq<string>,
    perfErrors: seq<string>,
    recordErrors: seq<string>,
    published: Option<Streams>,
    recording: Recording,
    listing: seq<Frame>)

  /** The decorator's arguments. `files` are the readable images by path;
      the key frames of case `name` live under `<platform>KeyFrames`. */
  datatype Args = Args(
    mode: int,
    durationTimes: Option<int>,
    memThreshold: real,
    durationThreshold: real,
    writeExcel: bool,
    platform: string,
    name: string,
    files: map<string, Grid>)

  function StartPath(a: Args): string { a.platform + "KeyFrames/" + a.name + "_start.jpg" }
  function StopPath(a: Args): string { a.platform + "KeyFrames/" + a.name + "_stop.jpg" }

  /** A record queued for the spreadsheet. */
  datatype ExcelRow =
    | DurationRow(times: int, durationList: seq<real>, durationAvg: real)
    | StressRow(times: int, memMax: real)

  /** The process-wide state: the four error lists, the report images, the
      performance entries of the cache and the queued spreadsheet records. */
  datatype Globals = Globals(
    caseError: seq<string>,
    perfError: seq<string>,
    logsError: seq<string>,
    recordError: seq<string>,
    reportImage: seq<Image>,
    perfInfo: Option<Streams>,
    writeExcel: seq<ExcelRow>)

  datatype Progress = Progress(g: Globals, acc: Acc, failure: Option<Error>)

  const CASE_FAILED := "CASE_ERROR"
  const MEMORY_EXCEEDED := "max_mem_res"
  const DURATION_EXCEEDED := "max_duration_res"

  /** Modes that collect performance data. */
  predicate Collects(mode: int) { mode == DURATION_MODE || mode == STRESS }
  /** Modes that split the recording into frames. */
  predicate Splits(mode: int) { mode == DEBUG || mode == DURATION_MODE }

  /** The state at the start of a repetition: three lists cleared. */
  function Reset(g: Globals): Globals {
    g.(caseError := [], perfError := [], logsError := [])
  }

  /** The state once a repetition's concurrent work has been joined. The
      collector only runs in the collecting modes; the recorder always runs.
      The log reader is a thread nobody joins, so what it appends to
      LOGS_ERROR is not tied to a repetition. */
  function Joined(g: Globals, a: Args, env: RunEnv): Globals {
    var collects := Collects(a.mode);
    g.(caseError := g.caseError + env.caseErrors,
       perfError := if collects then g.perfError + env.perfErrors else g.perfError,
       recordError := g.recordError + env.recordErrors,
       perfInfo := if collects && env.published.Some? then env.published else g.perfInfo)
  }

  /** Frame splitting and key-frame search of one repetition, both skipped
      once RECORD_ERROR is non-empty. */
  function FrameStep(g: Globals, acc: Acc, a: Args, env: RunEnv): Result<Acc> {
    if !Splits(a.mode) || g.recordError != [] then Ok(acc)
    else
      var w :- FrameWindow(env.recording.fps, env.recording.frameCount, FRAME_SECONDS as real, FRAME_SECONDS as real);
      if a.mode != DURATION_MODE then Ok(acc)
      else
        var m :- Measure(a.files, StartPath(a), StopPath(a), env.listing);
        Ok(Collect(acc, m))
  }

  /** Charting of one repetition in the collecting modes without a
      performance error. */
  function ChartStep(g: Globals, acc: Acc, a: Args, t: nat): Result<Acc> {
    if !Collects(a.mode) || g.perfError != [] then Ok(acc) else Charts(acc, g.perfInfo, t)
  }

  /** Repetition `t` of the loop. */
  function Repetition(g: Globals, acc: Acc, a: Args, env: RunEnv, t: nat): Progress {
    var g1 := Joined(Reset(g), a, env);
    if g1.caseError != [] then Progress(g1, acc, Some(AssertionError(CASE_FAILED)))
    else
      match FrameStep(g1, acc, a, env)
      case Err(e) => Progress(g1, acc, Some(e))
      case Ok(acc1) =>
        match ChartStep(g1, acc1, a, t)
        case Err(e) => Progress(g1, acc1, Some(e))
        case Ok(acc2) => Progress(g1, acc2, None)
  }

  function Runs(g: Globals, a: Args, envs: seq<RunEnv>): Progress {
    if envs == [] then Progress(g, NoAcc, None)
    else
      var p := Runs(g, a, envs[..|envs| - 1]);
      if p.failure.Some? then p else Repetition(p.g, p.acc, a, envs[|envs| - 1], |envs| - 1)
  }

  /** One more repetition after a prefix of the loop that did not fail. */
  lemma RunsNext(g: Globals, a: Args, envs: seq<RunEnv>, t: nat)
    requires t < |envs| && Runs(g, a, envs[..t]).failure.None?
    ensures var p := Runs(g, a, envs[..t]);
      Runs(g, a, envs[..t + 1]) == Repetition(p.g, p.acc, a, envs[t], t)
  {
    assert envs[..t + 1][..t] == envs[..t];
  }

  lemma {:induction false} RunsStopAtFailure(g: Globals, a: Args, envs: seq<RunEnv>, i: nat, j: nat)
    requires i <= j <= |envs|
    requires Runs(g, a, envs[..i]).failure.Some?
    ensures Runs(g, a, envs[..j]) == Runs(g, a, envs[..i])
  {
    if j > i {
      RunsStopAtFailure(g, a, envs, i, j - 1);
      assert envs[..j][..j - 1] == envs[..j - 1];
    }
  }

  /** Queue a record when spreadsheet output is on. */
  function Queue(g: Globals, a: Args, row: ExcelRow): Globals {
    if a.writeExcel then g.(writeExcel := g.writeExcel + [row]) else g
  }

  /** After the loop, in the collecting modes without a performance error:
      report images, then the mode's threshold check, then the record. */
  function Tail(g: Globals, acc: Acc, a: Args, runTimes: int): (Globals, Result<()>) {
    if !Collects(a.mode) || g.perfError != [] then (g, Ok(()))
    else
      var g1 := g.(reportImage := g.reportImage + PhotoList(acc.cpu, acc.mem, acc.fps, [], [], acc.start, acc.stop));
      if a.mode == DURATION_MODE then
        match Verdict.Mean(acc.durations)
        case Err(e) => (g1, Err(e))
        case Ok(avg) =>
          if avg > a.durationThreshold then (g1, Err(AssertionError(DURATION_EXCEEDED)))
          else (Queue(g1, a, DurationRow(runTimes, acc.durations, avg)), Ok(()))
      else
        match MemoryMax(true, if g1.perfInfo.Some? then Some(g1.perfInfo.value.mem) else None)
        case Err(e) => (g1, Err(e))
        case Ok(mm) =>
          if mm > a.memThreshold then (g1, Err(AssertionError(MEMORY_EXCEEDED)))
          else (Queue(g1, a, StressRow(STRESS_TIMES, mm)), Ok(()))
  }

  /** The repetitions a call makes (none when the mode is rejected). */
  function RunCount(a: Args): nat {
    var n := ModeRunTimes(a.mode, a.durationTimes);
    if n.Ok? then Repetitions(n.value) else 0
  }

  /** DURATION needs both key frames of the case. */
  predicate MissingKeyframes(a: Args) {
    a.mode == DURATION_MODE && (StartPath(a) !in a.files || StopPath(a) !in a.files)
  }

  /** One call of the wrapper, one environment per repetition. */
  function PerfCall(g: Globals, a: Args, envs: seq<RunEnv>): (Globals, Result<()>)
    requires |envs| == RunCount(a)
  {
    match ModeRunTimes(a.mode, a.durationTimes)
    case Err(e) => (g, Err(e))
    case Ok(runTimes) =>
      if MissingKeyframes(a) then (g, Err(FileNotFoundError))
      else
        var p := Runs(g.(reportImage := []), a, envs);
        if p.failure.Some? then (p.g, Err(p.failure.value))
        else Tail(p.g, p.acc, a, runTimes)
  }

  predicate EnvsOk(a: Args, envs: seq<RunEnv>) {
    FilesOk(a.files) && forall k :: 0 <= k < |envs| ==> ListingOk(envs[k].listing)
  }

  // ---------------------------------------------------------------------
  // Properties of a call
  // ---------------------------------------------------------------------

  predicate LoopError(e: Error) {
    e in {ZeroDivisionError, ImageReadError, TypeError, ValueError, IndexError, AssertionError(CASE_FAILED)}
  }

  lemma FrameStepFacts(g: Globals, acc: Acc, a: Args, env: RunEnv)
    requires AccKinds(acc)
    ensures var d := FrameStep(g, acc, a, env);
      && (d.Ok? ==> AccKinds(d.value) && d.value.cpu == acc.cpu && d.value.mem == acc.mem && d.value.fps == acc.fps)
      && (d.Err? ==> LoopError(d.error))
      && (d.Ok? && g.recordError != [] ==> d.value == acc)
      && (d.Ok? && a.mode == DURATION_MODE && g.recordError == [] ==> |d.value.durations| == |acc.durations| + 1)
  {
    if Splits(a.mode) && g.recordError == [] {
      var w := FrameWindow(env.recording.fps, env.recording.frameCount, FRAME_SECONDS as real, FRAME_SECONDS as real);
      if w.Ok? && a.mode == DURATION_MODE {
        var m := Measure(a.files, StartPath(a), StopPath(a), env.listing);
        if m.Err? {
          assert m.error in {ImageReadError, TypeError, ValueError, IndexError};
        }
      }
    }
  }

  lemma RepetitionInvariant(g: Globals, acc: Acc, a: Args, env: RunEnv, t: nat)
    requires AccKinds(acc)
    ensures var p := Repetition(g, acc, a, env, t);
      && p.g.writeExcel == g.writeExcel && p.g.reportImage == g.reportImage
      && |p.g.recordError| >= |g.recordError|
      && AccKinds(p.acc)
      && (p.failure.Some? ==> LoopError(p.failure.value))
      && (p.g.recordError != [] ==> p.acc.durations == acc.durations)
      && (p.failure.None? && a.mode == DURATION_MODE && p.g.recordError == [] ==>
            |p.acc.durations| == |acc.durations| + 1)
  {
    var g1 := Joined(Reset(g), a, env);
    FrameStepFacts(g1, acc, a, env);
  }

  /** The loop never touches the queued records or the report images and
      raises only loop errors; RECORD_ERROR only grows; while it stays
      empty in DURATION mode every completed repetition contributes one
      duration, and once it is non-empty no duration is collected. */
  lemma {:induction false} RunsInvariant(g: Globals, a: Args, envs: seq<RunEnv>)
    ensures var p := Runs(g, a, envs);
      && p.g.writeExcel == g.writeExcel && p.g.reportImage == g.reportImage
      && |p.g.recordError| >= |g.recordError|
      && AccKinds(p.acc)
      && (p.failure.Some? ==> LoopError(p.failure.value))
      && (g.recordError != [] ==> p.acc.durations == [])
      && (p.failure.None? && a.mode == DURATION_MODE && p.g.recordError == [] ==> |p.acc.durations| == |envs|)
  {
    if envs != [] {
      var p := Runs(g, a, envs[..|envs| - 1]);
      RunsInvariant(g, a, envs[..|envs| - 1]);
      if p.failure.None? {
        RepetitionInvariant(p.g, p.acc, a, envs[|envs| - 1], |envs| - 1);
      }
    }
  }

  /** A mode outside RunType's four values is a ValueError before anything
      changes. */
  lemma UnknownModeRejected(g: Globals, a: Args, envs: seq<RunEnv>)
    requires |envs| == RunCount(a)
    requires a.mode !in {NOTHING, DEBUG, DURATION_MODE, STRESS}
    ensures PerfCall(g, a, envs) == (g, Err(ValueError))
  {
  }

  /** In DURATION mode, FileNotFoundError is raised exactly when a key
      frame of the case is missing, and then nothing has changed. */
  lemma KeyframesRequired(g: Globals, a: Args, envs: seq<RunEnv>)
    requires |envs| == RunCount(a) && a.mode == DURATION_MODE
    ensures PerfCall(g, a, envs).1 == Err(FileNotFoundError) <==> MissingKeyframes(a)
    ensures MissingKeyframes(a) ==> PerfCall(g, a, envs).0 == g
  {
    RunsInvariant(g.(reportImage := []), a, envs);
  }

  /** A record is queued only by a successful call, in a collecting mode,
      and only with its measure within the threshold: a breaching run is
      never written. */
  lemma BreachNeverWritten(g: Globals, a: Args, envs: seq<RunEnv>)
    requires |envs| == RunCount(a)
    ensures var (g', r) := PerfCall(g, a, envs);
      g'.writeExcel == g.writeExcel || (r.Ok? && |g'.writeExcel| == |g.writeExcel| + 1
        && g'.writeExcel[..|g.writeExcel|] == g.writeExcel)
    ensures var (g', r) := PerfCall(g, a, envs);
      |g'.writeExcel| > |g.writeExcel| ==>
        var row := g'.writeExcel[|g.writeExcel|];
        && (a.mode == DURATION_MODE ==> row.DurationRow? && row.durationAvg <= a.durationThreshold)
        && (a.mode == STRESS ==> row.StressRow? && row.memMax <= a.memThreshold && row.times == STRESS_TIMES)
        && Collects(a.mode)
    ensures var (g', r) := PerfCall(g, a, envs);
      r == Err(AssertionError(DURATION_EXCEEDED)) || r == Err(AssertionError(MEMORY_EXCEEDED)) ==>
        g'.writeExcel == g.writeExcel
  {
    if ModeRunTimes(a.mode, a.durationTimes).Ok? && !MissingKeyframes(a) {
      RunsInvariant(g.(reportImage := []), a, envs);
    }
  }

  /** A DURATION record holds one duration per repetition, and its repetition
      count, when no recording error occurs. */
  lemma DurationRecordPerRepetition(g: Globals, a: Args, envs: seq<RunEnv>)
    requires |envs| == RunCount(a) && a.mode == DURATION_MODE
    requires |PerfCall(g, a, envs).0.writeExcel| > |g.writeExcel|
    requires Runs(g.(reportImage := []), a, envs).g.recordError == []
    ensures var row := PerfCall(g, a, envs).0.writeExcel[|g.writeExcel|];
      row.DurationRow? && |row.durationList| == RunCount(a) && row.times == ModeRunTimes(a.mode, a.durationTimes).value
  {
    RunsInvariant(g.(reportImage := []), a, envs);
    BreachNeverWritten(g, a, envs);
  }

  /** RECORD_ERROR is never cleared: once a recording has failed, no later
      DURATION call collects a duration, so none can queue a record
      (`statistics.mean` of no durations raises). */
  lemma StaleRecordErrorBlocksDuration(g: Globals, a: Args, envs: seq<RunEnv>)
    requires |envs| == RunCount(a) && a.mode == DURATION_MODE && g.recordError != []
    ensures PerfCall(g, a, envs).0.writeExcel == g.writeExcel
    ensures PerfCall(g, a, envs).1.Ok? ==> Runs(g.(reportImage := []), a, envs).g.perfError != []
  {
    if !MissingKeyframes(a) {
      RunsInvariant(g.(reportImage := []), a, envs);
    }
  }

  lemma ResetAbsorbs(g: Globals, c: seq<string>, p: seq<string>, l: seq<string>)
    ensures Reset(g.(caseError := c, perfError := p, logsError := l)) == Reset(g)
  {
  }

  /** CASE_ERROR, PERF_ERROR and LOGS_ERROR are cleared at the start of every
      repetition: once a call runs at least one repetition, whatever they
      held before makes no difference to its outcome, nor, unless the call
      stops at the key-frame check, to the state it leaves. */
  lemma StaleErrorsForgotten(g: Globals, a: Args, envs: seq<RunEnv>, c: seq<string>, p: seq<string>, l: seq<string>)
    requires |envs| == RunCount(a) && |envs| > 0
    ensures PerfCall(g.(caseError := c, perfError := p, logsError := l), a, envs).1 == PerfCall(g, a, envs).1
    ensures !MissingKeyframes(a) ==>
      PerfCall(g.(caseError := c, perfError := p, logsError := l), a, envs) == PerfCall(g, a, envs)
  {
    var h := g.(caseError := c, perfError := p, logsError := l);
    var g0 := g.(reportImage := []);
    var h0 := h.(reportImage := []);
    assert Reset(h0) == Reset(g0);
    RunsFromFirst(g0, h0, a, envs, |envs|);
    assert envs[..|envs|] == envs;
    assert Runs(g0, a, envs) == Runs(h0, a, envs);
    assert h.(reportImage := []) == h0;
  }

  /** Two starting states that agree after a reset run the same from the
      first repetition on. */
  lemma {:induction false} RunsFromFirst(g: Globals, h: Globals, a: Args, envs: seq<RunEnv>, k: nat)
    requires Reset(g) == Reset(h) && 1 <= k <= |envs|
    ensures Runs(g, a, envs[..k]) == Runs(h, a, envs[..k])
  {
    if k == 1 {
      assert envs[..1][..0] == [];
      assert Repetition(g, NoAcc, a, envs[0], 0) == Repetition(h, NoAcc, a, envs[0], 0) by {
        assert Joined(Reset(g), a, envs[0]) == Joined(Reset(h), a, envs[0]);
      }
    } else {
      RunsFromFirst(g, h, a, envs, k - 1);
      assert envs[..k][..k - 1] == envs[..k - 1];
    }
  }

  /** The report images a call leaves, when it gets past mode and key-frame
      checks, are in report order. */
  lemma ReportImagesOrdered(g: Globals, a: Args, envs: seq<RunEnv>)
    requires |envs| == RunCount(a)
    requires ModeRunTimes(a.mode, a.durationTimes).Ok? && !MissingKeyframes(a)
    ensures RankOrdered(PerfCall(g, a, envs).0.reportImage)
  {
    var g0 := g.(reportImage := []);
    var p := Runs(g0, a, envs);
    assert p.g.reportImage == [] && AccKinds(p.acc) by {
      RunsInvariant(g0, a, envs);
    }
    if p.failure.None? {
      TailImagesOrdered(p.g, p.acc, a, ModeRunTimes(a.mode, a.durationTimes).value);
    }
  }

  /** Started from no report images, the tail leaves them in report order. */
  lemma TailImagesOrdered(g: Globals, acc: Acc, a: Args, runTimes: int)
    requires g.reportImage == [] && AccKinds(acc)
    ensures RankOrdered(Tail(g, acc, a, runTimes).0.reportImage)
  {
    PhotoListOrdered(acc.cpu, acc.mem, acc.fps, [], [], acc.start, acc.stop);
  }

  // ---------------------------------------------------------------------
  // The wrapper as a procedure over the process state
  // ---------------------------------------------------------------------

  class Session {
    var caseError: seq<string>
    var perfError: seq<string>
    var logsError: seq<string>
    var recordError: seq<string>
    var reportImage: seq<Image>
    var perfInfo: Option<Streams>
    var writeExcel: seq<ExcelRow>

    function State(): Globals
      reads this
    {
      Globals(caseError, perfError, logsError, recordError, reportImage, perfInfo, writeExcel)
    }

    constructor (g: Globals)
      ensures State() == g
    {
      caseError, perfError, logsError, recordError := g.caseError, g.perfError, g.logsError, g.recordError;
      reportImage, perfInfo, writeExcel := g.reportImage, g.perfInfo, g.writeExcel;
    }

    /** The start of a repetition and its joined concurrent work. */
    method Join(a: Args, env: RunEnv)
      modifies this
      ensures State() == Joined(Reset(old(State())), a, env)
    {
      caseError := [];
      perfError := [];
      logsError := [];
      caseError := caseError + env.caseErrors;
      recordError := recordError + env.recordErrors;
      if Collects(a.mode) {
        perfError := perfError + env.perfErrors;
        if env.published.Some? {
          perfInfo := env.published;
        }
      }
    }

    method RunOnce(a: Args, env: RunEnv, t: nat, acc: Acc) returns (acc': Acc, failure: Option<Error>)
      requires FilesOk(a.files) && ListingOk(env.listing)
      modifies this
      ensures var p := Repetition(old(State()), acc, a, env, t);
        State() == p.g && failure == p.failure && (failure.None? ==> acc' == p.acc)
    {
      acc' := acc;
      Join(a, env);
      if caseError != [] {
        return acc, Some(AssertionError(CASE_FAILED));
      }
      if Splits(a.mode) && recordError == [] {
        var written := ExtractFrames(env.recording.video, env.recording.fps, env.recording.frameCount,
                                     FRAME_SECONDS as real, FRAME_SECONDS as real);
        if written.Err? {
          return acc, Some(written.error);
        }
      }
      if a.mode == DURATION_MODE && recordError == [] {
        var m := MeasureRun(a.files, StartPath(a), StopPath(a), env.listing);
        if m.Err? {
          return acc, Some(m.error);
        }
        acc' := Collect(acc', m.value);
      }
      if Collects(a.mode) && perfError == [] {
        if perfInfo.None? {
          return acc', Some(TypeError);
        }
        acc' := AddCharts(acc', t);
      }
      failure := None;
    }

    method Repeat(a: Args, envs: seq<RunEnv>) returns (acc: Acc, failure: Option<Error>)
      requires EnvsOk(a, envs)
      modifies this
      ensures var p := Runs(old(State()), a, envs);
        State() == p.g && failure == p.failure && (failure.None? ==> acc == p.acc)
    {
      ghost var g0 := State();
      acc := NoAcc;
      var t := 0;
      while t < |envs|
        invariant 0 <= t <= |envs|
        invariant Runs(g0, a, envs[..t]) == Progress(State(), acc, None)
      {
        RunsNext(g0, a, envs, t);
        acc, failure := RunOnce(a, envs[t], t, acc);
        if failure.Some? {
          RunsStopAtFailure(g0, a, envs, t + 1, |envs|);
          assert envs[..|envs|] == envs;
          return;
        }
        t := t + 1;
      }
      assert envs[..t] == envs;
      failure := None;
    }

    method Finish(a: Args, acc: Acc, runTimes: int) returns (r: Result<()>)
      modifies this
      ensures (State(), r) == Tail(old(State()), acc, a, runTimes)
    {
      if !Collects(a.mode) || perfError != [] {
        return Ok(());
      }
      reportImage := reportImage + PhotoList(acc.cpu, acc.mem, acc.fps, [], [], acc.start, acc.stop);
      var row;
      if a.mode == DURATION_MODE {
        var mean := Verdict.Mean(acc.durations);
        if mean.Err? {
          return Err(mean.error);
        }
        if mean.value > a.durationThreshold {
          return Err(AssertionError(DURATION_EXCEEDED));
        }
        row := DurationRow(runTimes, acc.durations, mean.value);
      } else {
        var maxMem := MemoryMax(true, if perfInfo.Some? then Some(perfInfo.value.mem) else None);
        if maxMem.Err? {
          return Err(maxMem.error);
        }
        if maxMem.value > a.memThreshold {
          return Err(AssertionError(MEMORY_EXCEEDED));
        }
        row := StressRow(STRESS_TIMES, maxMem.value);
      }
      if a.writeExcel {
        writeExcel := writeExcel + [row];
      }
      r := Ok(());
    }

    /** `AppPerf(...)(func)(...)`: one decorated call. */
    method AppPerf(a: Args, envs: seq<RunEnv>) returns (r: Result<()>)
      requires |envs| == RunCount(a) && EnvsOk(a, envs)
      modifies this
      ensures (State(), r) == PerfCall(old(State()), a, envs)
    {
      var runTimes := 1;
      if a.mode == NOTHING || a.mode == DEBUG || a.mode == STRESS {
      } else if a.mode == DURATION_MODE {
        runTimes := if a.durationTimes.Some? then a.durationTimes.value else DURATION_TIMES;
        if StartPath(a) !in a.files || StopPath(a) !in a.files {
          return Err(FileNotFoundError);
        }
      } else {
        return Err(ValueError);
      }
      reportImage := [];
      var acc, failure := Repeat(a, envs);
      if failure.Some? {
        return Err(failure.value);
      }
      r := Finish(a, acc, runTimes);
    }
  }
}
