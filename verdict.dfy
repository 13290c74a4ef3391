/** Aggregation and verdict of the performance decorators: how many
    repetitions run, which RunList entries and modes are accepted, the mean
    duration, the peak memory, the pass/fail code and the order in which
    report images are assembled. */
module Verdict {
  import opened Wrappers
  import opened Sampler

  /** Repetitions of a duration measurement when none are given. */
  const DURATION_TIMES: nat := 3
  /** The repetition count recorded for a stress run. */
  const STRESS_TIMES: nat := 3

  /** The RunList entries `App` understands. */
  const PERFORMANCE := "Performance"
  const EFFECT := "Effect"
  const DURATION := "Duration"
  const GETLOG := "GetLog"
  const ANDROID := "Android"

  // ---------------------------------------------------------------------
  // Repetitions and RunList
  // ---------------------------------------------------------------------

  /** `App`'s repetition count: a Duration run asked for once is repeated
      DURATION_TIMES times; otherwise the given count is used as is
      (a count below one runs nothing). */
  function AppRunTimes(runList: seq<string>, durationTimes: int): int {
    if DURATION in runList && durationTimes == 1 then DURATION_TIMES else durationTimes
  }

  /** The number of loop iterations `range(n)` makes. */
  function Repetitions(n: int): nat {
    if n < 0 then 0 else n
  }

  /** A RunList entry the dispatch loop handles; GetLog only on Android. */
  predicate Supported(run: string, platform: string) {
    run == DURATION || run == PERFORMANCE || run == EFFECT || (run == GETLOG && platform == ANDROID)
  }

  /** The position of the first entry the dispatch loop rejects, if any. */
  function FirstUnsupported(runList: seq<string>, platform: string): (r: Option<nat>)
    ensures r.Some? ==> (r.value < |runList| && !Supported(runList[r.value], platform)
      && forall k :: 0 <= k < r.value ==> Supported(runList[k], platform))
    ensures r.None? <==> forall k :: 0 <= k < |runList| ==> Supported(runList[k], platform)
  {
    if runList == [] then None
    else if !Supported(runList[0], platform) then Some(0)
    else
      var r := FirstUnsupported(runList[1..], platform);
      if r.None? then None else Some(r.value + 1)
  }

  /** The dispatch loop's outcome: ValueError at the first rejected entry. */
  function DispatchError(runList: seq<string>, platform: string): Option<Error> {
    if FirstUnsupported(runList, platform).Some? then Some(ValueError) else None
  }

  /** Dispatch raises exactly when some entry is outside the four names,
      or is GetLog on a platform other than Android. */
  lemma DispatchRejects(runList: seq<string>, platform: string)
    ensures DispatchError(runList, platform).Some? <==>
      exists k :: 0 <= k < |runList| &&
        ((runList[k] != DURATION && runList[k] != PERFORMANCE && runList[k] != EFFECT && runList[k] != GETLOG)
         || (runList[k] == GETLOG && platform != ANDROID))
    ensures DispatchError(runList, platform).Some? ==> DispatchError(runList, platform) == Some(ValueError)
  {
    if FirstUnsupported(runList, platform).Some? {
      var k := FirstUnsupported(runList, platform).value;
      assert !Supported(runList[k], platform);
    }
  }

  /** `AppPerf`'s run modes. */
  const NOTHING: int := 0
  const DEBUG: int := 1
  const DURATION_MODE: int := 2
  const STRESS: int := 3

  /** `AppPerf`'s repetition count for a mode: DURATION runs the given count
      or DURATION_TIMES when none is given, the other three modes run once,
      and any other mode is a ValueError. */
  function ModeRunTimes(mode: int, durationTimes: Option<int>): (r: Result<int>)
    ensures r.Err? <==> mode !in {NOTHING, DEBUG, DURATION_MODE, STRESS}
    ensures r.Err? ==> r.error == ValueError
    ensures r.Ok? && mode != DURATION_MODE ==> r.value == 1
    ensures r.Ok? && mode == DURATION_MODE && durationTimes.None? ==> r.value == DURATION_TIMES as int
    ensures r.Ok? && mode == DURATION_MODE && durationTimes.Some? ==> r.value == durationTimes.value
  {
    if mode == NOTHING || mode == DEBUG || mode == STRESS then Ok(1)
    else if mode == DURATION_MODE then Ok(if durationTimes.Some? then durationTimes.value else DURATION_TIMES)
    else Err(ValueError)
  }

  // ---------------------------------------------------------------------
  // Mean duration
  // ---------------------------------------------------------------------

  function Sum(xs: seq<real>): real {
    if xs == [] then 0.0 else Sum(xs[..|xs| - 1]) + xs[|xs| - 1]
  }

  /** `statistics.mean`: undefined (StatisticsError) for an empty list. */
  function Mean(xs: seq<real>): (r: Result<real>)
    ensures r.Err? <==> xs == []
    ensures r.Err? ==> r.error == StatisticsError
  {
    if xs == [] then Err(StatisticsError) else Ok(Sum(xs) / |xs| as real)
  }

  /** `duration_avg`: 0 for no durations, otherwise their mean
      (`round(..., 2)` is not modelled). */
  function DurationAvg(xs: seq<real>): real {
    if xs == [] then 0.0 else Mean(xs).value
  }

  lemma {:induction false} SumBounds(xs: seq<real>, lo: real, hi: real)
    requires forall k :: 0 <= k < |xs| ==> lo <= xs[k] <= hi
    ensures |xs| as real * lo <= Sum(xs) <= |xs| as real * hi
  {
    if xs != [] {
      SumBounds(xs[..|xs| - 1], lo, hi);
    }
  }

  /** The mean lies between any lower and upper bound of the durations. */
  lemma MeanWithinBounds(xs: seq<real>, lo: real, hi: real)
    requires xs != []
    requires forall k :: 0 <= k < |xs| ==> lo <= xs[k] <= hi
    ensures lo <= DurationAvg(xs) <= hi
  {
    SumBounds(xs, lo, hi);
    var n := |xs| as real;
    assert Sum(xs) / n >= lo by {
      assert Sum(xs) >= n * lo;
    }
    assert Sum(xs) / n <= hi by {
      assert Sum(xs) <= n * hi;
    }
  }

  /** Repetitions that all measure the same duration average to it. */
  lemma MeanOfConstant(xs: seq<real>, c: real)
    requires xs != []
    requires forall k :: 0 <= k < |xs| ==> xs[k] == c
    ensures DurationAvg(xs) == c
  {
    MeanWithinBounds(xs, c, c);
  }

  // ---------------------------------------------------------------------
  // Peak memory
  // ---------------------------------------------------------------------

  /** The first component of every sample, in order; a sample with no
      components is an IndexError. */
  function FirstComponents(samples: seq<Sample>): (r: Result<seq<real>>)
    ensures r.Ok? <==> forall k :: 0 <= k < |samples| ==> |samples[k]| > 0
    ensures r.Ok? ==> |r.value| == |samples| && forall k :: 0 <= k < |samples| ==> r.value[k] == samples[k][0]
    ensures r.Err? ==> r.error == IndexError
  {
    if samples == [] then Ok([])
    else
      var rest :- FirstComponents(samples[..|samples| - 1]);
      var last := samples[|samples| - 1];
      if |last| == 0 then Err(IndexError) else Ok(rest + [last[0]])
  }

  /** The largest element of a non-empty list. */
  function SeqMax(xs: seq<real>): (m: real)
    requires xs != []
    ensures exists k :: 0 <= k < |xs| && xs[k] == m
    ensures forall k :: 0 <= k < |xs| ==> xs[k] <= m
  {
    if |xs| == 1 then xs[0]
    else
      var m := SeqMax(xs[..|xs| - 1]);
      assert forall k :: 0 <= k < |xs| - 1 ==> xs[..|xs| - 1][k] == xs[k];
      if xs[|xs| - 1] > m then xs[|xs| - 1] else m
  }

  /** `max([tup[0] for tup in samples])`: max of an empty list is a
      ValueError. */
  function PeakFirst(samples: seq<Sample>): (r: Result<real>)
    ensures r.Ok? ==> exists k :: 0 <= k < |samples| && |samples[k]| > 0 && samples[k][0] == r.value
    ensures r.Ok? ==> forall k :: 0 <= k < |samples| ==> |samples[k]| > 0 && samples[k][0] <= r.value
    ensures r == Err(ValueError) <==> samples == []
    ensures r == Err(IndexError) <==> exists k :: 0 <= k < |samples| && |samples[k]| == 0
  {
    var firsts :- FirstComponents(samples);
    if firsts == [] then Err(ValueError) else Ok(SeqMax(firsts))
  }

  /** `memory_max`: 0 without Performance; otherwise the peak first component
      of the MEM_INFO samples, where a missing MEM_INFO entry is a TypeError. */
  function MemoryMax(performance: bool, memInfo: Option<Series>): (r: Result<real>)
    ensures !performance ==> r == Ok(0.0)
    ensures performance && memInfo.None? ==> r == Err(TypeError)
    ensures performance && memInfo.Some? ==> r == PeakFirst(memInfo.value.samples)
  {
    if !performance then Ok(0.0)
    else if memInfo.None? then Err(TypeError)
    else PeakFirst(memInfo.value.samples)
  }

  // ---------------------------------------------------------------------
  // Result code
  // ---------------------------------------------------------------------

  /** `assert_result`: starts at 1 and becomes -1 when either threshold is
      exceeded. */
  function AssertResult(memoryMax: real, memThreshold: real, durationAvg: real, durationThreshold: real): int {
    var r := 1;
    var r := if memoryMax > memThreshold then -1 else r;
    if durationAvg > durationThreshold then -1 else r
  }

  /** The code is 1 exactly when both measures are within their thresholds
      (equality passes), and -1 otherwise. */
  lemma AssertResultMeaning(memoryMax: real, memThreshold: real, durationAvg: real, durationThreshold: real)
    ensures AssertResult(memoryMax, memThreshold, durationAvg, durationThreshold) == 1
      <==> memoryMax <= memThreshold && durationAvg <= durationThreshold
    ensures AssertResult(memoryMax, memThreshold, durationAvg, durationThreshold) in {1, -1}
  {
  }

  // ---------------------------------------------------------------------
  // Report images
  // ---------------------------------------------------------------------

  /** An image placed in the report: a chart of one repetition, or a
      matched key frame. The flow and battery lists are never filled. */
  datatype Image =
    | CpuChart(run: nat)
    | MemChart(run: nat)
    | FpsChart(run: nat)
    | FloChart(run: nat)
    | BatChart(run: nat)
    | StartFrame(name: string)
    | StopFrame(name: string)

  /** An image's place in the report order. */
  function Rank(img: Image): nat {
    match img
    case CpuChart(_) => 0
    case MemChart(_) => 1
    case FpsChart(_) => 2
    case FloChart(_) => 3
    case BatChart(_) => 4
    case StartFrame(_) => 5
    case StopFrame(_) => 6
  }

  predicate AllRank(imgs: seq<Image>, r: nat) {
    forall k :: 0 <= k < |imgs| ==> Rank(imgs[k]) == r
  }

  predicate RankOrdered(imgs: seq<Image>) {
    forall i, j :: 0 <= i < j < |imgs| ==> Rank(imgs[i]) <= Rank(imgs[j])
  }

  /** The images a run adds to the report, CPU first and stop frames last. */
  function PhotoList(cpu: seq<Image>, mem: seq<Image>, fps: seq<Image>, flo: seq<Image>,
                     bat: seq<Image>, start: seq<Image>, stop: seq<Image>): seq<Image> {
    cpu + mem + fps + flo + bat + start + stop
  }

  lemma OrderedAppend(a: seq<Image>, b: seq<Image>, r: nat)
    requires RankOrdered(a) && (forall k :: 0 <= k < |a| ==> Rank(a[k]) <= r) && AllRank(b, r)
    ensures RankOrdered(a + b) && forall k :: 0 <= k < |a + b| ==> Rank((a + b)[k]) <= r
  {
  }

  /** With each list holding its own kind of image, the report order is
      CPU, MEM, FPS, flow, battery, start frames, stop frames, and every
      image of every list appears in it. */
  lemma PhotoListOrdered(cpu: seq<Image>, mem: seq<Image>, fps: seq<Image>, flo: seq<Image>,
                         bat: seq<Image>, start: seq<Image>, stop: seq<Image>)
    requires AllRank(cpu, 0) && AllRank(mem, 1) && AllRank(fps, 2) && AllRank(flo, 3)
    requires AllRank(bat, 4) && AllRank(start, 5) && AllRank(stop, 6)
    ensures RankOrdered(PhotoList(cpu, mem, fps, flo, bat, start, stop))
    ensures |PhotoList(cpu, mem, fps, flo, bat, start, stop)|
      == |cpu| + |mem| + |fps| + |flo| + |bat| + |start| + |stop|
  {
    OrderedAppend(cpu, mem, 1);
    OrderedAppend(cpu + mem, fps, 2);
    OrderedAppend(cpu + mem + fps, flo, 3);
    OrderedAppend(cpu + mem + fps + flo, bat, 4);
    OrderedAppend(cpu + mem + fps + flo + bat, start, 5);
    OrderedAppend(cpu + mem + fps + flo + bat + start, stop, 6);
  }
}
