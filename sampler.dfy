/** Performance sample collection: the iOS `TidevicePerf` collector, which
    routes typed callbacks into three paired time/value lists, and the
    Android `MySoloX` loops, which poll a reader while the lock flag holds. */
module Sampler {
  import opened Wrappers

  /** One performance sample: the tuple a collector appends (CPU rates,
      memory totals or a frame rate, first component first). */
  type Sample = seq<real>

  /** A collected series as published in the cache: a time list and a value
      list. Timestamps are kept as the numbers the clock gave; their
      `%H:%M:%S.%f` rendering is not modelled. */
  datatype Series = Series(times: seq<int>, samples: seq<Sample>) {
    /** The i-th timestamp belongs to the i-th sample. */
    predicate Paired() {
      |times| == |samples|
    }
  }

  function Append(s: Series, t: int, x: Sample): (r: Series)
    ensures |r.times| == |s.times| + 1 && |r.samples| == |s.samples| + 1
  {
    Series(s.times + [t], s.samples + [x])
  }

  /** A tidevice performance callback: its data type and the payload fields
      the collector reads. */
  datatype Event = Event(kind: string, timestamp: int, value: real, sysValue: real)

  /** The three series a `TidevicePerf` holds. */
  datatype Streams = Streams(cpu: Series, mem: Series, fps: Series) {
    predicate Paired() {
      cpu.Paired() && mem.Paired() && fps.Paired()
    }
  }

  const NoStreams := Streams(Series([], []), Series([], []), Series([], []))

  /** The sample a callback of each known kind contributes. */
  function CpuSample(e: Event): Sample { [e.value, e.sysValue] }
  function MemSample(e: Event): Sample { [e.value, 0.0, 0.0] }
  function FpsSample(e: Event): Sample { [e.value, 0.0] }

  /** Where one callback lands: its kind picks the series, anything else is ignored. */
  function Route(st: Streams, e: Event): Streams {
    if e.kind == "cpu" then st.(cpu := Append(st.cpu, e.timestamp, CpuSample(e)))
    else if e.kind == "memory" then st.(mem := Append(st.mem, e.timestamp, MemSample(e)))
    else if e.kind == "fps" then st.(fps := Append(st.fps, e.timestamp, FpsSample(e)))
    else st
  }

  /** The streams after a run of callbacks, in arrival order. */
  function Feed(st: Streams, events: seq<Event>): Streams {
    if events == [] then st else Route(Feed(st, events[..|events| - 1]), events[|events| - 1])
  }

  /** Independent description of one series: the timestamps and samples of
      the events of one kind, in arrival order. */
  function TimesOf(events: seq<Event>, kind: string): seq<int> {
    if events == [] then []
    else
      var last := events[|events| - 1];
      TimesOf(events[..|events| - 1], kind) + (if last.kind == kind then [last.timestamp] else [])
  }

  function SamplesOf(events: seq<Event>, kind: string, f: Event -> Sample): seq<Sample> {
    if events == [] then []
    else
      var last := events[|events| - 1];
      SamplesOf(events[..|events| - 1], kind, f) + (if last.kind == kind then [f(last)] else [])
  }

  /** Number of events of one kind. */
  function Count(events: seq<Event>, kind: string): nat {
    if events == [] then 0
    else Count(events[..|events| - 1], kind) + (if events[|events| - 1].kind == kind then 1 else 0)
  }

  /** A 'cpu' callback appends one timestamp and one (value, sys_value) pair
      and leaves the memory and fps series unchanged. */
  lemma CpuCallback(st: Streams, e: Event)
    requires e.kind == "cpu"
    ensures var r := Route(st, e);
      r.cpu == Series(st.cpu.times + [e.timestamp], st.cpu.samples + [[e.value, e.sysValue]])
      && r.mem == st.mem && r.fps == st.fps
  {
  }

  /** A 'memory' callback appends (value, 0, 0); an 'fps' callback appends
      (value, 0); each touches only its own series. */
  lemma MemoryAndFpsCallbacks(st: Streams, e: Event)
    ensures e.kind == "memory" ==> var r := Route(st, e);
      r.mem == Series(st.mem.times + [e.timestamp], st.mem.samples + [[e.value, 0.0, 0.0]])
      && r.cpu == st.cpu && r.fps == st.fps
    ensures e.kind == "fps" ==> var r := Route(st, e);
      r.fps == Series(st.fps.times + [e.timestamp], st.fps.samples + [[e.value, 0.0]])
      && r.cpu == st.cpu && r.mem == st.mem
  {
  }

  /** A callback of any other type changes nothing. */
  lemma OtherCallbackIgnored(st: Streams, e: Event)
    requires e.kind != "cpu" && e.kind != "memory" && e.kind != "fps"
    ensures Route(st, e) == st
  {
  }

  /** After any callback sequence each time list is as long as its value list. */
  lemma {:induction false} FeedKeepsPairing(st: Streams, events: seq<Event>)
    requires st.Paired()
    ensures Feed(st, events).Paired()
  {
    if events != [] {
      FeedKeepsPairing(st, events[..|events| - 1]);
    }
  }

  /** From cleared lists, each series holds exactly the events of its kind,
      in arrival order, and has one entry per such event. */
  lemma {:induction false} FeedFromEmpty(events: seq<Event>)
    ensures var r := Feed(NoStreams, events);
      && r.cpu == Series(TimesOf(events, "cpu"), SamplesOf(events, "cpu", CpuSample))
      && r.mem == Series(TimesOf(events, "memory"), SamplesOf(events, "memory", MemSample))
      && r.fps == Series(TimesOf(events, "fps"), SamplesOf(events, "fps", FpsSample))
      && |r.cpu.samples| == Count(events, "cpu")
      && |r.mem.samples| == Count(events, "memory")
      && |r.fps.samples| == Count(events, "fps")
  {
    if events != [] {
      FeedFromEmpty(events[..|events| - 1]);
    }
  }

  /** The iOS collector. Its six lists are the fields the callbacks append to. */
  class TidevicePerf {
    var cpuList: seq<Sample>
    var cpuTimeList: seq<int>
    var memList: seq<Sample>
    var memTimeList: seq<int>
    var fpsList: seq<Sample>
    var fpsTimeList: seq<int>

    /** The fields viewed as the three series. */
    function Snapshot(): Streams
      reads this
    {
      Streams(Series(cpuTimeList, cpuList), Series(memTimeList, memList), Series(fpsTimeList, fpsList))
    }

    predicate Valid()
      reads this
    {
      Snapshot().Paired()
    }

    constructor ()
      ensures Snapshot() == NoStreams && Valid()
    {
      cpuList, cpuTimeList := [], [];
      memList, memTimeList := [], [];
      fpsList, fpsTimeList := [], [];
    }

    /** One tidevice callback. */
    method Callback(e: Event)
      requires Valid()
      modifies this
      ensures Snapshot() == Route(old(Snapshot()), e)
      ensures Valid()
    {
      if e.kind == "cpu" {
        cpuTimeList := cpuTimeList + [e.timestamp];
        cpuList := cpuList + [[e.value, e.sysValue]];
      } else if e.kind == "memory" {
        memTimeList := memTimeList + [e.timestamp];
        memList := memList + [[e.value, 0.0, 0.0]];
      } else if e.kind == "fps" {
        fpsTimeList := fpsTimeList + [e.timestamp];
        fpsList := fpsList + [[e.value, 0.0]];
      }
    }

    /** `start`: all six lists are emptied before the collector subscribes
        (the subscription itself is the device's). */
    method Start()
      modifies this
      ensures Snapshot() == NoStreams && Valid()
    {
      memList, memTimeList := [], [];
      cpuList, cpuTimeList := [], [];
      fpsList, fpsTimeList := [], [];
    }

    /** `stop`: the three (time list, value list) pairs published as
        CPU_INFO, MEM_INFO and FPS_INFO. */
    method Stop() returns (cpuInfo: Series, memInfo: Series, fpsInfo: Series)
      requires Valid()
      ensures cpuInfo == Snapshot().cpu && memInfo == Snapshot().mem && fpsInfo == Snapshot().fps
      ensures cpuInfo.Paired() && memInfo.Paired() && fpsInfo.Paired()
    {
      cpuInfo := Series(cpuTimeList, cpuList);
      memInfo := Series(memTimeList, memList);
      fpsInfo := Series(fpsTimeList, fpsList);
    }
  }

  /** A session of callbacks between `start` and `stop` publishes exactly the
      events of each kind, paired with their timestamps. */
  method RecordSession(perf: TidevicePerf, events: seq<Event>) returns (cpuInfo: Series, memInfo: Series, fpsInfo: Series)
    modifies perf
    ensures cpuInfo == Series(TimesOf(events, "cpu"), SamplesOf(events, "cpu", CpuSample))
    ensures memInfo == Series(TimesOf(events, "memory"), SamplesOf(events, "memory", MemSample))
    ensures fpsInfo == Series(TimesOf(events, "fps"), SamplesOf(events, "fps", FpsSample))
  {
    perf.Start();
    for k := 0 to |events|
      invariant perf.Valid()
      invariant perf.Snapshot() == Feed(NoStreams, events[..k])
    {
      assert events[..k + 1][..k] == events[..k];
      perf.Callback(events[k]);
    }
    assert events[..|events|] == events;
    FeedFromEmpty(events);
    cpuInfo, memInfo, fpsInfo := perf.Stop();
  }

  /** One iteration of a `MySoloX` loop: what the reader returned (or the
      exception it raised) and the clock reading taken after it. */
  datatype Poll = Poll(reading: Result<Sample>, time: int)

  /** `get_mem`, `get_cpu` and `get_fps` share one shape: while the lock flag
      holds, read a sample and append it together with the time. `polls` are
      the iterations the flag allows; the loop ends when they run out or a
      reader raises, and then returns the partial lists and the PERF_ERROR
      cache entry the exception sets. */
  method CollectWhileLocked(polls: seq<Poll>) returns (times: seq<int>, samples: seq<Sample>, perfError: Option<Error>)
    ensures |times| == |samples| <= |polls|
    ensures forall k :: 0 <= k < |samples| ==> polls[k].reading == Ok(samples[k]) && times[k] == polls[k].time
    ensures perfError.None? <==> forall k :: 0 <= k < |polls| ==> polls[k].reading.Ok?
    ensures perfError.None? ==> |samples| == |polls|
    ensures perfError.Some? ==> |samples| < |polls| && polls[|samples|].reading == Err(perfError.value)
  {
    times, samples, perfError := [], [], None;
    var i := 0;
    while i < |polls|
      invariant 0 <= i <= |polls| && |times| == |samples| == i
      invariant forall k :: 0 <= k < i ==> polls[k].reading == Ok(samples[k]) && times[k] == polls[k].time
    {
      match polls[i].reading
      case Err(e) =>
        perfError := Some(e);
        return;
      case Ok(x) =>
        samples := samples + [x];
        times := times + [polls[i].time];
        i := i + 1;
    }
  }
}
