/** The duration of one repetition as both decorators compute it: match the
    start and stop reference images against the frame folder, read the frame
    indices back from the matched file names and convert the difference to
    seconds at the recording rate. */
module Keyframes {
  import opened Wrappers
  import opened Text
  import opened Duration
  import opened Sampler
  import opened Verdict

  /** Reading a reference image: a path that is empty or not an image file
      makes the image library fail before any hashing. */
  function LoadImage(files: map<string, Grid>, path: string): (r: Result<Grid>)
    ensures r.Ok? <==> path != "" && path in files
  {
    if path != "" && path in files then Ok(files[path]) else Err(ImageReadError)
  }

  /** Every readable image is a gray grid of the hash size. */
  predicate FilesOk(files: map<string, Grid>) {
    forall p :: p in files ==> IsGrid(files[p], HASH_SIZE)
  }

  /** Seconds between two frame indices at the recording rate
      (`round(..., 2)` is not modelled). */
  function Seconds(startIndex: int, stopIndex: int): real {
    (stopIndex - startIndex) as real / FPS as real
  }

  /** The matched file names and the duration they give. */
  datatype Measured = Measured(startName: string, stopName: string, seconds: real)

  /** The start match: the name of the start search's pick. Finding nothing
      hands None to the path splitter, a TypeError. */
  function StartMatch(files: map<string, Grid>, startPath: string, listing: seq<Frame>): (r: Result<string>)
    ensures r.Err? ==> r.error in {ImageReadError, TypeError}
    ensures r.Ok? ==> startPath != "" && startPath in files
    ensures r.Ok? ==> exists i :: (0 <= i < |listing| && listing[i].name == r.value
      && InWindow(|listing|, i, true) && EndsWith(r.value, ".jpg"))
  {
    var startRef :- LoadImage(files, startPath);
    var s := Scores(listing, AverageHash(startRef, HASH_SIZE), true);
    var b := StartScan(s);
    if b.NoBest? then Err(TypeError)
    else
      assert s[b.index].Some?;
      Ok(listing[b.index].name)
  }

  /** The stop match: the name of the stop search's pick, or its IndexError. */
  function StopMatch(files: map<string, Grid>, stopPath: string, listing: seq<Frame>): (r: Result<string>)
    ensures r.Err? ==> r.error in {ImageReadError, IndexError}
    ensures r.Ok? ==> stopPath != "" && stopPath in files
    ensures r.Ok? ==> exists j :: (0 <= j < |listing| && listing[j].name == r.value
      && InWindow(|listing|, j, false) && EndsWith(r.value, ".jpg"))
  {
    var stopRef :- LoadImage(files, stopPath);
    var t := Scores(listing, AverageHash(stopRef, HASH_SIZE), false);
    var p :- StopPick(t);
    assert t[p].Some?;
    Ok(listing[p].name)
  }

  /** One repetition's measurement: the start match and its index, then the
      stop match and its index; a stem whose last six characters do not
      parse is a ValueError. */
  function Measure(files: map<string, Grid>, startPath: string, stopPath: string, listing: seq<Frame>): (r: Result<Measured>)
    ensures r.Ok? ==> StartMatch(files, startPath, listing) == Ok(r.value.startName)
    ensures r.Ok? ==> StopMatch(files, stopPath, listing) == Ok(r.value.stopName)
    ensures r.Err? ==> r.error in {ImageReadError, TypeError, ValueError, IndexError}
  {
    var startName :- StartMatch(files, startPath, listing);
    var startIndex :- ParseFrameIndex(startName);
    var stopName :- StopMatch(files, stopPath, listing);
    var stopIndex :- ParseFrameIndex(stopName);
    Ok(Measured(startName, stopName, Seconds(startIndex, stopIndex)))
  }

  /** The measurement as the decorators perform it, one search after the other. */
  method MeasureRun(files: map<string, Grid>, startPath: string, stopPath: string, listing: seq<Frame>)
    returns (r: Result<Measured>)
    requires FilesOk(files) && ListingOk(listing)
    ensures r == Measure(files, startPath, stopPath, listing)
  {
    var startRef :- LoadImage(files, startPath);
    var startPick := FindBestFrame(startRef, listing, true);
    var startFound := startPick.value;
    if startFound.None? {
      return Err(TypeError);
    }
    var startName := startFound.value;
    var startIndex :- ParseFrameIndex(startName);
    var stopRef :- LoadImage(files, stopPath);
    var stopPick := FindBestFrame(stopRef, listing, false);
    var stopFound :- stopPick;
    var stopName := stopFound.value;
    var stopIndex :- ParseFrameIndex(stopName);
    r := Ok(Measured(startName, stopName, Seconds(startIndex, stopIndex)));
  }

  /** A screen recording: its frames, the frame rate the container reports
      and its frame count. */
  datatype Recording = Recording(video: seq<Grid>, fps: real, frameCount: nat)

  // ---------------------------------------------------------------------
  // The wrappers' local lists
  // ---------------------------------------------------------------------

  /** A decorator's local lists: durations, charts and matched frames. */
  datatype Acc = Acc(durations: seq<real>, cpu: seq<Image>, mem: seq<Image>, fps: seq<Image>,
                     start: seq<Image>, stop: seq<Image>)

  const NoAcc := Acc([], [], [], [], [], [])

  /** Each local image list holds only its own kind of image. */
  predicate AccKinds(acc: Acc) {
    AllRank(acc.cpu, 0) && AllRank(acc.mem, 1) && AllRank(acc.fps, 2)
    && AllRank(acc.start, 5) && AllRank(acc.stop, 6)
  }

  /** A measured repetition's contribution to the local lists. */
  function Collect(acc: Acc, m: Measured): (r: Acc)
    ensures AccKinds(acc) ==> AccKinds(r)
    ensures |r.durations| == |acc.durations| + 1
    ensures r.cpu == acc.cpu && r.mem == acc.mem && r.fps == acc.fps
  {
    acc.(durations := acc.durations + [m.seconds],
         start := acc.start + [StartFrame(m.startName)],
         stop := acc.stop + [StopFrame(m.stopName)])
  }

  /** The charts of repetition `t`: one CPU, one memory and one fps chart. */
  function AddCharts(acc: Acc, t: nat): (r: Acc)
    ensures AccKinds(acc) ==> AccKinds(r)
    ensures r.durations == acc.durations && r.start == acc.start && r.stop == acc.stop
    ensures |r.cpu| == |acc.cpu| + 1 && |r.mem| == |acc.mem| + 1 && |r.fps| == |acc.fps| + 1
  {
    acc.(cpu := acc.cpu + [CpuChart(t)], mem := acc.mem + [MemChart(t)], fps := acc.fps + [FpsChart(t)])
  }

  /** Charting the published series of repetition `t`: a missing CPU_INFO
      entry is a TypeError (subscripting None). The fps chart is drawn
      whenever FPS_INFO exists, which it always does alongside CPU_INFO. */
  function Charts(acc: Acc, perfInfo: Option<Streams>, t: nat): (r: Result<Acc>)
    ensures r.Err? <==> perfInfo.None?
    ensures r.Err? ==> r.error == TypeError
    ensures r.Ok? ==> r.value == AddCharts(acc, t)
  {
    if perfInfo.None? then Err(TypeError) else Ok(AddCharts(acc, t))
  }

  /** When both searches match frame names of the first million frames, the
      measurement succeeds and its duration is their frame distance at 45
      frames a second. */
  lemma MeasuredFromFrameNames(files: map<string, Grid>, startPath: string, stopPath: string, listing: seq<Frame>, a: nat, b: nat)
    requires StartMatch(files, startPath, listing) == Ok(FrameName(a))
    requires StopMatch(files, stopPath, listing) == Ok(FrameName(b))
    requires a < 1000000 && b < 1000000
    ensures Measure(files, startPath, stopPath, listing).Ok?
    ensures Measure(files, startPath, stopPath, listing).value.seconds == (b - a) as real / 45.0
  {
    FrameIndexExact(a);
    FrameIndexExact(b);
  }
}
