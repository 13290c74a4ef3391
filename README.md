# seldom-atx measurement core, modelled in Dafny

seldom-atx runs app test cases on Android and iOS devices. Its `App` and
`AppPerf` decorators wrap a test case. They repeat the case, record the screen
and cut the recording into frames. They then find the start and stop key frames
with an average-brightness image hash and turn the frame distance into a
duration. Memory and CPU samples are collected alongside. The decorators
aggregate everything into a pass/fail verdict and persist one result row.
Around that pipeline sit smaller utilities, which this project also models:

- the WebDriverAgent MJPEG socket buffer and frame-header reader;
- the SQL text builders and the `Config` key/value table;
- the runner's case collection and method matching;
- the CLI's case-prefix rewriting and table creation;
- the uiautomator2/WebDriverAgent element locators;
- the `/proc` CPU and memory arithmetic;
- the adb output parsing (`getPid`, `getDeviceIds`, `checkPkgname`).

One Dafny module per component:

- `wrappers.dfy` (module `Wrappers`): `Option`, `Result` and the Python exception kinds the code raises
- `text.dfy` (module `Text`): Python string built-ins the code relies on: `find`, `split`, `join`, `strip`, `str.split()`, `int()`, `str()`, `{:06d}`
- `pyvalues.dfy` (module `PyValues`): dynamically typed keyword and row values, `isinstance(v, int)`, `str(v)`
- `duration.dfy` (module `Duration`): `_duration.py` (and its copy in `perf.py`'s `Common`): image hash, Hamming distance, start/stop key-frame search, frame extraction and frame names
- `keyframes.dfy` (module `Keyframes`): one repetition's measurement as both decorators do it: start and stop match, frame indices, seconds, and the per-repetition chart and frame lists
- `verdict.dfy` (module `Verdict`): run counts, mode validation, mean duration, peak memory, result code
- `sampler.dfy` (module `Sampler`): `TidevicePerf` callback lists and the `MySoloX` sampling loops
- `case_decorator.dfy` (module `CaseDecorator`): the `App` decorator's repetition loop, persisted row and assertions
- `perf_decorator.dfy` (module `PerfDecorator`): the `AppPerf` decorator's modes, error lists, report images and thresholds
- `wda.dfy` (module `Wda`): `SocketBuffer`, the MJPEG frame reader, the handshake request, `WDAElement`
- `u2.dfy` (module `U2`): `U2Element`, `keycodes`, `swipe_up`, `swipe_up_find`
- `locators.dfy` (module `Locators`): the shared locator filtering and description strings
- `sqlite.dfy` (module `Sqlite`): SQL text builders and the `Config` table
- `runner.dfy` (module `Runner`): `collect_cases`, `_load_testsuite`, `run_cases`, `TestMain` argument checks
- `cli.dfy` (module `Cli`): `reset_case` and `create_table`
- `apm.dfy` (module `Apm`): CPU tick sums, core count, CPU rates, memory conversion
- `devices.dfy` (module `Devices`): `getDeviceIds`, `getPid`, `checkPkgname`

Imperative source code is modelled as methods with loops, or as classes
whose methods update fields. Each such method is proved equal to a
specification function. Lemmas about those functions state what the source
promises. Device, video, socket and database I/O are inputs: an image is an
integer gray grid, a recording is a sequence of grids, a socket is a script
of received chunks, and a shell's output is a list of lines.

## Model

| member | source | states |
|---|---|---|
| Duration.RowBits | seldom_atx/utils/app/_duration.py:85-90 | a row yields exactly one hash bit per pixel |
| Duration.BitMeaning | seldom_atx/utils/app/_duration.py:87-90 | a bit is 1 exactly when the pixel is strictly greater than the mean, and is always 0 or 1 |
| Duration.CalculateHash | seldom_atx/utils/app/_duration.py:74-92 | the nested row-by-row loop appends exactly the average hash of the grid |
| Duration.RowBitsAt | seldom_atx/utils/app/_duration.py:85-90 | bit j of a row compares pixel j with the mean |
| Duration.GridBitsAt | seldom_atx/utils/app/_duration.py:84-91 | the hash of an n-column grid has rows*n bits, and bit i*n+j compares pixel (i, j) with the mean (row-major order) |
| Duration.GridBitsLength | seldom_atx/utils/app/_duration.py:84-92 | an n-column grid yields rows*n bits |
| Duration.HashBitIsAboveMean | seldom_atx/utils/app/_duration.py:81-91 | the hash of an n-by-n image has n*n entries, and entry i*n+j is 1 exactly when pixel (i, j) is above the image mean |
| Duration.GridBitsBinary | seldom_atx/utils/app/_duration.py:87-90 | every bit of a grid's hash is 0 or 1 |
| Duration.HashIsBinary | seldom_atx/utils/app/_duration.py:84-92 | every hash entry is 0 or 1 |
| Duration.RowSumConstant | seldom_atx/utils/app/_duration.py:81 | a row of the constant c sums to c times its length |
| Duration.GridSumConstant | seldom_atx/utils/app/_duration.py:81 | a constant grid sums to c * columns * rows |
| Duration.RowBitsZero | seldom_atx/utils/app/_duration.py:87-90 | pixels no brighter than the mean give 0 bits |
| Duration.GridBitsZero | seldom_atx/utils/app/_duration.py:84-91 | a grid whose pixels are all at most the mean hashes to zeros |
| Duration.ConstantImageHashesToZeros | seldom_atx/utils/app/_duration.py:81-91 | a constant image hashes to n*n zeros |
| Duration.HammingDistance | seldom_atx/utils/app/_duration.py:113 | the distance is at most the length of either hash (zip stops at the shorter) |
| Duration.HammingSelf | seldom_atx/utils/app/_duration.py:113 | a hash is at distance 0 from itself |
| Duration.HammingSymmetric | seldom_atx/utils/app/_duration.py:113 | the distance is symmetric |
| Duration.HammingZeroIff | seldom_atx/utils/app/_duration.py:113 | the distance is 0 exactly when the hashes agree on their common length |
| Duration.ImageHash | seldom_atx/utils/app/_duration.py:99-112 | a non-empty supplied hash is used as is; otherwise an existing path's image is hashed, a missing path is FileNotFoundError and an absent one (None) a TypeError |
| Duration.ImageDiffOfPaths | seldom_atx/utils/app/_duration.py:95-114 | two existing image files always give a distance, the same in either order, and a file compared with itself gives 0 |
| Duration.GetImageDiff | seldom_atx/utils/app/_duration.py:95-114 | get_image_diff equals the ImageDiff specification in every case: each image resolved in order as ImageHash says, the first failure being the error, then the number of differing hash positions; the distance is bounded by the hash length |
| Duration.SearchWindows | seldom_atx/utils/app/_duration.py:127-143 | a listing of at most 450 entries is searched in full by both searches; a longer one gives the start search indices below 225 and the stop search the rest |
| Duration.Scores | seldom_atx/utils/app/_duration.py:132-145 | one score per listing entry |
| Duration.HasCandidateSplit | seldom_atx/utils/app/_duration.py:132-145 | a listing has a candidate exactly when its prefix or its last entry does |
| Duration.MinScore | seldom_atx/utils/app/_duration.py:147-150 | the minimum candidate distance is attained by a candidate and is at most every candidate |
| Duration.FirstBelow | seldom_atx/utils/app/_duration.py:153-156 | the first candidate below a bound: below it, with every earlier candidate at or above it; None only when every candidate is at or above it |
| Duration.StartScan | seldom_atx/utils/app/_duration.py:132-140 | the start search's best match is a candidate carrying its own distance |
| Duration.StartAcceptsNear | seldom_atx/utils/app/_duration.py:138 | a candidate replaces the best exactly when there is no best yet or it is less than 100 above the best distance |
| Duration.StartScanResult | seldom_atx/utils/app/_duration.py:125-140 | the start search finds nothing exactly when there is no candidate, and every candidate after the winner is at least 100 above it (the last near tie wins) |
| Duration.Records | seldom_atx/utils/app/_duration.py:147-150 | every end_list entry is a candidate with its own distance |
| Duration.NearRecords | seldom_atx/utils/app/_duration.py:152-155 | the near-tie selection keeps only end_list entries |
| Duration.StopPick | seldom_atx/utils/app/_duration.py:151-156 | the stop pick is a candidate |
| Duration.RecordsImprove | seldom_atx/utils/app/_duration.py:147-150 | end_list is strictly increasing in listing index and strictly decreasing in distance |
| Duration.RecordsNonEmpty | seldom_atx/utils/app/_duration.py:147-150 | end_list is empty exactly when there is no candidate |
| Duration.RecordsEndAtMinimum | seldom_atx/utils/app/_duration.py:147-150 | the last end_list distance (the final best distance) is the minimum candidate distance |
| Duration.RecordBelowCandidate | seldom_atx/utils/app/_duration.py:147-150 | every candidate is at least the last recorded distance |
| Duration.RecordsFirstBelow | seldom_atx/utils/app/_duration.py:147-150 | the first end_list entry below any bound is the first candidate below it |
| Duration.RecordsFirstBelowStep | seldom_atx/utils/app/_duration.py:147-150 | the previous property carries over one more candidate entry |
| Duration.RecordNotBelow | seldom_atx/utils/app/_duration.py:147-150 | with no candidate below a bound, the last record is not below it either |
| Duration.NearRecordsFirst | seldom_atx/utils/app/_duration.py:152-156 | over records at or above the best distance, the first near-tie record is the first record below best + 100, and there is one exactly when such a record exists |
| Duration.StopPickIsFirstNearMinimum | seldom_atx/utils/app/_duration.py:147-156 | with no candidate the stop search raises IndexError; otherwise it picks the first candidate within 100 of the minimum distance |
| Duration.MinScoreIsBelowNearTie | seldom_atx/utils/app/_duration.py:154 | some candidate is within 100 of the minimum (the minimum itself) |
| Duration.MinScoreAt | seldom_atx/utils/app/_duration.py:147-150 | a candidate holds the minimum distance |
| Duration.FirstBelowFinds | seldom_atx/utils/app/_duration.py:153-156 | a candidate below the bound means the search finds one |
| Duration.RecordsAtLeastLast | seldom_atx/utils/app/_duration.py:147-150 | every record's distance is at least the last one |
| Duration.StartScanStep | seldom_atx/utils/app/_duration.py:132-140 | one more listing entry updates the start search exactly as the loop body does |
| Duration.RecordsAdd | seldom_atx/utils/app/_duration.py:147-150 | a candidate strictly better than the last record is appended to end_list |
| Duration.RecordsKeep | seldom_atx/utils/app/_duration.py:142-150 | a non-candidate, or a candidate no better than the last record, leaves end_list unchanged |
| Duration.ScoreCandidate | seldom_atx/utils/app/_duration.py:133-145 | scoring listing entry i gives its distance to the reference exactly when it is a .jpg inside the search window |
| Duration.StartSearch | seldom_atx/utils/app/_duration.py:125-140 | the start loop's best_match and best_distance are the start search's winner (None when no candidate) |
| Duration.StopSearch | seldom_atx/utils/app/_duration.py:142-150 | the stop loop builds exactly end_list, and best_distance is its last distance |
| Duration.NearTies | seldom_atx/utils/app/_duration.py:151-155 | the selection loop keeps the end_list entries within 100 of the best distance, in order |
| Duration.FindBestFrame | seldom_atx/utils/app/_duration.py:117-158 | the start search returns the winner's file name or None; the stop search returns the first near tie of the minimum or raises IndexError |
| Duration.ShortRecordingFullyExtracted | seldom_atx/utils/app/_duration.py:36-41 | when the end window covers the whole recording, every frame is extracted |
| Duration.DefaultWindows | seldom_atx/utils/app/_duration.py:31-41 | at 45 fps with 5-second windows, a recording of at least 225 frames keeps exactly its first 225 and its last 225 frames |
| Duration.ExtractedStep | seldom_atx/utils/app/_duration.py:57-68 | reading one more frame appends its file exactly when a window selects it |
| Duration.ExtractFrames | seldom_atx/utils/app/_duration.py:10-71 | the read loop writes, in order, every frame a window selects under its zero-padded name; a zero frame rate raises ZeroDivisionError |
| Duration.FrameNameDigits | seldom_atx/utils/app/_duration.py:59 | characters 6 to len-4 of a frame name are the index padded to six digits |
| Duration.FrameNameInjective | seldom_atx/utils/app/_duration.py:59 | distinct frames get distinct names |
| Duration.ExtractedMembers | seldom_atx/utils/app/_duration.py:57-62 | frame n is written under its own name exactly when a window selects it, and nothing else is written |
| Duration.FrameIndexRoundTrip | seldom_atx/utils/app/case_decorator.py:196-199 | parsing the last six characters of a frame name's stem gives back the index modulo 10^6 |
| Duration.FrameNameStem | seldom_atx/utils/app/case_decorator.py:196 | a frame name's text before its first '.' is frame_ and the padded index |
| Duration.FrameIndexExact | seldom_atx/utils/app/case_decorator.py:196-199 | within the first million frames the name parses back to the index itself |
| Keyframes.LoadImage | seldom_atx/utils/app/case_decorator.py:195 | reading a reference image succeeds exactly when its path is non-empty and names an image |
| Keyframes.StartMatch | seldom_atx/utils/app/case_decorator.py:195-196 | the start match fails only with an image read error or, when the search finds nothing, a TypeError; otherwise it names a .jpg listing entry inside the start window |
| Keyframes.StopMatch | seldom_atx/utils/app/case_decorator.py:198-199 | the stop match fails only with an image read error or IndexError; otherwise it names a .jpg listing entry inside the stop window |
| Keyframes.Measure | seldom_atx/utils/app/case_decorator.py:195-200 | a measurement carries the names both searches matched, and fails only with the errors those searches and the index parse raise |
| Keyframes.MeasureRun | seldom_atx/utils/app/case_decorator.py:195-200 | searching for the start frame, then the stop frame, and parsing both names gives exactly the measurement |
| Keyframes.Collect | seldom_atx/utils/app/case_decorator.py:201-203 | a measured repetition appends one duration and one start and stop frame image, and leaves the chart lists alone |
| Keyframes.AddCharts | seldom_atx/utils/app/case_decorator.py:204-221 | a sampled repetition appends one CPU, one memory and one fps chart and leaves durations and frames alone |
| Keyframes.Charts | seldom_atx/utils/app/case_decorator.py:204-221 | charting fails with TypeError exactly when CPU_INFO is missing, and otherwise adds the three charts |
| Keyframes.MeasuredFromFrameNames | seldom_atx/utils/app/case_decorator.py:195-200 | when both searches match frame names of the first million frames, the duration is their index difference over 45 frames a second |
| Verdict.FirstUnsupported | seldom_atx/utils/app/case_decorator.py:175-186 | the first RunList entry the dispatch loop rejects, every earlier entry being accepted; None exactly when every entry is accepted |
| Verdict.DispatchRejects | seldom_atx/utils/app/case_decorator.py:175-186 | dispatch raises ValueError exactly when some entry is none of Duration, Performance, Effect and GetLog, or is GetLog on a platform other than Android |
| Verdict.ModeRunTimes | seldom_atx/utils/perf.py:437-467 | a mode outside RunType 0..3 is a ValueError; DURATION runs duration_times times, or 3 when that is None; every other mode runs once |
| Verdict.Mean | seldom_atx/utils/perf.py:574 | statistics.mean fails with StatisticsError exactly on an empty list |
| Verdict.SumBounds | seldom_atx/utils/app/case_decorator.py:226 | a sum of n values between lo and hi lies between n*lo and n*hi |
| Verdict.MeanWithinBounds | seldom_atx/utils/app/case_decorator.py:226 | the mean duration lies between any lower and upper bound of the durations |
| Verdict.MeanOfConstant | seldom_atx/utils/app/case_decorator.py:226 | repetitions that all measure the same duration average to it |
| Verdict.FirstComponents | seldom_atx/utils/app/case_decorator.py:228-229 | the first component of every sample, in order; IndexError exactly when a sample has no component |
| Verdict.SeqMax | seldom_atx/utils/app/case_decorator.py:228-229 | the maximum is an element and bounds every element |
| Verdict.PeakFirst | seldom_atx/utils/app/case_decorator.py:228-229 | the peak is one sample's first component and bounds all of them; ValueError exactly for no samples and IndexError exactly for an empty sample |
| Verdict.MemoryMax | seldom_atx/utils/app/case_decorator.py:228-229 | memory_max is 0 without Performance; otherwise the peak first component of MEM_INFO, a missing MEM_INFO being a TypeError |
| Verdict.AssertResultMeaning | seldom_atx/utils/app/case_decorator.py:230-234 | the result code is 1 exactly when memory and duration are both within their thresholds (equality passes), and -1 otherwise |
| Verdict.OrderedAppend | seldom_atx/utils/app/case_decorator.py:223-225 | appending a list of images of one rank at or above every earlier rank keeps the report order |
| Verdict.PhotoListOrdered | seldom_atx/utils/app/case_decorator.py:223-225 | the photo list is ordered CPU, memory, fps, flow, battery, start, stop and holds every image of every list |
| Sampler.Append | seldom_atx/utils/app/_performance.py:39-40 | one loop iteration adds exactly one timestamp and one sample |
| Sampler.CpuCallback | seldom_atx/utils/app/_performance.py:93-97 | a 'cpu' callback appends its timestamp and the pair (value, sys_value) and leaves the memory and fps series unchanged |
| Sampler.MemoryAndFpsCallbacks | seldom_atx/utils/app/_performance.py:98-107 | a 'memory' callback appends (value, 0, 0) and an 'fps' callback (value, 0), each with its timestamp and touching only its own series |
| Sampler.OtherCallbackIgnored | seldom_atx/utils/app/_performance.py:92-107 | a callback of any other type changes nothing |
| Sampler.FeedKeepsPairing | seldom_atx/utils/app/_performance.py:92-107 | after any callback sequence each time list is as long as its value list |
| Sampler.FeedFromEmpty | seldom_atx/utils/app/_performance.py:92-117 | from cleared lists, each series holds exactly the events of its kind in arrival order, one entry per event |
| Sampler.TidevicePerf.constructor | seldom_atx/utils/app/_performance.py:82-90 | a new collector starts with six empty lists |
| Sampler.TidevicePerf.Callback | seldom_atx/utils/app/_performance.py:92-107 | the fields become the routed update of the old fields, keeping each time list paired with its value list |
| Sampler.TidevicePerf.Start | seldom_atx/utils/app/_performance.py:109-117 | all six lists are emptied |
| Sampler.TidevicePerf.Stop | seldom_atx/utils/app/_performance.py:119-123 | the published CPU_INFO, MEM_INFO and FPS_INFO are exactly the collector's three (time list, value list) pairs, each paired |
| Sampler.RecordSession | seldom_atx/utils/app/_performance.py:109-123 | start, a run of callbacks, then stop publish exactly the events of each kind, in order, with their timestamps |
| Sampler.CollectWhileLocked | seldom_atx/utils/app/_performance.py:30-76 | each iteration appends one sample and one timestamp; without an exception every poll is kept; on an exception the lists so far are returned and PERF_ERROR is the exception of the first failing poll |
| CaseDecorator.RunsNext | seldom_atx/utils/app/case_decorator.py:157-221 | after a prefix of repetitions that did not fail, the loop runs repetition t from the state and lists that prefix left |
| CaseDecorator.RunsStopAtFailure | seldom_atx/utils/app/case_decorator.py:157-221 | once a repetition raises, later repetitions change nothing |
| CaseDecorator.DurationStepFacts | seldom_atx/utils/app/case_decorator.py:192-203 | the duration step raises only loop errors, keeps the chart lists, and adds exactly one duration when Duration is requested without a recording error |
| CaseDecorator.ChartStepFacts | seldom_atx/utils/app/case_decorator.py:204-221 | the chart step keeps the durations and fails only with TypeError |
| CaseDecorator.RepetitionInvariant | seldom_atx/utils/app/case_decorator.py:157-221 | a repetition never touches the rows, the recording errors or the report images, keeps each local list to its own kind, and raises only loop errors |
| CaseDecorator.RunsInvariant | seldom_atx/utils/app/case_decorator.py:157-221 | the same over the whole loop, and a loop that completes with Duration and no recording error has one duration per repetition |
| CaseDecorator.FileNotFoundOnlyWithoutReferences | seldom_atx/utils/app/case_decorator.py:145-146 | FileNotFoundError is raised exactly when Duration is requested with neither start_path nor stop_path, and then nothing has changed |
| CaseDecorator.PersistThenAssert | seldom_atx/utils/app/case_decorator.py:226-254 | a call adds at most one row at the end of the table; a passing call adds one with result 1; a threshold assertion fails exactly when the added row has result -1, the memory check coming first |
| CaseDecorator.StaleCaseErrorFailsLaterCalls | seldom_atx/utils/app/case_decorator.py:189-191 | a CASE_ERROR left by an earlier call fails every later call before any row is inserted, because App never clears it |
| CaseDecorator.DurationsPerRepetition | seldom_atx/utils/app/case_decorator.py:156-201 | a passing Duration call without recording errors records one duration per repetition: DURATION_TIMES (3) of them when duration_times is 1 |
| CaseDecorator.ReportImagesOrdered | seldom_atx/utils/app/case_decorator.py:147-225 | the report images a call leaves are CPU charts, then memory, fps, start and stop images |
| CaseDecorator.TailImagesOrdered | seldom_atx/utils/app/case_decorator.py:222-225 | from no report images, the images added after the loop are in report order |
| CaseDecorator.Session.constructor | seldom_atx/utils/app/case_decorator.py:117-133 | a session starts from the given global state |
| CaseDecorator.Session.Join | seldom_atx/utils/app/case_decorator.py:158-188 | joining a repetition's concurrent work updates the globals as the specification function says |
| CaseDecorator.Session.RunOnce | seldom_atx/utils/app/case_decorator.py:157-221 | one repetition of the loop updates the state and lists as the specification function says |
| CaseDecorator.Session.Finish | seldom_atx/utils/app/case_decorator.py:222-254 | the aggregation, row insert and assertions change the state and raise exactly as the specification function says |
| CaseDecorator.Session.Repeat | seldom_atx/utils/app/case_decorator.py:157-221 | the repetition loop leaves the state and lists of running the repetitions in order, stopping at the first exception |
| CaseDecorator.Session.App | seldom_atx/utils/app/case_decorator.py:117-254 | one decorated call leaves exactly the state and outcome of the specification of the call |
| PerfDecorator.RunsNext | seldom_atx/utils/perf.py:478-559 | after a prefix of repetitions that did not fail, the loop runs repetition t from the state and lists that prefix left |
| PerfDecorator.RunsStopAtFailure | seldom_atx/utils/perf.py:478-559 | once a repetition raises, later repetitions change nothing |
| PerfDecorator.FrameStepFacts | seldom_atx/utils/perf.py:512-536 | frame work keeps the chart lists and raises only loop errors; with a recording error it does nothing; in DURATION mode without one it adds exactly one duration |
| PerfDecorator.RepetitionInvariant | seldom_atx/utils/perf.py:478-559 | a repetition leaves the queued records and report images alone, never shortens RECORD_ERROR, keeps each local list to its own kind, and adds one duration in DURATION mode without a recording error |
| PerfDecorator.RunsInvariant | seldom_atx/utils/perf.py:478-559 | the same over the whole loop; a stale RECORD_ERROR means no duration at all, and a completed DURATION loop without one has one duration per repetition |
| PerfDecorator.UnknownModeRejected | seldom_atx/utils/perf.py:447-467 | a mode outside RunType's four values raises ValueError and changes nothing |
| PerfDecorator.KeyframesRequired | seldom_atx/utils/perf.py:451-463 | in DURATION mode FileNotFoundError is raised exactly when <name>_start.jpg or <name>_stop.jpg is missing, and then nothing has changed |
| PerfDecorator.BreachNeverWritten | seldom_atx/utils/perf.py:561-594 | at most one record is queued, only by a passing call in a collecting mode, holding a duration or memory within its threshold; a threshold assertion leaves the queue unchanged |
| PerfDecorator.DurationRecordPerRepetition | seldom_atx/utils/perf.py:529-581 | a queued DURATION record holds one duration per repetition and the repetition count, when no recording error occurs |
| PerfDecorator.StaleRecordErrorBlocksDuration | seldom_atx/utils/perf.py:512-583 | a RECORD_ERROR left by an earlier call stops every later DURATION call from queueing a record |
| PerfDecorator.ResetAbsorbs | seldom_atx/utils/perf.py:482-484 | the reset at the start of a repetition forgets whatever CASE_ERROR, PERF_ERROR and LOGS_ERROR held |
| PerfDecorator.StaleErrorsForgotten | seldom_atx/utils/perf.py:482-510 | once a call runs a repetition, stale CASE_ERROR, PERF_ERROR and LOGS_ERROR do not change its outcome, nor, past the key-frame check, the state it leaves |
| PerfDecorator.RunsFromFirst | seldom_atx/utils/perf.py:478-484 | two states that agree after the reset run the loop identically |
| PerfDecorator.ReportImagesOrdered | seldom_atx/utils/perf.py:468-564 | past the mode and key-frame checks, the report images a call leaves are in the order CPU, memory, fps, start, stop |
| PerfDecorator.TailImagesOrdered | seldom_atx/utils/perf.py:561-564 | from no report images, the images added after the loop are in report order |
| PerfDecorator.Session.constructor | seldom_atx/utils/perf.py:421-423 | a session starts from the given global state |
| PerfDecorator.Session.Join | seldom_atx/utils/perf.py:482-507 | a repetition's reset and joined concurrent work update the globals as the specification function says |
| PerfDecorator.Session.RunOnce | seldom_atx/utils/perf.py:478-559 | one repetition of the loop updates the state and lists as the specification function says |
| PerfDecorator.Session.Repeat | seldom_atx/utils/perf.py:478-559 | the repetition loop leaves the state and lists of running the repetitions in order, stopping at the first exception |
| PerfDecorator.Session.Finish | seldom_atx/utils/perf.py:561-594 | report images, the threshold check and the queued record change the state and raise exactly as the specification function says |
| PerfDecorator.Session.AppPerf | seldom_atx/utils/perf.py:421-594 | one decorated call leaves exactly the state and outcome of the specification of the call |
| Wda.Encode | seldom_atx/wdadriver.py:498 | the bytes of an ASCII text, one per character with the same code |
| Wda.Decode | seldom_atx/wdadriver.py:511 | ASCII bytes decode to the text that encodes back to them; the model refuses every byte of 128 or more with ValueError (a restriction, see Left out) |
| Wda.DecodeEncode | seldom_atx/wdadriver.py:511 | decoding the bytes of an ASCII text gives the text back |
| Wda.EncodeAppend | seldom_atx/wdadriver.py:498 | the bytes of a concatenation are the concatenated bytes |
| Wda.Refill | seldom_atx/wdadriver.py:61-66 | _drain appends the next received chunk to the buffer and returns its length, keeping the readable stream unchanged; a None answer or a closed script is an IOError that leaves the buffer unchanged |
| Wda.Until | seldom_atx/wdadriver.py:68-76 | read_until fails only with IOError, and each pass either consumes a socket answer or shortens the buffer |
| Wda.Cut | seldom_atx/wdadriver.py:82 | the cut point of a slice [:n] lies within the buffer and is n itself for non-negative n |
| Wda.Take | seldom_atx/wdadriver.py:78-83 | read_bytes fails only with IOError and otherwise returns exactly the requested number of bytes |
| Wda.LengthOf | seldom_atx/wdadriver.py:511 | parsing a Content-Length line fails only with ValueError or IndexError |
| Wda.ReadFrame | seldom_atx/wdadriver.py:505-517 | reading a frame fails only with IOError, ValueError or IndexError |
| Wda.ReadLengthErrors | seldom_atx/wdadriver.py:508-512 | the first header loop fails only with IOError, ValueError or IndexError |
| Wda.SkipHeaderErrors | seldom_atx/wdadriver.py:513-515 | the second header loop fails only with IOError |
| Wda.DeliveredAfterChunk | seldom_atx/wdadriver.py:61-66 | the bytes still to come are the next chunk followed by the rest |
| Wda.ReadUntilConsumes | seldom_atx/wdadriver.py:68-76 | old buffer plus everything drained equals the returned bytes, the delimiter and the new stream; the delimiter does not occur before it, so the returned bytes never contain it |
| Wda.ReadUntilFinds | seldom_atx/wdadriver.py:68-76 | when the stream holds the delimiter after x and nowhere earlier, read_until returns x and leaves what follows |
| Wda.UntilInBuffer | seldom_atx/wdadriver.py:71-75 | the same when the delimiter is already buffered |
| Wda.FirstInBuffer | seldom_atx/wdadriver.py:71-74 | a delimiter found in the buffer is the first one in the whole stream, so the buffer splits as returned bytes, delimiter, rest |
| Wda.UntilRefills | seldom_atx/wdadriver.py:70-76 | without the delimiter buffered, read_until drains once and goes on |
| Wda.ReadBytesConsumes | seldom_atx/wdadriver.py:78-83 | a successful read_bytes consumes exactly the returned bytes, keeping the rest in order |
| Wda.ReadBytesTakes | seldom_atx/wdadriver.py:78-83 | with at least n bytes still to come, read_bytes(n) returns the next n bytes and keeps the remainder |
| Wda.LengthLine | seldom_atx/wdadriver.py:510-511 | the length header line is ASCII |
| Wda.LengthLineHasNoCR | seldom_atx/wdadriver.py:509 | the length line holds no carriage return |
| Wda.LengthLineBytesNoCR | seldom_atx/wdadriver.py:509 | its bytes hold no carriage-return byte |
| Wda.NoCRBeforeEnd | seldom_atx/wdadriver.py:509 | a CRLF cannot start inside a prefix free of carriage returns |
| Wda.LengthLineSeparator | seldom_atx/wdadriver.py:511 | the first ": " of a length line is the one after the key, and the digits follow it |
| Wda.LengthLineSplits | seldom_atx/wdadriver.py:511 | splitting a length line at ": " gives the key and the digits |
| Wda.LengthLineParses | seldom_atx/wdadriver.py:510-511 | a length line starts with Content-Length and its value parses back to the length |
| Wda.ReadLengthOfFrame | seldom_atx/wdadriver.py:507-512 | the first header loop reads a frame's length line and leaves the empty line that ends its header |
| Wda.SkipHeaderAtEmptyLine | seldom_atx/wdadriver.py:513-515 | the second header loop stops at an empty line and consumes it |
| Wda.FrameRoundTrip | seldom_atx/wdadriver.py:505-517 | reading a frame returns exactly the body the server framed and leaves exactly what followed it |
| Wda.RequestIsOneHeader | seldom_atx/wdadriver.py:498-499 | the request's first line is the HTTP/1.0 Request-Line for GET / (RFC 1945, section 5.1), and its only blank line is at its end, so the whole request is one header |
| Wda.SocketBuffer.constructor | seldom_atx/wdadriver.py:57-59 | a new buffer is empty, with the socket's answers still to come |
| Wda.SocketBuffer.Drain | seldom_atx/wdadriver.py:61-66 | the buffer and socket change exactly as the drain specification says; nothing is sent |
| Wda.SocketBuffer.ReadUntil | seldom_atx/wdadriver.py:68-76 | the drain loop changes the buffer and returns exactly as the read_until specification says |
| Wda.SocketBuffer.ReadBytes | seldom_atx/wdadriver.py:78-83 | the drain loop changes the buffer and returns exactly as the read_bytes specification says |
| Wda.SocketBuffer.Write | seldom_atx/wdadriver.py:85-86 | write appends the data to what was sent and leaves the buffer alone |
| Wda.Handshake | seldom_atx/wdadriver.py:497-499 | the handshake sends the request bytes, then reads up to the first blank line |
| Wda.ReadFrameFrom | seldom_atx/wdadriver.py:505-517 | one recorder pass reads the length header, the rest of the header and the body exactly as the frame specification says |
| Wda.WDAElement.constructor | seldom_atx/wdadriver.py:95-108 | supported keys stay in kwargs in order, every other key becomes an attribute, and the description is desc=<d> for a truthy desc attribute, else the k=v pairs joined by ", " |
| Wda.WDAElement.SetAttr | seldom_atx/wdadriver.py:99 | setattr records the attribute, and a desc key sets the description |
| Wda.WDAElement.Create | seldom_atx/wdadriver.py:92-108 | no keywords, or no supported key among them, is a ValueError; otherwise the element holds the supported keys, the other attributes and the description |
| Wda.WDAElement.GetElements | seldom_atx/wdadriver.py:110-119 | a failed lookup returns [] when empty is set and raises NotFindElementError otherwise; a found one is returned and logged as "Find element: <desc>" |
| U2.U2Element.constructor | seldom_atx/u2driver.py:36-41 | supported keys stay in kwargs in order, every other key becomes an attribute (a desc key sets the description), and nothing has been found yet |
| U2.U2Element.SetAttr | seldom_atx/u2driver.py:40 | setattr records the attribute, and a desc key sets the description |
| U2.U2Element.Create | seldom_atx/u2driver.py:32-45 | no keywords, or no supported key among them, is a ValueError; otherwise the element holds the supported keys and the other attributes |
| U2.U2Element.GetElements | seldom_atx/u2driver.py:47-75 | the description becomes desc=<old desc> when one is set, else the k=v pairs; a failed lookup returns [] when empty is set and raises NotFindElementError otherwise; a found one is returned and, unless empty is set, logged |
| U2.RepeatedLookupPrefixes | seldom_atx/u2driver.py:50-53 | once a locator has been described, every further lookup prefixes the stored description with another desc= |
| U2.FirstAndSecondLookup | seldom_atx/u2driver.py:50-53 | without a desc keyword the first lookup describes a locator as k=v and the second as desc=k=v |
| U2.Press | seldom_atx/u2driver.py:370-375 | press sends a code exactly for HOME, BACK, LEFT and ENTER, and None for any other key |
| U2.ButtonsSendNothing | seldom_atx/u2driver.py:377-387 | back() and home() as written send None, while press('HOME') and press('BACK') send home and back |
| U2.Back | seldom_atx/u2driver.py:377-381 | back() corrected to the table's own key sends back |
| U2.Home | seldom_atx/u2driver.py:383-387 | home() corrected to the table's own key sends home |
| U2.SwipeUp | seldom_atx/u2driver.py:403-414 | upper halves the start height; then exactly times identical swipes are made, none for a non-positive count |
| U2.SwipeUpFind | seldom_atx/u2driver.py:416-432 | no supported locator is a ValueError; the search succeeds after the first count of swipes at which the element shows, at most times; NotFindElementError is raised exactly when it shows at none of the counts 0..times |
| Locators.Keep | seldom_atx/u2driver.py:38-41 | the supported side of the keywords is no longer than the keywords |
| Locators.Drop | seldom_atx/u2driver.py:38-41 | the unsupported side of the keywords is no longer than the keywords |
| Locators.SplitLocator | seldom_atx/u2driver.py:34-43 | ValueError exactly when no keyword is a supported locator (including no keywords at all); otherwise the non-empty supported pairs in call order |
| Locators.KeepMembers | seldom_atx/u2driver.py:38-41 | the supported side holds exactly the keywords whose key is supported |
| Locators.KeepDropSnoc | seldom_atx/u2driver.py:38-41 | one more keyword lands at the end of its own side |
| Locators.AttrsSnoc | seldom_atx/u2driver.py:40 | one more unsupported keyword sets its attribute |
| Locators.Splice | seldom_atx/u2driver.py:41 | deleting the entry after a prefix leaves the prefix and the rest |
| Locators.DeleteStep | seldom_atx/u2driver.py:38-41 | one loop step deletes the examined entry exactly when its key is unsupported, and then sets it as an attribute |
| Locators.KeepDropPartition | seldom_atx/u2driver.py:38-41 | the two sides split the keywords: their lengths add up, one side holds only supported keys and the other only unsupported ones |
| Locators.KeepDistinct | seldom_atx/u2driver.py:38-41 | keeping supported keywords keeps their keys distinct |
| Locators.AttrsHold | seldom_atx/u2driver.py:40 | the attributes hold every unsupported keyword's value, and nothing else |
| Locators.DescribeNonEmpty | seldom_atx/u2driver.py:50-53 | with at least one locator the description is never empty, so once computed it is truthy |
| Locators.PairsIndex | seldom_atx/u2driver.py:53 | the i-th pair renders the i-th locator as k=v |
| Locators.PairsLength | seldom_atx/u2driver.py:53 | one k=v pair per locator |
| Locators.JoinStartsWithFirst | seldom_atx/u2driver.py:53 | a join whose first part is non-empty is non-empty |
| Locators.DescribeSingle | seldom_atx/wdadriver.py:105-108 | a single locator without a desc is described as k=v |
| Sqlite.Keys | seldom_atx/utils/sqlite.py:45 | one column name per dict entry |
| Sqlite.Bind | seldom_atx/utils/sqlite.py:47-48 | list and dict values are bound as their JSON text and every other value as is |
| Sqlite.Marks | seldom_atx/utils/sqlite.py:43 | one ? per dict entry |
| Sqlite.InsertData | seldom_atx/utils/sqlite.py:38-51 | one bound parameter per dict entry |
| Sqlite.InsertShape | seldom_atx/utils/sqlite.py:43-51 | the column list splits back into the keys in dict order, the placeholders into one ? per key, and parameter i is value i, JSON-encoded when it is a list or dict |
| Sqlite.Assignments | seldom_atx/utils/sqlite.py:111-119 | one assignment per dict entry |
| Sqlite.JoinAssignments | seldom_atx/utils/sqlite.py:111-120 | the loop builds exactly the assignments joined by the separator |
| Sqlite.DictToStr | seldom_atx/utils/sqlite.py:106-120 | dict_to_str returns the assignments joined by "," |
| Sqlite.DictToStrAnd | seldom_atx/utils/sqlite.py:122-136 | dict_to_str_and returns the assignments joined by " and " |
| Sqlite.LiteralReadsBack | seldom_atx/utils/sqlite.py:113-118 | None is written null, an int unquoted and read back by int(), a bool as True or False, and every other value in single quotes |
| Sqlite.IntStartsWithDigitOrSign | seldom_atx/utils/sqlite.py:116 | an int's text starts with a digit or a minus sign, never a quote |
| Sqlite.LiteralInjective | seldom_atx/utils/sqlite.py:113-118 | two values written alike are both quoted with the same text, or are the same unquoted value |
| Sqlite.ClausesReadBack | seldom_atx/utils/sqlite.py:107-136 | both clauses split back into one k=literal per entry, in order, when no entry holds the separator's first character |
| Sqlite.SelectRunsIntoTable | seldom_atx/utils/sqlite.py:72-74 | as written, select_data on config with key='a' produces "select * from configwhere key='a';", unlike the corrected text |
| Sqlite.SelectAgreesWithDelete | seldom_atx/utils/sqlite.py:68-94 | corrected, a select and a delete on the same table and dict end alike; without a dict there is no clause, with one the text ends in " where <conditions>;" |
| Sqlite.EmptyWhere | seldom_atx/utils/sqlite.py:81-94 | update_data adds no clause for an empty or absent dict, while delete_data appends " where ;" for an empty one |
| Sqlite.ValuesOf | seldom_atx/utils/sqlite.py:155-157 | the query returns at most one value per row |
| Sqlite.ConfigGet | seldom_atx/utils/sqlite.py:155-164 | get returns None exactly when no row has the key, and otherwise the value of the first matching row |
| Sqlite.ValuesOfEmpty | seldom_atx/utils/sqlite.py:156-161 | the query is empty exactly when no row has the key |
| Sqlite.ValuesOfFirst | seldom_atx/utils/sqlite.py:156-159 | with a matching row the query is non-empty and its first value is the first matching row's |
| Sqlite.Insert | seldom_atx/utils/sqlite.py:145-148 | an insert appends a row with the next row id; a table whose key column rejects duplicates raises IntegrityError exactly for a key it holds |
| Sqlite.UpdateValue | seldom_atx/utils/sqlite.py:152-153 | the update rewrites the value of every row with the key and no other row |
| Sqlite.SetThenGet | seldom_atx/utils/sqlite.py:144-164 | with the upsert the code is written for, a get after a set returns the value just set, other keys keep their values, and keys stay unique |
| Sqlite.UpdatedValues | seldom_atx/utils/sqlite.py:152-153 | after the update the key's values are all the new value and other keys' values are unchanged |
| Sqlite.SameKeysAfterUpdate | seldom_atx/utils/sqlite.py:152-157 | the update keeps the other keys' values and unique keys, and a get of the key finds the new value when the key was present |
| Sqlite.SnocOtherKey | seldom_atx/utils/sqlite.py:145-148 | appending a row of another key does not change a key's values |
| Sqlite.StaleGetAsWritten | seldom_atx/utils/sqlite.py:144-161 | as written, setting a key that is already present appends a row and get still returns the old value |
| Sqlite.StaleGetExample | seldom_atx/utils/sqlite.py:144-161 | as written, setting fps to "1" then "2" on an empty table reads back "1" |
| Sqlite.AllAsWrittenLosesValues | seldom_atx/utils/sqlite.py:166-175 | as written, get_all maps the row fps = "45" to row id 1 mapped to the key text, losing the value |
| Sqlite.AllAgreesWithGet | seldom_atx/utils/sqlite.py:166-175 | corrected, with unique keys get_all holds exactly the keys of the table, each with the value get returns |
| Sqlite.Config.constructor | seldom_atx/utils/sqlite.py:139-142 | the store opens on the table as it is |
| Sqlite.Config.Set | seldom_atx/utils/sqlite.py:144-153 | set leaves the table of the upsert and keeps keys unique |
| Sqlite.Config.Get | seldom_atx/utils/sqlite.py:155-164 | get returns what the get specification says for the current rows |
| Sqlite.Config.GetAll | seldom_atx/utils/sqlite.py:166-175 | get_all (corrected) returns every key with its value |
| Sqlite.Config.Clear | seldom_atx/utils/sqlite.py:177-180 | clear deletes every row; row ids keep counting |
| Runner.LastSegmentShape | seldom_atx/running/runner.py:255 | the last _ segment is an _-free suffix of the name, preceded by _ when the name has one, and the whole name when it has none |
| Runner.LastSegmentAfterFirst | seldom_atx/running/runner.py:255 | the shape of the last segment carries over from the text after the first _ to the whole name |
| Runner.LastSegmentWhole | seldom_atx/running/runner.py:255 | without a _, the name is its own last segment |
| Runner.LastSegmentSkip | seldom_atx/running/runner.py:255 | with a _, the last segment is that of the text after the first _ |
| Runner.LastSegmentIs | seldom_atx/running/runner.py:255 | an _-free text after a _ at the end of the name is its last segment |
| Runner.DropLast | seldom_atx/running/runner.py:260 | s[:-k] drops the last k characters, and gives the empty text when k exceeds the length |
| Runner.NormalizeShape | seldom_atx/running/runner.py:249-261 | a data-driven name is its normalised name, _ and its numeric last segment; any other name is kept |
| Runner.SuffixShape | seldom_atx/running/runner.py:259-260 | a name with a _ is what s[:-(len(end)+1)] keeps, then _, then the last segment |
| Runner.NormalizeAll | seldom_atx/running/runner.py:249-261 | the renaming keeps one case per case |
| Runner.NumericSuffix | seldom_atx/running/runner.py:251-260 | a name ending in _ and digits is data-driven, and normalising removes exactly that suffix |
| Runner.NormalizeDropsSuffix | seldom_atx/running/runner.py:251-260 | normalising name_<digits> gives name |
| Runner.NormalizeTwice | seldom_atx/running/runner.py:249-261 | normalising removes only the last numeric suffix: base_1_2 becomes base_1, and a second collection gives base |
| Runner.Names | seldom_atx/running/runner.py:267 | one full name per case |
| Runner.DedupKeepsFirstOccurrences | seldom_atx/running/runner.py:263-272 | duplicates by file.class.method are removed keeping first occurrences in their original order; the kept full names are exactly those of the input, each once |
| Runner.Loader.constructor | seldom_atx/running/runner.py:244 | the loader holds the collected case list |
| Runner.CollectCases | seldom_atx/running/runner.py:231-280 | a level other than data or method is a ValueError; data returns the collected list unchanged; method renames the loader's cases in place and returns them without duplicates |
| Runner.RenameDataCases | seldom_atx/running/runner.py:248-261 | the first loop renames every data-driven case of the loader in place and lists every case |
| Runner.RenameStep | seldom_atx/running/runner.py:249-261 | one step of the renaming loop replaces case i by its normalised form |
| Runner.DropDuplicates | seldom_atx/running/runner.py:264-272 | the second loop keeps exactly the deduplicated list |
| Runner.GroupIsWithKey | seldom_atx/running/runner.py:297-305 | the mapping holds exactly the module.class keys of the loaded tests, each with its tests in load order |
| Runner.LoadTestsuite | seldom_atx/running/runner.py:282-312 | _load_testsuite builds exactly that grouping, skipping members that are not suites |
| Runner.AddSuite | seldom_atx/running/runner.py:291-305 | one suite's members add their tests under their keys |
| Runner.GroupSnoc | seldom_atx/running/runner.py:301-305 | appending a test puts it at the end of its key's list, creating the list when the key is new |
| Runner.AddTests | seldom_atx/running/runner.py:297-305 | each test is appended under its key |
| Runner.CollectedNamesSelect | seldom_atx/running/runner.py:343-356 | the corrected selection takes a test for its own name and for its normalised name, and takes only tests the code as written takes too |
| Runner.PrefixOvermatches | seldom_atx/running/runner.py:355-356 | as written, any prefix of a data-driven name other than the method name or the full name also selects it, which the corrected selection does not |
| Runner.SelectsAsWrittenOvermatches | seldom_atx/running/runner.py:355-356 | as written, a request for test_a also runs test_ab_1 |
| Runner.SelectsAsWrittenOvermatchesData | seldom_atx/running/runner.py:355-356 | as written, a request for the data case test_a_1 also runs test_a_10 |
| Runner.CheckRequest | seldom_atx/running/runner.py:331-337 | a request passes exactly when file, class name and method name are all present; a missing class or method dict is an AttributeError, a missing name a SeldomException |
| Runner.RunCases | seldom_atx/running/runner.py:314-358 | run_cases, with the selection as written (prefix test) or corrected, is TypeError for a non-list, nothing for an empty list, the first failing request's error, else the suite of the tests each request selects, in request order |
| Runner.AddedStep | seldom_atx/running/runner.py:330-356 | one request that passes its checks extends the suite by the tests of its key that the selection (as written or corrected) takes |
| Runner.AddSelected | seldom_atx/running/runner.py:343-356 | the loop over a class's tests appends exactly the ones the selection (as written or corrected) takes, in order |
| Runner.AddedErrorPersists | seldom_atx/running/runner.py:330-337 | once a request fails its check, the whole call fails with that error, under either selection |
| Runner.SomeSelectsSnoc | seldom_atx/running/runner.py:330-356 | under either selection, some request of a longer list selects a test exactly when one of the shorter list or the last request does |
| Runner.RunSelects | seldom_atx/running/runner.py:314-358 | for the code as written and for the corrected selection alike, a test is run exactly when it was loaded and some request names its module and class and that selection takes its method |
| Runner.AddedOkEither | seldom_atx/running/runner.py:330-337 | whether run_cases raises does not depend on the selection: only the request checks can fail |
| Runner.CorrectedRunsFewer | seldom_atx/running/runner.py:343-356 | every test the corrected selection runs is also run as written |
| Runner.FilterSelectedMembers | seldom_atx/running/runner.py:343-356 | a test is taken from a class's tests exactly when it is one of them and the selection (as written or corrected) takes its method |
| Runner.WithKeyMembers | seldom_atx/running/runner.py:297-305 | a test is under a key exactly when it was loaded with that key |
| Runner.CheckMain | seldom_atx/running/runner.py:104-114 | TestMain accepts exactly a platform in ['Android', 'iOS'], an int timeout (a bool passes) and a bool debug, each failure being a TypeError |
| Runner.CheckMainExtend | seldom_atx/running/runner.py:222-225 | TestMainExtend without a path raises FileNotFoundError before the other checks |
| Cli.PathJoin | seldom_atx/cli.py:458 | os.path.join(a, b) ends with b and starts with a unless b is absolute |
| Cli.SliceFrom | seldom_atx/cli.py:460 | s[n:] keeps the characters after the first n, none once n is past the end |
| Cli.StripAll | seldom_atx/cli.py:459-460 | the rewrite keeps one case per case |
| Cli.ResetCaseInPlace | seldom_atx/cli.py:440-463 | the for-else loops return the path and rewrite the case array in place exactly as the reset_case specification says |
| Cli.StripInPlace | seldom_atx/cli.py:459-460 | the last loop cuts the leading n characters off every case's file and changes nothing else |
| Cli.FindDot | seldom_atx/cli.py:453 | a '.' in a file is found by find |
| Cli.CaseStartShape | seldom_atx/cli.py:453 | the leading package holds no '.', and a first file with a '.' starts with it and a '.' |
| Cli.ResetCaseRoundTrip | seldom_atx/cli.py:453-461 | when rewriting, path becomes join(path, p), the number and order of cases are kept, only the file changes, and p + "." + the new file gives back the old one |
| Cli.UnderRoundTrip | seldom_atx/cli.py:459-460 | cutting p. off files that all start with it and putting it back gives the files |
| Cli.ResetCaseChanges | seldom_atx/cli.py:446-463 | the cases change exactly when they are rewritten; otherwise path and cases come back as given (an empty list, a file without '.', or a file outside the first one's package) |
| Cli.CaseStartIs | seldom_atx/cli.py:453 | the leading package is any '.'-free prefix of the first file followed by '.' |
| Cli.ResetCaseUnder | seldom_atx/cli.py:453-461 | files that all lie under a '.'-free package p are rewritten with p |
| Cli.Definitions | seldom_atx/cli.py:174 | one "name type" definition per field |
| Cli.CreateTable | seldom_atx/cli.py:169-177 | create_table builds exactly the statement of its specification |
| Cli.ColumnsReadBack | seldom_atx/cli.py:173-175 | the column list splits back into the id column first and then one "name type" per field in definition order |
| Cli.CreateTableFails | seldom_atx/cli.py:169-172 | an unknown table, or one without fields, is a ValueError, and only those |
| Apm.Num | seldom_atx/utils/solox/apm.py:38 | float(tok) restricted to unsigned integral text: the model accepts exactly the non-empty digit runs, with non-negative values (a restriction, see Left out) |
| Apm.TakeWordStops | seldom_atx/utils/solox/apm.py:36-37 | a token ends at whitespace or at the end of the text |
| Apm.WsSplit | seldom_atx/utils/solox/apm.py:36-37 | splitting on whitespace runs always yields at least one piece |
| Apm.TakeWordOf | seldom_atx/utils/solox/apm.py:36-37 | a word followed by whitespace or nothing is one token |
| Apm.WsSplitWord | seldom_atx/utils/solox/apm.py:36-37 | a single word splits into itself |
| Apm.WsSplitCons | seldom_atx/utils/solox/apm.py:36-37 | a word, a space and more text split into the word and then the rest's split |
| Apm.WsSplitJoin | seldom_atx/utils/solox/apm.py:36-37 | words joined by single spaces split back into the same words |
| Apm.ProcessTicks | seldom_atx/utils/solox/apm.py:32-39 | reading a process's ticks fails only with IndexError or ValueError |
| Apm.TokenAt | seldom_atx/utils/solox/apm.py:38 | float(toks[i]) fails exactly when the index is out of range (IndexError) or the token is not a number (ValueError) |
| Apm.TicksOf | seldom_atx/utils/solox/apm.py:37-38 | summing tokens 13 to 16 fails only with IndexError or ValueError |
| Apm.TicksOfFirstFailure | seldom_atx/utils/solox/apm.py:38 | the tokens are converted left to right: the sum fails with the error of the first of tokens 13 to 16 that fails |
| Apm.ProcessTicksOfFields | seldom_atx/utils/solox/apm.py:32-39 | a stat line of at least 17 space-separated fields yields fields 13+14+15+16, whatever the other fields hold |
| Apm.TicksOfDigits | seldom_atx/utils/solox/apm.py:38 | tokens 13 to 16 that are digit runs add up to the process's ticks |
| Apm.LeadingSpaceShifts | seldom_atx/utils/solox/apm.py:36-37 | text starting with whitespace has an empty first piece, shifting every token by one |
| Apm.PopIsDead | seldom_atx/utils/solox/apm.py:48-50 | str.split() never yields a blank second token, so the pop never changes the tokens |
| Apm.SumTo | seldom_atx/utils/solox/apm.py:51-52 | the inner loop's sum fails only with IndexError or ValueError |
| Apm.SumToErrorPersists | seldom_atx/utils/solox/apm.py:51-52 | once the inner sum fails, summing further fields keeps the same error |
| Apm.SumLinesErrorPersists | seldom_atx/utils/solox/apm.py:47-52 | a line that fails makes the whole reading fail with its error, whatever lines follow |
| Apm.SumLinesNext | seldom_atx/utils/solox/apm.py:47-52 | one more line that reads adds its value to the running sum |
| Apm.SumLinesFail | seldom_atx/utils/solox/apm.py:47-52 | the first failing line's error is the error of the whole reading |
| Apm.SumEachLine | seldom_atx/utils/solox/apm.py:80-87 | the loop over lines computes the summed lines, stopping at the first line that raises |
| Apm.TotalCpuStat | seldom_atx/utils/solox/apm.py:41-53 | getTotalCpuStat's two nested loops add fields 1 to 7 of every line to one running total, failing with the first line's error |
| Apm.AddLine | seldom_atx/utils/solox/apm.py:47-52 | one pass of the outer loop adds the line's fields 1 to 7 to the running total, or raises the line's error |
| Apm.AddFields | seldom_atx/utils/solox/apm.py:51-52 | the inner loop adds fields 1 to 7 to the running total, or raises the first field's error |
| Apm.IdleCpuStat | seldom_atx/utils/solox/apm.py:76-87 | getIdleCpuStat adds field 4 of every line of the output |
| Apm.EmptyLineFails | seldom_atx/utils/solox/apm.py:46-49 | an empty line, such as the one after a trailing newline, fails both readings with IndexError |
| Apm.LineTotalSplits | seldom_atx/utils/solox/apm.py:51-52 | a line's total is its idle field plus its six busy fields |
| Apm.SumToShort | seldom_atx/utils/solox/apm.py:51-52 | a line with too few fields fails the inner loop |
| Apm.SumToValue | seldom_atx/utils/solox/apm.py:51-52 | a line that reads has seven numeric fields, and its total is their sum |
| Apm.SumToStep | seldom_atx/utils/solox/apm.py:51-52 | each successful step of the inner loop adds the next field |
| Apm.TotalIsIdlePlusBusy | seldom_atx/utils/solox/apm.py:41-87 | when the total reads, the idle and busy readings do too, and the total is idle plus busy |
| Apm.CpuCoresWithoutRange | seldom_atx/utils/solox/apm.py:55-63 | an online list without '-' counts as one core |
| Apm.CpuCoresOfRange | seldom_atx/utils/solox/apm.py:55-63 | an online range a-b counts as b + 1 cores |
| Apm.RangeEndChars | seldom_atx/utils/solox/apm.py:60 | the stripped text after the first '-' holds no '-' and only characters of the online list |
| Apm.CpuCoresAtLeastOne | seldom_atx/utils/solox/apm.py:55-63 | the count is at least 1, since the text after a '-' never reads as negative |
| Apm.CpuCoresWithoutDigits | seldom_atx/utils/solox/apm.py:55-63 | output without a digit counts as one core |
| Apm.SplitAtOnlyDash | seldom_atx/utils/solox/apm.py:60 | two digit runs joined by '-' split back into the two |
| Apm.CpuRate | seldom_atx/utils/solox/apm.py:89-109 | a failed reading in either sample gives the rates (0, 0) |
| Apm.SysRateIsNonIdleShare | seldom_atx/utils/solox/apm.py:101-102 | with distinct totals, the system rate plus the idle share is 100 percent |
| Apm.AppRateIsPercentage | seldom_atx/utils/solox/apm.py:99-100 | the process rate lies in 0..100 when the process's ticks advance no more than the total's |
| Apm.CpuRateOfEqualTotals | seldom_atx/utils/solox/apm.py:99-104 | equal totals are a ZeroDivisionError, swallowed to (0, 0) |
| Apm.TakeDigits | seldom_atx/utils/solox/apm.py:126 | the (\d+) capture is a digit prefix of what follows |
| Apm.MatchAt | seldom_atx/utils/solox/apm.py:126 | a match of literal, \s* and (\d+) at one index captures a non-empty digit run |
| Apm.SearchFrom | seldom_atx/utils/solox/apm.py:126 | re.search from an index captures only non-empty digit runs |
| Apm.Search | seldom_atx/utils/solox/apm.py:126 | re.search captures only non-empty digit runs |
| Apm.SearchAbsent | seldom_atx/utils/solox/apm.py:126-131 | a literal that occurs nowhere finds no match |
| Apm.SearchAbsentFrom | seldom_atx/utils/solox/apm.py:126-131 | a literal that occurs nowhere from an index on finds no match from there |
| Apm.TakeDigitsOf | seldom_atx/utils/solox/apm.py:126 | (\d+) takes exactly a digit run that no digit follows |
| Apm.MatchAtDigits | seldom_atx/utils/solox/apm.py:126 | the literal followed by a space and a digit run matches there and captures the run |
| Apm.NoMatchBetweenOf | seldom_atx/utils/solox/apm.py:126-131 | no match at any index of a range is the same as no match from its start to its end |
| Apm.SearchFromSkipsTo | seldom_atx/utils/solox/apm.py:126-131 | with no match between two indices, re.search from the first gives what it gives from the second |
| Apm.SearchFromStep | seldom_atx/utils/solox/apm.py:126 | past one index without a match, the search goes on from the next and the rest of the range still has none |
| Apm.SearchFromHits | seldom_atx/utils/solox/apm.py:126 | a match at an index is what re.search from there returns |
| Apm.SearchFromSkips | seldom_atx/utils/solox/apm.py:126 | without a match at an index, re.search moves on to the next |
| Apm.SearchFinds | seldom_atx/utils/solox/apm.py:126-131 | re.search returns the capture of the leftmost match |
| Apm.TotalGroup | seldom_atx/utils/solox/apm.py:126-128 | the total capture, from either pattern, is a digit run |
| Apm.SwapGroup | seldom_atx/utils/solox/apm.py:129-131 | the swap capture, with the parentheses escaped, is a digit run |
| Apm.Megabytes | seldom_atx/utils/solox/apm.py:132-135 | a missing match is an AttributeError, swallowed to (0, 0) |
| Apm.KbIsNotANumber | seldom_atx/utils/solox/apm.py:131-133 | the group captured by the unescaped fallback, KB, is refused by float |
| Apm.MemoryAsWrittenNeedsPssSwap | seldom_atx/utils/solox/apm.py:129-135 | as written, output without a TOTAL SWAP PSS: line always reads as (0, 0) |
| Apm.MemoryReadsCaptures | seldom_atx/utils/solox/apm.py:121-140 | corrected, the memory is the captured kilobytes over 1024, from either swap line |
| Apm.MegabytesOfDigits | seldom_atx/utils/solox/apm.py:132-133 | captured digit runs always convert to kilobytes over 1024 |
| Apm.MemoryAgreesWithPssSwap | seldom_atx/utils/solox/apm.py:129-131 | the correction changes nothing when the TOTAL SWAP PSS: line is present |
| Apm.MemoryWithoutTotal | seldom_atx/utils/solox/apm.py:126-135 | without a total line, both versions read (0, 0) |
| Apm.TotalOfDump | seldom_atx/utils/solox/apm.py:126 | in a dump of a TOTAL line and a TOTAL SWAP PSS: line, the total pattern captures the first line's number |
| Apm.SwapOfDump | seldom_atx/utils/solox/apm.py:129 | in the same dump, the swap pattern captures the second line's number, the first line holding no match |
| Apm.NoSwapLineBefore | seldom_atx/utils/solox/apm.py:129 | TOTAL SWAP PSS: cannot begin anywhere in the TOTAL line |
| Apm.MemoryOfLines | seldom_atx/utils/solox/apm.py:121-135 | that dump reads as the megabytes of its two captured numbers |
| Apm.MegabytesOfNumbers | seldom_atx/utils/solox/apm.py:133-134 | the decimal text of a number, captured and converted, gives that number over 1024 |
| Apm.MemoryOfDump | seldom_atx/utils/solox/apm.py:121-135 | round trip: kilobytes printed as TOTAL and TOTAL SWAP PSS: lines read back as those numbers of megabytes |
| Devices.DeviceLines | seldom_atx/utils/solox/common.py:46 | the loop visits lines 1 to len - 2, skipping the header and the trailing blank line; fewer than two lines leave nothing |
| Devices.GetDeviceIds | seldom_atx/utils/solox/common.py:42-50 | getDeviceIds reads the ids of the device lines as their specification says |
| Devices.CollectDeviceIds | seldom_atx/utils/solox/common.py:45-50 | the loop collects, in order, the id of every line in state device, or fails at the first line that does not unpack into two fields |
| Devices.DeviceIdsNext | seldom_atx/utils/solox/common.py:47-49 | one more line of two fields extends the ids by its id when its state is device |
| Devices.DeviceIdsFail | seldom_atx/utils/solox/common.py:47 | a line that does not unpack into two fields fails the whole read |
| Devices.DeviceIdsErrors | seldom_atx/utils/solox/common.py:46-47 | the read fails exactly when some line does not hold two fields, and then with ValueError |
| Devices.DeviceIdsMembers | seldom_atx/utils/solox/common.py:46-50 | an id is returned exactly when some line reads as that id in state device |
| Devices.CountConcat | seldom_atx/utils/solox/common.py:93 | str.count of a concatenation is the sum of the counts |
| Devices.CountZero | seldom_atx/utils/solox/common.py:93 | a character counts zero times exactly when it does not occur |
| Devices.NameColumn | seldom_atx/utils/solox/common.py:85-91 | the name column is 8 for an SDK version below 26, otherwise 7, and a non-empty version int() refuses is a ValueError |
| Devices.EntriesMeaning | seldom_atx/utils/solox/common.py:88-91 | the list fails exactly when some line is too short, and otherwise holds one pid:name entry per line, in line order |
| Devices.EntrySingleColon | seldom_atx/utils/solox/common.py:93 | an entry holds exactly one ':' exactly when neither its pid nor its name holds one |
| Devices.FirstSingle | seldom_atx/utils/solox/common.py:92-93 | the entry found is the first holding exactly one ':', and none is found only when no entry holds exactly one |
| Devices.IndexOf | seldom_atx/utils/solox/common.py:94 | list.index returns the first position holding the entry |
| Devices.MoveToFront | seldom_atx/utils/solox/common.py:92-96 | the loop moves the first entry with exactly one ':' to the front and stops |
| Devices.FirstSingleIs | seldom_atx/utils/solox/common.py:92-93 | the first entry with exactly one ':' is the one found |
| Devices.IndexOfFirstSingle | seldom_atx/utils/solox/common.py:93-94 | list.index finds the entry the loop stands on |
| Devices.MoveFrontPermutes | seldom_atx/utils/solox/common.py:94-95 | the reordering keeps the same entries, with the same multiplicities |
| Devices.MoveFrontPlaces | seldom_atx/utils/solox/common.py:94-95 | the entry moves to the front, the entries before it move back one place and those after it stay |
| Devices.MoveFrontNoSingle | seldom_atx/utils/solox/common.py:92-96 | without an entry holding exactly one ':' the list is unchanged |
| Devices.MoveFrontIdempotent | seldom_atx/utils/solox/common.py:92-96 | reordering twice is reordering once |
| Devices.GetPid | seldom_atx/utils/solox/common.py:82-103 | getPid chooses the column, builds the list and reorders it, and any exception gives the empty list |
| Devices.PidListShape | seldom_atx/utils/solox/common.py:84-103 | the list is empty when the version does not parse or a line is too short, and otherwise holds the entries, one per ps line |
| Devices.CheckPkgname | seldom_atx/utils/solox/common.py:105-111 | the flag says that no fragment of the list occurs in the name |
| Devices.AllowedIff | seldom_atx/utils/solox/common.py:107-110 | a name is refused exactly when com.google occurs in it |
| Text.FindFrom | seldom_atx/cli.py:453 | str.find from an index returns the first occurrence at or after it, or -1 when there is none |
| Text.Find | seldom_atx/cli.py:453 | str.find returns the first occurrence, or -1 exactly when there is none |
| Text.FindIs | seldom_atx/cli.py:453 | the first position where the separator occurs is what find returns |
| Text.PrefixBeforeFindIsFree | seldom_atx/cli.py:453 | the text before the first occurrence holds no occurrence |
| Text.Split | seldom_atx/utils/solox/apm.py:46 | str.split with a separator always yields at least one piece |
| Text.SplitPieces | seldom_atx/utils/solox/apm.py:60 | with a one-character separator, every piece holds only characters of the text and never the separator |
| Text.SplitWithoutSeparator | seldom_atx/utils/solox/apm.py:60 | a text without the separator splits into itself |
| Text.SplitHead | seldom_atx/cli.py:453 | the first piece is the text up to the first separator, or the whole text |
| Text.SplitJoin | seldom_atx/utils/solox/apm.py:46 | pieces free of the separator, joined by it, split back into the same pieces |
| Text.DropSpace | seldom_atx/utils/solox/apm.py:48 | dropping leading whitespace leaves a suffix that starts with no whitespace |
| Text.DropSpaceEnd | seldom_atx/utils/solox/common.py:47 | dropping trailing whitespace leaves a prefix that ends with no whitespace |
| Text.TakeWord | seldom_atx/utils/solox/apm.py:48 | a token is a whitespace-free prefix, non-empty when the text starts with a non-space |
| Text.FieldsStartWithWord | seldom_atx/utils/solox/common.py:88 | str.split() yields only non-empty tokens that start with a non-space |
| Text.DigitChar | seldom_atx/utils/sqlite.py:116 | a digit of str(int) is the character of its value |
| Text.DigitsOf | seldom_atx/utils/sqlite.py:116 | str of a natural number is a non-empty digit run |
| Text.IntToString | seldom_atx/utils/sqlite.py:116 | str of an integer is never empty |
| Text.Zeros | seldom_atx/utils/app/_duration.py:59 | the zero padding is k zero characters |
| Text.ZeroPad | seldom_atx/utils/app/_duration.py:59 | the :06d format is a digit run at least as wide as asked |
| Text.DecValueOfDigits | seldom_atx/utils/app/_duration.py:59 | the digits of a number read back as the number |
| Text.DecValueIgnoresLeadingZeros | seldom_atx/utils/app/_duration.py:59 | leading zeros do not change a digit run's value |
| Text.ZerosValue | seldom_atx/utils/app/_duration.py:59 | a run of zeros reads as 0 |
| Text.ZeroPadValue | seldom_atx/utils/app/_duration.py:59 | the padded digits read back as the number |
| Text.IntBodyChars | seldom_atx/utils/solox/common.py:86 | the body int() accepts is made of digits and underscores |
| Text.AllDigitsIsBody | seldom_atx/utils/solox/common.py:86 | a non-empty digit run is a body int() accepts |
| Text.DropUnderscores | seldom_atx/utils/solox/common.py:86 | removing the underscores int() allows leaves digits, and changes nothing in a plain digit run |
| Text.PyInt | seldom_atx/utils/solox/common.py:86 | int() on text fails only with ValueError |
| Text.StripKeeps | seldom_atx/utils/solox/common.py:47 | str.strip only removes characters: what is left comes from the text |
| Text.StripNoSpace | seldom_atx/utils/solox/common.py:47 | str.strip leaves a text without surrounding whitespace unchanged |
| Text.PyIntOfDigits | seldom_atx/utils/solox/common.py:86 | int() of a digit run is its decimal value |
| Text.PyIntOfNegative | seldom_atx/utils/solox/common.py:86 | int() of '-' and a digit run is the negated value |
| Text.PyIntRoundTrip | seldom_atx/utils/solox/apm.py:60 | int(str(i)) == i for every integer |
| Text.PyIntOfNatDigits | seldom_atx/utils/solox/apm.py:60 | int() of the digits of a natural number is the number |
| Text.PyIntOfNegativeDigits | seldom_atx/utils/solox/apm.py:60 | int() of '-' and the digits of n is -n |
| Text.DecValueBound | seldom_atx/utils/app/_duration.py:59 | a run of k digits reads below 10^k |
| Text.DecValueConcat | seldom_atx/utils/app/_duration.py:59 | two digit runs concatenated read as the first shifted left past the second, plus the second |
| Text.DecValueSuffix | seldom_atx/utils/app/_duration.py:59 | the last k digits read as the value modulo 10^k |

## Left out

- Concurrency: the gevent spawn and join, the log thread, the flag busy-waits in `perf.py`, the daemon recorder thread in `wdadriver.py` and all of `_effect.py`. Only the state changes they make in sequence are modelled.
- OpenCV and imageio (video decode, `resize`, `cvtColor`, `imread`, `imwrite`, the video writer) are library calls. An image is an integer gray grid already at hash size, and a recording is a sequence of grids.
- `os.listdir` gives no order guarantee, so the frame listing is an input sequence, searched in the order given.
- Floating point: `round(..., 2)`, `np.mean`, `statistics.mean` and the fps read from the capture are library arithmetic. Durations, rates and memory are reals without rounding, and the hash compares `gray * N > sum` instead of a float mean.
- matplotlib charts and base64 encoding are library calls. A chart is a named image entry.
- Device shells (`adb.shell`, tidevice, `os.popen`) are I/O. Their output is an input string or list of lines, and the SDK version is input text.
- The sqlite3 engine is a library. A table is an in-memory sequence of rows. JSON encoding and decoding are library calls, so a stored value is its JSON text and `json.loads` of it is taken as given.
- Test and report plumbing (unittest and XTestRunner reports, `webbrowser`, the click `main`, scaffold file writing) is I/O.
- `strftime` timestamps are library formatting. A timestamp is an integer supplied by the caller.
- Text.PyInt: accepts ASCII whitespace and ASCII digits only. Python's `int()` also accepts other Unicode digits and spaces.
- Apm.WsSplit: the `\s+` and `\d` classes are ASCII only.
- Apm.Num: models `float()` only on unsigned integral text, the form `/proc` and `dumpsys` print. Python also accepts a sign, a decimal point, an exponent, surrounding whitespace, `inf` and `nan`, and the model refuses those with ValueError.
- Wda.Decode: ASCII only. Valid multibyte UTF-8, which Python's `decode('utf-8')` accepts, is refused with ValueError. The recorder decodes only the ASCII length header.
- Cli.PathJoin: POSIX `os.path.join` only. Windows drive letters and backslashes are not modelled.
- Wda: a real socket that has closed returns empty chunks forever, and the drain loop would then spin. The model's socket is a finite script, and running past its end is an IOError.
- PerfDecorator: the `get_log` thread's append to LOGS_ERROR is not modelled. The decorator only clears that list and never reads it, so the list stays empty in the model.
- PyValues: keyword argument values on elements are modelled as strings. Any other value is carried as its `str()` text.
- Runner: `TestMain`'s dispatch on a path or a case list, and the suite it runs, are unittest plumbing. Only its argument checks are modelled.
- Sqlite: `Config.del_`, the raw `execute_sql`/`query_sql` wrappers and the `DataBase` constants are not part of this model. The table name is a parameter.
- Devices: `execCmd`, `filterType`, `getDevicesName`, `getDevices`, `getIdbyDevice`, `getPkgname` and the iOS helpers are shell calls and are not part of this model. The logging in `getPid` is left out too.
- Apm: `getSysCpuStat` is not modelled. Its regular expression `(?<!cpu\d+)` is a variable-width look-behind that Python refuses to compile, so the method always raises. `getAndroidMemoryDetail`, the battery, network, fps and gpu readers are not part of this model.
- Duration: the stop search's dead assignment of `best_match` inside the loop is dropped, because the result is taken from `end_list`.
- Keyframes.MeasuredFromFrameNames: stated only for frame indices below 1000000. Beyond that, the last six characters of the stem drop the leading digits, and Duration.FrameIndexRoundTrip gives the index modulo 10^6.
- PerfDecorator.StaleErrorsForgotten: the whole leftover state is shown equal only when the key-frame check passes. When the call stops at that check, only its outcome is shown equal, because the stale lists then remain in the state it leaves.
- Sqlite.AllAsWrittenLosesValues: takes `json.loads` of the key column as given. In Python, a key that is not JSON text, such as fps, makes `get_all` as written raise, so the lemma shows only that the values are lost.

## Findings

| source | as written | input that shows it | evidently intended | confidence | as-written member | corrected member |
|---|---|---|---|---|---|---|
| seldom_atx/u2driver.py:377-387 | `back()` and `home()` look up the lower-case keys `back` and `home` in a table whose keys are upper-case, so they send None | `back()` or `home()` | send the codes `back` and `home`, as `press('BACK')` and `press('HOME')` do | high, not executed | U2.ButtonsSendNothing | U2.Back, U2.Home |
| seldom_atx/utils/sqlite.py:72-74 | `select_data` appends `where` without a separating space | table `config`, where `{key: 'a'}` gives `select * from configwhere key='a';` | `select * from config where key='a';`, the clause `delete_data` builds | high, not executed | Sqlite.SelectRunsIntoTable | Sqlite.SelectAgreesWithDelete |
| seldom_atx/utils/sqlite.py:144-153 | `set` relies on an IntegrityError to update, but the config table made by `create_table` (seldom_atx/cli.py:169-177) has no UNIQUE constraint on `key`, so a second `set` appends a row and `get` keeps reading the first | `set('fps', 1)`, `set('fps', 2)`, `get('fps')` gives 1 | an upsert: `get` returns the value just set | medium, not executed | Sqlite.StaleGetAsWritten, Sqlite.StaleGetExample | Sqlite.SetThenGet, Sqlite.Config.Set |
| seldom_atx/utils/sqlite.py:171-174 | `get_all` reads `select *` rows as (key, value) but the columns are (id, key, value), so it maps row ids to key texts | one row id 1, key fps, value 45 | a map from each key to its value | high, not executed | Sqlite.AllAsWrittenLosesValues | Sqlite.AllAgreesWithGet, Sqlite.Config.GetAll |
| seldom_atx/running/runner.py:355-356 | a data-driven test is selected by any prefix of its name | requesting method `test_a` also runs `test_ab_1` | select `test_ab_1` only for `test_ab` or its own full name | medium, not executed | Runner.SelectsAsWrittenOvermatches, Runner.PrefixOvermatches, Runner.CorrectedRunsFewer | Runner.CollectedNamesSelect, Runner.RunCases, Runner.RunSelects |
| seldom_atx/utils/solox/apm.py:131 | the fallback pattern `TOTAL SWAP (KB):` makes `(KB)` a group, so it matches `TOTAL SWAP KB:` and its group 1 is the text KB, which `float` refuses | output `TOTAL 5` and `TOTAL SWAP KB: 7` reads (0, 0); output with `TOTAL SWAP (KB): 7` does not match at all and also reads (0, 0) | escape the parentheses and read 5/1024 and 7/1024 MB | high, not executed | Apm.MemoryAsWrittenNeedsPssSwap | Apm.MemoryReadsCaptures |
