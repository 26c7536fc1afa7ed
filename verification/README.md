# Bee mite detector: a verified model of the monitor and the detection callback

The bee mite detector runs a detection pipeline (`detection.py`) as a child process
of a Flask application (`app.py`). For every video frame the pipeline's callback counts
bee and varroa detections, keeps the set of unique track ids per class, and prints a
block of text lines. The application reads those lines one at a time. It turns them into
a statistics record and four bounded chart buffers. Every tenth frame it computes an
infestation ratio and a risk level. Every hundredth frame it asks the database to save
metrics. It also starts and stops the detection run through two routes. Stopping
escalates signals to the child and sweeps stray pipeline processes found with `ps`.

This project models that core in Dafny and proves its properties:

- `wrappers.dfy` (`Wrappers`): the `Option` type.
- `py_text.dfy` (`PyText`): the Python built-ins the core relies on:
  - `str.strip()`
  - `p in s`
  - `s.split(sep)[1]`
  - `s.split('\n')` and `'\n'.join`
  - `s.split()`
  - `int(s)` and `str(n)`
- `risk.dfy` (`Risk`): the ratio with its zero-divisor guard, and the four half-open risk bands.
- `output_parser.dfy` (`OutputParser`): the five markers of `parse_detection_output`. Each is looked up on its own in a line.
- `stats_aggregator.dfy` (`StatsAggregator`): what one line does to the statistics, the chart buffers and the database request log, stated as functions on an `Aggregate` value.
- `supervisor.dfy` (`Supervisor`): the globals of `app.py` as the class `Monitor`. Its methods change the record and the buffers in place. Each is proved against the functions of `StatsAggregator` and `Reaper`. This file holds:
  - the read loop;
  - the reset at the start of a run;
  - the `finally` block;
  - the start and stop routes.
- `reaper.dfy` (`Reaper`): PID selection from `ps` output, the SIGTERM/SIGKILL sweeps, and the SIGINT → SIGTERM → SIGKILL escalation of `terminate_detection`. The operating system is a class `Host` with:
  - a set of live PIDs;
  - the set of the monitor's own children, and the set of those that have ended but were not collected (their PIDs still answer `os.kill` until `poll()` collects them);
  - an oracle for what `ps` prints;
  - an oracle for whether the monitor's user may signal a process (`os.kill` raises `PermissionError` otherwise);
  - an oracle for whether a process outlives a signal;
  - a ghost trace of every call made.
- `detection.dfy` (`Detection`): `user_app_callback_class` as a class with its counters and id sets, and the counting and printing part of `app_callback`.
- `protocol.dfy` (`Protocol`): the two sides together. Feeding the monitor the text one callback prints reproduces, in the statistics:
  - the frame count;
  - the current-frame counts;
  - the unique counts the callback held.

Database calls (`start_new_session`, `save_metrics`, `end_session`) are entries in a
request log. Clock readings (`time.time()`) and the `HH:MM:SS` stamp are parameters.

Where the written description of the system and the code disagree, the model follows the
code. The description's worked example has the ratio computed from the unique counts of
the same report (`Unique bees: 10`, `Unique varroa: 2` → ratio 0.2, Critical). The code
computes the ratio when it reads the `Frame count:` line (app.py:159-176). That line is
printed first in each report (detection.py:95). So the sample uses the unique counts left
by the previous report. `Protocol.RoundTrip` states exactly this: the ratio and the risk
level are sampled from the statistics held before the report.

## Model

| member | source | states |
|---|---|---|
| PyText.Strip | app.py:407 | `strip()` returns the slice of its input left after cutting a run of blanks (Python's `isspace` set) from each end, with no blank at either end of the result; it returns the input unchanged when neither end is blank |
| PyText.SplitSecond | app.py:109 | `line.split(marker)[1]` exists exactly when the marker occurs in the line; the piece starts right after the first occurrence and runs up to the next occurrence, or to the end of the line when there is none |
| PyText.IntRoundTrip | app.py:109 | `int()` reads every integer back from its `str()` form |
| PyText.SplitOn | app.py:190 | `split('\n')` gives at least one part, and no part holds the separator |
| PyText.SplitJoin | app.py:190 | splitting the newline-join of lines that hold no newline gives back exactly those lines |
| PyText.JoinSplit | app.py:190 | joining the parts of a split with the separator gives back the text |
| PyText.Words | app.py:193 | every column of `split()` is non-empty and starts with a non-blank character |
| PyText.WordsOfWord | app.py:193 | a run of non-blank characters followed by a blank is the first column, and the remaining columns come from the rest |
| PyText.WordsSkipBlanks | app.py:236 | leading blanks do not change the columns of `split()` |
| PyText.IntToString | detection.py:95 | `str(n)` is non-empty, holds only digits and minus signs, starts with a digit or a minus and ends with a digit, so `strip()` leaves it as it is |
| Risk.InfestationRatio | app.py:69-73 | the ratio is exactly 0 when there are no unique bees, and never negative for a non-negative varroa count |
| Risk.RatioTimesBees | app.py:70-71 | with unique bees present, the ratio times the bee count is the varroa count |
| Risk.ClassifyAgreesWithCounts | app.py:79-87 | the band chosen from the ratio equals the band chosen by integer cross-multiplication (20·v < b Low, 10·v < b Moderate, 20·v < 3·b High, else Critical); no bees gives Low |
| Risk.ClassifyBoundaries | app.py:80-87 | a ratio exactly on a threshold falls in the higher band; one just below stays in the lower |
| Risk.ClassifyMonotone | app.py:80-87 | classification never yields Unknown, and a larger ratio never yields a lower band |
| OutputParser.FieldValue | app.py:107-117 | a marker yields a value only when it occurs in the line |
| OutputParser.MarkerLineValue | app.py:107-147 | the line `"<marker> n"` yields n for that marker |
| OutputParser.MarkerLineSplit | app.py:109 | `split(marker)[1]` of the line `"<marker> n"` is `" n"` |
| OutputParser.StripBlankNumeral | app.py:109 | stripping `" n"` gives the digits of n |
| OutputParser.AbsentMarker | app.py:107 | a line lacking one of the marker's characters yields nothing for that marker |
| OutputParser.NoUIsSilent | app.py:98-180 | a line without a 'u', such as a `Label:` line, carries none of the five markers |
| StatsAggregator.Step | app.py:98-180 | each parsed marker overwrites its own fields (`Unique …:` sets unique and total to the same value), a missing or unparsable marker leaves its fields, `Frame count:` sets the frame total, and a line with no value changes nothing |
| StatsAggregator.ParseLine | app.py:98-180 | a line carrying none of the markers leaves statistics, buffers and requests unchanged |
| StatsAggregator.FrameCount | app.py:159-176 | the frame-count branch sets `total_frames` and touches no count field |
| StatsAggregator.FpsRule | app.py:164-172 | fps, last frame and last update change only when frame_diff > 0 and time_diff > 0.5; then fps = frame_diff / time_diff > 0; otherwise all three are kept |
| StatsAggregator.Rate | app.py:170 | a positive frame difference over a positive time gives a positive rate |
| StatsAggregator.RateTimesSeconds | app.py:170 | the rate times the elapsed time gives back the frames |
| StatsAggregator.SampleCadence | app.py:174-176 | a sample is pushed exactly when the line's frame count is a multiple of 10, with the ratio of the unique counts and its band; otherwise buffers, ratio and level are kept |
| StatsAggregator.SaveCadence | app.py:89-96 | a `save_metrics` request with the unique counts, the frame count and fps is logged exactly when the frame count is a multiple of 100 |
| StatsAggregator.HundredsAreTens | app.py:90 | every frame that saves metrics is also a sampling frame |
| StatsAggregator.Sample | app.py:60-96 | `update_time_series` changes only ratio and level among the statistics, computes the ratio from the unique counts, classifies it, pushes the same ratio with the current counts, and logs the save request |
| StatsAggregator.PushSampleAligned | app.py:64-77 | the four buffers stay equal in length and grow together by one until full |
| StatsAggregator.AppendShape | app.py:30-35 | appending to a `deque(maxlen=100)` adds the element last, grows the deque by one below capacity, and evicts the oldest element at capacity |
| StatsAggregator.WindowShape | app.py:30-35 | the deque holds the newest elements, at most 100 |
| StatsAggregator.AppendAllKeepsNewest | app.py:30-35 | appending one element at a time keeps the newest 100 of everything appended |
| StatsAggregator.FullBufferHoldsNewest | app.py:30-35 | after 100 or more appends the deque holds exactly the last 100 |
| StatsAggregator.RunStart | app.py:344-366 | the state after the reset satisfies the run invariant |
| StatsAggregator.StepKeepsInv | app.py:98-180 | every line keeps the invariant: buffers aligned and within capacity, fps never negative, ratio and level those of the newest sample (0 and Unknown before any) |
| StatsAggregator.FoldKeepsInv | app.py:398-410 | a whole run of lines keeps that invariant |
| StatsAggregator.FoldConcat | app.py:398-410 | handling lines in two batches is handling them in one |
| Reaper.AfterSignal | app.py:291-307 | a signal can end only the signalled process; it ends it unless it is a probe or the process survives it; SIGKILL always ends it |
| Reaper.Host.Ps | app.py:186 | a listing returns what `ps` prints for the running processes and is recorded; nothing else changes |
| Reaper.Host.Kill | app.py:291-307 | `os.kill` is delivered exactly when the PID names a running process or an ended child not yet collected, and the monitor may signal it; then the live set changes per `AfterSignal` and a child the signal ends stays uncollected; otherwise nothing changes; the call is recorded |
| Reaper.Host.Spawn | app.py:384-394 | `Popen` starts the child: it runs and is one of the monitor's children; the launch is recorded |
| Reaper.Host.Reap | app.py:399 | `poll()` collects an exited child: its PID no longer names a process, running or ended, and it is no longer a child; the collection is recorded |
| Reaper.LinePid | app.py:190-199 | a PID comes only from a line that contains the pattern and does not contain `grep` |
| Reaper.FullRowSelected | app.py:190-199 | a `ps -ef` row that mentions the pattern and not `grep` contributes the PID in its second column |
| Reaper.PidRowSelected | app.py:233-242 | a padded `ps -eo pid,cmd` row that mentions the pattern and not `grep` contributes the PID in its first column |
| Reaper.SelectedPidsExactly | app.py:190-199 | a PID is selected if and only if some line of the listing contributes it |
| Reaper.ScanPids | app.py:189-199 | the scanning loop collects exactly the selection of the split listing, in order |
| Reaper.PidCallsEscalate | app.py:202-216 | a selected PID gets SIGTERM first, and SIGKILL exactly when `os.kill` reached it, the monitor could signal it, and the probe still found it (it outlived SIGTERM, or it is an uncollected child of the monitor); every signal goes to that PID |
| Reaper.TerminatePid | app.py:202-218 | after the SIGTERM/probe/SIGKILL step the process is gone if the monitor may signal it and untouched otherwise (`PermissionError` caught); nothing else is touched, and a child of the monitor it ends stays uncollected |
| Reaper.KillAll | app.py:201-218 | after the kill loop every selected process the monitor may signal is gone, and no other process is touched |
| Reaper.FindAndKill | app.py:182-223 | a sweep returns the number of PIDs selected whatever became of them (0 when `ps` failed), removes exactly the selected processes it may signal, and makes exactly one listing |
| Reaper.SweepAll | app.py:323-334 | sweeping a list of patterns lists once per pattern, in order, and leaves `SweepLive`: each scan removes what it selects, from a listing of what the earlier scans left |
| Reaper.SweepLiveExactly | app.py:323-334 | a process outlives the scans exactly when it was there before them and either the monitor may not signal it or no scan selected it |
| Reaper.Sweep | app.py:322-337 | the sweeps of `terminate_detection` list the three process names, `gst-launch` and the five pipeline elements in that order, then wait 0.1 s; the processes left are `SweepsLive` of those before |
| Reaper.EscalationOrder | app.py:283-315 | SIGINT first; SIGTERM exactly when SIGINT reached the process and the probe still found it (it outlived SIGINT, or it is the monitor's uncollected child); SIGKILL exactly when the second probe found it as well; every signal to that PID; at most 3 s of waiting |
| Reaper.ChildEscalation | app.py:283-315 | the monitor's own child, running or ended but not collected, answers both probes, so it gets SIGINT, SIGTERM and SIGKILL with the 2 s and 1 s waits between them |
| Reaper.Escalate | app.py:283-315 | after the escalation the child no longer runs (unless the monitor may not signal it), no other process is touched, and an ended child of the monitor stays uncollected; the calls are `EscalationCalls` |
| Reaper.TerminateThenKill | app.py:297-309 | once a probe has found the child after SIGINT: SIGTERM, a 1 s wait, a probe, and SIGKILL exactly when the probe finds it again; afterwards the child no longer runs |
| Supervisor.LeadShape | app.py:399-405 | the steps the read loop consumes are a prefix of what it finds; only the last may end the loop, and it stops early only at a step that ends it |
| Supervisor.Monitor.constructor | app.py:24-50 | module load: counts zero, level Unknown, buffers empty, not running, no child |
| Supervisor.Monitor.UpdateTimeSeries | app.py:60-96 | the globals become `Sample` of what they were |
| Supervisor.Monitor.ParseDetectionOutput | app.py:98-180 | the globals become `ParseLine` of what they were, and the run invariant is kept |
| Supervisor.Monitor.ApplyFields | app.py:107-176 | the five marker branches in sequence amount to `Step` |
| Supervisor.Monitor.StoreCounts | app.py:107-147 | the four count branches overwrite exactly the fields whose values parsed |
| Supervisor.Monitor.HandleFrameCount | app.py:159-176 | the frame-count branch amounts to `FrameCount` |
| Supervisor.Monitor.HandleLine | app.py:407-410 | a line read is stripped; a blank one is skipped; any other is parsed |
| Supervisor.Monitor.Consume | app.py:399-410 | one iteration: the child's exit ends the loop and `poll()` collects the child (no longer running, ended or a child); the cleared flag ends the loop; no output waits; a line is handled |
| Supervisor.Monitor.ReadOutput | app.py:398-410 | the loop leaves the statistics as the fold of the parser over the lines it consumed, and keeps the invariant; the child is collected exactly when the loop ended on its exit |
| Supervisor.Monitor.TerminateDetection | app.py:276-337 | the escalation of the child, if any, is at the head of the calls (a single SIGINT when the child was already collected); the handle is cleared; the sweeps run in both cases, and the processes left are `SweepsLive` of those left after the child; the monitor's children among the processes ended stay uncollected; statistics untouched |
| Supervisor.Monitor.StopChild | app.py:283-320 | the child, if any, gets the escalation's calls and no longer runs if the monitor may signal it; the handle is cleared; nothing else changes |
| Supervisor.Monitor.ReleaseResources | app.py:372-374 | `terminate_detection` then the IPC purge of `clean_gstreamer_resources`: the processes become `Released` of those before, the sweeps list once, and the purge is the last call |
| Supervisor.Monitor.OpenRun | app.py:343-377 | the reset, then the release of leftovers (`Released`), one round of sweep listings, and a 0.1 s wait; the handle is cleared |
| Supervisor.Monitor.LaunchAndRead | app.py:379-410 | the child `Popen` gave runs as the monitor's child; the statistics become the fold of the parser over the lines read; the child is collected exactly when the loop ended on its exit; nothing is listed |
| Supervisor.Monitor.ResetRun | app.py:344-366 | the reset: statistics zeroed, a session opened, buffers cleared |
| Supervisor.Monitor.FinishRun | app.py:414-422 | the `finally` block: session closed, processes `Released` (child gone), handle cleared, flag lowered, statistics kept; the sweeps list once and the purge is the last call |
| Supervisor.Monitor.DetectionLoop | app.py:339-423 | a run ends with the flag down and no child; its statistics and buffers are the fold of the parser over the lines read from a fresh reset; the session is opened and closed; the processes are those left by the opening release, the launch, the loop's collection of the child and the closing release; the sweeps list twice and the purge is the last call |
| Supervisor.Monitor.StartDetection | app.py:438-462 | answers `started` and raises the flag only when it was down, after the processes became `Released` of those before, the sweeps listed once, and the purge, the 0.1 s and the 1 s waits ended the calls; otherwise answers `already_running` and changes nothing |
| Supervisor.Monitor.StopDetection | app.py:464-488 | answers `stopped`, lowers the flag and releases the processes (`Released`, the child gone) only when it was up, with the sweeps listing once and the purge last; otherwise answers `already_stopped` and changes nothing |
| Supervisor.StartThenStop | tests/ui/test_flask_routes.py:56-72 | a fresh application answers `started` and then `stopped` |
| Supervisor.RepeatedRequests | app.py:438-488 | start, start, stop, stop answer `started`, `already_running`, `stopped`, `already_stopped` |
| Detection.Tracked | detection.py:130-131 | only track ids above 0 enter the unique sets |
| Detection.Fixed2Rounds | detection.py:132 | `{confidence:.2f}` prints digits, a point and two digits whose value is the hundredths nearest to the confidence |
| Detection.ExamineKeepsSound | detection.py:111-140 | one detection keeps the counters sound: counts never negative, current ≤ total, unique ids positive and no more of them than counted detections |
| Detection.ExamineAllKeepsSound | detection.py:111-140 | a whole frame keeps the counters sound |
| Detection.ExamineAllCounts | detection.py:111-140 | after a frame each total and current count grows by the qualifying detections of its class, and each unique set by their positive track ids |
| Detection.IgnoredIsInvisible | detection.py:116-118 | a detection below the confidence threshold or of another label changes no counter and prints nothing |
| Detection.SeenIdAgain | detection.py:130-131 | seeing a known track id again does not raise the unique counts |
| Detection.TrackedWithinTally | detection.py:67-71 | a frame has no more distinct track ids of a class than counted detections of it |
| Detection.UserAppCallback.constructor | detection.py:41-53 | counters zero, id sets empty, start time set |
| Detection.UserAppCallback.Increment | detection.py:94 | the frame counter of the base class grows by one, nothing else changes |
| Detection.UserAppCallback.IncrementBee | detection.py:55-56 | `bee_count` grows by one, nothing else changes |
| Detection.UserAppCallback.IncrementVarroa | detection.py:58-59 | `varroa_count` grows by one, nothing else changes |
| Detection.UserAppCallback.ResetFrameCounts | detection.py:73-75 | the current-frame counts become 0, nothing else changes |
| Detection.UserAppCallback.SetStartTime | detection.py:77-78 | the start time is replaced, nothing else changes |
| Detection.ExamineDetection | detection.py:111-140 | the loop body updates the counters per `Examine` and prints the label line exactly for a qualifying bee or varroa |
| Detection.CountDetections | detection.py:110-140 | the loop over a frame's detections updates the counters per `ExamineAll` and prints their label lines in order |
| Detection.WriteSummary | detection.py:142-148 | the six summary lines carry the current, total and unique counts |
| Detection.AppCallback | detection.py:87-148 | no buffer: nothing printed and nothing counted; otherwise the frame counter grows by one, the current counts equal the frame's qualifying detections, totals and unique sets grow accordingly, and the printed text is the report |
| Protocol.QuietReading | app.py:150-156 | a line without a 'u' (a `Label:` line) changes nothing |
| Protocol.FoldQuiet | app.py:150-156 | a batch of such lines changes nothing |
| Protocol.LabelLinesFree | detection.py:126-140 | the label lines hold no 'u' and no newline |
| Protocol.TotalLinesQuiet | detection.py:145-146 | the `Total …:` lines hold no 'u', so the parser ignores them |
| Protocol.FrameLineFields | detection.py:95 | `Frame count: n` yields the frame count n and nothing else |
| Protocol.CurrentBeesLineFields | detection.py:143 | `Current frame bees: n` yields that count and nothing else |
| Protocol.CurrentVarroaLineFields | detection.py:144 | `Current frame varroa: n` yields that count and nothing else |
| Protocol.UniqueBeesLineFields | detection.py:147 | `Unique bees: n` yields that count and nothing else |
| Protocol.UniqueVarroaLineFields | detection.py:148 | `Unique varroa: n` yields that count and nothing else |
| Protocol.PrintedLines | detection.py:204 | `readline()` delivers the printed report as its lines followed by one empty line: the report ends in a newline and `print` adds another |
| Protocol.HeadStep | app.py:159-176 | reading the frame-count line sets the frame total and samples on every tenth frame |
| Protocol.Summary | app.py:107-147 | the summary lines set the current and unique counts (and the totals from the unique counts); the total lines and the empty line change nothing |
| Protocol.ReadReport | app.py:107-162 | reading the lines of one report reproduces the counts it printed |
| Protocol.RoundTrip | detection.py:142-148 | the report one callback prints, read back line by line, leaves in the statistics the frame count, current counts and unique counts printed (totals from the unique counts); the ratio and level are sampled from the unique counts held before the report |

## Left out

- `int()`: underscores between digits and non-ASCII digits and blanks, which Python accepts, are not modelled. `int()` is a sign and ASCII digits, after stripping the characters Python's `str.isspace` accepts.
- Floating point: fps and the ratio are reals, without IEEE rounding. `{confidence:.2f}` is modelled as round-half-up to hundredths. Python rounds the binary value, which can differ on exact halves.
- NaN and infinite confidences or times are not modelled.
- Concurrency: the reader thread and the routes share globals without locks; the model runs them one after another. A stop that arrives during the read loop appears as a `StopRequested` step that only clears the flag. The route's own teardown is `StopDetection`.
- Supervisor.Monitor.StartDetection: the detection thread is not started; a run is the separate call `DetectionLoop`. The `threading.Thread` and `join(timeout=5.0)` calls are not modelled.
- `readline()` returns lines with their newline; the model hands the line to `strip()` as read. Python's `strip()` also removes the newline, and so does the model's `Strip`, which cuts every character of Python's `isspace` set, so the result is the same.
- `clean_gstreamer_resources` runs shell commands (`ipcrm`, `ipcs`); it is modelled as one recorded `IpcPurged` call.
- `subprocess.Popen` is a parameter: the PID it returned, or `None` where it raised before the loop.
- Exceptions other than a failed `ps`, a failed `Popen` and the `OSError` of `os.kill` are not modelled. `os.kill` raises `ProcessLookupError` for a PID that names no process and `PermissionError` for one the monitor may not signal; both leave the process set as it was.
- `print` output and the `DEBUG` messages are not modelled.
- Reaper.Host.Kill: PIDs are taken to be positive, as `ps` and `Popen` give them; the meaning `os.kill` gives to PID 0 and to negative PIDs (a process group) is not modelled.
- Reaper.Host.Ps: the `ps` oracle is given the running processes only; an ended child not yet collected, which `ps` lists as `<defunct>` under its bare command name, is not listed.
- Collection of an ended child when `detection_process = None` (app.py:320) drops the last reference to the `Popen` object (CPython's `Popen.__del__` may then collect it) is not modelled: the child stays among the uncollected ones until `poll()` collects it.
- The database (`bee_health_db.py`) is a log of requests. The SQLite writes themselves are not modelled.
- The e-mail service is not modelled. Its risk bands repeat those of `Risk.Classify`.
- The other Flask routes, `signal_handler`, the dashboard and the tests' fixtures are not modelled.
- `detection.py` outside the counting and printing is not modelled: the GStreamer/Hailo buffer API, frame capture, the OpenCV drawing and FPS overlay, and the tracker configuration.
- The `app_callback_class` base class is not modelled; only its frame counter is, as a field of `UserAppCallback`.
- Detections are values: a label, a confidence and the list of unique-id objects attached.
