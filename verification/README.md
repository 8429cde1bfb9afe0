# geobeam core in Dafny

A Dafny model of the core of geobeam, a tool that feeds GPS simulations to
a bladeRF broadcaster. The model covers four parts of the Python sources:

- **Route upsampler** (generate_route.py): `TimedRoute.upsample_route`
  turns sparse waypoints into a dense track. The track has nine priming
  copies of the first point, then per-segment linear interpolation with
  `n = int(d * frequency / speed) - 1`, then the last point, and a uniform
  `distances` array. `Route.write_route` and `TimedRoute.write_route`
  produce the rows they hand to the CSV writer. Modules: `GenerateRoute`,
  with the properties in `RouteProofs`.
- **Simulation playlist** (simulations.py). The parts modelled are:
  - `create_bladeGPS_process` as a pure command-line builder;
  - the `run_simulation` overrides;
  - `is_running`;
  - the quit → terminate → kill escalation of `end_simulation`, run against
    an oracle of poll answers;
  - the shape of a `log_simulation` record;
  - `switch_simulation`, and the `run_simulations` loop as a state-transition
    function over explicit per-pass inputs (a `Tick`).

  A session records what it did as a history of `Started`, `Ended` and
  `Logged` events. Every session operation is proved to keep that history
  accepted by the small automaton `Replay`: each run is started, then
  ended, then logged, before the next one starts. Modules: `Simulations`,
  `Playlist`, `StepProofs` and `PlaylistProofs`.
- **Directions and elevation parsing** (map_requests.py):
  `parse_directions_response` and `parse_elevations_response` over the
  already deserialised responses. Module: `MapRequests`.
- **GPX track points** (geobeam/gpx_parser.py): the extension gate of
  `parse_file`, and `parse_gpx_trkpts` over an ElementTree-like element
  tree, including the altitude carry-forward. Modules: `GpxParser` and
  `GpxProofs`.

Several things the model takes as parameters:

- Floating point is modelled with `real`, and Python's `int()` on a float
  is `Common.Trunc`, which truncates toward zero.
- The function-typed parameters are:
  - `lla_to_xyz` (`toXyz`);
  - `str` on numbers (`show`);
  - `__repr__` (`describe`);
  - `strftime` (`stamp`);
  - `float()` on strings (`toReal`);
  - the lines of a track file (`files`).
- The clock, the keyboard and `Popen.poll` become explicit inputs.

Points where the code behaves in a way a reader might not expect, as
modelled:

- Upsampling emits 9 priming copies (`range(1, 10)`). A route therefore
  has `9 + Σ n_i + 1` points, and the first segment's `j = 0` point is a
  tenth sample at the start location. tests/test_generate_route.py:110
  expects one point more (`+ 11`).
- `durations` is not rewritten by upsampling (see Findings).
- A run can be started again: `p` goes back and relaunches the previous
  run, and the new launch overwrites its start time. The attribute
  docstring at simulations.py:44 calls it the "most recent start time".
- An empty playlist does not run at all. `switch_simulation(0)` only
  prints, and the first loop check `None < 0` raises `TypeError`. The
  model reports this as `EmptyPlaylist`.

## Model

| member | source | states |
|---|---|---|
| Common.Trunc | generate_route.py:150 | `int(x)` truncates toward zero: for x ≥ 0 the result is the largest integer not above x, and for negative x the smallest integer not below x |
| GenerateRoute.Interpolate | generate_route.py:150-159 | a segment contributes `max(n, 0)` points: `range(n)` is empty for negative n |
| GenerateRoute.EmitSegments | generate_route.py:145-159 | the segment loop succeeds exactly when no segment has `points_needed == 0`. It then emits the per-segment counts summed in route order. Otherwise it fails at the first such segment, naming its index |
| GenerateRoute.Upsample | generate_route.py:137-163 | fails on zero speed or zero frequency, or on a segment with `points_needed == 0`, and only then. On success the route has `9 + Σ max(n_i,0) + 1` points and one distance per new segment, each `speed/frequency`. Speed, frequency and polyline are kept, and `durations` is left unchanged |
| GenerateRoute.UpsampleCorrected | generate_route.py:162 | with line 162 assigning `durations`: same success, points and distances as `Upsample`, every duration is `1/frequency`, and the new route again has one distance and one duration per segment |
| GenerateRoute.WriteRoute | generate_route.py:109-113 | one `(x, y, z)` row per route point, in order |
| GenerateRoute.WriteTimedRoute | generate_route.py:165-171 | one `(time, x, y, z)` row per point, in order. Time starts at 0 and grows by `1/frequency` per row. A zero frequency with at least one point fails |
| RouteProofs.SegmentPlacement | generate_route.py:145-159 | segment k's j-th point sits at offset `Σ_{i<k} n_i + j` of the interpolated part: segments are emitted whole, in route order |
| RouteProofs.UpsampleLayout | generate_route.py:139-160 | the track is the priming copies, then the segments' points, then the last route point |
| RouteProofs.NeededUpToIsSum | generate_route.py:145-154 | when every segment needs at least one point, the points emitted by the first i segments number `Σ n_k` |
| RouteProofs.UpsampleLength | generate_route.py:142-160 | if every `n_i ≥ 1`, upsampling succeeds and the route has `9 + Σ n_i + 1` points |
| RouteProofs.UpsamplePriming | generate_route.py:141-157 | the first nine points are the original first point. When segment 0 emits points, the tenth has the same latitude, longitude and altitude |
| RouteProofs.InterpolateClosedForm | generate_route.py:150-158 | the j-th point of a segment from S to E is `S + (E−S)·j/n` in latitude, longitude and altitude, with its ECEF triple converted from those |
| RouteProofs.LerpClosedForm | generate_route.py:151-157 | the source's `start + (end−start)/n*j` equals `start + (end−start)·j/n` |
| RouteProofs.LocateOnSegment | generate_route.py:155-158 | a point built from the three interpolated coordinates and `add_XYZ` lies j/n of the way along the segment |
| RouteProofs.UpsampleSegmentPoint | generate_route.py:145-159 | in the upsampled route, segment k's j-th point (0 ≤ j < n_k) is at index `9 + Σ_{i<k} n_i + j`, before the final point, and lies j/n_k of the way from S to E |
| RouteProofs.SegmentOmitsEnd | generate_route.py:154-157 | for j < n a segment's interpolated coordinate never reaches a distinct end value: E itself is not emitted by the segment |
| RouteProofs.UpsampleSegmentBoundary | generate_route.py:145-160 | the sample after segment k's points is at E, the segment's end: it is the next segment's first point, or the route's last point |
| RouteProofs.UpsampleFinalIndex | generate_route.py:145-160 | after the last segment's points comes exactly one more sample, the route's last point |
| RouteProofs.FirstOfSegment | generate_route.py:154-157 | a segment's `j = 0` point has the segment start's latitude, longitude and altitude |
| RouteProofs.UpsampleLastPoint | generate_route.py:160 | the upsampled route ends with the original last point |
| RouteProofs.UpsampleShortSegment | generate_route.py:150-153 | a segment with `1 ≤ d·frequency/speed < 2` has `points_needed == 0`: upsampling fails with the division by zero of an empty segment, at that segment or an earlier one |
| RouteProofs.UpsampleLeavesDurationsStale | generate_route.py:162 | as written, a 2-point route with 5 m at 10 m/s and 10 Hz upsamples to 14 points but keeps 1 duration, so the route no longer has one duration per segment |
| RouteProofs.UpsampleCorrectedKeepsDurations | generate_route.py:162 | with the correction, the same route gets 13 durations of 0.1 s |
| Simulations.LookupConcat | simulations.py:177-189 | looking a flag up in two pair lists laid end to end finds it in the first if it is there, else in the second |
| Simulations.CommandShape | simulations.py:177-189 | the lookups and flag order of a launcher followed by up to three optional pairs |
| Simulations.CreateCommandShape | simulations.py:177-189 | the command `CreateCommand` builds starts `./run_bladerfGPS.sh -T now`. Then come `-d` and `-a` with their values exactly when duration and gain are truthy (0 and None omitted), then `-l` for a non-empty location, else `-u` for a non-empty path, in that flag order |
| Simulations.LaunchCommandShape | simulations.py:115-154 | the command `LaunchCommand` gives each kind of run: a static run launches with `-l "lat,lon"` and no `-u`. A dynamic run launches with `-u path` when the path is non-empty, and no `-l`. A base `Simulation` launches with neither (lines 55-59). Every run passes its own duration and gain |
| Simulations.Launch | simulations.py:55-59 | `run_simulation` sets the start time to the clock and the process to one running the run's command, and keeps the spec and end time |
| Simulations.ShutdownFacts | simulations.py:68-80 | the escalation `ShutdownFrom` reads the poll oracle in order: the trace's polls are the oracle's answers from poll k on, each quit opens a round of three polls, every round was entered on a loop check (poll k + 3m) that found the process alive, and the trace ends at the first loop check that finds it gone. Every poll that finds the process alive is answered at once: terminate right after a quit, kill right after a terminate or after the poll that follows a quit found it gone, otherwise a new quit. Terminate and kill are sent at no other point |
| Simulations.RunningLifecycle | simulations.py:87-93 | `is_running`: a freshly launched run is running exactly when its poll reports no exit code, and a run after `end_simulation` (no process) is never running |
| Simulations.RoundCounts | simulations.py:68-80 | one round of the loop, `Round`, polls exactly three times and quits exactly once |
| Simulations.RoundEscalates | simulations.py:68-80 | a round starts with the alive poll and quit, and every signal in it is allowed where it stands |
| Simulations.EscalatesAppend | simulations.py:68 | rounds chain: an escalating trace followed by one that starts with a poll still escalates |
| Simulations.RoundAnswered | simulations.py:68-80 | within one round every alive poll is answered with the signal the loop owes it, and the round ends where the next alive poll is owed a quit |
| Simulations.AnsweredAppend | simulations.py:68 | rounds chain: two answered traces, the first ending where a new round opens, are answered as a whole |
| Simulations.RoundReadsOracle | simulations.py:68-80 | one round followed by the rest of the shutdown reads the oracle from the round's first poll, including that every round's loop check found the process alive |
| Simulations.EndSimulation | simulations.py:81-83 | after `end_simulation` the run has no process and its end time is the clock after the loop. Spec and start time are kept |
| Simulations.EndSimulationTrace | simulations.py:62-84 | the trace reads the oracle from its first poll and stops at the first loop check that finds the process gone. Quit is sent first exactly when the first poll finds the process alive. Every poll that finds it alive is answered at once with quit, terminate or kill as the loop owes it, and every signal escalates |
| Simulations.LinesToLog | simulations.py:288-294 | `int(total_time*10)` lines, none for a negative time, and ⌊10·t⌋ for t ≥ 0 |
| Simulations.LogRecordContents | simulations.py:283-298 | the record `LogRecord` builds fails exactly for a dynamic run whose track file has fewer lines than owed. It then has written the header and the whole file. Otherwise it is the repr line, `Start Time: …`, the first ⌊10·t⌋ track lines verbatim for a dynamic run only, and `End Time: …` with a blank line |
| Playlist.ReplayBalances | simulations.py:260-267 | a history that follows start → end → log has logged exactly the runs it started, in the same order; when a run is still running or ending, the started runs are the logged ones followed by that run |
| Playlist.EndAndLog | simulations.py:226-227 | ending and logging the current run fails exactly when its log record fails, with the text written so far. Otherwise no process is left, the history is idle, and the current index stays |
| Playlist.EndAndLogEffects | simulations.py:226-227 | on success the current run becomes its ended form and the others are untouched. The history gains the end and the log record: the current run is appended to the logged runs and nothing to the started ones |
| Playlist.Switch | simulations.py:251-271 | an index outside `[0, len)` changes nothing. An in-range switch fails only when logging the current run fails; otherwise it yields a valid session whose current index is the target |
| Playlist.SwitchEffects | simulations.py:260-267 | an in-range switch launches run j with its own spec at the tick's start time and leaves the previous current run ended at the tick's end time. Every other run is untouched. j is appended to the started runs, and the previous current run, if any, to the logged runs |
| Playlist.StartRun | simulations.py:265-267 | starting run j in an idle session gives a valid session with run j current |
| Playlist.StartRunEffects | simulations.py:265-267 | starting run j launches it, touches no other run, appends j to the started runs and nothing to the logged runs |
| Playlist.DecidePriority | simulations.py:225-236 | the branch order of the loop body, `Decide`: q stops whatever the run does; a finished run that is not the last moves forward even with p pressed; n on a live run moves forward; the pass moves back exactly for p on a live run; a live run with no key spins |
| Playlist.Step | simulations.py:222-236 | a pass fails only while logging the current run. A pass that goes on leaves a valid session with a current run. A pass that stops leaves every run without a process and the history idle |
| Playlist.Take | simulations.py:225-236 | the same guarantees for each branch of the loop body |
| Playlist.Loop | simulations.py:221-236 | with no more input the session is unchanged. The loop keeps the session valid, and a stopped loop leaves it quiet |
| Playlist.Fresh | simulations.py:202-204 | a new set has one fresh run per simulation and no current index |
| Playlist.RunSimulations | simulations.py:208-238 | the set fails with `EmptyPlaylist` exactly when it is empty; a non-empty set can still fail, but only with `LogAborted` when a track file runs out (line 296). When the set stops, the index is cleared, no process is left, and the logged runs are exactly the started runs, in order |
| StepProofs.TakeFacts | simulations.py:225-236 | each branch of the loop body: only the stop branch stops, and a stop leaves every started run logged; a move lands on the next or previous index, clamped to the playlist; spinning returns the session unchanged; and a branch fails only when ending and logging the current run fails |
| StepProofs.TakeEffects | simulations.py:225-236 | what each branch of the loop body does to the runs and the history: a move ends and logs the old run and launches the new one at the tick's start time, a stop ends and logs the current run and starts nothing, and a pass that stays put changes nothing |
| StepProofs.StepOutcome | simulations.py:225-236 | a pass stops exactly on a finished last run or q/Q, and after a stop the logged runs are exactly the started runs, in order. A pass that goes on lands on index+1 for n/N or a finished run, and on index−1 for p/P, clamped to the playlist. A live run with no key, or a key other than q, n or p, leaves the session unchanged |
| StepProofs.StepMoves | simulations.py:233-236 | a pass that changes the index from i to j started run j at the tick's start time and left run i ended at the tick's end time. j is appended to the started runs and i to the logged runs |
| StepProofs.StepStays | simulations.py:233-236 | a pass that keeps the index keeps the whole session: an ignored key, n on the last run, p on the first |
| StepProofs.StepStops | simulations.py:225-232 | a pass that stops ended the current run at the tick's end time and appended it to the logged runs, starting nothing |
| StepProofs.StepFails | simulations.py:225-236 | a pass fails only when ending and logging the current run fails |
| PlaylistProofs.IdleTicksChangeNothing | simulations.py:221-236 | passes with the run alive and no key leave the session exactly as it was |
| PlaylistProofs.EndAndLogAtStart | simulations.py:294-296 | a run ended at its own start time owes no track lines, so logging it cannot fail |
| PlaylistProofs.PreviousRestarts | simulations.py:235-236 | p on a live run goes back one run and relaunches it: the start time is overwritten, the run left is ended |
| PlaylistProofs.NextAdvances | simulations.py:233-234 | n on a live run i that is not the last, when its log record can be written, moves to run i+1: run i+1 is launched at the tick's start time, run i is ended at the tick's end time, i+1 is appended to the started runs and i to the logged runs, and the rest of the loop goes on from there |
| PlaylistProofs.QuitStops | simulations.py:229-232 | q on a live run, when its log record can be written, stops the loop: the run is ended at the tick's end time and appended to the logged runs, and nothing is started |
| PlaylistProofs.OpeningStartsFirst | simulations.py:220 | the opening switch of a fresh set starts run 0 and logs nothing: the started runs are `[0]` and the logged runs `[]` |
| PlaylistProofs.RunIsOpeningThenLoop | simulations.py:220-238 | `run_simulations` is the opening switch followed by the loop, with the index cleared when the loop stops |
| PlaylistProofs.ThreeRunLoop | simulations.py:221-236 | idle, idle, n, n, q on a three-run playlist stops, appending runs 1, 2 to the started runs and runs 0, 1, 2 to the logged runs, in that order |
| PlaylistProofs.ThreeRunSession | simulations.py:208-238 | that session of three runs stops with no current index; the started runs are exactly `[0, 1, 2]` and the logged runs exactly `[0, 1, 2]`, in that order |
| PlaylistProofs.LoopAppend | simulations.py:221 | running the loop on two input lists in turn is running it on both, as long as the first leaves the session going |
| MapRequests.ParseDirections | map_requests.py:46-82 | fails exactly on an empty response, no legs, or an empty first leg. Otherwise it reads the first route only: the points are the first step's start followed by every step's end, legs and steps in order, with one distance and one duration per step. So `len(points) == len(distances)+1 == len(durations)+1`, and the polyline passes through |
| MapRequests.ParseElevations | map_requests.py:96-107 | one elevation per result, same length and order |
| GpxParser.Find | geobeam/gpx_parser.py:109-114 | `find` gives the first direct child with the tag, or None exactly when there is none |
| GpxParser.Attribute | geobeam/gpx_parser.py:130-131 | `float(trkpt.get(name))` fails on a missing attribute or a non-number, and otherwise gives the attribute's number |
| GpxParser.Number | geobeam/gpx_parser.py:138 | `float(data.text)` fails on a missing text or a non-number |
| GpxParser.ScanEles | geobeam/gpx_parser.py:134-139 | the inner loop succeeds exactly when every `ele` is numeric, and ends on the last `ele`'s value, or on the carried altitude if there is none |
| GpxParser.ParsePoint | geobeam/gpx_parser.py:128-142 | a point parses exactly when it is well formed. Its lat and lon are its attributes and its altitude is its last `ele` or the carried one |
| GpxParser.ParsePoints | geobeam/gpx_parser.py:128-142 | the outer loop succeeds exactly when every child is a well-formed point, giving one triple per child |
| GpxParser.ParseTrkpts | geobeam/gpx_parser.py:103-144 | None exactly when there is no `trk`, no `trkseg` in the first `trk`, or an empty first `trkseg`. Otherwise: success exactly when every child is well formed, one triple per child in document order, lat/lon from the attributes, and each altitude the point's last `ele` or else the previous point's altitude, starting from `prev_altitude = 0` (line 125) |
| GpxParser.PointsFromAttributes | geobeam/gpx_parser.py:128-131 | each output point's latitude and longitude are its own trkpt's attributes |
| GpxParser.ParseFile | geobeam/gpx_parser.py:37-55 | only the exact extensions `.xml` and `.gpx` are parsed; any other gives None |
| GpxParser.AltitudeCarriesForward | geobeam/gpx_parser.py:128-139 | for the loop entered with the carried altitude `prev`, point k's altitude is its own last `ele` when it has one; otherwise it is the previous point's altitude, or `prev` for the first point |
| GpxProofs.AltitudeIsLastEleSoFar | geobeam/gpx_parser.py:128-139 | for the loop entered with the carried altitude `prev`, point k's altitude is the last `ele` value among points 0..k, or `prev` if there is none |
| GpxProofs.TrkptsAltitudeIsLastEleSoFar | geobeam/gpx_parser.py:103-144 | the altitude `parse_gpx_trkpts` gives point k is the last `ele` value among points 0..k of the segment, or 0 (line 125) if none of them has one |
| GpxProofs.NoElevationsKeepsStart | geobeam/gpx_parser.py:125-139 | a segment with no `ele` at all gives every point the starting altitude |

## Left out

- Process, clock and keyboard plumbing is replaced by oracle inputs (a `Tick` per pass and a list of poll answers per shutdown):
  - `subprocess.Popen`, `communicate`, `terminate`, `kill`;
  - `time.sleep`, `datetime.utcnow`, `kbhit`;
  - the `print` calls.
- File I/O is not modelled:
  - CSV writing, log-file appending and opening track files;
  - `ET.parse` and `os.path.splitext`.

  The model only consumes or produces the sequences these carry. `ParseFile` takes the extension already split off.
- The network requests are not part of this model: `request_directions`, `request_elevations`, `Route.create_route` and `add_altitudes`.
- gps_utils.py and geobeam/gps_utils.py are not part of this model. The geodetic to ECEF conversion is the uninterpreted parameter `toXyz`.
- Float arithmetic is modelled as exact `real` arithmetic, so rounding of the interpolation, of `1/frequency` and of `int(total_time*10)` is not modelled.
- Float and date text formatting (`"%.1f"`, `str`, `__repr__`, `strftime`) is passed in as functions. `WriteTimedRoute` returns the time as a number, not as text.
- `parse_gpx_metadata` is not modelled: it returns nothing and calls an undefined `parse_time`. `print_reponse` is not modelled: it refers to an undefined name.
- run_simulation.py, main.py and simulation_sample.py are driver scripts and a superseded revision; they are not part of this model.
- A missing dictionary key in a Maps response (`KeyError`) cannot occur: responses are typed records.
- GenerateRoute.Upsample: requires a route with at least one point and exactly one distance and one duration per segment, as `parse_directions_response` produces it. The requires excludes the inputs on which the code behaves otherwise: an empty route raises `IndexError` at `self.route[0]` (line 143); more distances than segments raise `IndexError` at `self.route[i+1]` (line 148); fewer distances silently skip the trailing points before the last one; `durations` is never read, so its length does not matter to the code.
- Simulations.Alive: a finite list of poll answers stands for `Popen.poll`, and a poll past its end reports the process gone. So every modelled shutdown ends; a process that survives kill, which would keep `end_simulation` looping at line 68, is not modelled.
- Simulations.EndSimulation: requires the run to have a process. `end_simulation` on a run without one raises `AttributeError`, which the playlist never triggers because the current run always has a process.
- Playlist.Step: requires a valid session with a current run, which the loop maintains. The `while` condition is never false inside the loop, so it is not checked again.
- Playlist.SwitchEffects: runs are values, so a simulation object listed twice in a `SimulationSet` (say `SimulationSet([sim, sim])`) is modelled as two independent runs. In the code both entries share one object, so ending one also changes the other. Commands and log records come out the same either way, because only the current run's fields are read.
- The broadcaster's own behaviour is not modelled: a launched run is known only by its command line.

## Findings

| source | as written | input that shows it | evidently intended | confidence | as-written member | corrected member |
|---|---|---|---|---|---|---|
| generate_route.py:162 | `self.duration = [...]` assigns a new, misspelt attribute, so `durations` keeps one entry per original segment | a route of 2 points, distance 5 m, speed 10 m/s, frequency 10 Hz: 14 points, 13 distances, still 1 duration | `self.durations` with one `1/frequency` entry per new segment | high (not executed) | RouteProofs.UpsampleLeavesDurationsStale | GenerateRoute.UpsampleCorrected |
