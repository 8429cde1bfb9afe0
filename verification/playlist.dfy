/** The simulation set of simulations.py: an ordered playlist of runs, the
    range-checked switch between them, and the keyboard-driven loop of
    `run_simulations`, as a state-transition function over explicit
    per-iteration inputs.

    Everything the session does to its runs is recorded as an event, so
    the order "end, log, then start the next run" can be checked against a
    small automaton, `Replay`. */
module Playlist {
  import opened Common
  import opened Simulations

  // ---------------------------------------------------------------------
  // Events and the automaton they must follow
  // ---------------------------------------------------------------------

  /** What the session did: launched run `index`, shut it down with the
      given escalation, or appended its log record to the log file. */
  datatype Event =
    | Started(index: nat)
    | Ended(index: nat, shutdown: seq<Action>)
    | Logged(index: nat, record: seq<string>)

  /** Where the session stands between events: no run active, run `index`
      broadcasting, or run `index` ended but not yet logged. */
  datatype Phase = Idle | Running(index: nat) | Closing(index: nat)

  /** The one transition allowed from each phase. */
  function Next(p: Phase, e: Event): Option<Phase>
  {
    match (p, e)
    case (Idle, Started(j)) => Some(Running(j))
    case (Running(i), Ended(j, _)) => if i == j then Some(Closing(i)) else None
    case (Closing(i), Logged(j, _)) => if i == j then Some(Idle) else None
    case _ => None
  }

  /** The phase an event history leads to from `Idle`, or None when the
      history breaks the start, end, log order somewhere. */
  function Replay(events: seq<Event>): Option<Phase>
  {
    if events == [] then Some(Idle)
    else
      match Replay(events[..|events| - 1])
      case None => None
      case Some(p) => Next(p, events[|events| - 1])
  }

  lemma {:induction false} ReplayAppend(events: seq<Event>, e: Event)
    ensures Replay(events + [e]) == if Replay(events).Some? then Next(Replay(events).value, e) else None
  {
    assert (events + [e])[..|events|] == events;
  }

  /** The runs a history started, in the order it started them. */
  function StartedRuns(events: seq<Event>): seq<nat>
  {
    if events == [] then []
    else
      var e := events[|events| - 1];
      StartedRuns(events[..|events| - 1]) + (if e.Started? then [e.index] else [])
  }

  /** The runs a history logged, in the order it logged them. */
  function LoggedRuns(events: seq<Event>): seq<nat>
  {
    if events == [] then []
    else
      var e := events[|events| - 1];
      LoggedRuns(events[..|events| - 1]) + (if e.Logged? then [e.index] else [])
  }

  function Starts(events: seq<Event>): nat
  {
    |StartedRuns(events)|
  }

  function Logs(events: seq<Event>): nat
  {
    |LoggedRuns(events)|
  }

  lemma {:induction false} CountAppend(events: seq<Event>, e: Event)
    ensures StartedRuns(events + [e]) == StartedRuns(events) + (if e.Started? then [e.index] else [])
    ensures LoggedRuns(events + [e]) == LoggedRuns(events) + (if e.Logged? then [e.index] else [])
  {
    assert (events + [e])[..|events|] == events;
  }

  /** A history that follows the automaton has logged exactly the runs it
      started, in the same order, except the one still running or ending,
      which it started last. */
  lemma {:induction false} ReplayBalances(events: seq<Event>)
    requires Replay(events).Some?
    ensures Replay(events) == Some(Idle) ==> LoggedRuns(events) == StartedRuns(events)
    ensures !Replay(events).value.Idle? ==>
      StartedRuns(events) == LoggedRuns(events) + [Replay(events).value.index]
    ensures Replay(events) == Some(Idle) ==> Starts(events) == Logs(events)
    ensures !Replay(events).value.Idle? ==> Starts(events) == Logs(events) + 1
  {
    if events != [] {
      var init := events[..|events| - 1];
      ReplayBalances(init);
      CountAppend(init, events[|events| - 1]);
      assert init + [events[|events| - 1]] == events;
    }
  }

  // ---------------------------------------------------------------------
  // Sessions
  // ---------------------------------------------------------------------

  /** A `SimulationSet`: its simulations, `current_simulation_index`, and
      everything done so far. */
  datatype Session = Session(runs: seq<Run>, current: Option<nat>, events: seq<Event>)

  /** The exceptions that escape `run_simulations`: comparing `None` with
      an integer when the set is empty, and `StopIteration` when a track
      file has fewer lines than a log record asks for. */
  datatype SessionError =
    | EmptyPlaylist
    | LogAborted(index: nat, written: seq<string>)

  /** The host-side functions the session calls: `str` on numbers, the
      text of a simulation, `strftime`, and the lines of each track file. */
  datatype Host = Host(show: real -> string, describe: Spec -> string, stamp: Time -> string,
                       files: string -> seq<string>)

  /** The oracle answers one pass through the loop consumes: whether the
      current run's process is alive, the key pressed if any, the poll
      answers of a shutdown, and the clock at the end and at the start of
      a run. */
  datatype Tick = Tick(alive: bool, key: Option<char>, polls: seq<bool>, endAt: Time, startAt: Time)

  /** Only the current run has a process; it has a start time; the
      history follows the automaton and leaves it running the current
      run, or idle when there is none. */
  predicate Valid(s: Session)
  {
    && (s.current.Some? ==>
          s.current.value < |s.runs| && s.runs[s.current.value].process.Some?
          && s.runs[s.current.value].startTime.Some?)
    && (forall i :: 0 <= i < |s.runs| && s.current != Some(i) ==> s.runs[i].process.None?)
    && Replay(s.events) == Some(if s.current.Some? then Running(s.current.value) else Idle)
  }

  /** No run has a process and the history is idle. */
  predicate Quiet(s: Session)
  {
    && (forall i :: 0 <= i < |s.runs| ==> s.runs[i].process.None?)
    && Replay(s.events) == Some(Idle)
  }

  /** The lines of the track file of a run, empty for a run without one. */
  function TrackOf(run: Run, host: Host): seq<string>
  {
    if run.spec.kind.Dynamic? then host.files(run.spec.kind.filePath) else []
  }

  /** `end_simulation` on the current run followed by `log_simulation`:
      it fails exactly when the log record cannot be written, and otherwise
      leaves no process behind and the history idle. */
  function EndAndLog(s: Session, tick: Tick, host: Host): (r: Result<Session, SessionError>)
    requires Valid(s) && s.current.Some?
    ensures
      var i := s.current.value;
      var ended := EndSimulation(s.runs[i], tick.polls, tick.endAt);
      var logged := LogRecord(ended.run, TrackOf(ended.run, host), host.describe, host.stamp);
      && (r.Failure? <==> logged.Failure?)
      && (r.Failure? ==> r.error == LogAborted(i, logged.error.written))
    ensures r.Success? ==> r.value.current == s.current && Quiet(r.value) && |r.value.runs| == |s.runs|
  {
    var i := s.current.value;
    var ended := EndSimulation(s.runs[i], tick.polls, tick.endAt);
    match LogRecord(ended.run, TrackOf(ended.run, host), host.describe, host.stamp)
    case Failure(TrackFileExhausted(written)) => Failure(LogAborted(i, written))
    case Success(record) => Success(Closed(s, ended, record))
  }

  /** The session once its current run has ended as `ended` and its record
      has been logged: the ended run replaces it and the end and the log
      record are appended to the history. */
  function Closed(s: Session, ended: Ending, record: seq<string>): (r: Session)
    requires Valid(s) && s.current.Some? && ended.run.process.None?
    ensures Quiet(r) && r.current == s.current && |r.runs| == |s.runs|
  {
    var i := s.current.value;
    var events := s.events + [Ended(i, ended.trace)];
    ReplayAppend(s.events, Ended(i, ended.trace));
    ReplayAppend(events, Logged(i, record));
    Session(s.runs[i := ended.run], s.current, events + [Logged(i, record)])
  }

  /** What ending and logging does to the session: the current run is
      replaced by its ended form, the others are untouched, and the history
      gains the end and the log record: the current run is logged once
      more and nothing is started. */
  lemma {:induction false} EndAndLogEffects(s: Session, tick: Tick, host: Host)
    requires Valid(s) && s.current.Some?
    ensures
      var i := s.current.value;
      var ended := EndSimulation(s.runs[i], tick.polls, tick.endAt);
      var logged := LogRecord(ended.run, TrackOf(ended.run, host), host.describe, host.stamp);
      var r := EndAndLog(s, tick, host);
      r.Success? ==>
        && r.value.runs[i] == ended.run
        && (forall k :: 0 <= k < |s.runs| && k != i ==> r.value.runs[k] == s.runs[k])
        && r.value.events == s.events + [Ended(i, ended.trace), Logged(i, logged.value)]
        && StartedRuns(r.value.events) == StartedRuns(s.events)
        && LoggedRuns(r.value.events) == LoggedRuns(s.events) + [i]
  {
    var i := s.current.value;
    var ended := EndSimulation(s.runs[i], tick.polls, tick.endAt);
    var logged := LogRecord(ended.run, TrackOf(ended.run, host), host.describe, host.stamp);
    if logged.Success? {
      ClosedEffects(s, ended, logged.value);
    }
  }

  /** Closing changes only the current run and logs it. */
  lemma {:induction false} ClosedEffects(s: Session, ended: Ending, record: seq<string>)
    requires Valid(s) && s.current.Some? && ended.run.process.None?
    ensures
      var i := s.current.value;
      var r := Closed(s, ended, record);
      && r.runs[i] == ended.run
      && (forall k :: 0 <= k < |s.runs| && k != i ==> r.runs[k] == s.runs[k])
      && r.events == s.events + [Ended(i, ended.trace), Logged(i, record)]
      && StartedRuns(r.events) == StartedRuns(s.events)
      && LoggedRuns(r.events) == LoggedRuns(s.events) + [i]
  {
    var i := s.current.value;
    var events := s.events + [Ended(i, ended.trace)];
    CountAppend(s.events, Ended(i, ended.trace));
    CountAppend(events, Logged(i, record));
    assert s.events + [Ended(i, ended.trace), Logged(i, record)] == events + [Logged(i, record)];
  }

  /** `switch_simulation(j)`: outside `[0, len)` nothing happens; inside,
      the current run, if any, is ended and logged before run `j` is
      launched and becomes current. */
  function Switch(s: Session, j: int, tick: Tick, host: Host): (r: Result<Session, SessionError>)
    requires Valid(s)
    ensures !(0 <= j < |s.runs|) ==> r == Success(s)
    ensures r.Failure? ==> s.current.Some? && EndAndLog(s, tick, host) == r
    ensures 0 <= j < |s.runs| && r.Success? ==>
      Valid(r.value) && r.value.current == Some(j) && |r.value.runs| == |s.runs|
  {
    if 0 <= j < |s.runs| then
      var closed := if s.current.Some? then EndAndLog(s, tick, host) else Success(s);
      match closed
      case Failure(e) => Failure(e)
      case Success(before) => Success(StartRun(before, j, tick.startAt, host.show))
    else
      Success(s)
  }

  /** What a switch inside the playlist does: run `j` is launched with its
      own specification at the tick's start time; the run that was current
      before, if another, is left ended at the tick's end time; every
      other run is untouched; run `j` is recorded as started, and the run
      that was current, if any, as logged. */
  lemma {:induction false} SwitchEffects(s: Session, j: int, tick: Tick, host: Host)
    requires Valid(s)
    ensures
      var r := Switch(s, j, tick, host);
      0 <= j < |s.runs| && r.Success? ==> Switched(s, j, tick, host, r.value)
  {
    var r := Switch(s, j, tick, host);
    if 0 <= j < |s.runs| && r.Success? {
      if s.current.Some? {
        SwitchFromCurrent(s, j, tick, host);
      } else {
        StartRunEffects(s, j, tick.startAt, host.show);
      }
    }
  }

  /** The effects of a switch to run `j` that left the session `r`. */
  ghost predicate Switched(s: Session, j: int, tick: Tick, host: Host, r: Session)
    requires 0 <= j < |s.runs| && |r.runs| == |s.runs|
  {
    && r.runs[j].spec == s.runs[j].spec
    && r.runs[j].startTime == Some(tick.startAt)
    && r.runs[j].process == Some(Process(LaunchCommand(s.runs[j].spec, host.show)))
    && (forall k :: 0 <= k < |s.runs| && k != j && s.current != Some(k) ==> r.runs[k] == s.runs[k])
    && (s.current.Some? && s.current.value < |s.runs| && s.current.value != j ==>
          r.runs[s.current.value].process.None?
          && r.runs[s.current.value].endTime == Some(tick.endAt))
    && StartedRuns(r.events) == StartedRuns(s.events) + [j]
    && LoggedRuns(r.events) == LoggedRuns(s.events) + (if s.current.Some? then [s.current.value] else [])
  }

  /** A switch away from a current run: end and log it, then start run `j`. */
  lemma {:induction false} SwitchFromCurrent(s: Session, j: int, tick: Tick, host: Host)
    requires Valid(s) && s.current.Some? && 0 <= j < |s.runs| && Switch(s, j, tick, host).Success?
    ensures Switched(s, j, tick, host, Switch(s, j, tick, host).value)
  {
    var before := EndAndLog(s, tick, host).value;
    EndAndLogEffects(s, tick, host);
    StartRunEffects(before, j, tick.startAt, host.show);
    assert Switch(s, j, tick, host).value == StartRun(before, j, tick.startAt, host.show);
  }

  /** `run_simulation` on run `j` of a session where nothing runs, making
      it the current run. */
  function StartRun(s: Session, j: nat, startAt: Time, show: real -> string): (r: Session)
    requires Quiet(s) && j < |s.runs|
    ensures Valid(r) && r.current == Some(j) && |r.runs| == |s.runs|
  {
    ReplayAppend(s.events, Started(j));
    Session(s.runs[j := Launch(s.runs[j], startAt, show)], Some(j), s.events + [Started(j)])
  }

  /** Starting run `j` launches it, touches no other run, and records that
      `j` was started and nothing logged. */
  lemma {:induction false} StartRunEffects(s: Session, j: nat, startAt: Time, show: real -> string)
    requires Quiet(s) && j < |s.runs|
    ensures
      var r := StartRun(s, j, startAt, show);
      && r.runs[j] == Launch(s.runs[j], startAt, show)
      && (forall k :: 0 <= k < |s.runs| && k != j ==> r.runs[k] == s.runs[k])
      && r.events == s.events + [Started(j)]
      && StartedRuns(r.events) == StartedRuns(s.events) + [j] && LoggedRuns(r.events) == LoggedRuns(s.events)
  {
    CountAppend(s.events, Started(j));
  }

  /** How one pass through the loop ends. */
  datatype Outcome = Continue(session: Session) | Stopped(session: Session)

  predicate IsQuit(key: Option<char>)
  {
    key == Some('q') || key == Some('Q')
  }

  predicate IsNext(key: Option<char>)
  {
    key == Some('n') || key == Some('N')
  }

  predicate IsPrevious(key: Option<char>)
  {
    key == Some('p') || key == Some('P')
  }

  /** Where the current index goes on a pass that does not stop: one on
      for `n` or a finished run, one back for `p`, clamped to the
      playlist. */
  function Target(i: nat, last: nat, running: bool, key: Option<char>): nat
  {
    if IsNext(key) || !running then (if i < last then i + 1 else i)
    else if IsPrevious(key) then (if i > 0 then i - 1 else i)
    else i
  }

  /** The branch a pass of the loop takes. */
  datatype Move = Stop | Forward | Back | Stay

  /** The branch taken on run `i` of a playlist whose last index is
      `last`, in the order the loop tests them: a finished last run or `q`
      stops, `n` or a finished run moves forward, `p` moves back, anything
      else leaves the loop spinning. */
  function Decide(i: nat, last: int, running: bool, key: Option<char>): Move
  {
    if (!running && i >= last) || IsQuit(key) then Stop
    else if IsNext(key) || !running then Forward
    else if IsPrevious(key) then Back
    else Stay
  }

  /** The consequences of the order of the tests: `q` stops whatever the
      run is doing; a finished run that is not the last moves forward even
      when `p` is pressed; `n` on a live run moves forward even on the last
      run; `p` moves back only on a live run; a live run with no key
      spins. */
  lemma {:induction false} DecidePriority(i: nat, last: int, running: bool, key: Option<char>)
    ensures IsQuit(key) ==> Decide(i, last, running, key) == Stop
    ensures !running && i < last && !IsQuit(key) ==> Decide(i, last, running, key) == Forward
    ensures running && IsNext(key) ==> Decide(i, last, running, key) == Forward
    ensures Decide(i, last, running, key) == Back <==> running && IsPrevious(key)
    ensures running && key.None? ==> Decide(i, last, running, key) == Stay
  {
  }

  function Stopping(e: Result<Session, SessionError>): Result<Outcome, SessionError>
  {
    match e
    case Failure(err) => Failure(err)
    case Success(t) => Success(Stopped(t))
  }

  function Continuing(e: Result<Session, SessionError>): Result<Outcome, SessionError>
  {
    match e
    case Failure(err) => Failure(err)
    case Success(t) => Success(Continue(t))
  }

  /** One pass through the body of the `while` loop of `run_simulations`. */
  function Step(s: Session, tick: Tick, host: Host): (r: Result<Outcome, SessionError>)
    requires Valid(s) && s.current.Some?
    ensures r.Failure? ==> r.error.LogAborted? && r.error.index == s.current.value
    ensures r.Success? && r.value.Continue? ==>
      Valid(r.value.session) && r.value.session.current.Some? && |r.value.session.runs| == |s.runs|
    ensures r.Success? && r.value.Stopped? ==>
      Quiet(r.value.session) && r.value.session.current == s.current && |r.value.session.runs| == |s.runs|
  {
    var i := s.current.value;
    Take(s, tick, host, Decide(i, |s.runs| - 1, IsRunning(s.runs[i], tick.alive), tick.key))
  }

  /** The branch `m` of a pass: end and log for a stop, a switch one run
      on or back for a move, nothing otherwise. */
  function Take(s: Session, tick: Tick, host: Host, m: Move): (r: Result<Outcome, SessionError>)
    requires Valid(s) && s.current.Some?
    ensures r.Failure? ==> r.error.LogAborted? && r.error.index == s.current.value
    ensures r.Success? && r.value.Continue? ==>
      Valid(r.value.session) && r.value.session.current.Some? && |r.value.session.runs| == |s.runs|
    ensures r.Success? && r.value.Stopped? ==>
      Quiet(r.value.session) && r.value.session.current == s.current && |r.value.session.runs| == |s.runs|
  {
    var i := s.current.value;
    match m
    case Stop => Stopping(EndAndLog(s, tick, host))
    case Stay => Success(Continue(s))
    case _ => Continuing(Switch(s, if m == Forward then i + 1 else i - 1, tick, host))
  }

  /** Whether the pass stopped, where a continuing pass left the current
      index, and that a spinning pass changed nothing. */
  ghost predicate OutcomeFacts(s: Session, m: Move, r: Result<Outcome, SessionError>)
    requires s.current.Some?
  {
    var i := s.current.value;
    && (r.Success? ==> (r.value.Stopped? <==> m == Stop))
    && (r.Success? && r.value.Stopped? ==> LoggedRuns(r.value.session.events) == StartedRuns(r.value.session.events))
    && (r.Success? && r.value.Continue? ==>
          r.value.session.current == Some(
            if m == Forward && i < |s.runs| - 1 then i + 1
            else if m == Back && i > 0 then i - 1
            else i))
    && (m == Stay ==> r == Success(Continue(s)))
  }

  /** A pass that changed the current run launched the new one and ended
      and logged the old one. */
  ghost predicate MoveFacts(s: Session, tick: Tick, r: Result<Outcome, SessionError>)
    requires s.current.Some?
  {
    var i := s.current.value;
    r.Success? && r.value.Continue? && r.value.session.current != s.current ==>
      && r.value.session.current.Some?
      && var j := r.value.session.current.value;
      && i < |r.value.session.runs| && j < |r.value.session.runs| && j < |s.runs|
      && r.value.session.runs[j].startTime == Some(tick.startAt)
      && r.value.session.runs[j].spec == s.runs[j].spec
      && r.value.session.runs[i].process.None?
      && r.value.session.runs[i].endTime == Some(tick.endAt)
      && StartedRuns(r.value.session.events) == StartedRuns(s.events) + [j]
      && LoggedRuns(r.value.session.events) == LoggedRuns(s.events) + [i]
  }

  /** A pass that kept the current run kept the whole session. */
  ghost predicate StayFacts(s: Session, r: Result<Outcome, SessionError>)
  {
    r.Success? && r.value.Continue? && r.value.session.current == s.current ==> r.value.session == s
  }

  /** A pass that stopped ended and logged the current run. */
  ghost predicate StopFacts(s: Session, tick: Tick, r: Result<Outcome, SessionError>)
    requires s.current.Some?
  {
    r.Success? && r.value.Stopped? ==>
      && s.current.value < |r.value.session.runs|
      && r.value.session.runs[s.current.value].endTime == Some(tick.endAt)
      && StartedRuns(r.value.session.events) == StartedRuns(s.events)
      && LoggedRuns(r.value.session.events) == LoggedRuns(s.events) + [s.current.value]
  }

  /** Everything a pass along branch `m` is known to do. */
  ghost predicate BranchFacts(s: Session, tick: Tick, host: Host, m: Move, r: Result<Outcome, SessionError>)
    requires Valid(s) && s.current.Some?
  {
    && OutcomeFacts(s, m, r) && MoveFacts(s, tick, r) && StayFacts(s, r) && StopFacts(s, tick, r)
    && (r.Failure? ==> EndAndLog(s, tick, host).Failure?)
  }

  /** `SwitchEffects` for a switch away from the current run, as the loop
      sees it. */
  lemma {:induction false} SwitchMoves(s: Session, j: int, tick: Tick, host: Host)
    requires Valid(s) && s.current.Some?
    ensures MoveFacts(s, tick, Continuing(Switch(s, j, tick, host)))
  {
    var w := Switch(s, j, tick, host);
    if w.Success? && w.value.current != s.current {
      SwitchEffects(s, j, tick, host);
    }
  }

  /** The `while` loop, driven by one tick per pass. When the ticks run
      out before the loop stops, the session is still going. */
  function Loop(s: Session, ticks: seq<Tick>, host: Host): (r: Result<Outcome, SessionError>)
    requires Valid(s) && s.current.Some?
    ensures ticks == [] ==> r == Success(Continue(s))
    ensures r.Failure? ==> r.error.LogAborted?
    ensures r.Success? && r.value.Continue? ==>
      Valid(r.value.session) && r.value.session.current.Some?
      && |r.value.session.runs| == |s.runs|
    ensures r.Success? && r.value.Stopped? ==>
      Quiet(r.value.session) && r.value.session.current.Some?
      && |r.value.session.runs| == |s.runs|
    decreases |ticks|
  {
    if ticks == [] then Success(Continue(s))
    else
      var out :- Step(s, ticks[0], host);
      match out
      case Stopped(t) => Success(Stopped(t))
      case Continue(t) => Loop(t, ticks[1..], host)
  }

  /** A fresh set of simulations, not yet started. */
  function Fresh(specs: seq<Spec>): (s: Session)
    ensures Valid(s) && s.current.None? && |s.runs| == |specs|
    ensures forall i :: 0 <= i < |specs| ==> s.runs[i] == NewRun(specs[i])
  {
    Session(seq(|specs|, i requires 0 <= i < |specs| => NewRun(specs[i])), None, [])
  }

  /** `run_simulations`: start the first run, loop until a stop, then clear
      the current index. An empty set fails at the first loop check. */
  function RunSimulations(specs: seq<Spec>, openedAt: Time, ticks: seq<Tick>, host: Host)
    : (r: Result<Outcome, SessionError>)
    ensures specs == [] <==> r == Failure(EmptyPlaylist)
    ensures r.Success? && r.value.Stopped? ==>
      && r.value.session.current.None? && Quiet(r.value.session)
      && |r.value.session.runs| == |specs|
      && LoggedRuns(r.value.session.events) == StartedRuns(r.value.session.events)
    ensures r.Success? && r.value.Continue? ==>
      Valid(r.value.session) && r.value.session.current.Some?
      && |r.value.session.runs| == |specs|
  {
    if specs == [] then Failure(EmptyPlaylist)
    else
      var s0 := Fresh(specs);
      // a fresh set has no current run to end, so this switch cannot fail
      match Switch(s0, 0, Tick(true, None, [], openedAt, openedAt), host)
      case Failure(e) => Failure(e)
      case Success(s1) =>
        var out :- Loop(s1, ticks, host);
        match out
        case Continue(t) => Success(Continue(t))
        case Stopped(t) =>
          ReplayBalances(t.events);
          Success(Stopped(t.(current := None)))
  }
}
