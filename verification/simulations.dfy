/** Single simulation runs of simulations.py: the broadcaster command line,
    the escalating shutdown, and the shape of a run's log record.

    Processes, clocks and the keyboard are oracles: a poll answer is a
    boolean ("still running"), a clock reading is a number of seconds, and
    the text renderings the source takes from `str`, `__repr__` and
    `strftime` are passed in as functions. */
module Simulations {
  import opened Common

  /** A `datetime.utcnow()` reading, in seconds. */
  type Time = real

  /** Which class a simulation is: the base `Simulation`, a
      `StaticSimulation` at one location, or a `DynamicSimulation`
      following a user motion file. */
  datatype Kind = Plain | Static(latitude: real, longitude: real) | Dynamic(filePath: string)

  /** The constructor arguments of a simulation. */
  datatype Spec = Spec(kind: Kind, runDuration: Option<real>, gain: Option<real>)

  /** A launched broadcaster process, known by the command it runs. */
  datatype Process = Process(command: seq<string>)

  /** A simulation object: its spec and the fields `run_simulation` and
      `end_simulation` update. */
  datatype Run = Run(spec: Spec, process: Option<Process>, startTime: Option<Time>, endTime: Option<Time>)

  /** A freshly constructed simulation. */
  function NewRun(spec: Spec): Run
  {
    Run(spec, None, None, None)
  }

  // ---------------------------------------------------------------------
  // The broadcaster command line
  // ---------------------------------------------------------------------

  /** The words every command starts with. */
  const Launcher: seq<string> := ["./run_bladerfGPS.sh", "-T", "now"]

  /** Python truthiness of an optional number: neither None nor zero. */
  predicate Truthy(v: Option<real>)
  {
    v.Some? && v.value != 0.0
  }

  /** Python truthiness of an optional string: neither None nor empty. */
  predicate Given(s: Option<string>)
  {
    s.Some? && s.value != ""
  }

  /** The value that follows `flag` in a list of flag/value pairs. */
  function Lookup(args: seq<string>, flag: string): Option<string>
    decreases |args|
  {
    if |args| < 2 then None
    else if args[0] == flag then Some(args[1])
    else Lookup(args[2..], flag)
  }

  /** The flags of a list of flag/value pairs, in order. */
  function FlagsOf(args: seq<string>): seq<string>
    decreases |args|
  {
    if |args| < 2 then [] else [args[0]] + FlagsOf(args[2..])
  }

  /** Looking a flag up in two pair lists laid end to end finds it in the
      first list if it is there, else in the second; the flags of the two
      lists follow one another. */
  lemma {:induction false} LookupConcat(a: seq<string>, b: seq<string>, f: string)
    requires |a| % 2 == 0
    ensures Lookup(a + b, f) == if Lookup(a, f).Some? then Lookup(a, f) else Lookup(b, f)
    ensures FlagsOf(a + b) == FlagsOf(a) + FlagsOf(b)
  {
    LookupAppend(a, b, f);
    FlagsAppend(a, b);
  }

  lemma {:induction false} LookupAppend(a: seq<string>, b: seq<string>, f: string)
    requires |a| % 2 == 0
    ensures Lookup(a + b, f) == if Lookup(a, f).Some? then Lookup(a, f) else Lookup(b, f)
    decreases |a|
  {
    if a == [] {
      assert a + b == b;
    } else {
      var ab := a + b;
      assert ab[0] == a[0] && ab[1] == a[1];
      assert ab[2..] == a[2..] + b;
      if a[0] != f {
        LookupAppend(a[2..], b, f);
      }
    }
  }

  lemma {:induction false} FlagsAppend(a: seq<string>, b: seq<string>)
    requires |a| % 2 == 0
    ensures FlagsOf(a + b) == FlagsOf(a) + FlagsOf(b)
    decreases |a|
  {
    if a == [] {
      assert a + b == b;
    } else {
      var ab := a + b;
      assert ab[0] == a[0];
      assert ab[2..] == a[2..] + b;
      FlagsAppend(a[2..], b);
    }
  }

  /** The optional `flag value` pair of the builder. */
  function OptionalPair(flag: string, present: bool, value: string): seq<string>
  {
    if present then [flag, value] else []
  }

  /** The `-d` pair of `create_bladeGPS_process`: only for a truthy
      duration, so 0 and None are omitted. */
  function DurationPair(runDuration: Option<real>, show: real -> string): seq<string>
  {
    OptionalPair("-d", Truthy(runDuration), if runDuration.Some? then show(runDuration.value) else "")
  }

  /** The `-a` pair: only for a truthy gain. */
  function AmplitudePair(gain: Option<real>, show: real -> string): seq<string>
  {
    OptionalPair("-a", Truthy(gain), if gain.Some? then show(gain.value) else "")
  }

  /** `-l` for a non-empty location, and otherwise `-u` for a non-empty
      track path. */
  function TargetPair(location: Option<string>, dynamicFilePath: Option<string>): seq<string>
  {
    if Given(location) then ["-l", location.value]
    else if Given(dynamicFilePath) then ["-u", dynamicFilePath.value]
    else []
  }

  /** `create_bladeGPS_process` without the `Popen`: the argument list.
      What it holds is stated by `CreateCommandShape`. */
  function CreateCommand(runDuration: Option<real>, gain: Option<real>, location: Option<string>,
                         dynamicFilePath: Option<string>, show: real -> string): seq<string>
  {
    Launcher + DurationPair(runDuration, show) + AmplitudePair(gain, show) + TargetPair(location, dynamicFilePath)
  }

  /** The argument list of `create_bladeGPS_process`: the launcher, then
      `-d` and `-a` only for truthy values (so 0 and None are omitted),
      `-l` for a non-empty location, and otherwise `-u` for a non-empty
      track path, each flag followed by its value. */
  lemma {:induction false} CreateCommandShape(runDuration: Option<real>, gain: Option<real>, location: Option<string>,
                                              dynamicFilePath: Option<string>, show: real -> string)
    ensures var cmd := CreateCommand(runDuration, gain, location, dynamicFilePath, show);
      && |cmd| >= 3 && cmd[..3] == Launcher && |cmd| % 2 == 1
      && Lookup(cmd[3..], "-d") == (if Truthy(runDuration) then Some(show(runDuration.value)) else None)
      && Lookup(cmd[3..], "-a") == (if Truthy(gain) then Some(show(gain.value)) else None)
      && Lookup(cmd[3..], "-l") == (if Given(location) then location else None)
      && Lookup(cmd[3..], "-u") == (if !Given(location) && Given(dynamicFilePath) then dynamicFilePath else None)
      && FlagsOf(cmd[3..])
         == (if Truthy(runDuration) then ["-d"] else [])
          + (if Truthy(gain) then ["-a"] else [])
          + (if Given(location) then ["-l"] else if Given(dynamicFilePath) then ["-u"] else [])
  {
    var duration := DurationPair(runDuration, show);
    var amplitude := AmplitudePair(gain, show);
    var target := TargetPair(location, dynamicFilePath);
    var cmd := CreateCommand(runDuration, gain, location, dynamicFilePath, show);
    assert "-d" != "-a" && "-d" != "-l" && "-d" != "-u" && "-a" != "-l" && "-a" != "-u" && "-l" != "-u" by {
      assert "-d"[1] == 'd' && "-a"[1] == 'a' && "-l"[1] == 'l' && "-u"[1] == 'u';
    }
    CommandShape(duration, amplitude, target, cmd, "-d");
    CommandShape(duration, amplitude, target, cmd, "-a");
    CommandShape(duration, amplitude, target, cmd, "-l");
    CommandShape(duration, amplitude, target, cmd, "-u");
    SinglePair(duration, "");
    SinglePair(amplitude, "");
    SinglePair(target, "");
  }

  /** A pair list of at most one pair. */
  lemma {:induction false} SinglePair(p: seq<string>, f: string)
    requires p == [] || |p| == 2
    ensures |p| % 2 == 0
    ensures Lookup(p, f) == if p != [] && f == p[0] then Some(p[1]) else None
    ensures FlagsOf(p) == if p == [] then [] else [p[0]]
  {
    if p != [] {
      assert p[2..] == [];
    }
  }

  /** The lookups and flags of `Launcher + d + a + t` when each part is
      empty or one pair. */
  lemma {:induction false} CommandShape(d: seq<string>, a: seq<string>, t: seq<string>, cmd: seq<string>, f: string)
    requires d == [] || |d| == 2
    requires a == [] || |a| == 2
    requires t == [] || |t| == 2
    requires cmd == Launcher + d + a + t
    ensures |cmd| >= 3 && cmd[..3] == Launcher && |cmd| % 2 == 1
    ensures Lookup(cmd[3..], f) ==
      if d != [] && f == d[0] then Some(d[1])
      else if a != [] && f == a[0] then Some(a[1])
      else if t != [] && f == t[0] then Some(t[1])
      else None
    ensures FlagsOf(cmd[3..]) == FlagsOf(d) + FlagsOf(a) + FlagsOf(t)
  {
    assert cmd[3..] == d + (a + t);
    SinglePair(d, f);
    SinglePair(a, f);
    SinglePair(t, f);
    LookupConcat(d, a + t, f);
    LookupConcat(a, t, f);
  }

  /** The location a `run_simulation` override passes: `"lat,lon"` for a
      static run, none otherwise. */
  function LaunchLocation(kind: Kind, show: real -> string): Option<string>
  {
    if kind.Static? then Some(show(kind.latitude) + "," + show(kind.longitude)) else None
  }

  /** The track path a `run_simulation` override passes: the file path of a
      dynamic run, none otherwise. */
  function LaunchPath(kind: Kind): Option<string>
  {
    if kind.Dynamic? then Some(kind.filePath) else None
  }

  /** The command each `run_simulation` override launches: the base class
      passes neither location nor path. */
  function LaunchCommand(spec: Spec, show: real -> string): seq<string>
  {
    CreateCommand(spec.runDuration, spec.gain, LaunchLocation(spec.kind, show), LaunchPath(spec.kind), show)
  }

  /** What each kind of run puts on the command line: its duration and
      gain when truthy, `-l "lat,lon"` for a static run (never empty, it
      holds the comma), `-u` with a dynamic run's path when that is
      non-empty, and neither for a plain run. */
  lemma {:induction false} LaunchCommandShape(spec: Spec, show: real -> string)
    ensures var cmd := LaunchCommand(spec, show);
      && |cmd| >= 3 && cmd[..3] == Launcher
      && Lookup(cmd[3..], "-d") == (if Truthy(spec.runDuration) then Some(show(spec.runDuration.value)) else None)
      && Lookup(cmd[3..], "-a") == (if Truthy(spec.gain) then Some(show(spec.gain.value)) else None)
      && (spec.kind.Static? ==>
          Lookup(cmd[3..], "-l") == Some(show(spec.kind.latitude) + "," + show(spec.kind.longitude))
          && Lookup(cmd[3..], "-u") == None)
      && (spec.kind.Dynamic? ==>
          Lookup(cmd[3..], "-l") == None
          && Lookup(cmd[3..], "-u") == if spec.kind.filePath != "" then Some(spec.kind.filePath) else None)
      && (spec.kind.Plain? ==> Lookup(cmd[3..], "-l") == None && Lookup(cmd[3..], "-u") == None)
  {
    var location := LaunchLocation(spec.kind, show);
    if spec.kind.Static? {
      assert location.value[|show(spec.kind.latitude)|] == ',';
    }
    CreateCommandShape(spec.runDuration, spec.gain, location, LaunchPath(spec.kind), show);
  }

  /** `run_simulation`: record the start time and launch the broadcaster. */
  function Launch(run: Run, now: Time, show: real -> string): (started: Run)
    ensures started.spec == run.spec && started.endTime == run.endTime
    ensures started.startTime == Some(now)
    ensures started.process.Some? && started.process.value.command == LaunchCommand(run.spec, show)
  {
    run.(startTime := Some(now), process := Some(Process(LaunchCommand(run.spec, show))))
  }

  // ---------------------------------------------------------------------
  // Shutdown
  // ---------------------------------------------------------------------

  /** `is_running`: a process handle is present and its poll reports no
      exit code (a `Popen` object is always truthy). */
  predicate IsRunning(run: Run, pollAlive: bool)
  {
    run.process.Some? && pollAlive
  }

  /** A freshly launched run is running exactly while its poll reports no
      exit code, and a run `end_simulation` has dealt with is never
      running, whatever its poll would say. */
  lemma {:induction false} RunningLifecycle(run: Run, now: Time, show: real -> string, polls: seq<bool>, alive: bool)
    ensures IsRunning(Launch(run, now, show), alive) <==> alive
    ensures run.process.Some? ==> !IsRunning(EndSimulation(run, polls, now).run, alive)
  {
  }

  /** What `end_simulation` does to the child: quit on standard input,
      terminate, kill. */
  datatype Signal = Quit | Terminate | Kill

  /** One observable step of `end_simulation`: a poll and its answer, or a
      signal sent. */
  datatype Action = Poll(alive: bool) | Send(signal: Signal)

  /** The k-th poll answer of a finite oracle; past its end the process has
      exited. */
  function Alive(polls: seq<bool>, k: nat): bool
  {
    k < |polls| && polls[k]
  }

  /** The answers of the polls in a trace, in order. */
  function PollAnswers(trace: seq<Action>): seq<bool>
  {
    if trace == [] then []
    else (if trace[0].Poll? then [trace[0].alive] else []) + PollAnswers(trace[1..])
  }

  /** How many signals of one kind a trace sends. */
  function SignalCount(trace: seq<Action>, s: Signal): nat
  {
    if trace == [] then 0
    else (if trace[0] == Send(s) then 1 else 0) + SignalCount(trace[1..], s)
  }

  lemma {:induction false} PollsAppend(a: seq<Action>, b: seq<Action>)
    ensures PollAnswers(a + b) == PollAnswers(a) + PollAnswers(b)
  {
    if a == [] {
      assert a + b == b;
    } else {
      assert (a + b)[0] == a[0];
      assert (a + b)[1..] == a[1..] + b;
      PollsAppend(a[1..], b);
    }
  }

  lemma {:induction false} SignalsAppend(a: seq<Action>, b: seq<Action>, s: Signal)
    ensures SignalCount(a + b, s) == SignalCount(a, s) + SignalCount(b, s)
  {
    if a == [] {
      assert a + b == b;
    } else {
      assert (a + b)[0] == a[0];
      assert (a + b)[1..] == a[1..] + b;
      SignalsAppend(a[1..], b, s);
    }
  }

  /** The polls and signals of one pass through the body of the `while`
      loop of `end_simulation`, entered after poll k reported the process
      alive: quit, poll, terminate if still alive, poll, kill if still
      alive. */
  function Round(polls: seq<bool>, k: nat): seq<Action>
  {
    var afterQuit := Alive(polls, k + 1);
    var afterTerminate := Alive(polls, k + 2);
    if afterQuit && afterTerminate then
      [Poll(true), Send(Quit), Poll(true), Send(Terminate), Poll(true), Send(Kill)]
    else if afterQuit then
      [Poll(true), Send(Quit), Poll(true), Send(Terminate), Poll(false)]
    else if afterTerminate then
      [Poll(true), Send(Quit), Poll(false), Poll(true), Send(Kill)]
    else
      [Poll(true), Send(Quit), Poll(false), Poll(false)]
  }

  /** The action at position i is allowed where it stands: every signal is
      sent right after a poll reported the process alive; `terminate` only
      follows a quit in the same round, and `kill` only follows a terminate
      or, if the process seemed gone after the quit, the quit itself. */
  predicate EscalatesAt(trace: seq<Action>, i: nat)
    requires i < |trace|
  {
    match trace[i]
    case Poll(_) => true
    case Send(Quit) => i >= 1 && trace[i - 1] == Poll(true)
    case Send(Terminate) => i >= 2 && trace[i - 1] == Poll(true) && trace[i - 2] == Send(Quit)
    case Send(Kill) =>
      && i >= 3 && trace[i - 1] == Poll(true)
      && (trace[i - 2] == Send(Terminate) || (trace[i - 2] == Poll(false) && trace[i - 3] == Send(Quit)))
  }

  /** Every action of the trace is allowed where it stands. */
  predicate Escalates(trace: seq<Action>)
  {
    forall i :: 0 <= i < |trace| ==> EscalatesAt(trace, i)
  }

  /** The signal `end_simulation` owes a poll at position i that finds the
      process alive: terminate right after the quit, kill right after the
      terminate or after the poll that follows the quit found it gone, and
      otherwise the quit that opens a new round. */
  function Answer(trace: seq<Action>, i: nat): Signal
    requires i < |trace|
  {
    if i >= 1 && trace[i - 1] == Send(Quit) then Terminate
    else if i >= 1 && trace[i - 1] == Send(Terminate) then Kill
    else if i >= 2 && trace[i - 1] == Poll(false) && trace[i - 2] == Send(Quit) then Kill
    else Quit
  }

  /** A poll at position i that finds the process alive is followed at once
      by the signal it is owed. */
  predicate AnsweredAt(trace: seq<Action>, i: nat)
    requires i < |trace|
  {
    trace[i] == Poll(true) ==> i + 1 < |trace| && trace[i + 1] == Send(Answer(trace, i))
  }

  /** Every poll of the trace that finds the process alive is answered. */
  predicate Answered(trace: seq<Action>)
  {
    forall i :: 0 <= i < |trace| ==> AnsweredAt(trace, i)
  }

  /** A trace that reads the oracle from poll k onwards: its polls report
      the oracle's answers in order, each quit opens a round of three polls,
      every round was entered on a loop check (poll k + 3m) that found the
      process alive, and the trace stops at the first loop check that finds
      it gone. */
  predicate ReadsOracle(polls: seq<bool>, k: nat, trace: seq<Action>)
  {
    && |trace| >= 1 && trace[0] == Poll(Alive(polls, k)) && trace[|trace| - 1] == Poll(false)
    && (Alive(polls, k) ==> |trace| >= 2 && trace[1] == Send(Quit))
    && |PollAnswers(trace)| == 3 * SignalCount(trace, Quit) + 1
    && (forall i :: 0 <= i < |PollAnswers(trace)| ==> PollAnswers(trace)[i] == Alive(polls, k + i))
    && (forall m :: 0 <= m < SignalCount(trace, Quit) ==> Alive(polls, k + 3 * m))
  }

  /** The whole `while self.process.poll() is None` loop, starting at poll
      k of the oracle. */
  function ShutdownFrom(polls: seq<bool>, k: nat): seq<Action>
    decreases |polls| - k
  {
    if !Alive(polls, k) then [Poll(false)]
    else Round(polls, k) + ShutdownFrom(polls, k + 3)
  }

  /** The loop reads the oracle, escalates and answers every alive poll.
      (Stated apart from `ShutdownFrom` so that callers of `end_simulation`
      do not carry it.) */
  lemma {:induction false} ShutdownFacts(polls: seq<bool>, k: nat)
    ensures ReadsOracle(polls, k, ShutdownFrom(polls, k))
    ensures Escalates(ShutdownFrom(polls, k))
    ensures Answered(ShutdownFrom(polls, k))
    decreases |polls| - k
  {
    if !Alive(polls, k) {
      Single(Poll(false));
    } else {
      var rest := ShutdownFrom(polls, k + 3);
      ShutdownFacts(polls, k + 3);
      RoundReadsOracle(polls, k, rest);
      RoundEscalates(polls, k);
      EscalatesAppend(Round(polls, k), rest);
      RoundAnswered(polls, k);
      AnsweredAppend(Round(polls, k), rest);
    }
  }

  lemma {:induction false} Single(x: Action)
    ensures PollAnswers([x]) == if x.Poll? then [x.alive] else []
    ensures forall s :: SignalCount([x], s) == if x == Send(s) then 1 else 0
  {
    assert [x][1..] == [];
  }

  /** A round polls three times and quits once. */
  lemma {:induction false} RoundCounts(polls: seq<bool>, k: nat)
    ensures PollAnswers(Round(polls, k)) == [true, Alive(polls, k + 1), Alive(polls, k + 2)]
    ensures SignalCount(Round(polls, k), Quit) == 1
  {
    var a1 := Alive(polls, k + 1);
    var a2 := Alive(polls, k + 2);
    if a1 && a2 {
      assert PollAnswers([Poll(true), Send(Quit), Poll(true), Send(Terminate), Poll(true), Send(Kill)]) == [true, true, true];
      assert SignalCount([Poll(true), Send(Quit), Poll(true), Send(Terminate), Poll(true), Send(Kill)], Quit) == 1;
    } else if a1 {
      assert PollAnswers([Poll(true), Send(Quit), Poll(true), Send(Terminate), Poll(false)]) == [true, true, false];
      assert SignalCount([Poll(true), Send(Quit), Poll(true), Send(Terminate), Poll(false)], Quit) == 1;
    } else if a2 {
      assert PollAnswers([Poll(true), Send(Quit), Poll(false), Poll(true), Send(Kill)]) == [true, false, true];
      assert SignalCount([Poll(true), Send(Quit), Poll(false), Poll(true), Send(Kill)], Quit) == 1;
    } else {
      assert PollAnswers([Poll(true), Send(Quit), Poll(false), Poll(false)]) == [true, false, false];
      assert SignalCount([Poll(true), Send(Quit), Poll(false), Poll(false)], Quit) == 1;
    }
  }

  lemma {:induction false} RoundEscalates(polls: seq<bool>, k: nat)
    ensures Escalates(Round(polls, k))
    ensures |Round(polls, k)| >= 4 && Round(polls, k)[0] == Poll(true) && Round(polls, k)[1] == Send(Quit)
  {
  }

  /** A trace that escalates, followed by one that starts with a poll,
      escalates as a whole: no rule looks back past a poll at the start
      of the second trace. */
  lemma {:induction false} EscalatesAppend(a: seq<Action>, b: seq<Action>)
    requires Escalates(a) && Escalates(b)
    requires |b| >= 1 && b[0].Poll?
    ensures Escalates(a + b)
  {
    var t := a + b;
    forall i | 0 <= i < |t|
      ensures EscalatesAt(t, i)
    {
      if i < |a| {
        assert EscalatesAt(a, i);
        assert t[i] == a[i];
        if i >= 1 { assert t[i - 1] == a[i - 1]; }
        if i >= 2 { assert t[i - 2] == a[i - 2]; }
        if i >= 3 { assert t[i - 3] == a[i - 3]; }
      } else {
        var j := i - |a|;
        assert EscalatesAt(b, j);
        assert t[i] == b[j];
        if j >= 1 { assert t[i - 1] == b[j - 1]; }
        if j >= 2 { assert t[i - 2] == b[j - 2]; }
        if j >= 3 { assert t[i - 3] == b[j - 3]; }
      }
    }
  }

  /** Every alive poll of a round is answered inside the round, and the
      round does not end where a following alive poll would owe anything
      but a quit. */
  lemma {:induction false} RoundAnswered(polls: seq<bool>, k: nat)
    ensures Answered(Round(polls, k))
    ensures OpensRound(Round(polls, k))
  {
  }

  /** The end of a trace after which an alive poll is owed a quit. */
  predicate OpensRound(a: seq<Action>)
  {
    && |a| >= 2
    && a[|a| - 1] != Send(Quit) && a[|a| - 1] != Send(Terminate)
    && !(a[|a| - 1] == Poll(false) && a[|a| - 2] == Send(Quit))
  }

  /** Two answered traces, the first ending where a new round may open,
      are answered as a whole. */
  lemma {:induction false} AnsweredAppend(a: seq<Action>, b: seq<Action>)
    requires Answered(a) && Answered(b) && OpensRound(a)
    ensures Answered(a + b)
  {
    var t := a + b;
    forall i | 0 <= i < |t|
      ensures AnsweredAt(t, i)
    {
      if i < |a| {
        assert AnsweredAt(a, i);
        assert t[i] == a[i];
        if i + 1 < |a| { assert t[i + 1] == a[i + 1]; }
        if i >= 1 { assert t[i - 1] == a[i - 1]; }
        if i >= 2 { assert t[i - 2] == a[i - 2]; }
      } else {
        var j := i - |a|;
        assert AnsweredAt(b, j);
        assert t[i] == b[j];
        if j + 1 < |b| { assert t[i + 1] == b[j + 1]; }
        if j >= 1 { assert t[i - 1] == b[j - 1]; }
        if j >= 2 { assert t[i - 2] == b[j - 2]; }
        if j == 0 { assert t[i - 1] == a[|a| - 1] && t[i - 2] == a[|a| - 2]; }
        if j == 1 { assert t[i - 2] == a[|a| - 1]; }
        assert Answer(t, i) == Answer(b, j);
      }
    }
  }

  /** One round of the loop followed by the rest of the shutdown reads the
      oracle from the round's first poll. */
  lemma {:induction false} RoundReadsOracle(polls: seq<bool>, k: nat, rest: seq<Action>)
    requires Alive(polls, k)
    requires ReadsOracle(polls, k + 3, rest)
    ensures ReadsOracle(polls, k, Round(polls, k) + rest)
  {
    var round := Round(polls, k);
    var trace := round + rest;
    PollsAppend(round, rest);
    SignalsAppend(round, rest, Quit);
    RoundCounts(polls, k);
    RoundEscalates(polls, k);
    var answers := PollAnswers(trace);
    assert answers == [true, Alive(polls, k + 1), Alive(polls, k + 2)] + PollAnswers(rest);
    forall i | 0 <= i < |answers|
      ensures answers[i] == Alive(polls, k + i)
    {
      if i >= 3 {
        assert answers[i] == PollAnswers(rest)[i - 3];
      }
    }
    assert trace[0] == round[0] && trace[1] == round[1];
    assert trace[|trace| - 1] == rest[|rest| - 1];
    forall m | 0 <= m < SignalCount(trace, Quit)
      ensures Alive(polls, k + 3 * m)
    {
      if m > 0 {
        assert Alive(polls, (k + 3) + 3 * (m - 1));
        assert (k + 3) + 3 * (m - 1) == k + 3 * m;
      }
    }
  }

  /** The escalation of `end_simulation`, `ShutdownFrom` the first poll. */
  function Shutdown(polls: seq<bool>): seq<Action>
  {
    ShutdownFrom(polls, 0)
  }

  /** The outcome of `end_simulation`: the updated run and what was done
      to its process. */
  datatype Ending = Ending(run: Run, trace: seq<Action>)

  /** `end_simulation`: run the escalation, then, in the `else` clause that
      every normal loop exit runs, record the end time; release the handle. */
  function EndSimulation(run: Run, polls: seq<bool>, now: Time): (e: Ending)
    requires run.process.Some?
    ensures e.run.process.None? && e.run.endTime == Some(now)
    ensures e.run.spec == run.spec && e.run.startTime == run.startTime
  {
    Ending(run.(process := None, endTime := Some(now)), Shutdown(polls))
  }

  /** What `end_simulation` does to the child: quit is sent first exactly
      when the first poll finds it alive, every step escalates, every poll
      that finds it alive is answered at once with the signal it is owed,
      the polls report the oracle in order, and the trace stops at the
      first loop check that finds it gone. */
  lemma {:induction false} EndSimulationTrace(run: Run, polls: seq<bool>, now: Time)
    requires run.process.Some?
    ensures var trace := EndSimulation(run, polls, now).trace;
      && (Alive(polls, 0) <==> (|trace| >= 2 && trace[1] == Send(Quit)))
      && |trace| >= 1 && trace[|trace| - 1] == Poll(false) && Escalates(trace)
      && Answered(trace) && ReadsOracle(polls, 0, trace)
  {
    ShutdownFacts(polls, 0);
  }

  // ---------------------------------------------------------------------
  // Log records
  // ---------------------------------------------------------------------

  /** `int(total_time*10)` lines, and none when that is negative: the
      track file is sampled at 10 rows per second. */
  function LinesToLog(elapsed: real): (n: nat)
    ensures 0.0 <= elapsed ==> n as real <= elapsed * 10.0 < n as real + 1.0
    ensures elapsed * 10.0 < 1.0 ==> n == 0
  {
    var lines := Trunc(elapsed * 10.0);
    if lines < 0 then 0 else lines
  }

  /** `next(route_file)` ran out of lines: the text written before the
      `StopIteration`. */
  datatype LogError = TrackFileExhausted(written: seq<string>)

  /** The strings `log_simulation` writes for a run, one per `write` call:
      the run's description, its start time, for a dynamic run the first
      `int(elapsed*10)` lines of its track file (always read from the top of
      the file), its end time and a blank line. */
  function LogRecord(run: Run, track: seq<string>, describe: Spec -> string, stamp: Time -> string)
    : Result<seq<string>, LogError>
    requires run.startTime.Some? && run.endTime.Some?
  {
    var header := [describe(run.spec) + "\n", "Start Time: " + stamp(run.startTime.value) + "\n"];
    var footer := ["End Time: " + stamp(run.endTime.value) + "\n\n"];
    if run.spec.kind.Dynamic? then
      var n := LinesToLog(run.endTime.value - run.startTime.value);
      if |track| < n then Failure(TrackFileExhausted(header + track))
      else Success(header + track[..n] + footer)
    else
      Success(header + footer)
  }

  /** The record `log_simulation` writes: it fails exactly for a dynamic
      run whose track file is shorter than the lines owed, after writing
      the header and the whole file; otherwise it is the header, the first
      lines of the track file for a dynamic run, and the footer. */
  lemma {:induction false} LogRecordContents(run: Run, track: seq<string>, describe: Spec -> string, stamp: Time -> string)
    requires run.startTime.Some? && run.endTime.Some?
    ensures
      var res := LogRecord(run, track, describe, stamp);
      var n := LinesToLog(run.endTime.value - run.startTime.value);
      && (res.Failure? <==> run.spec.kind.Dynamic? && |track| < n)
      && (res.Success? ==>
        && |res.value| == 3 + (if run.spec.kind.Dynamic? then n else 0)
        && res.value[0] == describe(run.spec) + "\n"
        && res.value[1] == "Start Time: " + stamp(run.startTime.value) + "\n"
        && (run.spec.kind.Dynamic? ==> forall k :: 0 <= k < n ==> res.value[2 + k] == track[k])
        && res.value[|res.value| - 1] == "End Time: " + stamp(run.endTime.value) + "\n\n")
      && (res.Failure? ==>
            res.error.written
            == [describe(run.spec) + "\n", "Start Time: " + stamp(run.startTime.value) + "\n"] + track)
  {
  }
}
