/** What one pass through the loop of `run_simulations` does, branch by
    branch: whether it stops, where the current index goes, which runs are
    ended, launched and logged, and when it fails. */
module StepProofs {
  import opened Common
  import opened Simulations
  import opened Playlist

  // The facts are proved one branch at a time: a proof that has to consider
  // all four branches of `Take` at once sees every function the pass can
  // reach and is far more expensive than four proofs that each see one.

  /** Where branch `m` leaves the loop: whether it stops, the index it
      goes on with, and when it fails. */
  lemma {:induction false} TakeFacts(s: Session, tick: Tick, host: Host, m: Move)
    requires Valid(s) && s.current.Some?
    ensures OutcomeFacts(s, m, Take(s, tick, host, m))
    ensures Take(s, tick, host, m).Failure? ==> EndAndLog(s, tick, host).Failure?
  {
    match m
    case Stop => StopBranch(s, tick, host, m);
    case Forward => MoveBranch(s, tick, host, m);
    case Back => MoveBranch(s, tick, host, m);
    case Stay => StayBranch(s, tick, host, m);
  }

  /** What branch `m` does to the runs and the history: a move ends, logs
      and launches, a stop ends and logs, anything else changes nothing. */
  lemma {:induction false} TakeEffects(s: Session, tick: Tick, host: Host, m: Move)
    requires Valid(s) && s.current.Some?
    ensures MoveFacts(s, tick, Take(s, tick, host, m))
    ensures StayFacts(s, Take(s, tick, host, m))
    ensures StopFacts(s, tick, Take(s, tick, host, m))
  {
    match m
    case Stop => StopBranch(s, tick, host, m);
    case Forward => MoveBranch(s, tick, host, m);
    case Back => MoveBranch(s, tick, host, m);
    case Stay => StayBranch(s, tick, host, m);
  }

  /** Stopping ends and logs the current run; when that succeeds, every
      started run has been logged. */
  lemma {:induction false} StopBranch(s: Session, tick: Tick, host: Host, m: Move)
    requires Valid(s) && s.current.Some? && m == Stop
    ensures BranchFacts(s, tick, host, m, Take(s, tick, host, m))
  {
    var e := EndAndLog(s, tick, host);
    assert Take(s, tick, host, m) == Stopping(e);
    if e.Success? {
      ReplayBalances(e.value.events);
    }
    EndAndLogEffects(s, tick, host);
  }

  /** Moving is the switch to the next index, or to the previous one. */
  lemma {:induction false} MoveBranch(s: Session, tick: Tick, host: Host, m: Move)
    requires Valid(s) && s.current.Some? && (m == Forward || m == Back)
    ensures BranchFacts(s, tick, host, m, Take(s, tick, host, m))
  {
    var j := if m == Forward then s.current.value + 1 else s.current.value - 1;
    assert Take(s, tick, host, m) == Continuing(Switch(s, j, tick, host));
    SwitchMoveFacts(s, tick, host, m, j, Take(s, tick, host, m));
  }

  /** The facts of a move, for the outcome of the switch it makes. */
  lemma {:induction false} SwitchMoveFacts(s: Session, tick: Tick, host: Host, m: Move, j: int, r: Result<Outcome, SessionError>)
    requires Valid(s) && s.current.Some? && (m == Forward || m == Back)
    requires j == if m == Forward then s.current.value + 1 else s.current.value - 1
    requires r == Continuing(Switch(s, j, tick, host))
    ensures BranchFacts(s, tick, host, m, r)
  {
    SwitchBranch(s, j, tick, host);
  }

  /** A switch away from the current index, as the loop sees it: it never
      stops the loop, lands on `j` when `j` is in range and changes nothing
      otherwise, and fails only when ending and logging the current run
      fails. */
  lemma {:induction false} SwitchBranch(s: Session, j: int, tick: Tick, host: Host)
    requires Valid(s) && s.current.Some? && j != s.current.value
    ensures
      var r := Continuing(Switch(s, j, tick, host));
      && (r.Success? ==> r.value.Continue?)
      && (r.Success? ==> r.value.session.current == Some(if 0 <= j < |s.runs| then j else s.current.value))
      && MoveFacts(s, tick, r) && StayFacts(s, r) && StopFacts(s, tick, r)
      && (r.Failure? ==> EndAndLog(s, tick, host).Failure?)
  {
    var w := Switch(s, j, tick, host);
    if 0 <= j < |s.runs| {
      SwitchMoves(s, j, tick, host);
      if w.Success? {
        assert w.value.current == Some(j);
      }
    } else {
      assert w == Success(s);
    }
  }

  /** Spinning returns the session as it was. */
  lemma {:induction false} StayBranch(s: Session, tick: Tick, host: Host, m: Move)
    requires Valid(s) && s.current.Some? && m == Stay
    ensures BranchFacts(s, tick, host, m, Take(s, tick, host, m))
  {
    assert Take(s, tick, host, m) == Success(Continue(s));
  }

  /** A pass stops exactly on a finished last run or `q`; a stop leaves
      every started run logged; a pass that goes on lands on the clamped
      target index; and a live run with no key pressed is left alone. */
  lemma {:induction false} StepOutcome(s: Session, tick: Tick, host: Host)
    requires Valid(s) && s.current.Some?
    ensures
      var r := Step(s, tick, host);
      var i := s.current.value;
      var running := IsRunning(s.runs[i], tick.alive);
      var stops := (!running && i == |s.runs| - 1) || IsQuit(tick.key);
      && (r.Success? ==> (r.value.Stopped? <==> stops))
      && (r.Success? && r.value.Stopped? ==> LoggedRuns(r.value.session.events) == StartedRuns(r.value.session.events))
      && (r.Success? && r.value.Continue? ==>
            r.value.session.current == Some(Target(i, |s.runs| - 1, running, tick.key)))
      && (running && !IsQuit(tick.key) && !IsNext(tick.key) && !IsPrevious(tick.key) ==>
            r == Success(Continue(s)))
  {
    var i := s.current.value;
    TakeFacts(s, tick, host, Decide(i, |s.runs| - 1, IsRunning(s.runs[i], tick.alive), tick.key));
  }

  /** A pass that moves to another run has ended the old run, started the
      new one at the tick's start time, and logged the old one: one start
      and one log record, of these two runs. */
  lemma {:induction false} StepMoves(s: Session, tick: Tick, host: Host)
    requires Valid(s) && s.current.Some?
    ensures
      var r := Step(s, tick, host);
      var i := s.current.value;
      r.Success? && r.value.Continue? && r.value.session.current != s.current ==>
        var j := r.value.session.current.value;
        && r.value.session.runs[j].startTime == Some(tick.startAt)
        && r.value.session.runs[j].spec == s.runs[j].spec
        && r.value.session.runs[i].process.None?
        && r.value.session.runs[i].endTime == Some(tick.endAt)
        && StartedRuns(r.value.session.events) == StartedRuns(s.events) + [j]
        && LoggedRuns(r.value.session.events) == LoggedRuns(s.events) + [i]
  {
    var i := s.current.value;
    TakeEffects(s, tick, host, Decide(i, |s.runs| - 1, IsRunning(s.runs[i], tick.alive), tick.key));
  }

  /** A pass that neither stops nor moves changes nothing: an ignored key,
      or `n` on the last run, or `p` on the first. */
  lemma {:induction false} StepStays(s: Session, tick: Tick, host: Host)
    requires Valid(s) && s.current.Some?
    ensures
      var r := Step(s, tick, host);
      r.Success? && r.value.Continue? && r.value.session.current == s.current ==> r.value.session == s
  {
    var i := s.current.value;
    TakeEffects(s, tick, host, Decide(i, |s.runs| - 1, IsRunning(s.runs[i], tick.alive), tick.key));
  }

  /** A pass that stops ends and logs the current run and starts nothing. */
  lemma {:induction false} StepStops(s: Session, tick: Tick, host: Host)
    requires Valid(s) && s.current.Some?
    ensures
      var r := Step(s, tick, host);
      r.Success? && r.value.Stopped? ==>
        && r.value.session.runs[s.current.value].endTime == Some(tick.endAt)
        && StartedRuns(r.value.session.events) == StartedRuns(s.events)
        && LoggedRuns(r.value.session.events) == LoggedRuns(s.events) + [s.current.value]
  {
    var i := s.current.value;
    TakeEffects(s, tick, host, Decide(i, |s.runs| - 1, IsRunning(s.runs[i], tick.alive), tick.key));
  }

  /** A pass fails only when ending and logging the current run fails. */
  lemma {:induction false} StepFails(s: Session, tick: Tick, host: Host)
    requires Valid(s) && s.current.Some?
    ensures Step(s, tick, host).Failure? ==> EndAndLog(s, tick, host).Failure?
  {
    var i := s.current.value;
    TakeFacts(s, tick, host, Decide(i, |s.runs| - 1, IsRunning(s.runs[i], tick.alive), tick.key));
  }
}
