/** Properties of whole sessions of the simulation set. */
module PlaylistProofs {
  import opened Common
  import opened Simulations
  import opened Playlist
  import opened StepProofs

  /** Passes on which the current run is alive and no key is pressed leave
      the session exactly as it was. */
  lemma {:induction false} IdleTicksChangeNothing(s: Session, ticks: seq<Tick>, host: Host)
    requires Valid(s) && s.current.Some?
    requires forall k :: 0 <= k < |ticks| ==> ticks[k].alive && ticks[k].key.None?
    ensures Loop(s, ticks, host) == Success(Continue(s))
    decreases |ticks|
  {
    if ticks != [] {
      StepOutcome(s, ticks[0], host);
      IdleTicksChangeNothing(s, ticks[1..], host);
    }
  }

  /** A run ended and started again at the same clock reading logs no
      track lines, so logging it cannot run out of track file. */
  lemma {:induction false} EndAndLogAtStart(s: Session, tick: Tick, host: Host)
    requires Valid(s) && s.current.Some?
    requires s.runs[s.current.value].startTime == Some(tick.endAt)
    ensures EndAndLog(s, tick, host).Success?
  {
    assert LinesToLog(tick.endAt - tick.endAt) == 0;
  }

  /** `p` on a live run goes back one run and launches it again: its start
      time is overwritten with the new clock reading, whatever it was. */
  lemma {:induction false} PreviousRestarts(s: Session, tick: Tick, host: Host)
    requires Valid(s) && s.current.Some? && s.current.value > 0
    requires tick.alive && IsPrevious(tick.key)
    requires EndAndLog(s, tick, host).Success?
    ensures
      var r := Step(s, tick, host);
      var i := s.current.value;
      && r.Success? && r.value.Continue?
      && r.value.session.current == Some(i - 1)
      && r.value.session.runs[i - 1].startTime == Some(tick.startAt)
      && r.value.session.runs[i].endTime == Some(tick.endAt)
  {
    StepOutcome(s, tick, host);
    StepMoves(s, tick, host);
  }

  /** `n` on a live run that is not the last, when its log record can be
      written, moves on to the next run: the next run is launched at the
      tick's start time, the current one is ended at the tick's end time,
      and the history records the next run as started and the current one
      as logged. */
  lemma {:induction false} NextAdvances(s: Session, tick: Tick, rest: seq<Tick>, host: Host)
    requires Valid(s) && s.current.Some? && s.current.value < |s.runs| - 1
    requires tick.alive && tick.key == Some('n')
    requires EndAndLog(s, tick, host).Success?
    ensures
      var r := Step(s, tick, host);
      var i := s.current.value;
      && r.Success? && r.value.Continue?
      && r.value.session.current == Some(i + 1)
      && r.value.session.runs[i + 1].startTime == Some(tick.startAt)
      && r.value.session.runs[i].endTime == Some(tick.endAt)
      && StartedRuns(r.value.session.events) == StartedRuns(s.events) + [i + 1]
      && LoggedRuns(r.value.session.events) == LoggedRuns(s.events) + [i]
      && Loop(s, [tick] + rest, host) == Loop(r.value.session, rest, host)
  {
    StepOutcome(s, tick, host);
    StepFails(s, tick, host);
    StepMoves(s, tick, host);
    assert ([tick] + rest)[1..] == rest;
  }

  /** `q` on a live run, when its log record can be written, stops the set:
      the current run is ended and logged, and nothing is started. */
  lemma {:induction false} QuitStops(s: Session, tick: Tick, rest: seq<Tick>, host: Host)
    requires Valid(s) && s.current.Some?
    requires tick.alive && tick.key == Some('q')
    requires EndAndLog(s, tick, host).Success?
    ensures
      var r := Step(s, tick, host);
      && r.Success? && r.value.Stopped?
      && r.value.session.runs[s.current.value].endTime == Some(tick.endAt)
      && StartedRuns(r.value.session.events) == StartedRuns(s.events)
      && LoggedRuns(r.value.session.events) == LoggedRuns(s.events) + [s.current.value]
      && Loop(s, [tick] + rest, host) == r
  {
    StepOutcome(s, tick, host);
    StepFails(s, tick, host);
    StepStops(s, tick, host);
  }

  /** The first switch of a fresh set starts run 0. */
  lemma {:induction false} OpeningStartsFirst(specs: seq<Spec>, opening: Tick, host: Host)
    requires |specs| > 0
    ensures
      var w := Switch(Fresh(specs), 0, opening, host);
      && w.Success? && w.value.current == Some(0)
      && w.value.runs[0].startTime == Some(opening.startAt)
      && StartedRuns(w.value.events) == [0] && LoggedRuns(w.value.events) == []
  {
  }

  /** `run_simulations` is the opening switch to run 0 followed by the
      loop, with the current index cleared when the loop stops. */
  lemma {:induction false} RunIsOpeningThenLoop(specs: seq<Spec>, openedAt: Time, ticks: seq<Tick>, host: Host)
    requires |specs| > 0
    ensures
      var w := Switch(Fresh(specs), 0, Tick(true, None, [], openedAt, openedAt), host);
      && w.Success? && w.value.current == Some(0)
      && var l := Loop(w.value, ticks, host);
         RunSimulations(specs, openedAt, ticks, host)
         == if l.Failure? then Failure(l.error)
            else if l.value.Continue? then l
            else Success(Stopped(l.value.session.(current := None)))
  {
  }

  lemma {:induction false} Split5<T>(a: T, b: T, c: T, d: T, e: T)
    ensures [a, b, c, d, e] == [a, b] + [c, d, e]
    ensures [c, d, e] == [c] + [d, e] && [d, e] == [d] + [e] && [e] == [e] + []
  {
  }

  /** The loop part of the three-run session below. */
  lemma {:induction false} ThreeRunLoop(s: Session, t0: Time, host: Host)
    requires Valid(s) && s.current == Some(0) && |s.runs| == 3
    requires s.runs[0].startTime == Some(t0)
    ensures
      var idle := Tick(true, None, [true], t0, t0);
      var next := Tick(true, Some('n'), [true], t0, t0);
      var quit := Tick(true, Some('q'), [true], t0, t0);
      var r := Loop(s, [idle, idle, next, next, quit], host);
      && r.Success? && r.value.Stopped?
      && StartedRuns(r.value.session.events) == StartedRuns(s.events) + [1, 2]
      && LoggedRuns(r.value.session.events) == LoggedRuns(s.events) + [0, 1, 2]
  {
    var idle := Tick(true, None, [true], t0, t0);
    var next := Tick(true, Some('n'), [true], t0, t0);
    var quit := Tick(true, Some('q'), [true], t0, t0);
    IdleTicksChangeNothing(s, [idle, idle], host);
    LoopAppend(s, [idle, idle], [next, next, quit], host);
    Split5(idle, idle, next, next, quit);
    EndAndLogAtStart(s, next, host);
    NextAdvances(s, next, [next, quit], host);
    var s2 := Step(s, next, host).value.session;
    EndAndLogAtStart(s2, next, host);
    NextAdvances(s2, next, [quit], host);
    var s3 := Step(s2, next, host).value.session;
    EndAndLogAtStart(s3, quit, host);
    QuitStops(s3, quit, [], host);
    var t := Step(s3, quit, host).value.session;
    Extend2(StartedRuns(s.events), StartedRuns(s2.events), StartedRuns(s3.events), 1, 2);
    Extend3(LoggedRuns(s.events), LoggedRuns(s2.events), LoggedRuns(s3.events), LoggedRuns(t.events), 0, 1, 2);
  }

  lemma {:induction false} Extend2(a: seq<nat>, b: seq<nat>, c: seq<nat>, x: nat, y: nat)
    requires b == a + [x] && c == b + [y]
    ensures c == a + [x, y]
  {
    assert a + [x] + [y] == a + [x, y];
  }

  lemma {:induction false} Extend3(a: seq<nat>, b: seq<nat>, c: seq<nat>, d: seq<nat>, x: nat, y: nat, z: nat)
    requires b == a + [x] && c == b + [y] && d == c + [z]
    ensures d == a + [x, y, z]
  {
    assert a + [x] + [y] + [z] == a + [x, y, z];
  }

  /** Three runs, each alive until it is left: two idle passes, `n`, `n`,
      `q`. Runs 0, 1 and 2 are started in that order, each once, and logged
      in that order, each once, and the set ends with no current run. */
  lemma {:induction false} ThreeRunSession(a: Spec, b: Spec, c: Spec, t0: Time, host: Host)
    ensures
      var ticks := [Tick(true, None, [true], t0, t0), Tick(true, None, [true], t0, t0),
                    Tick(true, Some('n'), [true], t0, t0), Tick(true, Some('n'), [true], t0, t0),
                    Tick(true, Some('q'), [true], t0, t0)];
      var r := RunSimulations([a, b, c], t0, ticks, host);
      && r.Success? && r.value.Stopped?
      && r.value.session.current.None?
      && StartedRuns(r.value.session.events) == [0, 1, 2]
      && LoggedRuns(r.value.session.events) == [0, 1, 2]
  {
    var opening := Tick(true, None, [], t0, t0);
    OpeningStartsFirst([a, b, c], opening, host);
    RunIsOpeningThenLoop([a, b, c], t0, [Tick(true, None, [true], t0, t0), Tick(true, None, [true], t0, t0),
                    Tick(true, Some('n'), [true], t0, t0), Tick(true, Some('n'), [true], t0, t0),
                    Tick(true, Some('q'), [true], t0, t0)], host);
    ThreeRunLoop(Switch(Fresh([a, b, c]), 0, opening, host).value, t0, host);
  }

  /** Running the loop on two tick lists in turn is running it on both,
      as long as the first list leaves the session going. */
  lemma {:induction false} LoopAppend(s: Session, first: seq<Tick>, second: seq<Tick>, host: Host)
    requires Valid(s) && s.current.Some?
    requires Loop(s, first, host).Success? && Loop(s, first, host).value.Continue?
    ensures Loop(s, first + second, host) == Loop(Loop(s, first, host).value.session, second, host)
    decreases |first|
  {
    if first == [] {
      assert first + second == second;
    } else {
      assert (first + second)[0] == first[0];
      assert (first + second)[1..] == first[1..] + second;
      var t := Step(s, first[0], host).value.session;
      LoopAppend(t, first[1..], second, host);
    }
  }
}
