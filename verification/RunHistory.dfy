/**
 The life of run rows across process starts, shutdowns and crashes. Runs are goroutines that
 may outlive the shutdown timeout; a store call made under a cancelled context has no effect.
 */
module RunHistory {
  import opened Calls
  import opened Options

  datatype Status = Running | Success | Failed | Aborted

  /** A row of meta_load_runs; `process` is the process that inserted it. */
  datatype Row = Row(status: Status, process: nat, startedAt: int)

  /** A goroutine before StartRun, between StartRun and FinishRun, or after it. */
  datatype Pc = Starting | Started(run: nat) | Finished

  /** `loaded` after Load's abort succeeded, `stopped` after Stop's did. */
  datatype State = State(
    rows: map<nat, Row>, process: nat, alive: bool, loaded: bool, cancelled: bool, stopped: bool, threads: map<nat, Pc>)

  datatype Event =
    | Boot
    | LoadAbort(ok: bool)
    | Tick(t: nat)
    | StartRun(t: nat, run: nat, startedAt: int, outcome: Outcome)
    | FinishRun(t: nat, status: Status, outcome: Outcome)
    | Cancel
    | StopAbort(ok: bool)
    | Crash

  function Init(rows: map<nat, Row>): State {
    State(rows, 0, false, false, false, false, map[])
  }

  /** UPDATE … SET status = 'aborted' WHERE status = 'running'. */
  function AbortRunning(rows: map<nat, Row>): map<nat, Row> {
    map r | r in rows :: if rows[r].status == Running then rows[r].(status := Aborted) else rows[r]
  }

  predicate Enabled(s: State, e: Event) {
    match e
    case Boot => !s.alive
    case LoadAbort(_) => s.alive && !s.loaded
    case Tick(t) => s.alive && s.loaded && t !in s.threads
    case StartRun(t, run, _, o) =>
      t in s.threads && s.threads[t].Starting? && run !in s.rows && (s.cancelled ==> o == Outcome.Failed)
    case FinishRun(t, status, o) =>
      t in s.threads && s.threads[t].Started? && (status == Status.Success || status == Status.Failed)
      && (s.cancelled ==> o == Outcome.Failed)
    case Cancel => s.alive
    case StopAbort(_) => s.alive && s.cancelled
    case Crash => true
  }

  function Apply(s: State, e: Event): State
    requires Enabled(s, e)
  {
    match e
    case Boot => State(s.rows, s.process + 1, true, false, false, false, map[])
    case LoadAbort(ok) =>
      if ok then s.(rows := AbortRunning(s.rows), loaded := true) else s.(alive := false)
    case Tick(t) => s.(threads := s.threads[t := Starting])
    case StartRun(t, run, at, o) =>
      s.(rows := if o == Outcome.Failed then s.rows else s.rows[run := Row(Running, s.process, at)],
         threads := s.threads[t := if o == Done then Started(run) else Finished])
    case FinishRun(t, status, o) =>
      var run := s.threads[t].run;
      s.(rows := if o == Outcome.Failed || run !in s.rows then s.rows
                 else s.rows[run := s.rows[run].(status := status)],
         threads := s.threads[t := Finished])
    case Cancel => s.(cancelled := true)
    case StopAbort(ok) => if ok then s.(rows := AbortRunning(s.rows), stopped := true) else s
    case Crash => s.(alive := false, threads := map[])
  }

  ghost function RunFrom(s: State, evs: seq<Event>): Option<State> {
    if evs == [] then Some(s)
    else
      match RunFrom(s, evs[..|evs| - 1])
      case None => None
      case Some(p) => if Enabled(p, evs[|evs| - 1]) then Some(Apply(p, evs[|evs| - 1])) else None
  }

  ghost predicate AllTerminal(rows: map<nat, Row>) {
    forall r :: r in rows ==> rows[r].status != Running
  }

  predicate Owner(s: State, t: nat) { t in s.threads && s.threads[t].Started? }

  ghost predicate Inv(s: State) {
    && (s.stopped ==> s.cancelled && AllTerminal(s.rows))
    && (s.alive && s.loaded ==> forall r :: r in s.rows && s.rows[r].status == Running ==>
          s.rows[r].process == s.process)
    && (s.threads != map[] ==> s.alive && s.loaded)
    && (!s.cancelled ==> forall t :: t in s.threads && s.threads[t].Started? ==>
          s.threads[t].run in s.rows && s.rows[s.threads[t].run].status == Running
          && s.rows[s.threads[t].run].process == s.process)
    && (forall t, x :: Owner(s, t) && Owner(s, x) && s.threads[t].run == s.threads[x].run ==> t == x)
    && (forall t :: t in s.threads && s.threads[t].Started? ==> s.threads[t].run in s.rows)
  }

  lemma InvRun(s: State, e: Event)
    requires Inv(s) && Enabled(s, e) && (e.Tick? || e.StartRun? || e.FinishRun?)
    ensures Inv(Apply(s, e))
  {
    assert e.t in Apply(s, e).threads;
  }

  lemma InvProcess(s: State, e: Event)
    requires Inv(s) && Enabled(s, e) && !e.Tick? && !e.StartRun? && !e.FinishRun?
    ensures Inv(Apply(s, e))
  {}

  lemma InvStep(s: State, e: Event)
    requires Inv(s) && Enabled(s, e)
    ensures Inv(Apply(s, e))
  {
    if e.Tick? || e.StartRun? || e.FinishRun? {
      InvRun(s, e);
    } else {
      InvProcess(s, e);
    }
  }

  lemma {:induction false} InvAlways(rows: map<nat, Row>, evs: seq<Event>)
    requires RunFrom(Init(rows), evs).Some?
    ensures Inv(RunFrom(Init(rows), evs).value)
  {
    if evs == [] {
    } else {
      InvAlways(rows, evs[..|evs| - 1]);
      InvStep(RunFrom(Init(rows), evs[..|evs| - 1]).value, evs[|evs| - 1]);
    }
  }

  /** Startup closes history: once Load has aborted, only this process's own rows are running. */
  lemma {:induction false} StartupClosesHistory(rows: map<nat, Row>, evs: seq<Event>, r: nat)
    requires RunFrom(Init(rows), evs).Some?
    requires var s := RunFrom(Init(rows), evs).value; s.alive && s.loaded && r in s.rows && s.rows[r].status == Running
    ensures var s := RunFrom(Init(rows), evs).value; s.rows[r].process == s.process
  {
    InvAlways(rows, evs);
  }

  lemma StoppedStep(s: State, e: Event)
    requires Inv(s) && Enabled(s, e) && s.stopped && !e.Boot?
    ensures Apply(s, e).stopped && Apply(s, e).rows == s.rows
  {
    NothingToAbort(s.rows);
  }

  /**
   Shutdown closes history: from Stop's successful abort (step k) until the next process
   starts, every row is terminal and no row changes, however long runs outlive the timeout.
   */
  lemma {:induction false} ShutdownClosesHistory(rows: map<nat, Row>, evs: seq<Event>, k: nat)
    requires k <= |evs| && RunFrom(Init(rows), evs).Some? && RunFrom(Init(rows), evs[..k]).Some?
    requires RunFrom(Init(rows), evs[..k]).value.stopped
    requires forall i :: k <= i < |evs| ==> !evs[i].Boot?
    ensures var s, u := RunFrom(Init(rows), evs[..k]).value, RunFrom(Init(rows), evs).value;
            u.stopped && AllTerminal(u.rows) && u.rows == s.rows
  {
    InvAlways(rows, evs);
    if k < |evs| {
      var front := evs[..|evs| - 1];
      assert front[..k] == evs[..k];
      ShutdownClosesHistory(rows, front, k);
      InvAlways(rows, front);
      StoppedStep(RunFrom(Init(rows), front).value, evs[|evs| - 1]);
    } else {
      assert evs[..k] == evs;
    }
  }

  lemma NothingToAbort(rows: map<nat, Row>)
    requires AllTerminal(rows)
    ensures AbortRunning(rows) == rows
  {}

  lemma TerminalStep(s: State, e: Event, r: nat)
    requires Inv(s) && Enabled(s, e) && r in s.rows && s.rows[r].status != Running
    ensures r in Apply(s, e).rows && Apply(s, e).rows[r] == s.rows[r]
  {}

  /** The run of the row is the one that a goroutine finishes with this status. */
  predicate Finishes(s: State, e: Event, r: nat, status: Status) {
    && e.FinishRun? && e.t in s.threads && s.threads[e.t] == Started(r)
    && e.outcome != Outcome.Failed && e.status == status
  }

  /**
   How rows begin and end. A step adds a row only for the run it starts, as running and under
   this process. A running row becomes aborted exactly in the abort of a start or a stop, and a
   success or a failure exactly when its own goroutine says so. Nothing else about it changes,
   and no row goes.
   */
  lemma RowLife(s: State, e: Event, r: nat)
    requires Enabled(s, e)
    ensures r !in s.rows && r in Apply(s, e).rows ==>
              e.StartRun? && e.run == r && Apply(s, e).rows[r] == Row(Running, s.process, e.startedAt)
    ensures r in s.rows ==> r in Apply(s, e).rows
    ensures r in s.rows ==>
              Apply(s, e).rows[r].process == s.rows[r].process && Apply(s, e).rows[r].startedAt == s.rows[r].startedAt
    ensures r in s.rows && s.rows[r].status == Running ==>
              var now := Apply(s, e).rows[r].status;
              && (now == Aborted <==> (e.LoadAbort? || e.StopAbort?) && e.ok)
              && (now == Status.Success <==> Finishes(s, e, r, Status.Success))
              && (now == Status.Failed <==> Finishes(s, e, r, Status.Failed))
  {}

  lemma RunSnoc(rows: map<nat, Row>, evs: seq<Event>, p: State, e: Event)
    requires RunFrom(Init(rows), evs) == Some(p) && Enabled(p, e)
    ensures RunFrom(Init(rows), evs + [e]) == Some(Apply(p, e))
  {
    assert (evs + [e])[..|evs|] == evs;
  }

  /** The first process, from whatever rows there are. */
  lemma FirstStart(rows: map<nat, Row>)
    ensures RunFrom(Init(rows), [] + [Boot] + [LoadAbort(true)])
         == Some(State(AbortRunning(rows), 1, true, true, false, false, map[]))
  {
    RunSnoc(rows, [], Init(rows), Boot);
    RunSnoc(rows, [] + [Boot], State(rows, 1, true, false, false, false, map[]), LoadAbort(true));
  }

  lemma BootState(rows: map<nat, Row>, evs: seq<Event>, s: State)
    requires RunFrom(Init(rows), evs) == Some(s)
    ensures RunFrom(Init(rows), evs + [Crash] + [Boot])
         == Some(State(s.rows, s.process + 1, true, false, false, false, map[]))
  {
    RunSnoc(rows, evs, s, Crash);
    RunSnoc(rows, evs + [Crash], s.(alive := false, threads := map[]), Boot);
  }

  /**
   From every reachable state the process can die and the next one start: it is another process,
   without goroutines, under which all rows left running are aborted and no other changes. If
   its abort fails it does not come up.
   */
  lemma Restarts(rows: map<nat, Row>, evs: seq<Event>)
    requires RunFrom(Init(rows), evs).Some?
    ensures var s := RunFrom(Init(rows), evs).value;
            && RunFrom(Init(rows), evs + [Crash] + [Boot] + [LoadAbort(true)])
               == Some(State(AbortRunning(s.rows), s.process + 1, true, true, false, false, map[]))
            && RunFrom(Init(rows), evs + [Crash] + [Boot] + [LoadAbort(false)])
               == Some(State(s.rows, s.process + 1, false, false, false, false, map[]))
  {
    var s := RunFrom(Init(rows), evs).value;
    BootState(rows, evs, s);
    var up := State(s.rows, s.process + 1, true, false, false, false, map[]);
    RunSnoc(rows, evs + [Crash] + [Boot], up, LoadAbort(true));
    RunSnoc(rows, evs + [Crash] + [Boot], up, LoadAbort(false));
  }

  /** In a loaded process that is not shutting down a run can start and store its outcome. */
  lemma RunsToEnd(rows: map<nat, Row>, evs: seq<Event>, t: nat, run: nat, at: int, status: Status)
    requires RunFrom(Init(rows), evs).Some? && (status == Status.Success || status == Status.Failed)
    requires var s := RunFrom(Init(rows), evs).value;
             s.alive && s.loaded && !s.cancelled && t !in s.threads && run !in s.rows
    ensures var s := RunFrom(Init(rows), evs).value;
            RunFrom(Init(rows), evs + [Tick(t)] + [StartRun(t, run, at, Done)] + [FinishRun(t, status, Done)])
            == Some(s.(rows := s.rows[run := Row(status, s.process, at)], threads := s.threads[t := Finished]))
  {
    var s := RunFrom(Init(rows), evs).value;
    RunSnoc(rows, evs, s, Tick(t));
    var p1 := s.(threads := s.threads[t := Starting]);
    RunSnoc(rows, evs + [Tick(t)], p1, StartRun(t, run, at, Done));
    var p2 := s.(rows := s.rows[run := Row(Running, s.process, at)], threads := s.threads[t := Started(run)]);
    assert p1.threads[t := Started(run)] == p2.threads;
    RunSnoc(rows, evs + [Tick(t)] + [StartRun(t, run, at, Done)], p2, FinishRun(t, status, Done));
    assert p2.threads[t := Finished] == s.threads[t := Finished];
    assert p2.rows[run := Row(status, s.process, at)] == s.rows[run := Row(status, s.process, at)];
  }

  /** A run that outlives the shutdown: its row is aborted, and what it stores afterwards has no effect. */
  lemma OutlivesStop(rows: map<nat, Row>, evs: seq<Event>, t: nat, run: nat, status: Status, o: Outcome)
    requires RunFrom(Init(rows), evs).Some? && (status == Status.Success || status == Status.Failed)
    requires var s := RunFrom(Init(rows), evs).value;
             s.alive && t in s.threads && s.threads[t] == Started(run) && run in s.rows && s.rows[run].status == Running
    ensures var s := RunFrom(Init(rows), evs).value;
            var u := RunFrom(Init(rows), evs + [Cancel] + [StopAbort(true)]);
            && u == Some(s.(rows := AbortRunning(s.rows), cancelled := true, stopped := true))
            && u.value.rows[run].status == Aborted
            && (Enabled(u.value, FinishRun(t, status, o)) <==> o == Outcome.Failed)
            && (o == Outcome.Failed ==> Apply(u.value, FinishRun(t, status, o)).rows == u.value.rows)
  {
    var s := RunFrom(Init(rows), evs).value;
    RunSnoc(rows, evs, s, Cancel);
    RunSnoc(rows, evs + [Cancel], s.(cancelled := true), StopAbort(true));
  }

  /** A terminal row never changes again: neither to running nor to another outcome. */
  lemma {:induction false} TerminalIsFinal(rows: map<nat, Row>, evs: seq<Event>, k: nat, r: nat)
    requires k <= |evs| && RunFrom(Init(rows), evs).Some? && RunFrom(Init(rows), evs[..k]).Some?
    requires var s := RunFrom(Init(rows), evs[..k]).value; r in s.rows && s.rows[r].status != Running
    ensures var s, u := RunFrom(Init(rows), evs[..k]).value, RunFrom(Init(rows), evs).value;
            r in u.rows && u.rows[r] == s.rows[r]
  {
    if k < |evs| {
      var front := evs[..|evs| - 1];
      assert front[..k] == evs[..k];
      TerminalIsFinal(rows, front, k, r);
      InvAlways(rows, front);
      TerminalStep(RunFrom(Init(rows), front).value, evs[|evs| - 1], r);
    } else {
      assert evs[..k] == evs;
    }
  }
}
