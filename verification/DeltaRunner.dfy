/**
 The runner's own control flow for a delta load: `Execute` calls the stores in the order of
 the source and every call is one step of the machine in module Delta, so what is proved
 there about every history holds for every sequence of calls made here.
 */
module DeltaRunner {
  import Batching
  import opened Calls
  import opened Delta
  import opened Options

  /** Executes SELECT MAX(wm). */
  method CurrentMaxWatermark(source: set<Row>) returns (m: Option<int>)
    ensures IsMax(source, m)
  {
    m := None;
    var todo := source;
    while todo != {}
      invariant todo <= source
      invariant IsMax(source - todo, m)
      decreases todo
    {
      var r :| r in todo;
      assert source - (todo - {r}) == (source - todo) + {r};
      todo := todo - {r};
      if m.None? || m.value < r.wm {
        m := Some(r.wm);
      }
    }
    assert source - todo == source;
  }

  /** Executes the window query and returns its rows in some order. */
  method SelectRows(selected: set<Row>) returns (rows: seq<Row>)
    ensures multiset(rows) == multiset(selected)
  {
    rows := [];
    var todo := selected;
    while todo != {}
      invariant todo <= selected
      invariant multiset(rows) + multiset(todo) == multiset(selected)
      decreases todo
    {
      var r :| r in todo;
      todo := todo - {r};
      rows := rows + [r];
    }
  }

  lemma BagSplit(rows: seq<Row>, n: nat)
    requires n <= |rows|
    ensures multiset(rows) == multiset(rows[..n]) + multiset(rows[n..])
  {
    assert rows == rows[..n] + rows[n..];
  }

  /** What one run read: the watermarks, and its rows with the points of the trace it got them at. */
  datatype Run = Run(current: Option<int>, upper: Option<int>, rows: seq<Row>, snapAt: nat, queryAt: nat)

  /** The window by which a run moves the watermark, if it does. */
  function Windows(run: Run): seq<Window> {
    if run.current.Some? && run.upper.Some? && run.upper != run.current
    then [Window(run.current.value, run.upper.value)] else []
  }

  /** The upper bound was the maximum when it was taken, and the rows the window's when queried. */
  ghost predicate Records(initial: set<Row>, trace: seq<Event>, run: Run) {
    && run.snapAt <= |trace| && RunFrom(Init(initial), trace[..run.snapAt]).Some?
    && IsMax(RunFrom(Init(initial), trace[..run.snapAt]).value.source, run.upper)
    && (run.current.None? ==> run.rows == [])
    && (run.current.Some? ==>
          && run.snapAt < run.queryAt <= |trace| && RunFrom(Init(initial), trace[..run.queryAt]).Some?
          && var seen := RunFrom(Init(initial), trace[..run.queryAt]).value.source;
             multiset(run.rows) == multiset(Selected(seen, run.current.value, run.upper)))
  }

  lemma RecordsExtend(initial: set<Row>, trace: seq<Event>, trace': seq<Event>, run: Run)
    requires Records(initial, trace, run) && trace <= trace'
    ensures Records(initial, trace', run)
  {
    assert trace[..run.snapAt] == trace'[..run.snapAt];
    assert run.current.Some? ==> trace[..run.queryAt] == trace'[..run.queryAt];
  }

  /** A run is recorded by the state before its snapshot and the state before its query. */
  lemma RecordsMade(initial: set<Row>, before: seq<Event>, snap: State, middle: seq<Event>, seen: State,
                    trace: seq<Event>, run: Run)
    requires RunFrom(Init(initial), before) == Some(snap) && RunFrom(Init(initial), middle) == Some(seen)
    requires before <= trace && run.snapAt == |before| && IsMax(snap.source, run.upper)
    requires run.current.None? ==> run.rows == []
    requires run.current.Some? ==>
      && middle <= trace && run.queryAt == |middle| && |before| < |middle|
      && multiset(run.rows) == multiset(Selected(seen.source, run.current.value, run.upper))
    ensures Records(initial, trace, run)
  {
    assert trace[..|before|] == before;
    assert run.current.Some? ==> trace[..|middle|] == middle;
  }

  /** The rows of all successful runs. */
  ghost function Loaded(exits: seq<Exit>, runs: seq<Run>): multiset<Row>
    requires |exits| == |runs|
  {
    if exits == [] then multiset{}
    else
      Loaded(exits[..|exits| - 1], runs[..|runs| - 1])
      + if exits[|exits| - 1] == Success then multiset(runs[|runs| - 1].rows) else multiset{}
  }

  /** A call that reported an error. */
  predicate Fails(e: Event) {
    match e
    case GetWatermark(ok) => !ok
    case StartRun(ok) => !ok
    case FinishRun(ok) => !ok
    case ReadFails => true
    case Write(_, outcome) => outcome != Done
    case Upsert(outcome) => outcome != Done
    case _ => false
  }

  /** How steps end: with the process, with the error of a failed call, and well if there was neither. */
  ghost function Ending(evs: seq<Event>): Exit {
    if Crash in evs then Crashed else if exists e :: e in evs && Fails(e) then Error else Success
  }

  /** The steps from one point of the trace to another end in the given way. */
  ghost predicate Ran(from: seq<Event>, to: seq<Event>, exit: Exit) {
    from <= to && Ending(to[|from|..]) == exit
  }

  lemma RanOn(a: seq<Event>, b: seq<Event>, c: seq<Event>, exit: Exit)
    requires Ran(a, b, Success) && Ran(b, c, exit)
    ensures Ran(a, c, exit)
  {
    assert c[|a|..] == b[|a|..] + c[|b|..];
    assert forall e :: e in c[|a|..] <==> e in b[|a|..] || e in c[|b|..];
  }

  lemma RanParts(a: seq<Event>, b: seq<Event>, c: seq<Event>)
    requires a <= b <= c && Ran(a, c, Success)
    ensures Ran(a, b, Success) && Ran(b, c, Success)
  {
    assert forall e :: e in c[|a|..] <==> e in b[|a|..] || e in c[|b|..] by {
      assert c[|a|..] == b[|a|..] + c[|b|..];
    }
  }

  lemma RanStep(a: seq<Event>, e: Event)
    ensures Ran(a, a + [e], if e == Crash then Crashed else if Fails(e) then Error else Success)
  {
    assert (a + [e])[|a|..] == [e];
    assert forall x :: x in [e] <==> x == e;
  }

  lemma RanNothing(a: seq<Event>)
    ensures Ran(a, a, Success)
  {
    assert a[|a|..] == [];
  }

  predicate AllSucceed(exits: seq<Exit>) { forall i :: 0 <= i < |exits| ==> exits[i] == Success }

  lemma TickSucceeds(from: seq<Event>, was: seq<Event>, trace: seq<Event>, exits: seq<Exit>, exit: Exit)
    requires from <= was <= trace
    requires (Ran(from, was, Success) ==> AllSucceed(exits)) && (Ran(was, trace, Success) ==> exit == Success)
    ensures Ran(from, trace, Success) ==> AllSucceed(exits + [exit])
  {
    if Ran(from, trace, Success) {
      RanParts(from, was, trace);
    }
  }

  class Runner {
    var st: State
    ghost const initial: set<Row>
    ghost var trace: seq<Event>

    ghost predicate Valid()
      reads this
    {
      RunFrom(Init(initial), trace) == Some(st)
    }

    constructor (source: set<Row>)
      ensures Valid() && st == Init(source) && trace == []
    {
      initial := source;
      trace := [];
      st := Init(source);
    }

    /** One store, source or sink call. */
    method Do(e: Event)
      requires Valid() && Enabled(st, e)
      modifies this
      ensures Valid() && st == Apply(old(st), e) && trace == old(trace) + [e]
      ensures Ran(old(trace), trace, if e == Crash then Crashed else if Fails(e) then Error else Success)
    {
      RanStep(trace, e);
      trace := trace + [e];
      assert trace[..|trace| - 1] == old(trace);
      st := Apply(st, e);
    }

    /** What the rest of the world does between two calls; the process may also die. */
    method Elsewhere() returns (alive: bool)
      requires Valid()
      modifies this
      ensures Valid() && old(trace) <= trace
      ensures st.sink == old(st.sink) && st.advanced == old(st.advanced)
      ensures st.stored == old(st.stored) || st.stored.None?
      ensures alive ==> st.phase == old(st.phase) && st.stopped == old(st.stopped)
      ensures !alive ==> st.phase.Idle?
      ensures Ran(old(trace), trace, if alive then Success else Crashed)
    {
      RanNothing(trace);
      var n: nat := *;
      while 0 < n
        invariant Valid() && Ran(old(trace), trace, Success)
        invariant st.sink == old(st.sink) && st.advanced == old(st.advanced)
        invariant st.stored == old(st.stored) || st.stored.None?
        invariant st.phase == old(st.phase) && st.stopped == old(st.stopped)
      {
        n := n - 1;
        var r: Row := *;
        ghost var before := trace;
        if
        case true => Do(Insert(r));
        case true => Do(Delete(r));
        case true => Do(Reset);
        RanOn(old(trace), before, trace, Success);
      }
      alive := *;
      if !alive {
        ghost var before := trace;
        Do(Crash);
        RanOn(old(trace), before, trace, Crashed);
      }
    }

    /** The run ended here without an effective upsert. */
    twostate predicate Abandoned()
      reads this
    {
      && Valid() && old(trace) <= trace && st.phase.Idle?
      && st.advanced == old(st.advanced) && old(st.sink) <= st.sink && |old(st.sink)| <= |st.sink|
    }

    /** The run goes on, with the sink and the watermark history as they were. */
    twostate predicate Continues(p: Phase)
      reads this
    {
      && Valid() && old(trace) <= trace && st.phase == p
      && st.sink == old(st.sink) && st.advanced == old(st.advanced) && st.stopped == old(st.stopped)
    }

    method GetWatermark() returns (ok: bool, value: Option<int>)
      requires Valid() && st.phase.Idle?
      modifies this
      ensures value == old(st.stored) && |old(trace)| < |trace|
      ensures if ok then Continues(Fetched(value)) else Abandoned()
      ensures Ran(old(trace), trace, if ok then Success else Error)
    {
      ok := *;
      value := st.stored;
      Do(Event.GetWatermark(ok));
    }

    method StartRun() returns (ok: bool)
      requires Valid() && st.phase.Fetched?
      modifies this
      ensures if ok then Continues(Started(old(st.phase.last))) else Abandoned()
      ensures Ran(old(trace), trace, if ok then Success else Error)
    {
      ok := *;
      Do(Event.StartRun(ok));
    }

    /** SELECT MAX before anything is read. */
    method SnapshotMax(last: Option<int>) returns (ok: bool, upper: Option<int>)
      requires Valid() && st.phase == Started(last)
      modifies this
      ensures if ok then Continues(if last.None? then Seeding(upper) else Snapped(last.value, upper)) else Abandoned()
      ensures ok ==> IsMax(old(st.source), upper) && |old(trace)| < |trace|
      ensures Ran(old(trace), trace, if ok then Success else Error)
    {
      ok := *;
      upper := None;
      if !ok {
        Do(ReadFails);
      } else {
        upper := CurrentMaxWatermark(st.source);
        if last.None? {
          Do(SeedMax(upper));
        } else {
          Do(Event.SnapshotMax(upper));
        }
      }
    }

    method QueryWindow() returns (ok: bool, rows: seq<Row>)
      requires Valid() && st.phase.Snapped?
      modifies this
      ensures if ok then Continues(Streaming(old(st.phase.lo), old(st.phase.upper), rows)) else Abandoned()
      ensures ok ==> multiset(rows) == multiset(Selected(old(st.source), old(st.phase.lo), old(st.phase.upper)))
      ensures Ran(old(trace), trace, if ok then Success else Error)
    {
      ok := *;
      rows := [];
      if !ok {
        Do(ReadFails);
      } else {
        rows := SelectRows(Selected(st.source, st.phase.lo, st.phase.upper));
        Do(Query(rows));
      }
    }

    /** Writes the next batch of the stream; an error may hide a write that took effect. */
    method WriteBatch(n: nat) returns (ok: bool)
      requires Valid() && st.phase.Streaming? && 0 < n <= |st.phase.pending|
      modifies this
      ensures !ok ==> Abandoned()
      ensures ok ==>
                && Valid() && old(trace) <= trace && st.phase == old(st.phase).(pending := old(st.phase.pending)[n..])
                && st.sink == old(st.sink) + multiset(old(st.phase.pending)[..n])
                && st.advanced == old(st.advanced) && st.stopped == old(st.stopped)
      ensures Ran(old(trace), trace, if ok then Success else Error)
    {
      var outcome: Outcome := *;
      Do(Write(n, outcome));
      ok := outcome == Done;
    }

    /** On success the snapshot of this run is stored and its window, if it has one, has advanced. */
    method UpsertWatermark() returns (ok: bool)
      requires Valid() && MustUpsert(st.phase)
      modifies this
      ensures Valid() && old(trace) < trace && st.sink == old(st.sink) && old(st.advanced) <= st.advanced
      ensures if ok then st.phase.Finishing? && st.stored == old(st.phase.upper) && st.stopped == old(st.stopped)
              else st.phase.Idle?
      ensures ok ==> trace[|old(trace)|] == Upsert(Done)
      ensures ok ==> st.advanced == old(st.advanced) + WindowOf(old(st.phase))
      ensures Ran(old(trace), trace, if ok then Success else Error)
    {
      var outcome: Outcome := *;
      Do(Upsert(outcome));
      ok := outcome == Done;
    }

    /**
     The source's Read for a delta load with watermark `last`, the batch handler included.
     On success every row of the window, as it was when queried, is written; on failure no
     row count is reported.
     */
    method Read(last: Option<int>, batchSize: int)
      returns (exit: Exit, newWatermark: Option<int>, init: bool, rowsRead: nat, rowsWritten: nat, ghost run: Run)
      requires Valid() && st.phase == Started(last)
      modifies this
      ensures exit != Success ==> Abandoned() && rowsRead == 0
      ensures |old(st.sink)| + rowsWritten <= |st.sink|
      ensures exit == Success ==>
                && Valid() && old(trace) <= trace && st.advanced == old(st.advanced) && st.stopped == old(st.stopped)
                && st.phase == (if last.None? then Seeding(newWatermark) else Streaming(last.value, newWatermark, []))
                && init == last.None?
                && st.sink == old(st.sink) + multiset(run.rows) && rowsRead == rowsWritten == |run.rows|
      ensures exit == Success ==>
                && run.current == last && run.upper == newWatermark && |old(trace)| <= run.snapAt
                && Records(initial, trace, run)
      ensures Ran(old(trace), trace, exit)
    {
      exit, newWatermark, init, rowsRead, rowsWritten := Error, None, false, 0, 0;
      run := Run(last, None, [], |trace|, 0);
      ghost var before, snap := trace, st;
      var ok, upper := SnapshotMax(last);
      if !ok {
        return;
      }
      run := run.(upper := upper);
      if last.None? {
        RecordsMade(initial, before, snap, before, snap, trace, run);
        return Success, upper, true, 0, 0, run;
      }
      ghost var snapped := trace;
      var alive := Elsewhere();
      RanOn(before, snapped, trace, if alive then Success else Crashed);
      if !alive {
        return Crashed, None, false, 0, 0, run;
      }
      ghost var middle, seen := trace, st;
      var rows;
      ok, rows := QueryWindow();
      RanOn(before, middle, trace, if ok then Success else Error);
      if !ok {
        return;
      }
      run := run.(rows := rows, queryAt := |middle|);
      RecordsMade(initial, before, snap, middle, seen, trace, run);
      ghost var queried := trace;
      exit, rowsWritten := Stream(rows, Batching.Size(batchSize));
      RanOn(before, queried, trace, exit);
      if exit == Success {
        newWatermark, rowsRead := upper, |rows|;
        RecordsExtend(initial, queried, trace, run);
      }
    }

    /** What is in the sink or on its way there. */
    ghost function Underway(): multiset<Row>
      reads this
    {
      st.sink + if st.phase.Streaming? then multiset(st.phase.pending) else multiset{}
    }

    /** The next batch of the stream, after whatever happened meanwhile: nothing gets lost on the way. */
    method SendBatch(n: nat) returns (exit: Exit)
      requires Valid() && st.phase.Streaming? && 0 < n <= |st.phase.pending|
      modifies this
      ensures exit != Success ==> Abandoned()
      ensures exit == Success ==>
                && Valid() && old(trace) <= trace && st.phase == old(st.phase).(pending := old(st.phase.pending)[n..])
                && Underway() == old(Underway()) && old(st.sink) <= st.sink
                && st.advanced == old(st.advanced) && st.stopped == old(st.stopped)
      ensures Ran(old(trace), trace, exit)
    {
      BagSplit(st.phase.pending, n);
      var alive := Elsewhere();
      if !alive {
        return Crashed;
      }
      ghost var before := trace;
      var ok := WriteBatch(n);
      exit := if ok then Success else Error;
      RanOn(old(trace), before, trace, exit);
    }

    /** Hands the rows to the handler batch by batch. */
    method Stream(rows: seq<Row>, size: nat) returns (exit: Exit, rowsWritten: nat)
      requires Valid() && st.phase.Streaming? && st.phase.pending == rows && 0 < size
      modifies this
      ensures |old(st.sink)| + rowsWritten <= |st.sink|
      ensures exit != Success ==> Abandoned()
      ensures exit == Success ==>
                && Valid() && old(trace) <= trace && st.phase == old(st.phase).(pending := [])
                && st.advanced == old(st.advanced) && st.stopped == old(st.stopped)
                && st.sink == old(st.sink) + multiset(rows) && rowsWritten == |rows|
      ensures Ran(old(trace), trace, exit)
    {
      rowsWritten := 0;
      RanNothing(trace);
      while rowsWritten < |rows|
        invariant Valid() && Ran(old(trace), trace, Success)
        invariant st.advanced == old(st.advanced) && st.stopped == old(st.stopped)
        invariant st.phase.Streaming? && rowsWritten + |st.phase.pending| == |rows|
        invariant st.phase == old(st.phase).(pending := st.phase.pending)
        invariant Underway() == old(Underway()) && old(st.sink) <= st.sink
        invariant |st.sink| == |old(st.sink)| + rowsWritten
      {
        var n := if |rows| - rowsWritten < size then |rows| - rowsWritten else size;
        ghost var before := trace;
        exit := SendBatch(n);
        RanOn(old(trace), before, trace, exit);
        if exit != Success {
          return;
        }
        rowsWritten := rowsWritten + n;
      }
      exit := Success;
    }

    /** Reads the watermark and inserts the run row. */
    method Prepare() returns (exit: Exit, current: Option<int>)
      requires Valid() && st.phase.Idle?
      modifies this
      ensures exit != Success ==> Abandoned()
      ensures exit == Success ==> Continues(Started(current)) && current == old(st.stored) && |old(trace)| < |trace|
      ensures Ran(old(trace), trace, exit)
    {
      var ok;
      ok, current := GetWatermark();
      if !ok {
        return Error, current;
      }
      ghost var fetched := trace;
      var alive := Elsewhere();
      RanOn(old(trace), fetched, trace, if alive then Success else Crashed);
      if !alive {
        return Crashed, current;
      }
      ghost var before := trace;
      ok := StartRun();
      RanOn(old(trace), before, trace, if ok then Success else Error);
      if !ok {
        return Error, current;
      }
      ghost var started := trace;
      alive := Elsewhere();
      exit := if alive then Success else Crashed;
      RanOn(old(trace), started, trace, exit);
    }

    /**
     One run of the load. Success means that it started from the stored watermark, that
     exactly the rows of its window are new in the sink, and that the watermark history has
     its window exactly when the watermark had to move. And the run succeeds exactly when none
     of its calls failed and the process lived.
     */
    method Execute(batchSize: int) returns (exit: Exit, rowsWritten: nat, ghost run: Run)
      requires Valid() && st.phase.Idle?
      modifies this
      ensures Valid() && st.phase.Idle? && old(trace) <= trace
      ensures exit == Success ==>
                && run.current == old(st.stored) && |old(trace)| < run.snapAt && Records(initial, trace, run)
                && st.sink == old(st.sink) + multiset(run.rows) && rowsWritten == |run.rows|
      ensures exit == Success ==>
                && st.advanced == old(st.advanced) + Windows(run) && st.stopped == old(st.stopped)
                && (run.upper.Some? && run.upper != run.current ==> st.stored == run.upper || st.stored.None?)
      ensures old(st.sink) <= st.sink && old(st.advanced) <= st.advanced && |old(st.sink)| + rowsWritten <= |st.sink|
      ensures Ran(old(trace), trace, exit)
    {
      rowsWritten, run := 0, Run(None, None, [], 0, 0);
      var current;
      exit, current := Prepare();
      if exit != Success {
        return;
      }
      var newWatermark, init, rowsRead;
      ghost var prepared := trace;
      exit, newWatermark, init, rowsRead, rowsWritten, run := Read(current, batchSize);
      RanOn(old(trace), prepared, trace, exit);
      if exit != Success {
        return;
      }
      ghost var done := trace;
      var alive := Elsewhere();
      RanOn(old(trace), done, trace, if alive then Success else Crashed);
      if !alive {
        return Crashed, rowsWritten, run;
      }
      ghost var before := trace;
      exit := Settle(current, newWatermark, init);
      RecordsExtend(initial, done, trace, run);
      RanOn(old(trace), before, trace, exit);
    }

    /** The watermark, if it changed, and then the run row. */
    method Settle(current: Option<int>, newWatermark: Option<int>, init: bool) returns (exit: Exit)
      requires Valid() && init == current.None?
      requires st.phase == if init then Seeding(newWatermark) else Streaming(current.value, newWatermark, [])
      modifies this
      ensures Valid() && st.phase.Idle? && old(trace) < trace && st.sink == old(st.sink)
      ensures old(st.advanced) <= st.advanced && (exit == Success ==> st.stopped == old(st.stopped))
      ensures exit == Success && MustUpsert(old(st.phase)) ==>
                && trace[|old(trace)|] == Upsert(Done) && (st.stored == newWatermark || st.stored.None?)
                && st.advanced == old(st.advanced) + WindowOf(old(st.phase))
      ensures exit == Success && !MustUpsert(old(st.phase)) ==> st.advanced == old(st.advanced)
      ensures Ran(old(trace), trace, exit)
    {
      if newWatermark.Some? && (init || newWatermark != current) {
        var ok := UpsertWatermark();
        if !ok {
          return Error;
        }
      } else {
        Do(KeepWatermark);
      }
      ghost var kept := trace;
      var alive := Elsewhere();
      RanOn(old(trace), kept, trace, if alive then Success else Crashed);
      if !alive {
        return Crashed;
      }
      ghost var before := trace;
      var ok: bool := *;
      Do(FinishRun(ok));
      exit := if ok then Success else Error;
      RanOn(old(trace), before, trace, exit);
    }

    /** What happens before a run, and the run. */
    method Tick(batchSize: int) returns (exit: Exit, ghost run: Run)
      requires Valid() && st.phase.Idle?
      modifies this
      ensures Valid() && st.phase.Idle? && old(trace) <= trace
      ensures old(st.sink) <= st.sink && old(st.advanced) <= st.advanced
      ensures exit == Success ==> Remembered(run, |old(trace)|) && old(st.sink) + multiset(run.rows) <= st.sink
      ensures Ran(old(trace), trace, Success) ==> exit == Success
    {
      var alive := Elsewhere();
      ghost var began := trace;
      var rowsWritten;
      exit, rowsWritten, run := Execute(batchSize);
      if Ran(old(trace), trace, Success) {
        RanParts(old(trace), began, trace);
      }
    }

    /**
     Any number of runs, each from where the last one ended, with anything in between: the
     rows of every successful run are in the sink, its window is in the history, and no row
     is lost or unaccounted for whatever failed. If nothing failed all runs succeed.
     */
    method RunForever(ticks: nat, batchSize: int) returns (exits: seq<Exit>, ghost runs: seq<Run>)
      requires Valid() && st.phase.Idle?
      modifies this
      ensures Valid() && Safe(st) && Bounded(st)
      ensures |exits| == |runs| == ticks && old(st.sink) + Loaded(exits, runs) <= st.sink
      ensures forall i :: 0 <= i < ticks && exits[i] == Success ==>
                && Records(initial, trace, runs[i]) && |old(trace)| < runs[i].snapAt
                && forall w :: w in Windows(runs[i]) ==> w in st.advanced
      ensures Ran(old(trace), trace, Success) ==> AllSucceed(exits)
    {
      exits, runs := [], [];
      while |exits| < ticks
        invariant Valid() && st.phase.Idle? && old(trace) <= trace
        invariant |exits| == |runs| <= ticks && old(st.sink) + Loaded(exits, runs) <= st.sink
        invariant forall i :: 0 <= i < |exits| && exits[i] == Success ==> Remembered(runs[i], |old(trace)|)
        invariant Ran(old(trace), trace, Success) ==> AllSucceed(exits)
        decreases ticks - |exits|
      {
        ghost var was := trace;
        var exit;
        ghost var run;
        exit, run := Tick(batchSize);
        forall i | 0 <= i < |exits| && exits[i] == Success ensures Remembered(runs[i], |old(trace)|) {
          RecordsExtend(initial, was, trace, runs[i]);
        }
        TickSucceeds(old(trace), was, trace, exits, exit);
        assert (exits + [exit])[..|exits|] == exits && (runs + [run])[..|runs|] == runs;
        exits, runs := exits + [exit], runs + [run];
      }
      SafeAlways(initial, trace);
      BoundedAlways(initial, trace);
    }

    /** The run is on record and the watermark history has its window. */
    ghost predicate Remembered(run: Run, from: nat)
      reads this
    {
      Records(initial, trace, run) && from < run.snapAt && forall w :: w in Windows(run) ==> w in st.advanced
    }
  }
}
