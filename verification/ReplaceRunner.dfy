/**
 The code that drives a replace load: the sink's BeginReplace, CommitReplace and
 AbortReplace, the runner's replace session, and the run that uses them. Every SQL statement
 is one step of the machine in module Replace; other loads act between any two of them.
 */
module ReplaceRunner {
  import Batching
  import opened Calls
  import opened Options
  import opened Replace

  /** A call of this load's run that reported an error; that of the drop in Abort is ignored. */
  predicate Fails(e: Event, t: Table) {
    Target(e) == Some(t) &&
    match e
    case Probe(_, ok) => !ok
    case CheckLive(_, ok) => !ok
    case ProbeLive(_, ok) => !ok
    case ProbeStaging(_, ok) => !ok
    case DropStaging(_, o) => o != Done
    case Clone(_, o) => o != Done
    case Create(_, o) => o != Done
    case Write(_, _, o) => o != Done
    case RenameLive(_, o) => o != Done
    case DropOld(_, o) => o != Done
    case Swap(_, o) => o != Done
    case ReadFails(_) => true
    case _ => false
  }

  /** How steps end for a load: with the process, with the error of a failed call, and well if there was neither. */
  ghost function Ending(evs: seq<Event>, t: Table): Exit {
    if Crash in evs then Crashed else if exists e :: e in evs && Fails(e, t) then Error else Success
  }

  /** The steps from one point of the trace to another end in the given way. */
  ghost predicate Ran(from: seq<Event>, to: seq<Event>, t: Table, exit: Exit) {
    from <= to && Ending(to[|from|..], t) == exit
  }

  /** One more step. */
  function After(exit: Exit, e: Event, t: Table): Exit {
    if e == Crash then Crashed else if exit == Success && Fails(e, t) then Error else exit
  }

  lemma RanStep(from: seq<Event>, to: seq<Event>, t: Table, exit: Exit, e: Event)
    requires Ran(from, to, t, exit)
    ensures Ran(from, to + [e], t, After(exit, e, t))
  {
    assert (to + [e])[|from|..] == to[|from|..] + [e];
    assert forall x :: x in to[|from|..] + [e] <==> x in to[|from|..] || x == e;
  }

  lemma RanNothing(a: seq<Event>, t: Table)
    ensures Ran(a, a, t, Success)
  {
    assert a[|a|..] == [];
  }

  class Sink {
    var st: State
    ghost const initial: State
    ghost var trace: seq<Event>

    ghost predicate Valid()
      reads this
    {
      RunFrom(initial, trace) == Some(st)
    }

    constructor (db: Tables)
      ensures Valid() && st == State(db, map[])
    {
      initial := State(db, map[]);
      trace := [];
      st := State(db, map[]);
    }

    /** One SQL statement, for a load whose steps since `from` have ended as `exit` so far. */
    method Do(e: Event, ghost t: Table, ghost from: seq<Event>, ghost exit: Exit := Success)
      requires Valid() && Enabled(st, e) && Ran(from, trace, t, exit)
      modifies this
      ensures Valid() && st == Apply(old(st), e) && trace == old(trace) + [e]
      ensures Ran(from, trace, t, After(exit, e, t))
    {
      RanStep(from, trace, t, exit, e);
      trace := trace + [e];
      assert trace[..|trace| - 1] == old(trace);
      st := Apply(st, e);
    }

    /** The load's own tables are as they were. */
    twostate predicate SameTriple(t: Table)
      reads this
    {
      && SameTable(st.tables, old(st.tables), t)
      && SameTable(st.tables, old(st.tables), Staging(t))
      && SameTable(st.tables, old(st.tables), Old(t))
    }

    /** Live and `_old` are as they were, and the run stands at the given phase. */
    twostate predicate LiveKept(t: Table, p: Option<Phase>)
      reads this
    {
      && Valid()
      && SameTable(st.tables, old(st.tables), t)
      && SameTable(st.tables, old(st.tables), Old(t))
      && (if p.Some? then t in st.runs && t in old(st.runs) && st.runs[t] == Session(p.value, old(st.runs[t].ts))
          else t !in st.runs)
    }

    /** An `_old` table is one that was there before, as it was. */
    twostate predicate NoNewOld(t: Table)
      reads this
    {
      Old(t) in st.tables ==> Old(t) in old(st.tables) && st.tables[Old(t)] == old(st.tables)[Old(t)]
    }

    /** Statements of loads with other tables; the process may also die. */
    method Elsewhere(t: Table, ghost from: seq<Event>, ghost exit: Exit := Success) returns (alive: bool)
      requires Valid() && t in st.runs && Ran(from, trace, t, exit)
      modifies this
      ensures Valid() && SameTriple(t) && Ran(from, trace, t, if alive then exit else Crashed)
      ensures if alive then t in st.runs && st.runs[t] == old(st.runs[t]) else t !in st.runs
    {
      var n: nat := *;
      while 0 < n
        invariant Valid() && SameTriple(t) && t in st.runs && st.runs[t] == old(st.runs[t])
        invariant Ran(from, trace, t, exit)
      {
        n := n - 1;
        var e: Event := *;
        var other := Target(e);
        if other.Some? && Enabled(st, e) && other.value != t && Triple(other.value) !! Triple(t) {
          assert t in Triple(t) && Staging(t) in Triple(t) && Old(t) in Triple(t);
          Footprint(st, e, other.value, t);
          Footprint(st, e, other.value, Staging(t));
          Footprint(st, e, other.value, Old(t));
          Do(e, t, from, exit);
        }
      }
      alive := *;
      if !alive {
        Do(Crash, t, from, exit);
      }
    }

    /** Empties or creates the staging table; `columns` says whether a first batch gave them. */
    method BeginReplace(t: Table, columns: bool, ghost from: seq<Event>) returns (exit: Exit)
      requires Valid() && At(st, t, DroppingStaging(columns)) && Ran(from, trace, t, Success)
      modifies this
      ensures exit == Success ==>
            LiveKept(t, Some(Open(true))) && Staging(t) in st.tables && st.tables[Staging(t)] == []
      ensures exit != Success ==> LiveKept(t, None)
      ensures exit == Success && !columns ==> t in st.tables
      ensures columns || t in old(st.tables) ==> Ran(from, trace, t, exit)
    {
      SuffixesDiffer(t);
      var o: Outcome := *;
      Do(DropStaging(t, o), t, from);
      if o != Done {
        return Error;
      }
      var alive := Elsewhere(t, from);
      if !alive {
        return Crashed;
      }
      var ok: bool := *;
      var exists_ := t in st.tables;
      Do(CheckLive(t, ok), t, from);
      if !ok || (!exists_ && !columns) {
        return Error;
      }
      alive := Elsewhere(t, from);
      if !alive {
        return Crashed;
      }
      o := *;
      if exists_ {
        Do(Clone(t, o), t, from);
      } else {
        Do(Create(t, o), t, from);
      }
      exit := if o == Done then Success else Error;
    }

    /** Publishes staging as live; an error may hide a swap that took effect. */
    method CommitReplace(t: Table, ghost from: seq<Event>) returns (exit: Exit)
      requires Valid() && At(st, t, CommitLive) && Staging(t) in st.tables && Ran(from, trace, t, Success)
      modifies this
      ensures Valid() && NoNewOld(t) && (exit == Success && t in old(st.tables) ==> Old(t) !in st.tables)
      ensures exit == Success ==> t !in st.runs && t in st.tables && st.tables[t] == old(st.tables[Staging(t)])
      ensures exit != Success ==>
                || SameTable(st.tables, old(st.tables), t)
                || (t in st.tables && st.tables[t] == old(st.tables[Staging(t)]))
      ensures exit == Error ==> At(st, t, Aborting)
      ensures exit == Crashed ==> t !in st.runs
      ensures Ran(from, trace, t, exit)
    {
      SuffixesDiffer(t);
      var ok: bool := *;
      var liveExists := t in st.tables;
      Do(ProbeLive(t, ok), t, from);
      if !ok {
        return Error;
      }
      var alive := Elsewhere(t, from);
      if !alive {
        return Crashed;
      }
      ok := *;
      Do(ProbeStaging(t, ok), t, from);
      if !ok {
        return Error;
      }
      alive := Elsewhere(t, from);
      if !alive {
        return Crashed;
      }
      exit := Exchange(t, liveExists, from);
    }

    /** The last statements of the commit: a rename, or drop `_old` and the swap transaction. */
    method Exchange(t: Table, liveExists: bool, ghost from: seq<Event>) returns (exit: Exit)
      requires Valid() && At(st, t, if liveExists then DroppingOld else Renaming) && liveExists == (t in st.tables)
      requires Staging(t) in st.tables && Ran(from, trace, t, Success)
      modifies this
      ensures Valid() && NoNewOld(t) && (exit == Success && liveExists ==> Old(t) !in st.tables)
      ensures exit == Success ==> t !in st.runs && t in st.tables && st.tables[t] == old(st.tables[Staging(t)])
      ensures exit != Success ==>
                || SameTable(st.tables, old(st.tables), t)
                || (t in st.tables && st.tables[t] == old(st.tables[Staging(t)]))
      ensures exit == Error ==> At(st, t, Aborting)
      ensures exit == Crashed ==> t !in st.runs
      ensures Ran(from, trace, t, exit)
    {
      SuffixesDiffer(t);
      var o: Outcome := *;
      if !liveExists {
        Do(RenameLive(t, o), t, from);
      } else {
        Do(DropOld(t, o), t, from);
        if o != Done {
          return Error;
        }
        var alive := Elsewhere(t, from);
        if !alive {
          return Crashed;
        }
        o := *;
        SwapEffect(st.tables, t);
        Do(Swap(t, o), t, from);
      }
      exit := if o == Done then Success else Error;
    }
  }

  /** The runner's record of one replace run. */
  class ReplaceSession {
    const live: Table
    var staging: Table
    var writeTo: Table
    var active: bool
    var committed: bool

    constructor (live: Table)
      ensures this.live == live && writeTo == live && !active && !committed
    {
      this.live := live;
      staging, writeTo, active, committed := live, live, false, false;
    }

    /** The session's fields agree with where the run stands. */
    ghost predicate Tracks(sink: Sink)
      reads this, sink
    {
      && !committed
      && At(sink.st, live, Open(active))
      && (active ==> staging == writeTo == Staging(live) && Staging(live) in sink.st.tables)
    }

    /** Begins staging when the live table exists, so that a zero-row source still clears it. */
    method PrepareExisting(sink: Sink, ghost from: seq<Event>) returns (exit: Exit)
      requires sink.Valid() && At(sink.st, live, Probing) && !active && !committed
      requires Ran(from, sink.trace, live, Success)
      modifies this, sink
      ensures exit == Success ==>
                && Tracks(sink) && sink.LiveKept(live, Some(Open(active)))
                && (active <==> live in sink.st.tables)
                && (active ==> sink.st.tables[Staging(live)] == [])
      ensures exit != Success ==> sink.LiveKept(live, None)
      ensures Ran(from, sink.trace, live, exit)
    {
      var ok: bool := *;
      var exists_ := live in sink.st.tables;
      sink.Do(Probe(live, ok), live, from);
      if !ok {
        return Error;
      }
      if !exists_ {
        return Success;
      }
      var alive := sink.Elsewhere(live, from);
      if !alive {
        return Crashed;
      }
      exit := sink.BeginReplace(live, false, from);
      if exit == Success {
        staging, writeTo, active := Staging(live), Staging(live), true;
      }
    }

    /** Creates staging when the first batch arrives and nothing was begun yet. */
    method EnsureFirstBatch(sink: Sink, ghost from: seq<Event>) returns (exit: Exit)
      requires sink.Valid() && Tracks(sink) && Ran(from, sink.trace, live, Success)
      modifies this, sink
      ensures exit == Success ==>
                && active && Tracks(sink) && sink.LiveKept(live, Some(Open(true)))
                && sink.st.tables[Staging(live)] == if old(active) then old(sink.st.tables[Staging(live)]) else []
      ensures exit != Success ==> sink.LiveKept(live, None) && !active && !committed
      ensures Ran(from, sink.trace, live, exit)
    {
      if active {
        return Success;
      }
      sink.Do(FirstBatch(live), live, from);
      exit := sink.BeginReplace(live, true, from);
      if exit == Success {
        staging, writeTo, active := Staging(live), Staging(live), true;
      }
    }

    /** Swaps staging in; a run that never began staging has nothing to publish. */
    method Commit(sink: Sink, ghost from: seq<Event>) returns (exit: Exit)
      requires sink.Valid() && Tracks(sink) && Ran(from, sink.trace, live, Success)
      modifies this, sink
      ensures sink.Valid() && sink.NoNewOld(live)
      ensures exit == Success ==> live !in sink.st.runs && committed == old(active) == active
      ensures exit == Success && old(active) && live in old(sink.st.tables) ==> Old(live) !in sink.st.tables
      ensures exit == Success && !old(active) ==> SameTable(sink.st.tables, old(sink.st.tables), live)
      ensures exit == Success && old(active) ==>
                live in sink.st.tables && sink.st.tables[live] == old(sink.st.tables[Staging(live)])
      ensures exit != Success ==>
                && old(active)
                && (|| SameTable(sink.st.tables, old(sink.st.tables), live)
                    || (live in sink.st.tables && sink.st.tables[live] == old(sink.st.tables[Staging(live)])))
      ensures exit == Error ==> Failing(sink, this)
      ensures exit == Crashed ==> live !in sink.st.runs
      ensures Ran(from, sink.trace, live, exit)
    {
      sink.Do(ReadDone(live), live, from);
      if !active {
        return Success;
      }
      var alive := sink.Elsewhere(live, from);
      if !alive {
        return Crashed;
      }
      exit := sink.CommitReplace(live, from);
      if exit == Success {
        committed := true;
      }
    }

    /** Deferred by the run: drops staging unless it was committed or never begun; the drop itself may fail. */
    method Abort(sink: Sink, ghost from: seq<Event>, ghost exit: Exit) returns (alive: bool)
      requires sink.Valid() && Ran(from, sink.trace, live, exit) && exit != Crashed
      requires if committed then live !in sink.st.runs else Failing(sink, this)
      modifies sink
      ensures sink.Valid() && live !in sink.st.runs && Ran(from, sink.trace, live, if alive then exit else Crashed)
      ensures if committed || !active then alive && sink.st == old(sink.st) else sink.LiveKept(live, None)
    {
      if !active || committed {
        return true;
      }
      SuffixesDiffer(live);
      alive := sink.Elsewhere(live, from, exit);
      if alive {
        var o: Outcome := *;
        sink.Do(Event.Abort(live, o), live, from, exit);
      }
    }
  }

  /** Whether a failed run still has staging to drop. */
  ghost predicate Failing(sink: Sink, repl: ReplaceSession)
    reads sink, repl
  {
    !repl.committed && if repl.active then At(sink.st, repl.live, Aborting) else repl.live !in sink.st.runs
  }

  /** A batch that was read goes behind what staging holds. */
  method WriteBatch(sink: Sink, repl: ReplaceSession, batch: seq<nat>, ts: int, ghost done: seq<nat>,
                    ghost from: seq<Event>) returns (exit: Exit)
    requires sink.Valid() && repl.Tracks(sink) && sink.st.runs[repl.live].ts == ts && repl.active
    requires sink.st.tables[Staging(repl.live)] == Stamp(done, ts) && Ran(from, sink.trace, repl.live, Success)
    modifies sink
    ensures sink.Valid() && sink.NoNewOld(repl.live)
    ensures SameTable(sink.st.tables, old(sink.st.tables), repl.live)
    ensures exit == Success ==> repl.Tracks(sink) && sink.st.runs[repl.live].ts == ts
    ensures exit == Success ==> sink.st.tables[Staging(repl.live)] == Stamp(done + batch, ts)
    ensures exit == Error ==> Failing(sink, repl)
    ensures exit == Crashed ==> repl.live !in sink.st.runs
    ensures Ran(from, sink.trace, repl.live, exit)
  {
    SuffixesDiffer(repl.live);
    var alive := sink.Elsewhere(repl.live, from);
    if !alive {
      return Crashed;
    }
    StampConcat(done, batch, ts);
    var o: Outcome := *;
    sink.Do(Write(repl.live, batch, o), repl.live, from);
    exit := if o == Done then Success else Error;
  }

  /** One batch from the source to the staging table, begun with the first one if need be. */
  method HandleBatch(sink: Sink, repl: ReplaceSession, batch: seq<nat>, ts: int, ghost done: seq<nat>,
                     ghost from: seq<Event>) returns (exit: Exit)
    requires sink.Valid() && repl.Tracks(sink) && sink.st.runs[repl.live].ts == ts
    requires Ran(from, sink.trace, repl.live, Success)
    requires if repl.active then sink.st.tables[Staging(repl.live)] == Stamp(done, ts) else done == []
    modifies sink, repl
    ensures sink.Valid() && sink.NoNewOld(repl.live)
    ensures SameTable(sink.st.tables, old(sink.st.tables), repl.live)
    ensures exit == Success ==> repl.Tracks(sink) && sink.st.runs[repl.live].ts == ts
    ensures exit == Success ==> repl.active && sink.st.tables[Staging(repl.live)] == Stamp(done + batch, ts)
    ensures exit == Error ==> Failing(sink, repl)
    ensures exit == Crashed ==> repl.live !in sink.st.runs
    ensures Ran(from, sink.trace, repl.live, exit)
  {
    assert Stamp([], ts) == [];
    var alive := sink.Elsewhere(repl.live, from);
    if !alive {
      return Crashed;
    }
    var sourceOk: bool := *;
    if !sourceOk {
      sink.Do(ReadFails(repl.live), repl.live, from);
      return Error;
    }
    exit := repl.EnsureFirstBatch(sink, from);
    if exit == Success {
      exit := WriteBatch(sink, repl, batch, ts, done, from);
    }
  }

  /** The end of the row stream: the last fetch may still fail. */
  method EndRead(sink: Sink, repl: ReplaceSession, ghost from: seq<Event>) returns (exit: Exit)
    requires sink.Valid() && repl.Tracks(sink) && Ran(from, sink.trace, repl.live, Success)
    modifies sink
    ensures sink.Valid() && sink.NoNewOld(repl.live) && SameTable(sink.st.tables, old(sink.st.tables), repl.live)
    ensures exit == Success ==> repl.Tracks(sink)
    ensures exit == Success && repl.active ==>
              sink.st.tables[Staging(repl.live)] == old(sink.st.tables[Staging(repl.live)])
    ensures exit == Error ==> Failing(sink, repl)
    ensures exit == Crashed ==> repl.live !in sink.st.runs
    ensures Ran(from, sink.trace, repl.live, exit)
  {
    var alive := sink.Elsewhere(repl.live, from);
    if !alive {
      return Crashed;
    }
    var sourceOk: bool := *;
    if !sourceOk {
      sink.Do(ReadFails(repl.live), repl.live, from);
      return Error;
    }
    exit := Success;
  }

  /** Streams the batches into staging; on success staging holds them all, stamped once. */
  method Stream(sink: Sink, repl: ReplaceSession, batches: seq<seq<nat>>, ts: int, ghost from: seq<Event>)
    returns (exit: Exit)
    requires sink.Valid() && repl.Tracks(sink) && sink.st.runs[repl.live].ts == ts
    requires Ran(from, sink.trace, repl.live, Success)
    requires repl.active <==> repl.live in sink.st.tables
    requires repl.active ==> sink.st.tables[Staging(repl.live)] == []
    modifies sink, repl
    ensures sink.Valid() && sink.NoNewOld(repl.live)
    ensures SameTable(sink.st.tables, old(sink.st.tables), repl.live)
    ensures exit == Success ==>
              && repl.Tracks(sink)
              && (repl.active <==> repl.live in sink.st.tables || batches != [])
              && (repl.active ==> Loads(sink.st.tables[Staging(repl.live)], Batching.Flatten(batches), ts))
    ensures exit == Error ==> Failing(sink, repl)
    ensures exit == Crashed ==> repl.live !in sink.st.runs
    ensures Ran(from, sink.trace, repl.live, exit)
  {
    var i := 0;
    assert Stamp([], ts) == [];
    while i < |batches|
      invariant 0 <= i <= |batches|
      invariant sink.Valid() && repl.Tracks(sink) && sink.st.runs[repl.live].ts == ts
      invariant SameTable(sink.st.tables, old(sink.st.tables), repl.live) && sink.NoNewOld(repl.live)
      invariant repl.active <==> repl.live in sink.st.tables || 0 < i
      invariant repl.active ==> sink.st.tables[Staging(repl.live)] == Stamp(Batching.Flatten(batches[..i]), ts)
      invariant i == 0 ==> Batching.Flatten(batches[..i]) == []
      invariant Ran(from, sink.trace, repl.live, Success)
    {
      assert batches[..i + 1][..i] == batches[..i];
      exit := HandleBatch(sink, repl, batches[i], ts, Batching.Flatten(batches[..i]), from);
      if exit != Success {
        return;
      }
      i := i + 1;
    }
    assert batches[..i] == batches;
    exit := EndRead(sink, repl, from);
  }

  /**
   One replace run. On success the live table is the in-order concatenation of the batches
   under one timestamp, except that a zero-row source leaves a missing table missing; on
   failure it is untouched, or already replaced when only the commit's reply was lost. An
   `_old` table that an earlier process left behind is no obstacle: it goes with the swap. The
   run succeeds exactly when none of its calls failed and the process lived.
   */
  method ExecuteReplace(sink: Sink, t: Table, batches: seq<seq<nat>>, ts: int) returns (exit: Exit)
    requires sink.Valid() && t !in sink.st.runs
    modifies sink
    ensures sink.Valid() && t !in sink.st.runs && sink.NoNewOld(t)
    ensures exit == Success && t in old(sink.st.tables) ==> Old(t) !in sink.st.tables
    ensures exit == Success ==> (t in sink.st.tables <==> batches != [] || t in old(sink.st.tables))
    ensures exit == Success && t in sink.st.tables ==>
              var table, rows := sink.st.tables[t], Batching.Flatten(batches);
              && |table| == |rows|
              && forall i :: 0 <= i < |rows| ==> table[i].row == rows[i] && table[i].loadTs == ts
    ensures exit != Success ==>
              || SameTable(sink.st.tables, old(sink.st.tables), t)
              || (t in sink.st.tables && Loads(sink.st.tables[t], Batching.Flatten(batches), ts))
    ensures Ran(old(sink.trace), sink.trace, t, exit)
  {
    ghost var from := sink.trace;
    RanNothing(from, t);
    sink.Do(Start(t, ts), t, from);
    var repl := new ReplaceSession(t);
    var alive := sink.Elsewhere(t, from);
    if !alive {
      return Crashed;
    }
    exit := repl.PrepareExisting(sink, from);
    if exit != Success {
      return;
    }
    exit := Stream(sink, repl, batches, ts, from);
    if exit == Success {
      exit := repl.Commit(sink, from);
    }
    if exit != Crashed {
      alive := repl.Abort(sink, from, exit);
      exit := if alive then exit else Crashed;
    }
  }
}
