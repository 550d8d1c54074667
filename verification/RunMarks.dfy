/**
 One run of a load around the registry: the guard of trigger, and every way Execute can
 return, with other goroutines and reloads in between. What happens to the data is left to
 the other modules; here each call only succeeds or fails.
 */
module RunMarks {
  import opened S = Scheduler
  import opened R = SchedulerRunner

  datatype Mode = Append | Delta | Replace

  /** The calls of a run whose errors end it. */
  datatype Call =
    | ResolveParams | ObtainSource | GetWatermark | StartRun
    | PrepareReplace | ReadSource | CommitReplace | UpsertWatermark | FinishRun

  datatype Answer = Answer(call: Call, ok: bool)

  /** Rows read and written. */
  datatype Counts = Counts(read: int, written: int)

  /** What a run that made n calls reports: nothing when preparing the replace failed. */
  function Reported(mode: Mode, n: int, rows: Counts): Counts {
    if mode == Replace && n == 5 then Counts(0, 0) else rows
  }

  /** The calls of a run before it is marked as running. */
  function Opening(): seq<Call> { [ResolveParams] + [ObtainSource] + [GetWatermark] + [StartRun] }

  /** And up to the end of the read. */
  function Reading(mode: Mode): seq<Call> {
    if mode == Replace then Opening() + [PrepareReplace] + [ReadSource] else Opening() + [ReadSource]
  }

  /** And up to the commit or the upsert; `moved` when there is a watermark to store. */
  function Storing(mode: Mode, moved: bool): seq<Call> {
    if mode == Replace then Reading(mode) + [CommitReplace]
    else if mode == Delta && moved then Reading(mode) + [UpsertWatermark]
    else Reading(mode)
  }

  /** All calls of a run that succeeds. */
  function Plan(mode: Mode, moved: bool): seq<Call> { Storing(mode, moved) + [FinishRun] }

  /** From one point to another the calls are those of the plan, in order, up to the first that fails. */
  ghost predicate Follows(from: seq<Answer>, to: seq<Answer>, plan: seq<Call>, ok: bool) {
    && from <= to && (if ok then |to| == |from| + |plan| else |from| < |to| <= |from| + |plan|)
    && forall i :: |from| <= i < |to| ==> to[i] == Answer(plan[i - |from|], ok || i < |to| - 1)
  }

  lemma FollowsOn(from: seq<Answer>, to: seq<Answer>, plan: seq<Call>, call: Call, ok: bool)
    requires Follows(from, to, plan, true)
    ensures Follows(from, to + [Answer(call, ok)], plan + [call], ok)
  {}

  /** A failed call ends any longer plan. */
  lemma FollowsStop(from: seq<Answer>, to: seq<Answer>, plan: seq<Call>, whole: seq<Call>)
    requires Follows(from, to, plan, false) && plan <= whole
    ensures Follows(from, to, whole, false)
  {}

  class Goroutines {
    const registry: Registry
    var flight: Flight
    var scheduled: set<LoadId>

    /** The steps each goroutine has taken, and the answers to its calls. */
    ghost var history: map<nat, seq<RunEvent>>
    ghost var answers: map<nat, seq<Answer>>

    ghost predicate Valid()
      reads this, registry
    {
      flight.registry == registry.Running() && GuardOk(flight, scheduled)
    }

    ghost function Past(t: nat): seq<RunEvent>
      reads this
    {
      if t in history then history[t] else []
    }

    ghost function Asked(t: nat): seq<Answer>
      reads this
    {
      if t in answers then answers[t] else []
    }

    constructor (registry: Registry)
      requires registry.loads == map[]
      ensures Valid() && this.registry == registry && flight.runs == map[]
    {
      this.registry := registry;
      flight := Flight(map[], map[], map[]);
      scheduled, history, answers := {}, map[], map[];
    }

    /** A load's run state is as it was. */
    twostate predicate SameRun(id: LoadId)
      reads registry
    {
      && id in old(registry.loads) && id in registry.loads
      && registry.loads[id].last == old(registry.loads)[id].last
      && registry.loads[id].running == old(registry.loads)[id].running
    }

    /** A goroutine that marks its load as running. */
    method MarkRunning(t: nat, uuid: string, started: int)
      requires Valid() && RunEnabled(flight, RunEvent.MarkRunning(t))
      modifies this`flight, this`history, registry
      ensures Valid() && flight == RunApply(old(flight), scheduled, RunEvent.MarkRunning(t))
      ensures var id := old(flight.runs[t].id);
              id in registry.loads ==>
                registry.loads[id].last.uuid == uuid && registry.loads[id].last.started == started
      ensures scheduled == old(scheduled)
      ensures history == old(history)[t := old(Past(t)) + [RunEvent.MarkRunning(t)]]
      ensures forall x :: x in old(registry.loads) && x != old(flight.runs[t].id) ==> SameRun(x)
    {
      GuardRun(flight, scheduled, RunEvent.MarkRunning(t));
      registry.MarkRunning(flight.runs[t].id, uuid, started);
      history := history[t := Past(t) + [RunEvent.MarkRunning(t)]];
      flight := RunApply(flight, scheduled, RunEvent.MarkRunning(t));
    }

    /** A goroutine that records the outcome of its run. */
    method MarkFinished(t: nat, status: string, finished: int, read: int, written: int, error: string)
      requires Valid() && RunEnabled(flight, RunEvent.MarkFinished(t))
      modifies this`flight, this`history, registry
      ensures Valid() && flight == RunApply(old(flight), scheduled, RunEvent.MarkFinished(t))
      ensures scheduled == old(scheduled)
      ensures history == old(history)[t := old(Past(t)) + [RunEvent.MarkFinished(t)]]
      ensures forall x :: x in old(registry.loads) && x != old(flight.runs[t].id) ==> SameRun(x)
      ensures var id := old(flight.runs[t].id);
              id in registry.loads ==>
                var was, now := old(registry.loads)[id].last, registry.loads[id].last;
                && now.status == status && now.finished == finished && now.error == error
                && now.read == read && now.written == written
                && now.uuid == was.uuid && now.started == was.started
    {
      GuardRun(flight, scheduled, RunEvent.MarkFinished(t));
      registry.MarkFinished(flight.runs[t].id, status, finished, read, written, error);
      history := history[t := Past(t) + [RunEvent.MarkFinished(t)]];
      flight := RunApply(flight, scheduled, RunEvent.MarkFinished(t));
    }

    /** A step that leaves the registry alone. */
    method Step(e: RunEvent)
      requires Valid() && RunEnabled(flight, e) && !e.MarkRunning? && !e.MarkFinished?
      modifies this`flight, this`history
      ensures Valid() && flight == RunApply(old(flight), scheduled, e) && scheduled == old(scheduled)
      ensures history == old(history)[e.t := old(Past(e.t)) + [e]]
    {
      GuardRun(flight, scheduled, e);
      history := history[e.t := Past(e.t) + [e]];
      flight := RunApply(flight, scheduled, e);
    }

    /** One step of another goroutine. */
    method OtherStep(t: nat)
      requires Valid() && t in flight.runs && HoldsGuard(flight.runs[t])
      modifies this`flight, this`scheduled, this`history, registry
      ensures Valid() && t in flight.runs && flight.runs[t] == old(flight.runs[t]) && Past(t) == old(Past(t))
      ensures SameRun(flight.runs[t].id)
    {
      HolderRegistered(flight, scheduled, t);
      var e: RunEvent := *;
      if e.t != t && RunEnabled(flight, e) {
        OtherLoad(flight, scheduled, t, e.t);
        if e.MarkRunning? {
          var uuid: string, started: int := *, *;
          MarkRunning(e.t, uuid, started);
        } else if e.MarkFinished? {
          var status: string, error: string, finished: int := *, *, *;
          MarkFinished(e.t, status, finished, 0, 0, error);
        } else {
          Step(e);
        }
      }
    }

    /** A tick of some load, or a reload. */
    method OtherEvent(t: nat)
      requires Valid() && t in flight.runs && HoldsGuard(flight.runs[t])
      modifies this`flight, this`scheduled, this`history, registry
      ensures Valid() && t in flight.runs && flight.runs[t] == old(flight.runs[t]) && Past(t) == old(Past(t))
      ensures SameRun(flight.runs[t].id)
    {
      HolderRegistered(flight, scheduled, t);
      var x: nat, id: LoadId, reload: bool := *, *, *;
      if reload {
        var desired: map<LoadId, About>, keep: set<LoadId> := *, *;
        GuardReconcile(flight, scheduled, desired.Keys, keep * desired.Keys);
        ghost var id := flight.runs[t].id;
        assert registry.Running()[id] == registry.loads[id].running;
        registry.RegisterAll(desired);
        assert registry.Running()[id] == registry.loads[id].running;
        flight, scheduled := flight.(registry := S.Registered(flight.registry, desired.Keys)), keep * desired.Keys;
      } else if x !in flight.runs {
        GuardFire(flight, scheduled, x, id);
        flight := flight.(runs := flight.runs[x := Fired(id)]);
      }
    }

    /** Whatever else goes on while goroutine t is between two of its calls. */
    method Elsewhere(t: nat)
      requires Valid() && t in flight.runs && HoldsGuard(flight.runs[t])
      modifies this`flight, this`scheduled, this`history, registry
      ensures Valid() && t in flight.runs && flight.runs[t] == old(flight.runs[t]) && Past(t) == old(Past(t))
      ensures SameRun(flight.runs[t].id)
    {
      HolderRegistered(flight, scheduled, t);
      var n: nat := *;
      while 0 < n
        invariant Valid() && t in flight.runs && flight.runs[t] == old(flight.runs[t]) && Past(t) == old(Past(t))
        invariant SameRun(flight.runs[t].id)
      {
        n := n - 1;
        if
        case true => OtherStep(t);
        case true => OtherEvent(t);
      }
    }

    /** The next call of a plan, which may fail, and what goes on meanwhile. */
    method Do(t: nat, call: Call, ghost from: seq<Answer>, ghost plan: seq<Call>) returns (ok: bool)
      requires Valid() && t in flight.runs && HoldsGuard(flight.runs[t]) && Follows(from, Asked(t), plan, true)
      modifies this, registry
      ensures Valid() && t in flight.runs && flight.runs[t] == old(flight.runs[t]) && Past(t) == old(Past(t))
      ensures SameRun(flight.runs[t].id) && Follows(from, Asked(t), plan + [call], ok)
      ensures |Asked(t)| == |old(Asked(t))| + 1
    {
      Elsewhere(t);
      ok := *;
      FollowsOn(from, Asked(t), plan, call, ok);
      answers := answers[t := Asked(t) + [Answer(call, ok)]];
    }

    /** The returns before MarkRunning: parameters, source, watermark and run row. */
    method Begin(t: nat, uuid: string, started: int, ghost from: seq<Answer>) returns (ok: bool)
      requires Valid() && t in flight.runs && flight.runs[t].Guarded? && from == Asked(t)
      modifies this, registry
      ensures Valid() && t in flight.runs
      ensures flight.runs[t] == if ok then Marked(old(flight.runs[t]).id) else Settled(old(flight.runs[t]).id)
      ensures Past(t) == old(Past(t)) + [if ok then RunEvent.MarkRunning(t) else FailEarly(t)]
      ensures Follows(from, Asked(t), Opening(), ok)
      ensures ok ==> Stamped(flight.runs[t].id, uuid, started)
    {
      ok := Open(t, from);
      if ok {
        MarkRunning(t, uuid, started);
        HolderRegistered(flight, scheduled, t);
      } else {
        Step(FailEarly(t));
      }
    }

    method Open(t: nat, ghost from: seq<Answer>) returns (ok: bool)
      requires Valid() && t in flight.runs && flight.runs[t].Guarded? && from == Asked(t)
      modifies this, registry
      ensures Valid() && t in flight.runs && flight.runs[t] == old(flight.runs[t]) && Past(t) == old(Past(t))
      ensures Follows(from, Asked(t), Opening(), ok)
    {
      ok := Do(t, ResolveParams, from, []);
      assert [] + [ResolveParams] == [ResolveParams];
      if !ok {
        FollowsStop(from, Asked(t), [ResolveParams], Opening());
        return;
      }
      ok := Do(t, ObtainSource, from, [ResolveParams]);
      if !ok {
        FollowsStop(from, Asked(t), [ResolveParams] + [ObtainSource], Opening());
        return;
      }
      ok := Do(t, Call.GetWatermark, from, [ResolveParams] + [ObtainSource]);
      if !ok {
        FollowsStop(from, Asked(t), [ResolveParams] + [ObtainSource] + [Call.GetWatermark], Opening());
        return;
      }
      ok := Do(t, StartRun, from, [ResolveParams] + [ObtainSource] + [Call.GetWatermark]);
    }

    /** The registry shows this run of the load. */
    ghost predicate Stamped(id: LoadId, uuid: string, started: int)
      reads registry
    {
      id in registry.loads && registry.loads[id].last.uuid == uuid && registry.loads[id].last.started == started
    }

    /** Every return after MarkRunning marks the run as finished. */
    method Finish(t: nat, ok: bool, finished: int, rows: Counts, error: string, ghost uuid: string, ghost started: int)
      requires Valid() && t in flight.runs && flight.runs[t].Marked? && Stamped(flight.runs[t].id, uuid, started)
      modifies this`flight, this`history, registry
      ensures Valid() && t in flight.runs && flight.runs[t] == Settled(old(flight.runs[t]).id)
      ensures Past(t) == old(Past(t)) + [RunEvent.MarkFinished(t)]
      ensures Stamped(flight.runs[t].id, uuid, started)
      ensures var last := registry.loads[flight.runs[t].id].last;
              && last.status == (if ok then "success" else "failed") && last.finished == finished && last.error == error
              && last.read == rows.read && last.written == rows.written
    {
      MarkFinished(t, if ok then "success" else "failed", finished, rows.read, rows.written, error);
      HolderRegistered(flight, scheduled, t);
    }

    /**
     Execute, with all its returns. The calls are made in order up to the first that fails, and
     the run succeeds exactly when all of them do. On each return the load is registered and its
     running flag is false. When a call before MarkRunning fails the goroutine marks nothing;
     else it has marked the run as running and then, once, as finished with the outcome returned.
     */
    method Execute(t: nat, mode: Mode, moved: bool, uuid: string, started: int, now: int, rows: Counts)
      returns (ok: bool)
      requires Valid() && t in flight.runs && flight.runs[t].Guarded?
      modifies this, registry
      ensures Valid() && t in flight.runs && flight.runs[t] == Settled(old(flight.runs[t]).id)
      ensures Follows(old(Asked(t)), Asked(t), Plan(mode, moved), ok)
      ensures var id := flight.runs[t].id; id in registry.loads && !registry.loads[id].running
      ensures if |Asked(t)| - |old(Asked(t))| <= 4 then Past(t) == old(Past(t)) + [FailEarly(t)]
              else Past(t) == old(Past(t)) + [RunEvent.MarkRunning(t)] + [RunEvent.MarkFinished(t)]
      ensures 4 < |Asked(t)| - |old(Asked(t))| ==>
                var last := registry.loads[flight.runs[t].id].last;
                && last.status == (if ok then "success" else "failed") && (last.error == "" <==> ok)
                && last.uuid == uuid && last.started == started && last.finished == now
                && Counts(last.read, last.written) == Reported(mode, |Asked(t)| - |old(Asked(t))|, rows)
    {
      ghost var from := Asked(t);
      ok := Begin(t, uuid, started, from);
      if ok {
        ok := Body(t, mode, moved, now, rows, from, uuid, started);
      } else {
        FollowsStop(from, Asked(t), Opening(), Plan(mode, moved));
      }
      NotRunning(flight, scheduled, t);
      assert registry.Running()[flight.runs[t].id] == registry.loads[flight.runs[t].id].running;
    }

    /** The run is marked as finished with the outcome. */
    ghost predicate Ended(t: nat, id: LoadId, ok: bool, now: int, rows: Counts, uuid: string, started: int)
      reads this, registry
    {
      && t in flight.runs && flight.runs[t] == Settled(id) && Stamped(id, uuid, started)
      && var last := registry.loads[id].last;
         && last.status == (if ok then "success" else "failed") && last.finished == now && (last.error == "" <==> ok)
         && last.read == rows.read && last.written == rows.written
    }

    /** A call after MarkRunning: if it fails the run is marked as failed. */
    method Attempt(t: nat, call: Call, now: int, rows: Counts, error: string, ghost from: seq<Answer>,
                   ghost plan: seq<Call>, ghost whole: seq<Call>, ghost uuid: string, ghost started: int)
      returns (ok: bool)
      requires Valid() && t in flight.runs && flight.runs[t].Marked? && Follows(from, Asked(t), plan, true)
      requires Stamped(flight.runs[t].id, uuid, started) && plan + [call] <= whole && 4 <= |plan| && error != ""
      modifies this, registry
      ensures Valid() && |Asked(t)| == |from| + |plan| + 1
      ensures ok ==> t in flight.runs && flight.runs[t] == old(flight.runs[t]) && Past(t) == old(Past(t))
      ensures ok ==> Stamped(flight.runs[t].id, uuid, started) && Follows(from, Asked(t), plan + [call], true)
      ensures !ok ==> Ended(t, old(flight.runs[t]).id, false, now, rows, uuid, started)
      ensures !ok ==> Past(t) == old(Past(t)) + [RunEvent.MarkFinished(t)] && Follows(from, Asked(t), whole, false)
    {
      ok := Do(t, call, from, plan);
      if !ok {
        FollowsStop(from, Asked(t), plan + [call], whole);
        Finish(t, false, now, rows, error, uuid, started);
      }
    }

    /** From MarkRunning on: prepare and read. */
    method Load(t: nat, mode: Mode, now: int, rows: Counts, ghost from: seq<Answer>, ghost whole: seq<Call>,
                ghost uuid: string, ghost started: int) returns (ok: bool)
      requires Valid() && t in flight.runs && flight.runs[t].Marked? && Follows(from, Asked(t), Opening(), true)
      requires Stamped(flight.runs[t].id, uuid, started) && Reading(mode) <= whole
      modifies this, registry
      ensures Valid() && |from| + 4 < |Asked(t)|
      ensures ok ==> t in flight.runs && flight.runs[t] == old(flight.runs[t]) && Past(t) == old(Past(t))
      ensures ok ==> Stamped(flight.runs[t].id, uuid, started) && Follows(from, Asked(t), Reading(mode), true)
      ensures !ok ==>
                Ended(t, old(flight.runs[t]).id, false, now, Reported(mode, |Asked(t)| - |from|, rows), uuid, started)
      ensures !ok ==> Past(t) == old(Past(t)) + [RunEvent.MarkFinished(t)] && Follows(from, Asked(t), whole, false)
    {
      ghost var plan := Opening();
      if mode == Replace {
        ok := Attempt(t, PrepareReplace, now, Counts(0, 0), "prepare replace", from, plan, whole, uuid, started);
        plan := plan + [PrepareReplace];
        if !ok {
          return;
        }
      }
      ok := Attempt(t, ReadSource, now, rows, "read", from, plan, whole, uuid, started);
    }

    /** Then commit or upsert, as the mode has it. */
    method Store(t: nat, mode: Mode, moved: bool, now: int, rows: Counts, ghost from: seq<Answer>,
                 ghost whole: seq<Call>, ghost uuid: string, ghost started: int) returns (ok: bool)
      requires Valid() && t in flight.runs && flight.runs[t].Marked? && Follows(from, Asked(t), Reading(mode), true)
      requires Stamped(flight.runs[t].id, uuid, started) && Storing(mode, moved) <= whole
      modifies this, registry
      ensures Valid() && |from| + 4 < |Asked(t)|
      ensures ok ==> t in flight.runs && flight.runs[t] == old(flight.runs[t]) && Past(t) == old(Past(t))
      ensures ok ==> Stamped(flight.runs[t].id, uuid, started) && Follows(from, Asked(t), Storing(mode, moved), true)
      ensures !ok ==>
                Ended(t, old(flight.runs[t]).id, false, now, Reported(mode, |Asked(t)| - |from|, rows), uuid, started)
      ensures !ok ==> Past(t) == old(Past(t)) + [RunEvent.MarkFinished(t)] && Follows(from, Asked(t), whole, false)
    {
      if mode == Replace {
        ok := Attempt(t, CommitReplace, now, rows, "commit replace", from, Reading(mode), whole, uuid, started);
      } else if mode == Delta && moved {
        ok := Attempt(t, UpsertWatermark, now, rows, "update watermark", from, Reading(mode), whole, uuid, started);
      } else {
        ok := true;
      }
    }

    /** And finish. */
    method Conclude(t: nat, now: int, rows: Counts, ghost from: seq<Answer>, ghost plan: seq<Call>,
                    ghost uuid: string, ghost started: int) returns (ok: bool)
      requires Valid() && t in flight.runs && flight.runs[t].Marked? && Follows(from, Asked(t), plan, true)
      requires Stamped(flight.runs[t].id, uuid, started) && 4 <= |plan|
      modifies this, registry
      ensures Valid() && Ended(t, old(flight.runs[t]).id, ok, now, rows, uuid, started)
      ensures Past(t) == old(Past(t)) + [RunEvent.MarkFinished(t)]
      ensures Follows(from, Asked(t), plan + [FinishRun], ok) && |Asked(t)| == |from| + |plan| + 1
    {
      ok := Attempt(t, FinishRun, now, rows, "finish run", from, plan, plan + [FinishRun], uuid, started);
      if ok {
        Finish(t, true, now, rows, "", uuid, started);
      }
    }

    /** Everything after MarkRunning. */
    method Body(t: nat, mode: Mode, moved: bool, now: int, rows: Counts, ghost from: seq<Answer>,
                ghost uuid: string, ghost started: int) returns (ok: bool)
      requires Valid() && t in flight.runs && flight.runs[t].Marked? && Follows(from, Asked(t), Opening(), true)
      requires Stamped(flight.runs[t].id, uuid, started)
      modifies this, registry
      ensures Valid()
      ensures Ended(t, old(flight.runs[t]).id, ok, now, Reported(mode, |Asked(t)| - |from|, rows), uuid, started)
      ensures Past(t) == old(Past(t)) + [RunEvent.MarkFinished(t)]
      ensures Follows(from, Asked(t), Plan(mode, moved), ok) && |from| + 4 < |Asked(t)|
    {
      ok := Load(t, mode, now, rows, from, Plan(mode, moved), uuid, started);
      if !ok {
        return;
      }
      ok := Store(t, mode, moved, now, rows, from, Plan(mode, moved), uuid, started);
      if !ok {
        return;
      }
      ok := Conclude(t, now, rows, from, Storing(mode, moved), uuid, started);
    }

    /** trigger: at most one Execute per load, and the guard is free again afterwards. */
    method Trigger(t: nat, mode: Mode, moved: bool, uuid: string, started: int, now: int, rows: Counts)
      returns (ran: bool, ghost ok: bool)
      requires Valid() && t in flight.runs && flight.runs[t].Fired?
      modifies this, registry
      ensures Valid() && t !in flight.runs
      ensures ran <==> old(flight.runs[t]).id in old(scheduled) && old(flight.runs[t]).id !in old(flight.running)
      ensures ran ==> var id := old(flight.runs[t]).id;
                && id !in flight.running && id in registry.loads && !registry.loads[id].running
      ensures ran ==> Follows(old(Asked(t)), Asked(t), Plan(mode, moved), ok)
      ensures ran && 4 < |Asked(t)| - |old(Asked(t))| ==>
                var last := registry.loads[old(flight.runs[t]).id].last;
                && last.status == (if ok then "success" else "failed")
                && last.uuid == uuid && last.started == started && last.finished == now
      ensures !ran ==> flight == old(flight).(runs := old(flight).runs - {t}) && Asked(t) == old(Asked(t))
    {
      Step(RunEvent.Trigger(t));
      ran, ok := t in flight.runs, false;
      if ran {
        ok := Execute(t, mode, moved, uuid, started, now, rows);
        Step(Leave(t));
      }
    }
  }

  /** The holder of a guard has a registered load. */
  lemma HolderRegistered(f: Flight, scheduled: set<LoadId>, t: nat)
    requires GuardOk(f, scheduled) && t in f.runs && HoldsGuard(f.runs[t])
    ensures f.runs[t].id in f.registry
  {
    assert RunOk(f, t);
  }

  /** Two goroutines past the guard run different loads. */
  lemma OtherLoad(f: Flight, scheduled: set<LoadId>, t: nat, x: nat)
    requires GuardOk(f, scheduled) && t in f.runs && x in f.runs && t != x && HoldsGuard(f.runs[t])
    ensures HoldsGuard(f.runs[x]) ==> f.runs[x].id != f.runs[t].id
  {
    assert RunOk(f, t) && RunOk(f, x);
  }

  lemma NotRunning(f: Flight, scheduled: set<LoadId>, t: nat)
    requires GuardOk(f, scheduled) && t in f.runs && f.runs[t].Settled?
    ensures f.runs[t].id in f.registry && !f.registry[f.runs[t].id]
  {
    assert RunOk(f, t) && RegisteredOk(f, f.runs[t].id);
  }
}
