/**
 What the pool means to its callers: it hands out what Ephemeral would have built, and the
 methods of SourcePool take exactly the steps of the machine in module Pool while other
 threads act between any two of them.
 */
module PoolRunner {
  import opened Options
  import opened Pool
  import ParamsText

  // ---------- Refinement of open-per-run ----------

  /** The request carries the fingerprint of its own, NUL-free, configuration. */
  ghost predicate Sound(r: Request) {
    && ParamsText.NulFree(r.cfg.kind, r.cfg.params)
    && r.fp == ParamsText.Encode(r.cfg.kind, r.cfg.params)
  }

  predicate HasRequest(pc: Pc) { pc.Obtain? || pc.Checking? || pc.Connecting? || pc.Leased? }

  /** Every request for a source anywhere in the state satisfies P. */
  ghost predicate AllRequests(s: State, sid: SourceId, P: Request -> bool) {
    && (forall c :: c in s.conns && s.conns[c].sid == sid ==> P(s.conns[c].req))
    && (forall t :: t in s.threads && HasRequest(s.threads[t]) && s.threads[t].sid == sid ==> P(s.threads[t].req))
  }

  lemma RequestsOutside(s: State, e: Event, sid: SourceId, P: Request -> bool)
    requires AllRequests(s, sid, P) && Enabled(s, e) && (e.CallObtain? && e.sid == sid ==> P(e.req)) && Outside(e)
    ensures AllRequests(Apply(s, e), sid, P)
  {}

  lemma RequestsInside(s: State, e: Event, sid: SourceId, P: Request -> bool)
    requires AllRequests(s, sid, P) && Enabled(s, e) && !Outside(e)
    ensures AllRequests(Apply(s, e), sid, P)
  {}

  lemma AllRequestsStep(s: State, e: Event, sid: SourceId, P: Request -> bool)
    requires AllRequests(s, sid, P) && Enabled(s, e) && (e.CallObtain? && e.sid == sid ==> P(e.req))
    ensures AllRequests(Apply(s, e), sid, P)
  {
    if Outside(e) {
      RequestsOutside(s, e, sid, P);
    } else {
      RequestsInside(s, e, sid, P);
    }
  }

  lemma {:induction false} AllRequestsAlways(idle: int, maxAge: int, evs: seq<Event>, sid: SourceId, P: Request -> bool)
    requires RunFrom(Init(idle, maxAge), evs).Some?
    requires forall e :: e in evs && e.CallObtain? && e.sid == sid ==> P(e.req)
    ensures AllRequests(RunFrom(Init(idle, maxAge), evs).value, sid, P)
  {
    if evs == [] {
    } else {
      AllRequestsAlways(idle, maxAge, evs[..|evs| - 1], sid, P);
      AllRequestsStep(RunFrom(Init(idle, maxAge), evs[..|evs| - 1]).value, evs[|evs| - 1], sid, P);
    }
  }

  /**
   The pool refines open-per-run: a leased source is open, was built from the parameters and
   the kind, up to letter case, that Ephemeral would have built from, and was given back and
   opened no longer ago than the idle and age limits when the caller took the time. It is the
   very same configuration exactly when the kinds agree in case as well. Only requests for this
   source have to be NUL-free.
   */
  lemma {:induction false} PoolRefinesEphemeral(idle: int, maxAge: int, evs: seq<Event>, t: Tid)
    requires RunFrom(Init(idle, maxAge), evs).Some?
    requires var s := RunFrom(Init(idle, maxAge), evs).value; t in s.threads && s.threads[t].Leased?
    requires var sid := RunFrom(Init(idle, maxAge), evs).value.threads[t].sid;
             forall e :: e in evs && e.CallObtain? && e.sid == sid ==> Sound(e.req)
    ensures var s := RunFrom(Init(idle, maxAge), evs).value;
            var Leased(sid, req, now, c) := s.threads[t];
            && c in s.conns && s.conns[c].status == Live && sid in s.entries
            && ParamsText.SameLetters(s.conns[c].req.cfg.kind, req.cfg.kind)
            && s.conns[c].req.cfg.params == req.cfg.params
            && (s.conns[c].req.cfg == req.cfg <==> s.conns[c].req.cfg.kind == req.cfg.kind)
            && OpenedAt(idle, maxAge, evs, c).Some? && UsedAt(idle, maxAge, evs, c).Some?
            && (idle > 0 ==> now - UsedAt(idle, maxAge, evs, c).value <= idle)
            && (maxAge > 0 ==> now - OpenedAt(idle, maxAge, evs, c).value <= maxAge)
  {
    InvAlways(idle, maxAge, evs);
    var s := RunFrom(Init(idle, maxAge), evs).value;
    var Leased(sid, req, now, c) := s.threads[t];
    AllRequestsAlways(idle, maxAge, evs, sid, r => Sound(r));
    assert ThreadOk(s, t) && EntryOk(s, sid);
    TimesAlways(idle, maxAge, evs, sid, c);
    LimitsAlways(idle, maxAge, evs);
    var had := s.conns[c].req;
    assert Sound(had) && Sound(req) && had.fp == req.fp;
    ParamsText.EncodeInjective(had.cfg.kind, had.cfg.params, req.cfg.kind, req.cfg.params);
  }

  // ---------- The methods ----------

  /** How a call stands: Blocked is still waiting for a lock. */
  datatype Grant = Granted(conn: Cid) | Refused | Blocked

  /** Thread t waits for a lock that is taken. */
  predicate Waiting(s: State, t: Tid) {
    t in s.threads &&
    if HasStage(s.threads[t], WantMap) then s.mapLock.Some?
    else var sid := Awaits(s.threads[t]);
         sid.Some? && sid.value in s.entries && s.entries[sid.value].holder.Some?
  }

  /** The build or the opening by thread t failed. */
  predicate Declines(e: Event, t: Tid) { (e.Build? || e.OpenDone?) && e.t == t && !e.ok }

  /** Durations are in nanoseconds. */
  const FIVE_MINUTES: int := 300_000_000_000

  class Lease {
    const t: Tid
    var released: bool

    constructor (t: Tid)
      ensures this.t == t && !released
    {
      this.t := t;
      released := false;
    }
  }

  class SourcePool {
    var st: State
    ghost const idle: int
    ghost const maxAge: int
    ghost var trace: seq<Event>

    ghost predicate Valid()
      reads this
    {
      RunFrom(Init(idle, maxAge), trace) == Some(st)
    }

    /** Without an idle timeout there is one of five minutes. */
    constructor (idleTimeout: int, maxAge: int)
      ensures Valid() && trace == []
      ensures st == Init(if idleTimeout <= 0 then 300_000_000_000 else idleTimeout, maxAge)
    {
      var limit := if idleTimeout <= 0 then FIVE_MINUTES else idleTimeout;
      idle := limit;
      this.maxAge := maxAge;
      trace := [];
      st := Init(limit, maxAge);
    }

    method Do(e: Event)
      requires Valid() && Enabled(st, e)
      modifies this
      ensures Valid() && st == Apply(old(st), e) && trace == old(trace) + [e] && ClosedStays()
      ensures old(st.clock) <= st.clock
    {
      LimitsStep(st, e);
      InvAlways(idle, maxAge, trace);
      SettledStep(st, e);
      trace := trace + [e];
      assert trace[..|trace| - 1] == old(trace);
      st := Apply(st, e);
    }

    /** What thread t can rely on while others run: where it is, and the slot it holds. */
    twostate predicate Undisturbed(t: Tid)
      reads this
    {
      && Valid() && t in old(st.threads) && t in st.threads && st.threads[t] == old(st.threads[t])
      && (InSlot(old(st), t) ==>
            InSlot(st, t) && st.entries[Holds(st.threads[t]).value] == old(st.entries[Holds(st.threads[t]).value]))
    }

    /** No closed connection comes back. */
    twostate predicate ClosedStays()
      reads this
    {
      forall c :: c in old(st.conns) ==>
          c in st.conns && (old(st.conns[c]).status == Closed ==> st.conns[c].status == Closed)
    }

    /** Any steps of other threads. */
    method Elsewhere(t: Tid)
      requires Valid() && t in st.threads
      modifies this
      ensures Undisturbed(t) && ClosedStays() && old(st.clock) <= st.clock && old(trace) <= trace
    {
      var n: nat := *;
      while 0 < n
        invariant Undisturbed(t) && ClosedStays() && old(st.clock) <= st.clock && old(trace) <= trace
      {
        n := n - 1;
        var e: Event := *;
        if Enabled(st, e) && Actor(e) != Some(t) {
          InvAlways(idle, maxAge, trace);
          OtherStep(st, e, t);
          Do(e);
        }
      }
    }

    /** Waits for the map lock; false while another thread has it. */
    method EnterMap(t: Tid) returns (ok: bool)
      requires Valid() && t in st.threads && HasStage(st.threads[t], WantMap)
      modifies this
      ensures Valid() && t in st.threads && ClosedStays()
      ensures st.threads[t] == if ok then old(st.threads[t]).(stage := InMap) else old(st.threads[t])
      ensures old(st.clock) <= st.clock && old(trace) <= trace && (!ok ==> Waiting(st, t))
    {
      Elsewhere(t);
      if st.mapLock.Some? {
        return false;
      }
      Do(LockMap(t));
      Elsewhere(t);
      ok := true;
    }

    /** Finds or creates the slot under the map lock and waits for the slot's own lock. */
    method Enter(t: Tid, sid: SourceId, req: Request) returns (entered: bool)
      requires Valid() && t !in st.threads
      modifies this
      ensures Valid() && t in st.threads
      ensures entered ==>
                InSlot(st, t) && st.threads[t].Checking? && st.threads[t].sid == sid && st.threads[t].req == req
      ensures entered ==> st.threads[t].now == st.clock
      ensures old(st.clock) <= st.clock && old(trace) <= trace && (!entered ==> Waiting(st, t))
    {
      Do(CallObtain(t, sid, req));
      entered := EnterMap(t);
      if !entered {
        return;
      }
      Do(LookUp(t, []));
      Elsewhere(t);
      Waits(idle, maxAge, trace, t);
      if st.entries[sid].holder.Some? {
        return false;
      }
      Do(LockEntry(t));
      entered := true;
    }

    /** Reuses what the slot holds exactly if it can be reused, and else closes it and opens a new source. */
    method Fill(t: Tid) returns (g: Grant)
      requires Valid() && InSlot(st, t) && st.threads[t].Checking?
      modifies this
      ensures Valid() && !g.Blocked?
      ensures old(st.clock) <= st.clock && old(trace) < trace
      ensures g.Refused? ==> t !in st.threads && Declines(trace[|trace| - 1], t)
      ensures g.Granted? ==>
                && t in st.threads && st.threads[t].Leased? && st.threads[t].conn == g.conn
                && st.threads[t].sid == old(st.threads[t].sid) && st.threads[t].req == old(st.threads[t].req)
                && st.threads[t].now == old(st.threads[t].now)
      ensures var Checking(sid, req, now) := old(st.threads[t]);
              var ent := old(st.entries[sid]);
              if && ent.src.Some? && ent.fp == req.fp
                 && (old(st.idle) > 0 ==> now <= ent.lastUsed + old(st.idle))
                 && (old(st.maxAge) > 0 ==> now <= ent.openedAt + old(st.maxAge))
              then g == Granted(ent.src.value) else g.Granted? ==> g.conn !in old(st.conns)
    {
      var Checking(sid, req, now) := st.threads[t];
      if st.entries[sid].src.Some? {
        var src, reuse := st.entries[sid].src.value, Reusable(st, st.entries[sid], req.fp, now);
        Do(Check(t));
        if reuse {
          return Granted(src);
        }
        Elsewhere(t);
      }
      g := Dial(t);
    }

    /** Builds a source for an empty slot and opens it. */
    method Dial(t: Tid) returns (g: Grant)
      requires Valid() && InSlot(st, t) && st.threads[t].Checking? && st.entries[st.threads[t].sid].src.None?
      modifies this
      ensures Valid() && !g.Blocked?
      ensures old(st.clock) <= st.clock && old(trace) < trace
      ensures g.Refused? ==> t !in st.threads && Declines(trace[|trace| - 1], t)
      ensures g.Granted? ==>
                && t in st.threads && g.conn in st.conns && g.conn !in old(st.conns)
                && var Checking(sid, req, now) := old(st.threads[t]); st.threads[t] == Leased(sid, req, now, g.conn)
    {
      var ok: bool := *;
      assert FreshId(st.conns.Keys) !in st.conns;
      var c: Cid :| c !in st.conns;
      Do(Build(t, ok, c));
      if !ok {
        return Refused;
      }
      Elsewhere(t);
      Dials(idle, maxAge, trace, t);
      ok := *;
      Do(OpenDone(t, ok));
      g := if ok then Granted(c) else Refused;
    }

    /**
     A lease on the source, from a caller that took the time during the call; or an error when
     a build or an opening failed; or a lock that is taken is still awaited.
     */
    method Obtain(t: Tid, sid: SourceId, cfg: Config) returns (g: Grant)
      requires Valid() && t !in st.threads
      modifies this
      ensures Valid()
      ensures g.Refused? ==> t !in st.threads && old(trace) < trace && Declines(trace[|trace| - 1], t)
      ensures g.Blocked? ==> Waiting(st, t)
      ensures g.Granted? ==>
                && t in st.threads && st.threads[t].Leased? && st.threads[t].conn == g.conn
                && st.threads[t].sid == sid && st.threads[t].req.cfg == cfg
                && st.threads[t].req.fp == ParamsText.Encode(cfg.kind, cfg.params)
                && old(st.clock) <= st.threads[t].now <= st.clock
    {
      var fp := ParamsText.ParamsFingerprint(cfg.kind, cfg.params);
      var entered := Enter(t, sid, Request(cfg, fp));
      if !entered {
        return Blocked;
      }
      Elsewhere(t);
      g := Fill(t);
    }

    /** The release function Obtain returns: the first call ends the lease, later ones do nothing. */
    method Release(lease: Lease, invalidate: bool)
      requires Valid() && (!lease.released ==> lease.t in st.threads && st.threads[lease.t].Leased?)
      modifies this, lease
      ensures Valid() && lease.released
      ensures old(lease.released) ==> st == old(st)
      ensures !old(lease.released) ==>
                var Leased(sid, _, _, c) := old(st.threads[lease.t]);
                && lease.t !in st.threads && sid in st.entries && st.entries[sid].holder.None? && c in st.conns
                && st.conns[c].status == (if invalidate then Closed else Live)
                && st.entries[sid].src == (if invalidate then None else Some(c))
                && (!invalidate ==> st.entries[sid].lastUsed == st.clock)
    {
      if lease.released {
        return;
      }
      lease.released := true;
      Uses(idle, maxAge, trace, lease.t);
      Do(Event.Release(lease.t, invalidate));
    }

    /** Closes whatever one slot holds, under its lock; false while it waits for a lock. */
    method Invalidate(t: Tid, ghost due: set<Cid>) returns (done: bool)
      requires Valid() && t in st.threads && st.threads[t].Invalidate? && st.threads[t].stage == WantMap
      requires st.threads[t].todo != [] && st.threads[t].due == due
      modifies this
      ensures Valid() && Owes(st, t, due) && ClosedStays()
      ensures done ==> st.threads[t] == NextId(old(st.threads[t].todo)[1..], due)
      ensures done ==> SlotClosed(st, old(st.threads[t].todo)[0])
      ensures !done ==> Waiting(st, t)
    {
      done := EnterMap(t);
      if !done {
        return;
      }
      Do(LookUp(t, []));
      if HasStage(st.threads[t], WantEntry) {
        done := CloseSlot(t);
      } else {
        NoSlotNoSource(idle, maxAge, trace, old(st.threads[t].todo)[0]);
        done := true;
      }
    }

    method CloseSlot(t: Tid) returns (done: bool)
      requires Valid() && t in st.threads && st.threads[t].Invalidate? && st.threads[t].stage == WantEntry
      requires st.threads[t].todo != []
      modifies this
      ensures Valid() && Owes(st, t, old(st.threads[t].due)) && ClosedStays()
      ensures done ==> st.threads[t] == NextId(old(st.threads[t].todo)[1..], old(st.threads[t].due))
      ensures done ==> SlotClosed(st, old(st.threads[t].todo)[0])
      ensures !done ==> Waiting(st, t)
    {
      Elsewhere(t);
      Waits(idle, maxAge, trace, t);
      if st.entries[st.threads[t].todo[0]].holder.Some? {
        return false;
      }
      Do(LockEntry(t));
      Elsewhere(t);
      ClosesSlot(idle, maxAge, trace, t);
      Do(CloseHeld(t));
      done := true;
    }

    /** Closes every connection that is open or being opened when the call begins. */
    method InvalidateAll(t: Tid) returns (done: bool)
      requires Valid() && t !in st.threads
      modifies this
      ensures Valid()
      ensures done ==> forall c :: c in old(st.conns) ==> c in st.conns && st.conns[c].status == Closed
      ensures if done then t in st.threads && st.threads[t].Returned? else Waiting(st, t)
    {
      var ids;
      ghost var due;
      done, ids, due := TakeSnapshot(t);
      var i := 0;
      while done && i < |ids|
        invariant 0 <= i <= |ids| && Valid() && t in st.threads
        invariant if done then st.threads[t] == NextId(ids[i..], due) else Waiting(st, t)
        invariant done ==> ClosedStays() && forall c :: c in old(st.conns) ==> c in due || st.conns[c].status == Closed
      {
        done := Invalidate(t, due);
        assert ids[i..][1..] == ids[i + 1..];
        i := i + 1;
      }
      InvAlways(idle, maxAge, trace);
      assert DueOk(st, t);
    }

    /** Collects the ids of all slots under the map lock. */
    method TakeSnapshot(t: Tid) returns (ok: bool, ids: seq<SourceId>, ghost due: set<Cid>)
      requires Valid() && t !in st.threads
      modifies this
      ensures Valid() && t in st.threads && ClosedStays()
      ensures if ok then st.threads[t] == NextId(ids, due) else Waiting(st, t)
      ensures ok ==> forall c :: c in st.conns ==> c in due || st.conns[c].status == Closed
    {
      ids, due := [], {};
      Do(CallInvalidateAll(t));
      ok := EnterMap(t);
      if ok {
        ids := ListIds(st.entries.Keys);
        due := Unclosed(st);
        Do(LookUp(t, ids));
      }
    }
  }

  /** No connection of the slot is open or being opened. */
  ghost predicate SlotClosed(s: State, sid: SourceId) {
    forall c :: c in s.conns && s.conns[c].sid == sid ==> s.conns[c].status == Closed
  }

  lemma NoSlotNoSource(idle: int, maxAge: int, trace: seq<Event>, sid: SourceId)
    requires RunFrom(Init(idle, maxAge), trace).Some? && sid !in RunFrom(Init(idle, maxAge), trace).value.entries
    ensures SlotClosed(RunFrom(Init(idle, maxAge), trace).value, sid)
  {
    var s := RunFrom(Init(idle, maxAge), trace).value;
    InvAlways(idle, maxAge, trace);
    forall c | c in s.conns && s.conns[c].sid == sid ensures s.conns[c].status == Closed {
      if s.conns[c].status != Closed {
        SlotKnown(s, c);
      }
    }
  }

  lemma ClosesSlot(idle: int, maxAge: int, trace: seq<Event>, t: Tid)
    requires RunFrom(Init(idle, maxAge), trace).Some? && Enabled(RunFrom(Init(idle, maxAge), trace).value, CloseHeld(t))
    ensures var s := RunFrom(Init(idle, maxAge), trace).value; SlotClosed(Apply(s, CloseHeld(t)), s.threads[t].todo[0])
  {
    var s := RunFrom(Init(idle, maxAge), trace).value;
    InvAlways(idle, maxAge, trace);
    var u := Apply(s, CloseHeld(t));
    assert u.conns.Keys == s.conns.Keys;
    forall c | c in u.conns && u.conns[c].sid == s.threads[t].todo[0] ensures u.conns[c].status == Closed {
      assert Local(s, CloseHeld(t));
      KeepsClosed(s, CloseHeld(t), c);
      SlotCleared(s, t, c);
    }
  }

  method ListIds(ids: set<SourceId>) returns (list: seq<SourceId>)
    ensures (forall id :: id in list ==> id in ids) && (forall id :: id in ids ==> id in list)
  {
    list := [];
    var todo := ids;
    while 0 < |todo|
      invariant todo <= ids && forall id :: id in list ==> id in ids
      invariant forall id :: id in ids ==> id in list || id in todo
      decreases todo
    {
      var id :| id in todo;
      list := list + [id];
      todo := todo - {id};
    }
  }

  /** A step of another thread leaves t and the slot it holds alone. */
  lemma OtherStep(s: State, e: Event, t: Tid)
    requires Inv(s) && Enabled(s, e) && Actor(e) != Some(t) && t in s.threads
    ensures t in Apply(s, e).threads && Apply(s, e).threads[t] == s.threads[t]
    ensures InSlot(s, t) ==>
              && InSlot(Apply(s, e), t)
              && Apply(s, e).entries[Holds(s.threads[t]).value] == s.entries[Holds(s.threads[t]).value]
    ensures forall c :: c in s.conns ==>
              c in Apply(s, e).conns && (s.conns[c].status == Closed ==> Apply(s, e).conns[c].status == Closed)
  {
    SameThread(s, e, t);
    assert Local(s, e) && LockOk(s, t);
    if InSlot(s, t) {
      Footprint(s, e, t, Holds(s.threads[t]).value);
    }
    SettledStep(s, e);
  }

  lemma SettledStep(s: State, e: Event)
    requires Inv(s) && Enabled(s, e)
    ensures forall c :: c in s.conns ==>
              c in Apply(s, e).conns && (s.conns[c].status == Closed ==> Apply(s, e).conns[c].status == Closed)
  {
    assert Local(s, e);
    forall c | c in s.conns
      ensures c in Apply(s, e).conns && (s.conns[c].status == Closed ==> Apply(s, e).conns[c].status == Closed)
    {
      KeepsClosed(s, e, c);
    }
  }

  lemma Waits(idle: int, maxAge: int, trace: seq<Event>, t: Tid)
    requires RunFrom(Init(idle, maxAge), trace).Some?
    requires var s := RunFrom(Init(idle, maxAge), trace).value; t in s.threads && Awaits(s.threads[t]).Some?
    ensures var s := RunFrom(Init(idle, maxAge), trace).value; Awaits(s.threads[t]).value in s.entries
  {
    InvAlways(idle, maxAge, trace);
    assert LockOk(RunFrom(Init(idle, maxAge), trace).value, t);
  }

  lemma Uses(idle: int, maxAge: int, trace: seq<Event>, t: Tid)
    requires RunFrom(Init(idle, maxAge), trace).Some?
    requires var s := RunFrom(Init(idle, maxAge), trace).value; t in s.threads && s.threads[t].Leased?
    ensures var s := RunFrom(Init(idle, maxAge), trace).value;
            && InSlot(s, t) && s.entries[s.threads[t].sid].src == Some(s.threads[t].conn)
            && s.threads[t].conn in s.conns && s.conns[s.threads[t].conn].status == Live
  {
    InvAlways(idle, maxAge, trace);
    var s := RunFrom(Init(idle, maxAge), trace).value;
    assert ThreadOk(s, t) && EntryOk(s, s.threads[t].sid);
  }

  lemma Dials(idle: int, maxAge: int, trace: seq<Event>, t: Tid)
    requires RunFrom(Init(idle, maxAge), trace).Some?
    requires var s := RunFrom(Init(idle, maxAge), trace).value; t in s.threads && s.threads[t].Connecting?
    ensures var s := RunFrom(Init(idle, maxAge), trace).value; InSlot(s, t) && s.threads[t].conn in s.conns
  {
    InvAlways(idle, maxAge, trace);
    assert ThreadOk(RunFrom(Init(idle, maxAge), trace).value, t);
  }
}
