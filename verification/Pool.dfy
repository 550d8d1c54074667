/**
 The source pool under concurrent use: the map lock, the per-entry locks held for a lease,
 and the threads that call Obtain, release, Invalidate and InvalidateAll, as a machine whose
 steps are single critical actions in any interleaving.
 */
module Pool {
  import opened Options

  type SourceId = nat

  type Tid = nat
  type Cid = nat

  /** What a source is built from. */
  datatype Config = Config(kind: string, params: map<string, string>)

  /** A configuration with the fingerprint Obtain computed for it. */
  datatype Request = Request(cfg: Config, fp: string)

  datatype Status = Opening | Live | Closed

  /** A built source: its request, the slot it was built for, who opens it, and how often Close ran. */
  datatype Conn = Conn(req: Request, sid: SourceId, opener: Tid, status: Status, closes: nat)

  /** A pool slot; `holder` is the thread that owns its lock. */
  datatype Entry = Entry(src: Option<Cid>, fp: string, openedAt: int, lastUsed: int, holder: Option<Tid>)

  /** Before, in and after the critical section of the map lock; the last waits for a slot. */
  datatype Stage = WantMap | InMap | WantEntry

  /**
   Where a thread is. `due` is what an InvalidateAll has undertaken to close: the
   connections not closed at its id snapshot.
   */
  datatype Pc =
    | Obtain(stage: Stage, sid: SourceId, req: Request)
    | Checking(sid: SourceId, req: Request, now: int)
    | Connecting(sid: SourceId, req: Request, now: int, conn: Cid)
    | Leased(sid: SourceId, req: Request, now: int, conn: Cid)
    | Snapshot(stage: Stage)
    | Invalidate(stage: Stage, todo: seq<SourceId>, due: set<Cid>)
    | Closing(todo: seq<SourceId>, due: set<Cid>)
    | Returned(due: set<Cid>)

  datatype State = State(
    idle: int, maxAge: int, clock: int,
    mapLock: Option<Tid>, entries: map<SourceId, Entry>, conns: map<Cid, Conn>, threads: map<Tid, Pc>)

  datatype Event =
    | CallObtain(t: Tid, sid: SourceId, req: Request)
    | CallInvalidate(t: Tid, sid: SourceId)
    | CallInvalidateAll(t: Tid)
    | LockMap(t: Tid)
    | LookUp(t: Tid, ids: seq<SourceId>)
    | LockEntry(t: Tid)
    | Check(t: Tid)
    | Build(t: Tid, ok: bool, conn: Cid)
    | OpenDone(t: Tid, ok: bool)
    | Release(t: Tid, invalidate: bool)
    | CloseHeld(t: Tid)
    | Tick(now: int)

  function Init(idle: int, maxAge: int): State {
    State(idle, maxAge, 0, None, map[], map[], map[])
  }

  predicate Reusable(s: State, ent: Entry, fp: string, now: int) {
    && ent.fp == fp
    && (s.idle > 0 ==> now - ent.lastUsed <= s.idle)
    && (s.maxAge > 0 ==> now - ent.openedAt <= s.maxAge)
  }

  /** Close on one connection. */
  function Shut(k: Conn): Conn { k.(status := Closed, closes := k.closes + 1) }

  /** closeEntry, leaving the slot's lock with `holder`. */
  function CloseEntry(s: State, sid: SourceId, holder: Option<Tid>): State
    requires sid in s.entries
  {
    var ent := s.entries[sid];
    if ent.src.Some? && ent.src.value in s.conns then
      s.(entries := s.entries[sid := ent.(src := None, fp := "", holder := holder)],
         conns := s.conns[ent.src.value := Shut(s.conns[ent.src.value])])
    else
      s.(entries := s.entries[sid := ent.(src := None, holder := holder)])
  }

  function Unlock(s: State, sid: SourceId): State
    requires sid in s.entries
  {
    s.(entries := s.entries[sid := s.entries[sid].(holder := None)])
  }

  /** InvalidateAll goes on with the next id, or returns. */
  function NextId(todo: seq<SourceId>, due: set<Cid>): Pc {
    if todo == [] then Returned(due) else Invalidate(WantMap, todo, due)
  }

  function Go(s: State, t: Tid, pc: Pc): State { s.(threads := s.threads[t := pc]) }

  function Exit(s: State, t: Tid): State { s.(threads := s.threads - {t}) }

  predicate HasStage(pc: Pc, stage: Stage) {
    (pc.Obtain? || pc.Snapshot? || pc.Invalidate?) && pc.stage == stage
  }

  /** The slot a thread waits for. */
  function Awaits(pc: Pc): Option<SourceId> {
    if pc.Obtain? && pc.stage == WantEntry then Some(pc.sid)
    else if pc.Invalidate? && pc.stage == WantEntry && pc.todo != [] then Some(pc.todo[0])
    else None
  }

  /** The slot whose lock a thread holds. */
  function Holds(pc: Pc): Option<SourceId> {
    if pc.Checking? || pc.Connecting? || pc.Leased? then Some(pc.sid)
    else if pc.Closing? && pc.todo != [] then Some(pc.todo[0])
    else None
  }

  predicate Enabled(s: State, e: Event) {
    match e
    case CallObtain(t, _, _) => t !in s.threads
    case CallInvalidate(t, _) => t !in s.threads
    case CallInvalidateAll(t) => t !in s.threads
    case LockMap(t) => t in s.threads && HasStage(s.threads[t], WantMap) && s.mapLock.None?
    case LookUp(t, ids) =>
      && t in s.threads && HasStage(s.threads[t], InMap)
      && (s.threads[t].Snapshot? ==>
            (forall id :: id in ids ==> id in s.entries) && (forall id :: id in s.entries ==> id in ids))
    case LockEntry(t) =>
      && t in s.threads && Awaits(s.threads[t]).Some?
      && Awaits(s.threads[t]).value in s.entries && s.entries[Awaits(s.threads[t]).value].holder.None?
    case Check(t) => InSlot(s, t) && s.threads[t].Checking? && s.entries[s.threads[t].sid].src.Some?
    case Build(t, _, c) =>
      InSlot(s, t) && s.threads[t].Checking? && s.entries[s.threads[t].sid].src.None? && c !in s.conns
    case OpenDone(t, _) => InSlot(s, t) && s.threads[t].Connecting? && s.threads[t].conn in s.conns
    case Release(t, _) => InSlot(s, t) && s.threads[t].Leased?
    case CloseHeld(t) => InSlot(s, t) && s.threads[t].Closing?
    case Tick(now) => s.clock <= now
  }

  predicate InSlot(s: State, t: Tid) {
    t in s.threads && Holds(s.threads[t]).Some? && Holds(s.threads[t]).value in s.entries
  }

  /** The map lookup of each caller, done under the map lock, and the unlock. */
  function Found(s: State, t: Tid, ids: seq<SourceId>): State
    requires t in s.threads && HasStage(s.threads[t], InMap)
  {
    var u, pc := s.(mapLock := None), s.threads[t];
    if pc.Obtain? then
      Go(if pc.sid in s.entries then u else u.(entries := s.entries[pc.sid := Entry(None, "", 0, 0, None)]),
         t, Obtain(WantEntry, pc.sid, pc.req))
    else if pc.Snapshot? then
      Go(u, t, NextId(ids, set c | c in s.conns && s.conns[c].status != Closed))
    else if pc.todo == [] then Go(u, t, Returned(pc.due))
    else if pc.todo[0] in s.entries then Go(u, t, Invalidate(WantEntry, pc.todo, pc.due))
    else Go(u, t, NextId(pc.todo[1..], pc.due))
  }

  function Apply(s: State, e: Event): State
    requires Enabled(s, e)
  {
    match e
    case CallObtain(t, sid, req) => Go(s, t, Obtain(WantMap, sid, req))
    case CallInvalidate(t, sid) => Go(s, t, Invalidate(WantMap, [sid], {}))
    case CallInvalidateAll(t) => Go(s, t, Snapshot(WantMap))
    case LockMap(t) => Go(s.(mapLock := Some(t)), t, s.threads[t].(stage := InMap))
    case LookUp(t, ids) => Found(s, t, ids)
    case LockEntry(t) =>
      var pc, sid := s.threads[t], Awaits(s.threads[t]).value;
      Go(s.(entries := s.entries[sid := s.entries[sid].(holder := Some(t))]), t,
         if pc.Obtain? then Checking(sid, pc.req, s.clock) else Closing(pc.todo, pc.due))
    case Check(t) =>
      var Checking(sid, req, now) := s.threads[t];
      var ent := s.entries[sid];
      if Reusable(s, ent, req.fp, now) then Go(s, t, Leased(sid, req, now, ent.src.value))
      else CloseEntry(s, sid, ent.holder)
    case Build(t, ok, c) =>
      var Checking(sid, req, now) := s.threads[t];
      if ok then Go(s.(conns := s.conns[c := Conn(req, sid, t, Opening, 0)]), t, Connecting(sid, req, now, c))
      else Exit(Unlock(s, sid), t)
    case OpenDone(t, ok) =>
      var Connecting(sid, req, now, c) := s.threads[t];
      if ok then
        Go(s.(entries := s.entries[sid := Entry(Some(c), req.fp, now, now, s.entries[sid].holder)],
              conns := s.conns[c := s.conns[c].(status := Live)]),
           t, Leased(sid, req, now, c))
      else Exit(Unlock(s.(conns := s.conns[c := Shut(s.conns[c])]), sid), t)
    case Release(t, invalidate) =>
      var sid := s.threads[t].sid;
      Exit(if invalidate then CloseEntry(s, sid, None)
           else s.(entries := s.entries[sid := s.entries[sid].(lastUsed := s.clock, holder := None)]), t)
    case CloseHeld(t) =>
      var Closing(todo, due) := s.threads[t];
      Go(CloseEntry(s, todo[0], None), t, NextId(todo[1..], due))
    case Tick(now) => s.(clock := now)
  }

  ghost function RunFrom(s: State, evs: seq<Event>): Option<State> {
    if evs == [] then Some(s)
    else
      match RunFrom(s, evs[..|evs| - 1])
      case None => None
      case Some(p) => if Enabled(p, evs[|evs| - 1]) then Some(Apply(p, evs[|evs| - 1])) else None
  }

  // ---------- The invariant ----------

  ghost predicate MapLockOk(s: State) {
    && (s.mapLock.Some? ==> s.mapLock.value in s.threads && HasStage(s.threads[s.mapLock.value], InMap))
    && (forall t :: t in s.threads && HasStage(s.threads[t], InMap) ==> s.mapLock == Some(t))
  }

  ghost predicate HolderOk(s: State, sid: SourceId)
    requires sid in s.entries
  {
    s.entries[sid].holder.Some? ==>
      s.entries[sid].holder.value in s.threads && Holds(s.threads[s.entries[sid].holder.value]) == Some(sid)
  }

  ghost predicate LockOk(s: State, t: Tid)
    requires t in s.threads
  {
    var pc := s.threads[t];
    && (Holds(pc).Some? ==> Holds(pc).value in s.entries && s.entries[Holds(pc).value].holder == Some(t))
    && (Awaits(pc).Some? ==> Awaits(pc).value in s.entries)
    && (pc.Invalidate? || pc.Closing? ==> pc.todo != [])
    && (pc.Snapshot? ==> pc.stage != WantEntry)
  }

  ghost predicate ConnOk(s: State, c: Cid)
    requires c in s.conns
  {
    var k := s.conns[c];
    && k.closes == (if k.status == Closed then 1 else 0)
    && (k.status == Live ==> k.sid in s.entries && s.entries[k.sid].src == Some(c))
    && (k.status == Opening ==>
          k.opener in s.threads && s.threads[k.opener].Connecting?
          && s.threads[k.opener].conn == c && s.threads[k.opener].sid == k.sid)
  }

  ghost predicate EntryOk(s: State, sid: SourceId)
    requires sid in s.entries
  {
    if s.entries[sid].src.None? then s.entries[sid].fp == ""
    else
      var c := s.entries[sid].src.value;
      c in s.conns && s.conns[c].status == Live && s.conns[c].sid == sid && s.entries[sid].fp == s.conns[c].req.fp
  }

  ghost predicate ThreadOk(s: State, t: Tid)
    requires t in s.threads
  {
    var pc := s.threads[t];
    && (pc.Connecting? ==>
          && pc.sid in s.entries && s.entries[pc.sid].src.None?
          && pc.conn in s.conns && s.conns[pc.conn].status == Opening && s.conns[pc.conn].opener == t
          && s.conns[pc.conn].sid == pc.sid && s.conns[pc.conn].req == pc.req)
    && (pc.Leased? ==>
          && pc.sid in s.entries && s.entries[pc.sid].src == Some(pc.conn)
          && Reusable(s, s.entries[pc.sid], pc.req.fp, pc.now))
  }

  /** What is still due is in a slot this InvalidateAll has yet to visit. */
  ghost predicate DueIn(s: State, todo: seq<SourceId>, due: set<Cid>) {
    forall c :: c in due ==> c in s.conns && (s.conns[c].status != Closed ==> s.conns[c].sid in todo)
  }

  ghost predicate DueOk(s: State, t: Tid)
    requires t in s.threads
  {
    var pc := s.threads[t];
    && (pc.Invalidate? || pc.Closing? ==> DueIn(s, pc.todo, pc.due))
    && (pc.Returned? ==> DueIn(s, [], pc.due))
  }

  ghost predicate LocksOk(s: State) {
    && MapLockOk(s)
    && (forall sid :: sid in s.entries ==> HolderOk(s, sid))
    && (forall t :: t in s.threads ==> LockOk(s, t))
  }

  ghost predicate SourcesOk(s: State) {
    && (forall c :: c in s.conns ==> ConnOk(s, c))
    && (forall sid :: sid in s.entries ==> EntryOk(s, sid))
    && (forall t :: t in s.threads ==> ThreadOk(s, t))
  }

  ghost predicate Barrier(s: State) {
    forall t :: t in s.threads ==> DueOk(s, t)
  }

  ghost predicate Inv(s: State) { LocksOk(s) && SourcesOk(s) && Barrier(s) }

  // ---------- One step, one object at a time ----------

  function Actor(e: Event): Option<Tid> { if e.Tick? then None else Some(e.t) }

  /** The invariant at the acting thread and the slot it holds. */
  ghost predicate Local(s: State, e: Event) {
    !e.Tick? && e.t in s.threads ==>
    && LockOk(s, e.t) && ThreadOk(s, e.t)
    && (Holds(s.threads[e.t]).Some? ==> EntryOk(s, Holds(s.threads[e.t]).value))
  }

  /** Steps of a thread that holds no slot, and the clock's. */
  predicate Outside(e: Event) {
    e.CallObtain? || e.CallInvalidate? || e.CallInvalidateAll? || e.LockMap? || e.LookUp? || e.LockEntry? || e.Tick?
  }

  lemma KeepsMapLockOutside(s: State, e: Event)
    requires Outside(e)
    requires MapLockOk(s) && Enabled(s, e)
    ensures MapLockOk(Apply(s, e))
  {}

  lemma KeepsMapLockInside(s: State, e: Event)
    requires !Outside(e)
    requires MapLockOk(s) && Enabled(s, e)
    ensures MapLockOk(Apply(s, e))
  {}

  lemma KeepsMapLock(s: State, e: Event)
    requires MapLockOk(s) && Enabled(s, e)
    ensures MapLockOk(Apply(s, e))
  {
    if Outside(e) {
      KeepsMapLockOutside(s, e);
    } else {
      KeepsMapLockInside(s, e);
    }
  }

  lemma KeepsHolderOutside(s: State, e: Event, sid: SourceId)
    requires Outside(e)
    requires Enabled(s, e) && Local(s, e) && sid in Apply(s, e).entries
    requires sid in s.entries ==> HolderOk(s, sid)
    ensures HolderOk(Apply(s, e), sid)
  {}

  lemma KeepsHolderInside(s: State, e: Event, sid: SourceId)
    requires !Outside(e)
    requires Enabled(s, e) && Local(s, e) && sid in Apply(s, e).entries
    requires sid in s.entries ==> HolderOk(s, sid)
    ensures HolderOk(Apply(s, e), sid)
  {}

  lemma KeepsHolder(s: State, e: Event, sid: SourceId)
    requires Enabled(s, e) && Local(s, e) && sid in Apply(s, e).entries
    requires sid in s.entries ==> HolderOk(s, sid)
    ensures HolderOk(Apply(s, e), sid)
  {
    if Outside(e) {
      KeepsHolderOutside(s, e, sid);
    } else {
      KeepsHolderInside(s, e, sid);
    }
  }

  /** A step changes no other thread and only the slot its thread holds or locks. */
  lemma Footprint(s: State, e: Event, x: Tid, sid: SourceId)
    requires Enabled(s, e) && Some(x) != Actor(e) && x in Apply(s, e).threads && sid in s.entries
    requires !e.Tick? && e.t in s.threads ==> Holds(s.threads[e.t]) != Some(sid)
    requires e.LockEntry? ==> Awaits(s.threads[e.t]) != Some(sid)
    ensures x in s.threads && Apply(s, e).threads[x] == s.threads[x]
    ensures sid in Apply(s, e).entries && Apply(s, e).entries[sid] == s.entries[sid]
  {
  }

  lemma KeepsOtherLockOutside(s: State, e: Event, x: Tid)
    requires Outside(e)
    requires Enabled(s, e) && Local(s, e) && x in Apply(s, e).threads && Some(x) != Actor(e)
    requires x in s.threads ==> LockOk(s, x)
    ensures LockOk(Apply(s, e), x)
  {
    if x in s.threads && Holds(s.threads[x]).Some? {
      Footprint(s, e, x, Holds(s.threads[x]).value);
    }
  }

  lemma KeepsOtherLockInside(s: State, e: Event, x: Tid)
    requires !Outside(e)
    requires Enabled(s, e) && Local(s, e) && x in Apply(s, e).threads && Some(x) != Actor(e)
    requires x in s.threads ==> LockOk(s, x)
    ensures LockOk(Apply(s, e), x)
  {
    if x in s.threads && Holds(s.threads[x]).Some? {
      Footprint(s, e, x, Holds(s.threads[x]).value);
    }
  }

  lemma KeepsOtherLock(s: State, e: Event, x: Tid)
    requires Enabled(s, e) && Local(s, e) && x in Apply(s, e).threads && Some(x) != Actor(e)
    requires x in s.threads ==> LockOk(s, x)
    ensures LockOk(Apply(s, e), x)
  {
    if Outside(e) {
      KeepsOtherLockOutside(s, e, x);
    } else {
      KeepsOtherLockInside(s, e, x);
    }
  }

  lemma KeepsOwnLockOutside(s: State, e: Event)
    requires Outside(e)
    requires Enabled(s, e) && Local(s, e) && !e.Tick? && e.t in Apply(s, e).threads
    ensures LockOk(Apply(s, e), e.t)
  {}

  lemma KeepsOwnLockInside(s: State, e: Event)
    requires !Outside(e)
    requires Enabled(s, e) && Local(s, e) && !e.Tick? && e.t in Apply(s, e).threads
    ensures LockOk(Apply(s, e), e.t)
  {}

  lemma KeepsOwnLock(s: State, e: Event)
    requires Enabled(s, e) && Local(s, e) && !e.Tick? && e.t in Apply(s, e).threads
    ensures LockOk(Apply(s, e), e.t)
  {
    if Outside(e) {
      KeepsOwnLockOutside(s, e);
    } else {
      KeepsOwnLockInside(s, e);
    }
  }

  lemma KeepsConnOutside(s: State, e: Event, c: Cid)
    requires Outside(e)
    requires Enabled(s, e) && Local(s, e) && c in Apply(s, e).conns
    requires c in s.conns ==> ConnOk(s, c)
    ensures ConnOk(Apply(s, e), c)
  {}

  lemma KeepsConnInside(s: State, e: Event, c: Cid)
    requires !Outside(e)
    requires Enabled(s, e) && Local(s, e) && c in Apply(s, e).conns
    requires c in s.conns ==> ConnOk(s, c)
    ensures ConnOk(Apply(s, e), c)
  {}

  lemma KeepsConn(s: State, e: Event, c: Cid)
    requires Enabled(s, e) && Local(s, e) && c in Apply(s, e).conns
    requires c in s.conns ==> ConnOk(s, c)
    ensures ConnOk(Apply(s, e), c)
  {
    if Outside(e) {
      KeepsConnOutside(s, e, c);
    } else {
      KeepsConnInside(s, e, c);
    }
  }

  lemma KeepsEntryOutside(s: State, e: Event, sid: SourceId)
    requires Outside(e)
    requires Enabled(s, e) && Local(s, e) && sid in Apply(s, e).entries
    requires sid in s.entries ==> EntryOk(s, sid)
    ensures EntryOk(Apply(s, e), sid)
  {}

  lemma KeepsEntryInside(s: State, e: Event, sid: SourceId)
    requires !Outside(e)
    requires Enabled(s, e) && Local(s, e) && sid in Apply(s, e).entries
    requires sid in s.entries ==> EntryOk(s, sid)
    ensures EntryOk(Apply(s, e), sid)
  {}

  lemma KeepsEntry(s: State, e: Event, sid: SourceId)
    requires Enabled(s, e) && Local(s, e) && sid in Apply(s, e).entries
    requires sid in s.entries ==> EntryOk(s, sid)
    ensures EntryOk(Apply(s, e), sid)
  {
    if Outside(e) {
      KeepsEntryOutside(s, e, sid);
    } else {
      KeepsEntryInside(s, e, sid);
    }
  }

  lemma KeepsOtherThreadOutside(s: State, e: Event, x: Tid)
    requires Outside(e)
    requires Enabled(s, e) && Local(s, e) && x in Apply(s, e).threads && Some(x) != Actor(e)
    requires x in s.threads ==> LockOk(s, x) && ThreadOk(s, x)
    ensures ThreadOk(Apply(s, e), x)
  {
    if x in s.threads && Holds(s.threads[x]).Some? {
      Footprint(s, e, x, Holds(s.threads[x]).value);
    }
  }

  lemma KeepsOtherThreadInside(s: State, e: Event, x: Tid)
    requires !Outside(e)
    requires Enabled(s, e) && Local(s, e) && x in Apply(s, e).threads && Some(x) != Actor(e)
    requires x in s.threads ==> LockOk(s, x) && ThreadOk(s, x)
    ensures ThreadOk(Apply(s, e), x)
  {
    if x in s.threads && Holds(s.threads[x]).Some? {
      Footprint(s, e, x, Holds(s.threads[x]).value);
    }
  }

  lemma KeepsOtherThread(s: State, e: Event, x: Tid)
    requires Enabled(s, e) && Local(s, e) && x in Apply(s, e).threads && Some(x) != Actor(e)
    requires x in s.threads ==> LockOk(s, x) && ThreadOk(s, x)
    ensures ThreadOk(Apply(s, e), x)
  {
    if Outside(e) {
      KeepsOtherThreadOutside(s, e, x);
    } else {
      KeepsOtherThreadInside(s, e, x);
    }
  }

  lemma KeepsOwnThread(s: State, e: Event)
    requires Enabled(s, e) && Local(s, e) && !e.Tick? && e.t in Apply(s, e).threads
    ensures ThreadOk(Apply(s, e), e.t)
  {
  }

  /** A connection keeps its slot, and once closed it stays closed. */
  lemma KeepsClosed(s: State, e: Event, c: Cid)
    requires Enabled(s, e) && Local(s, e) && c in s.conns
    ensures c in Apply(s, e).conns && Apply(s, e).conns[c].sid == s.conns[c].sid
    ensures s.conns[c].status == Closed ==> Apply(s, e).conns[c].status == Closed
  {
  }

  lemma KeepsDueIn(s: State, e: Event, todo: seq<SourceId>, due: set<Cid>)
    requires Enabled(s, e) && Local(s, e) && DueIn(s, todo, due)
    ensures DueIn(Apply(s, e), todo, due)
  {
    forall c | c in due
      ensures c in Apply(s, e).conns && (Apply(s, e).conns[c].status != Closed ==> Apply(s, e).conns[c].sid in todo)
    {
      KeepsClosed(s, e, c);
    }
  }

  /** An open or opening connection belongs to a slot of the map. */
  lemma SlotKnown(s: State, c: Cid)
    requires Inv(s) && c in s.conns && s.conns[c].status != Closed
    ensures s.conns[c].sid in s.entries
  {
    assert ConnOk(s, c);
    if s.conns[c].status == Opening {
      assert ThreadOk(s, s.conns[c].opener);
    }
  }

  /** Closing a slot under its lock leaves no connection of that slot open or opening. */
  lemma SlotCleared(s: State, t: Tid, c: Cid)
    requires Inv(s) && Enabled(s, CloseHeld(t)) && c in s.conns && s.conns[c].sid == s.threads[t].todo[0]
    ensures c in Apply(s, CloseHeld(t)).conns && Apply(s, CloseHeld(t)).conns[c].status == Closed
  {
    assert ConnOk(s, c) && LockOk(s, t);
    assert s.conns[c].opener in s.threads ==> LockOk(s, s.conns[c].opener);
  }

  lemma KeepsOwnDue(s: State, e: Event)
    requires Inv(s) && Enabled(s, e) && !e.Tick? && e.t in Apply(s, e).threads
    ensures DueOk(Apply(s, e), e.t)
  {
    var u := Apply(s, e);
    match e
    case LookUp(t, ids) =>
      forall c | c in s.conns && s.conns[c].status != Closed ensures s.conns[c].sid in s.entries {
        SlotKnown(s, c);
      }
      assert DueOk(s, t);
      var pc := s.threads[t];
      if pc.Invalidate? && pc.todo != [] {
        assert pc.todo == [pc.todo[0]] + pc.todo[1..];
      }
    case CloseHeld(t) =>
      var pc := s.threads[t];
      assert DueOk(s, t) && Local(s, e);
      assert pc.todo == [pc.todo[0]] + pc.todo[1..];
      forall c | c in pc.due
        ensures c in u.conns && (u.conns[c].status != Closed ==> u.conns[c].sid in pc.todo[1..])
      {
        KeepsClosed(s, e, c);
        if s.conns[c].sid == pc.todo[0] {
          SlotCleared(s, t, c);
        }
      }
    case LockMap(t) => assert DueOk(s, t);
    case LockEntry(t) => assert DueOk(s, t);
    case _ =>
  }

  /** Every step of every thread keeps the invariant. */
  lemma InvStep(s: State, e: Event)
    requires Inv(s) && Enabled(s, e)
    ensures Inv(Apply(s, e))
  {
    var u := Apply(s, e);
    assert Local(s, e);
    KeepsMapLock(s, e);
    forall sid | sid in u.entries ensures HolderOk(u, sid) && EntryOk(u, sid) {
      KeepsHolder(s, e, sid);
      KeepsEntry(s, e, sid);
    }
    forall c | c in u.conns ensures ConnOk(u, c) {
      KeepsConn(s, e, c);
    }
    forall x | x in u.threads ensures LockOk(u, x) && ThreadOk(u, x) && DueOk(u, x) {
      if Some(x) == Actor(e) {
        KeepsOwnLock(s, e);
        KeepsOwnThread(s, e);
        KeepsOwnDue(s, e);
      } else {
        KeepsOtherLock(s, e, x);
        KeepsOtherThread(s, e, x);
        SameThread(s, e, x);
        assert DueOk(s, x);
        if u.threads[x].Invalidate? || u.threads[x].Closing? {
          KeepsDueIn(s, e, u.threads[x].todo, u.threads[x].due);
        } else if u.threads[x].Returned? {
          KeepsDueIn(s, e, [], u.threads[x].due);
        }
      }
    }
  }

  lemma SameThread(s: State, e: Event, x: Tid)
    requires Enabled(s, e) && Some(x) != Actor(e)
    ensures x in Apply(s, e).threads <==> x in s.threads
    ensures x in s.threads ==> Apply(s, e).threads[x] == s.threads[x]
  {
  }

  lemma {:induction false} InvAlways(idle: int, maxAge: int, evs: seq<Event>)
    requires RunFrom(Init(idle, maxAge), evs).Some?
    ensures Inv(RunFrom(Init(idle, maxAge), evs).value)
  {
    if evs == [] {
    } else {
      InvAlways(idle, maxAge, evs[..|evs| - 1]);
      InvStep(RunFrom(Init(idle, maxAge), evs[..|evs| - 1]).value, evs[|evs| - 1]);
    }
  }

  // ---------- Times ----------

  /** The step completes the opening of connection c. */
  predicate Opens(s: State, e: Event, c: Cid) {
    e.OpenDone? && e.ok && e.t in s.threads && s.threads[e.t].Connecting? && s.threads[e.t].conn == c
  }

  /** The step gives c back for reuse. */
  predicate Returns(s: State, e: Event, c: Cid) {
    e.Release? && !e.invalidate && e.t in s.threads && s.threads[e.t].Leased? && s.threads[e.t].conn == c
  }

  /** When the caller that opened c took the time. */
  ghost function OpenedAt(idle: int, maxAge: int, evs: seq<Event>, c: Cid): Option<int>
    requires RunFrom(Init(idle, maxAge), evs).Some?
  {
    if evs == [] then None
    else
      var s, e := RunFrom(Init(idle, maxAge), evs[..|evs| - 1]).value, evs[|evs| - 1];
      if Opens(s, e, c) then Some(s.threads[e.t].now) else OpenedAt(idle, maxAge, evs[..|evs| - 1], c)
  }

  /** When c was last given back or, before that, opened. */
  ghost function UsedAt(idle: int, maxAge: int, evs: seq<Event>, c: Cid): Option<int>
    requires RunFrom(Init(idle, maxAge), evs).Some?
  {
    if evs == [] then None
    else
      var s, e := RunFrom(Init(idle, maxAge), evs[..|evs| - 1]).value, evs[|evs| - 1];
      if Opens(s, e, c) then Some(s.threads[e.t].now)
      else if Returns(s, e, c) then Some(s.clock)
      else UsedAt(idle, maxAge, evs[..|evs| - 1], c)
  }

  /** What a step leaves in a slot that holds c afterwards. */
  ghost predicate TimesKept(s: State, e: Event, sid: SourceId, c: Cid)
    requires Enabled(s, e) && sid in Apply(s, e).entries
  {
    var now := Apply(s, e).entries[sid];
    if Opens(s, e, c) then now.openedAt == now.lastUsed == s.threads[e.t].now
    else && sid in s.entries && s.entries[sid].src == Some(c) && now.openedAt == s.entries[sid].openedAt
         && now.lastUsed == if Returns(s, e, c) then s.clock else s.entries[sid].lastUsed
  }

  lemma TimesOutside(s: State, e: Event, sid: SourceId, c: Cid)
    requires Enabled(s, e) && Outside(e) && sid in Apply(s, e).entries && Apply(s, e).entries[sid].src == Some(c)
    ensures TimesKept(s, e, sid, c)
  {}

  lemma TimesInside(s: State, e: Event, sid: SourceId, c: Cid)
    requires Enabled(s, e) && (e.Check? || e.Build? || e.CloseHeld?)
    requires sid in Apply(s, e).entries && Apply(s, e).entries[sid].src == Some(c)
    ensures TimesKept(s, e, sid, c)
  {}

  lemma TimesOpened(s: State, e: Event, sid: SourceId, c: Cid)
    requires Enabled(s, e) && e.OpenDone? && ThreadOk(s, e.t) && (sid in s.entries ==> EntryOk(s, sid))
    requires sid in Apply(s, e).entries && Apply(s, e).entries[sid].src == Some(c)
    ensures TimesKept(s, e, sid, c)
  {}

  lemma TimesReleased(s: State, e: Event, sid: SourceId, c: Cid)
    requires Enabled(s, e) && e.Release? && ThreadOk(s, e.t) && EntryOk(s, s.threads[e.t].sid)
    requires sid in s.entries ==> EntryOk(s, sid)
    requires sid in Apply(s, e).entries && Apply(s, e).entries[sid].src == Some(c)
    ensures TimesKept(s, e, sid, c)
  {}

  lemma TimesStep(s: State, e: Event, sid: SourceId, c: Cid)
    requires Inv(s) && Enabled(s, e) && sid in Apply(s, e).entries && Apply(s, e).entries[sid].src == Some(c)
    ensures TimesKept(s, e, sid, c)
  {
    assert sid in s.entries ==> EntryOk(s, sid);
    if Outside(e) {
      TimesOutside(s, e, sid, c);
    } else if e.OpenDone? {
      TimesOpened(s, e, sid, c);
    } else if e.Release? {
      TimesReleased(s, e, sid, c);
    } else {
      TimesInside(s, e, sid, c);
    }
  }

  /** The times in a slot are those of the connection it holds. */
  lemma {:induction false} TimesAlways(idle: int, maxAge: int, evs: seq<Event>, sid: SourceId, c: Cid)
    requires RunFrom(Init(idle, maxAge), evs).Some?
    requires var s := RunFrom(Init(idle, maxAge), evs).value; sid in s.entries && s.entries[sid].src == Some(c)
    ensures var s := RunFrom(Init(idle, maxAge), evs).value;
            && OpenedAt(idle, maxAge, evs, c) == Some(s.entries[sid].openedAt)
            && UsedAt(idle, maxAge, evs, c) == Some(s.entries[sid].lastUsed)
  {
    var front, e := evs[..|evs| - 1], evs[|evs| - 1];
    InvAlways(idle, maxAge, front);
    var p := RunFrom(Init(idle, maxAge), front).value;
    TimesStep(p, e, sid, c);
    if !Opens(p, e, c) {
      TimesAlways(idle, maxAge, front, sid, c);
    }
  }

  lemma LimitsOutside(s: State, e: Event)
    requires Enabled(s, e) && Outside(e)
    ensures Apply(s, e).idle == s.idle && Apply(s, e).maxAge == s.maxAge && s.clock <= Apply(s, e).clock
    ensures Apply(s, e).clock == if e.Tick? then e.now else s.clock
  {}

  lemma LimitsInside(s: State, e: Event)
    requires Enabled(s, e) && !Outside(e)
    ensures Apply(s, e).idle == s.idle && Apply(s, e).maxAge == s.maxAge && s.clock <= Apply(s, e).clock
    ensures Apply(s, e).clock == if e.Tick? then e.now else s.clock
  {}

  /** The limits are fixed, and the clock goes where a tick says, which is not back. */
  lemma LimitsStep(s: State, e: Event)
    requires Enabled(s, e)
    ensures Apply(s, e).idle == s.idle && Apply(s, e).maxAge == s.maxAge && s.clock <= Apply(s, e).clock
    ensures Apply(s, e).clock == if e.Tick? then e.now else s.clock
  {
    if Outside(e) {
      LimitsOutside(s, e);
    } else {
      LimitsInside(s, e);
    }
  }

  lemma {:induction false} LimitsAlways(idle: int, maxAge: int, evs: seq<Event>)
    requires RunFrom(Init(idle, maxAge), evs).Some?
    ensures var s := RunFrom(Init(idle, maxAge), evs).value; s.idle == idle && s.maxAge == maxAge
  {
    if evs == [] {
    } else {
      LimitsAlways(idle, maxAge, evs[..|evs| - 1]);
      LimitsStep(RunFrom(Init(idle, maxAge), evs[..|evs| - 1]).value, evs[|evs| - 1]);
    }
  }

  // ---------- What it gives ----------

  /** At most one open or opening source exists per source id. */
  lemma {:induction false} OneSourcePerId(idle: int, maxAge: int, evs: seq<Event>, c: Cid, d: Cid)
    requires RunFrom(Init(idle, maxAge), evs).Some?
    requires var s := RunFrom(Init(idle, maxAge), evs).value;
             && c in s.conns && d in s.conns && s.conns[c].sid == s.conns[d].sid
             && s.conns[c].status != Closed && s.conns[d].status != Closed
    ensures c == d
  {
    InvAlways(idle, maxAge, evs);
    var s := RunFrom(Init(idle, maxAge), evs).value;
    assert ConnOk(s, c) && ConnOk(s, d);
    if s.conns[c].status == Opening {
      assert ThreadOk(s, s.conns[c].opener) && LockOk(s, s.conns[c].opener);
    }
    if s.conns[d].status == Opening {
      assert ThreadOk(s, s.conns[d].opener) && LockOk(s, s.conns[d].opener);
    }
  }

  /**
   Conservation: a source that was built is being opened by one thread, or live in exactly
   the one slot it was built for and never closed, or was closed exactly once.
   */
  lemma {:induction false} Conservation(idle: int, maxAge: int, evs: seq<Event>, c: Cid)
    requires RunFrom(Init(idle, maxAge), evs).Some? && c in RunFrom(Init(idle, maxAge), evs).value.conns
    ensures var s := RunFrom(Init(idle, maxAge), evs).value;
            var k := s.conns[c];
            && k.closes == (if k.status == Closed then 1 else 0)
            && (forall sid :: sid in s.entries && s.entries[sid].src == Some(c) <==> k.status == Live && sid == k.sid)
            && (forall t :: t in s.threads && s.threads[t].Connecting? && s.threads[t].conn == c
                  <==> k.status == Opening && t == k.opener)
  {
    InvAlways(idle, maxAge, evs);
    var s := RunFrom(Init(idle, maxAge), evs).value;
    assert ConnOk(s, c);
    assert forall sid :: sid in s.entries ==> EntryOk(s, sid);
    assert forall t :: t in s.threads ==> ThreadOk(s, t);
  }

  /** A leased source is live, in its slot, and leased to one thread only. */
  lemma {:induction false} LeaseExclusive(idle: int, maxAge: int, evs: seq<Event>, t: Tid)
    requires RunFrom(Init(idle, maxAge), evs).Some?
    requires var s := RunFrom(Init(idle, maxAge), evs).value; t in s.threads && s.threads[t].Leased?
    ensures var s := RunFrom(Init(idle, maxAge), evs).value;
            var c := s.threads[t].conn;
            && c in s.conns && s.conns[c].status == Live && s.conns[c].closes == 0 && s.conns[c].sid == s.threads[t].sid
            && forall x :: x in s.threads && s.threads[x].Leased? && s.threads[x].conn == c ==> x == t
  {
    InvAlways(idle, maxAge, evs);
    var s := RunFrom(Init(idle, maxAge), evs).value;
    var c := s.threads[t].conn;
    assert ThreadOk(s, t) && EntryOk(s, s.threads[t].sid) && ConnOk(s, c) && LockOk(s, t);
    forall x | x in s.threads && s.threads[x].Leased? && s.threads[x].conn == c ensures x == t {
      assert ThreadOk(s, x) && EntryOk(s, s.threads[x].sid) && LockOk(s, x);
    }
  }

  /** From the moment a lease is granted until its own release, nothing ends it. */
  lemma {:induction false} LeaseLasts(idle: int, maxAge: int, evs: seq<Event>, k: nat, t: Tid)
    requires k <= |evs| && RunFrom(Init(idle, maxAge), evs).Some?
    requires RunFrom(Init(idle, maxAge), evs[..k]).Some?
    requires var s := RunFrom(Init(idle, maxAge), evs[..k]).value; t in s.threads && s.threads[t].Leased?
    requires forall i :: k <= i < |evs| ==> !(evs[i].Release? && evs[i].t == t)
    ensures var s, u := RunFrom(Init(idle, maxAge), evs[..k]).value, RunFrom(Init(idle, maxAge), evs).value;
            && t in u.threads && u.threads[t] == s.threads[t]
            && u.threads[t].conn in u.conns && u.conns[u.threads[t].conn].status == Live
  {
    if k < |evs| {
      var front := evs[..|evs| - 1];
      assert front[..k] == evs[..k];
      LeaseLasts(idle, maxAge, front, k, t);
      if Actor(evs[|evs| - 1]) != Some(t) {
        SameThread(RunFrom(Init(idle, maxAge), front).value, evs[|evs| - 1], t);
      }
    } else {
      assert evs[..k] == evs;
    }
    LeaseExclusive(idle, maxAge, evs, t);
  }

  /** A step the thread itself can take now. */
  ghost predicate CanStep(s: State, t: Tid) {
    exists e :: Enabled(s, e) && Actor(e) == Some(t)
  }

  /** The thread can step, or waits for a lock whose holder can. */
  ghost predicate Progresses(s: State, t: Tid)
    requires t in s.threads
  {
    || CanStep(s, t)
    || (HasStage(s.threads[t], WantMap) && s.mapLock.Some? && CanStep(s, s.mapLock.value))
    || (&& Awaits(s.threads[t]).Some? && Awaits(s.threads[t]).value in s.entries
        && s.mapLock != Some(t) && Holds(s.threads[t]).None?
        && s.entries[Awaits(s.threads[t]).value].holder.Some?
        && CanStep(s, s.entries[Awaits(s.threads[t]).value].holder.value))
  }

  lemma WaiterProgresses(s: State, t: Tid)
    requires Inv(s) && t in s.threads && Awaits(s.threads[t]).Some?
    ensures Progresses(s, t)
  {
    assert LockOk(s, t);
    var sid := Awaits(s.threads[t]).value;
    assert !HasStage(s.threads[t], InMap);
    if s.entries[sid].holder.None? {
      assert Enabled(s, LockEntry(t));
    } else {
      assert HolderOk(s, sid);
      HolderRuns(s, s.entries[sid].holder.value);
    }
  }

  lemma CallerProgresses(s: State, t: Tid)
    requires Inv(s) && t in s.threads && !s.threads[t].Returned?
    ensures Progresses(s, t)
  {
    assert LockOk(s, t);
    if HasStage(s.threads[t], WantMap) {
      if s.mapLock.None? {
        assert Enabled(s, LockMap(t));
      } else {
        LookUpRuns(s, s.mapLock.value);
      }
    } else if HasStage(s.threads[t], InMap) {
      LookUpRuns(s, t);
    } else if Holds(s.threads[t]).Some? {
      HolderRuns(s, t);
    } else {
      WaiterProgresses(s, t);
    }
  }

  /**
   No deadlock: in every reachable state a thread still in a call can step, or waits for one
   lock whose holder can step. So no thread waits for a slot while holding the map lock, or
   for anything while holding a slot.
   */
  lemma {:induction false} NoDeadlock(idle: int, maxAge: int, evs: seq<Event>, t: Tid)
    requires RunFrom(Init(idle, maxAge), evs).Some?
    requires var s := RunFrom(Init(idle, maxAge), evs).value; t in s.threads && !s.threads[t].Returned?
    ensures Progresses(RunFrom(Init(idle, maxAge), evs).value, t)
  {
    InvAlways(idle, maxAge, evs);
    CallerProgresses(RunFrom(Init(idle, maxAge), evs).value, t);
  }

  lemma LookUpRuns(s: State, t: Tid)
    requires t in s.threads && HasStage(s.threads[t], InMap)
    ensures CanStep(s, t)
  {
    var ids := Listing(s.entries.Keys);
    assert Enabled(s, LookUp(t, ids));
  }

  ghost function Listing(ids: set<SourceId>): (list: seq<SourceId>)
    ensures forall id :: id in list <==> id in ids
  {
    if |ids| == 0 then [] else var id :| id in ids; [id] + Listing(ids - {id})
  }

  lemma HolderRuns(s: State, t: Tid)
    requires Inv(s) && t in s.threads && Holds(s.threads[t]).Some?
    ensures CanStep(s, t)
  {
    assert LockOk(s, t) && ThreadOk(s, t);
    var pc := s.threads[t];
    if pc.Checking? {
      if s.entries[pc.sid].src.Some? {
        assert Enabled(s, Check(t));
      } else {
        assert Enabled(s, Build(t, false, FreshId(s.conns.Keys)));
      }
    } else if pc.Connecting? {
      assert Enabled(s, OpenDone(t, false));
    } else if pc.Leased? {
      assert Enabled(s, Release(t, false));
    } else {
      assert Enabled(s, CloseHeld(t));
    }
  }

  ghost function FreshId(used: set<Cid>): (c: Cid)
    ensures c !in used
  {
    var big := Sup(used);
    big + 1
  }

  ghost function Sup(used: set<Cid>): (m: Cid)
    ensures forall c :: c in used ==> c <= m
  {
    if used == {} then 0
    else
      var c :| c in used;
      var m := Sup(used - {c});
      assert forall x :: x in used ==> x == c || x in used - {c};
      if c <= m then m else c
  }

  // ---------- InvalidateAll is a barrier ----------

  function Unclosed(s: State): set<Cid> { set c | c in s.conns && s.conns[c].status != Closed }

  predicate Owes(s: State, t: Tid, due: set<Cid>) {
    && t in s.threads
    && (s.threads[t].Invalidate? || s.threads[t].Closing? || s.threads[t].Returned?)
    && s.threads[t].due == due
  }

  lemma OwesStep(s: State, e: Event, t: Tid, due: set<Cid>)
    requires Inv(s) && Enabled(s, e) && Owes(s, t, due)
    ensures Owes(Apply(s, e), t, due)
  {
    if Actor(e) != Some(t) {
      SameThread(s, e, t);
    } else {
      assert LockOk(s, t);
    }
  }

  lemma {:induction false} OwesOn(idle: int, maxAge: int, evs: seq<Event>, k: nat, t: Tid, due: set<Cid>)
    requires k <= |evs| && RunFrom(Init(idle, maxAge), evs).Some?
    requires RunFrom(Init(idle, maxAge), evs[..k]).Some? && Owes(RunFrom(Init(idle, maxAge), evs[..k]).value, t, due)
    ensures Owes(RunFrom(Init(idle, maxAge), evs).value, t, due)
  {
    if k < |evs| {
      var front := evs[..|evs| - 1];
      assert front[..k] == evs[..k];
      OwesOn(idle, maxAge, front, k, t, due);
      InvAlways(idle, maxAge, front);
      OwesStep(RunFrom(Init(idle, maxAge), front).value, evs[|evs| - 1], t, due);
    } else {
      assert evs[..k] == evs;
    }
  }

  /**
   InvalidateAll is a barrier: whatever interleaves, every connection open or being opened
   when it took its id snapshot (step k) is closed once it has returned.
   */
  lemma {:induction false} InvalidateAllBarrier(idle: int, maxAge: int, evs: seq<Event>, k: nat, t: Tid,
                                                ids: seq<SourceId>)
    requires k < |evs| && RunFrom(Init(idle, maxAge), evs).Some? && RunFrom(Init(idle, maxAge), evs[..k]).Some?
    requires var s := RunFrom(Init(idle, maxAge), evs[..k]).value;
             t in s.threads && s.threads[t].Snapshot? && evs[k] == LookUp(t, ids)
    requires var u := RunFrom(Init(idle, maxAge), evs).value; t in u.threads && u.threads[t].Returned?
    ensures var s, u := RunFrom(Init(idle, maxAge), evs[..k]).value, RunFrom(Init(idle, maxAge), evs).value;
            forall c :: c in s.conns && s.conns[c].status != Closed ==> c in u.conns && u.conns[c].status == Closed
  {
    var s := RunFrom(Init(idle, maxAge), evs[..k]).value;
    var next := evs[..k + 1];
    assert next[..|next| - 1] == evs[..k];
    Reaches(idle, maxAge, evs, k + 1);
    OwesOn(idle, maxAge, evs, k + 1, t, Unclosed(s));
    InvAlways(idle, maxAge, evs);
    var u := RunFrom(Init(idle, maxAge), evs).value;
    assert DueOk(u, t);
    forall c | c in s.conns && s.conns[c].status != Closed ensures c in u.conns && u.conns[c].status == Closed {
      assert c in Unclosed(s);
    }
  }

  lemma {:induction false} Reaches(idle: int, maxAge: int, evs: seq<Event>, k: nat)
    requires k <= |evs| && RunFrom(Init(idle, maxAge), evs).Some?
    ensures RunFrom(Init(idle, maxAge), evs[..k]).Some?
  {
    if k < |evs| {
      var front := evs[..|evs| - 1];
      assert front[..k] == evs[..k];
      Reaches(idle, maxAge, front, k);
    } else {
      assert evs[..k] == evs;
    }
  }
}
