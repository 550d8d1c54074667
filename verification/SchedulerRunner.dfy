/**
 The scheduler's and the registry's own loops and updates, proved against the functions the
 machine in module Scheduler is built from.
 */
module SchedulerRunner {
  import MetadataText
  import opened Options
  import S = Scheduler

  type Id = S.LoadId

  type Records = map<S.LoadId, S.Record>

  /** Cron entry numbers by load. */
  type Numbers = map<S.LoadId, nat>

  /** The records dropped so far name the entries removed so far. */
  ghost function RemovedBy(c: S.Cron, desired: S.Meta, todo: set<Id>): set<nat> {
    set id | id in c.scheduled && S.Drops(c, desired, id) && id !in todo :: c.scheduled[id].entry
  }

  ghost predicate MidAdded(c: S.Cron, valid: set<string>, desired: S.Meta, added: Numbers, todo: set<Id>, next: nat) {
    && todo <= desired.Keys && c.nextEntry <= next && S.Injective(added)
    && (forall id :: id in added ==> id !in todo && S.Adds(c, valid, desired, id) && c.nextEntry <= added[id] < next)
    && (forall id :: id in desired && id !in todo && S.Adds(c, valid, desired, id) ==> id in added)
  }

  /** Loads done have their new record, loads to come their old one, and there are no others. */
  ghost predicate MidRecords(c: S.Cron, desired: S.Meta, added: Numbers, todo: set<Id>, scheduled: Records) {
    && (forall id :: id in scheduled ==> id in desired)
    && (forall id :: id in desired ==>
          Lookup(scheduled, id) == if id in todo then Lookup(c.scheduled, id) else S.NewRecord(c, desired, added, id))
  }

  function Lookup(m: Records, id: Id): Option<S.Record> { if id in m then Some(m[id]) else None }

  lemma KeptEntries(c: S.Cron, desired: S.Meta, todo: set<Id>, id: Id)
    requires id in c.scheduled && id in desired && c.scheduled[id].load.cron == desired[id].cron
    ensures RemovedBy(c, desired, todo - {id}) == RemovedBy(c, desired, todo)
  {}

  lemma RemovedGrows(c: S.Cron, desired: S.Meta, todo: set<Id>, id: Id)
    requires S.Drops(c, desired, id) && id in todo
    ensures RemovedBy(c, desired, todo - {id}) == RemovedBy(c, desired, todo) + {c.scheduled[id].entry}
  {}

  lemma NothingRemoved(c: S.Cron, desired: S.Meta, todo: set<Id>, id: Id)
    requires id !in c.scheduled
    ensures RemovedBy(c, desired, todo - {id}) == RemovedBy(c, desired, todo)
  {}

  lemma NoneRemoved(c: S.Cron, desired: S.Meta, todo: set<Id>)
    requires c.scheduled.Keys <= todo
    ensures c.entries - RemovedBy(c, desired, todo) == c.entries
  {
    assert RemovedBy(c, desired, todo) == {};
  }

  lemma RemoveMore(m: map<nat, Id>, gone: set<nat>, k: map<nat, Id>, e: nat)
    requires e !in k
    ensures ((m - gone) + k) - {e} == (m - (gone + {e})) + k
  {}

  lemma RemovedStale(c: S.Cron, desired: S.Meta, todo: set<Id>, id: Id)
    requires id in todo && id in c.scheduled && id !in desired
    ensures c.entries - RemovedBy(c, desired, desired.Keys + (todo - {id}))
         == (c.entries - RemovedBy(c, desired, desired.Keys + todo)) - {c.scheduled[id].entry}
  {
    var gone := RemovedBy(c, desired, desired.Keys + todo);
    RemovedGrows(c, desired, desired.Keys + todo, id);
    assert desired.Keys + (todo - {id}) == (desired.Keys + todo) - {id};
    RemoveMore(c.entries, gone, map[], c.scheduled[id].entry);
    assert (c.entries - gone) + map[] == c.entries - gone;
  }

  /** Of the old records those still desired, or not yet looked at, are left. */
  ghost predicate Kept(was: Records, desired: S.Meta, todo: set<Id>, now: Records) {
    && (forall id :: id in now <==> id in was && (id in desired || id in todo))
    && (forall id :: id in now ==> now[id] == was[id])
  }

  lemma KeptStep(was: Records, desired: S.Meta, todo: set<Id>, now: Records, id: Id)
    requires Kept(was, desired, todo, now) && id !in desired
    ensures Kept(was, desired, todo - {id}, now - {id})
  {}

  lemma ClosureEntries(added: Numbers, e: nat)
    requires S.Injective(added) && forall id :: id in added ==> added[id] != e
    ensures e !in S.Closures(added)
  {}

  /** Removing the old entry of a load, if any, removes nothing that was added. */
  lemma DropEntry(c: S.Cron, valid: set<string>, desired: S.Meta, added: Numbers, todo: set<Id>, next: nat, id: Id)
    requires S.EntriesOk(c) && MidAdded(c, valid, desired, added, todo, next) && id in todo
    requires id in c.scheduled ==> c.scheduled[id].load.cron != desired[id].cron
    ensures var before := (c.entries - RemovedBy(c, desired, todo)) + S.Closures(added);
            (if id in c.scheduled then before - {c.scheduled[id].entry} else before)
            == (c.entries - RemovedBy(c, desired, todo - {id})) + S.Closures(added)
  {
    if id in c.scheduled {
      var e := c.scheduled[id].entry;
      RemovedGrows(c, desired, todo, id);
      ClosureEntries(added, e);
      RemoveMore(c.entries, RemovedBy(c, desired, todo), S.Closures(added), e);
    } else {
      NothingRemoved(c, desired, todo, id);
    }
  }

  lemma ClosuresUpdate(added: Numbers, id: Id, n: nat)
    requires S.Injective(added) && id !in added && forall i :: i in added ==> added[i] != n
    ensures S.Injective(added[id := n]) && S.Closures(added[id := n]) == S.Closures(added)[n := id]
  {
    assert added[id := n][id] == n;
  }

  lemma AddEntry(c: S.Cron, valid: set<string>, desired: S.Meta, added: Numbers, todo: set<Id>, next: nat, id: Id)
    requires MidAdded(c, valid, desired, added, todo, next) && id in todo && S.Adds(c, valid, desired, id)
    ensures MidAdded(c, valid, desired, added[id := next], todo - {id}, next + 1)
    ensures S.Closures(added[id := next]) == S.Closures(added)[next := id]
  {
    ClosuresUpdate(added, id, next);
  }

  /** The loop sets one load's record to the one it should have. */
  lemma PlaceRecord(c: S.Cron, desired: S.Meta, added: Numbers, added': Numbers, todo: set<Id>,
                    scheduled: Records, scheduled': Records, id: Id)
    requires MidRecords(c, desired, added, todo, scheduled) && id in todo && id in desired
    requires forall x :: x != id ==> (x in added' <==> x in added) && (x in added ==> added'[x] == added[x])
    requires forall x :: x != id ==> Lookup(scheduled', x) == Lookup(scheduled, x)
    requires Lookup(scheduled', id) == S.NewRecord(c, desired, added', id)
    ensures MidRecords(c, desired, added', todo - {id}, scheduled')
  {
    forall x | x in scheduled' ensures x in desired {
      assert x == id || Lookup(scheduled, x).Some?;
    }
    forall x | x in desired
      ensures Lookup(scheduled', x)
            == if x in todo - {id} then Lookup(c.scheduled, x) else S.NewRecord(c, desired, added', x)
    {
      assert x != id ==> S.NewRecord(c, desired, added', x) == S.NewRecord(c, desired, added, x);
    }
  }

  /** What one turn of the second loop does to the schedule. */
  function Placed(cur: S.Cron, valid: set<string>, id: Id, load: S.Load): S.Cron {
    if id in cur.scheduled && cur.scheduled[id].load.cron == load.cron then
      cur.(scheduled := cur.scheduled[id := S.Record(load, cur.scheduled[id].entry)])
    else
      var left := if id in cur.scheduled then cur.entries - {cur.scheduled[id].entry} else cur.entries;
      if load.cron !in valid then cur.(entries := left)
      else cur.(scheduled := cur.scheduled[id := S.Record(load, cur.nextEntry)],
                entries := left[cur.nextEntry := id], nextEntry := cur.nextEntry + 1)
  }

  lemma PlacedKeepsEntries(cur: S.Cron, valid: set<string>, id: Id, load: S.Load)
    requires S.EntriesOk(cur)
    ensures S.EntriesOk(Placed(cur, valid, id, load))
  {}

  /**
   What a turn gives: other loads are left alone, and this load is live exactly when it was
   live under the same expression or has a new one that parses.
   */
  lemma PlacedLive(cur: S.Cron, valid: set<string>, id: Id, load: S.Load, x: Id)
    requires S.EntriesOk(cur)
    ensures var u := Placed(cur, valid, id, load);
            && (x != id ==> Lookup(u.scheduled, x) == Lookup(cur.scheduled, x))
            && (S.LiveLoad(u, x)
                <==> if x != id || (id in cur.scheduled && cur.scheduled[id].load.cron == load.cron)
                     then S.LiveLoad(cur, x) else load.cron in valid)
  {}

  /** Second loop, part way: `todo` is still to come, `added` has the entries made so far. */
  ghost predicate Midway(c: S.Cron, cur: S.Cron, valid: set<string>, desired: S.Meta, added: Numbers, todo: set<Id>) {
    && MidAdded(c, valid, desired, added, todo, cur.nextEntry)
    && MidRecords(c, desired, added, todo, cur.scheduled)
    && cur.entries == (c.entries - RemovedBy(c, desired, todo)) + S.Closures(added)
  }

  ghost function AddedBy(c: S.Cron, cur: S.Cron, valid: set<string>, desired: S.Meta, added: Numbers, id: Id): Numbers {
    if S.Adds(c, valid, desired, id) then added[id := cur.nextEntry] else added
  }

  lemma PlacedRecords(c: S.Cron, cur: S.Cron, valid: set<string>, desired: S.Meta, added: Numbers, todo: set<Id>,
                      id: Id)
    requires MidRecords(c, desired, added, todo, cur.scheduled) && id in todo && id in desired && id !in added
    ensures MidRecords(c, desired, AddedBy(c, cur, valid, desired, added, id), todo - {id},
          Placed(cur, valid, id, desired[id]).scheduled)
  {
    assert Lookup(cur.scheduled, id) == Lookup(c.scheduled, id);
    PlaceRecord(c, desired, added, AddedBy(c, cur, valid, desired, added, id), todo, cur.scheduled,
                Placed(cur, valid, id, desired[id]).scheduled, id);
  }

  lemma PlacedAdded(c: S.Cron, cur: S.Cron, valid: set<string>, desired: S.Meta, added: Numbers, todo: set<Id>, id: Id)
    requires MidAdded(c, valid, desired, added, todo, cur.nextEntry) && id in todo
    requires Lookup(cur.scheduled, id) == Lookup(c.scheduled, id)
    ensures MidAdded(c, valid, desired, AddedBy(c, cur, valid, desired, added, id), todo - {id},
          Placed(cur, valid, id, desired[id]).nextEntry)
  {
    if S.Adds(c, valid, desired, id) {
      AddEntry(c, valid, desired, added, todo, cur.nextEntry, id);
    }
  }

  lemma UpdateRight(x: map<nat, Id>, y: map<nat, Id>, k: nat, v: Id)
    ensures (x + y)[k := v] == x + y[k := v]
  {}

  lemma PlacedEntries(c: S.Cron, cur: S.Cron, valid: set<string>, desired: S.Meta, added: Numbers, todo: set<Id>,
                      id: Id)
    requires S.EntriesOk(c) && MidAdded(c, valid, desired, added, todo, cur.nextEntry) && id in todo
    requires Lookup(cur.scheduled, id) == Lookup(c.scheduled, id)
    requires S.Injective(AddedBy(c, cur, valid, desired, added, id))
    requires cur.entries == (c.entries - RemovedBy(c, desired, todo)) + S.Closures(added)
    ensures Placed(cur, valid, id, desired[id]).entries
         == (c.entries - RemovedBy(c, desired, todo - {id})) + S.Closures(AddedBy(c, cur, valid, desired, added, id))
  {
    if id in c.scheduled && c.scheduled[id].load.cron == desired[id].cron {
      KeptEntries(c, desired, todo, id);
    } else {
      DropEntry(c, valid, desired, added, todo, cur.nextEntry, id);
      if desired[id].cron in valid {
        AddEntry(c, valid, desired, added, todo, cur.nextEntry, id);
        UpdateRight(c.entries - RemovedBy(c, desired, todo - {id}), S.Closures(added), cur.nextEntry, id);
      }
    }
  }

  lemma PlacedStep(c: S.Cron, cur: S.Cron, valid: set<string>, desired: S.Meta, added: Numbers, todo: set<Id>, id: Id)
    requires S.EntriesOk(c) && Midway(c, cur, valid, desired, added, todo) && id in todo
    ensures Midway(c, Placed(cur, valid, id, desired[id]), valid, desired,
          AddedBy(c, cur, valid, desired, added, id), todo - {id})
  {
    assert Lookup(cur.scheduled, id) == Lookup(c.scheduled, id);
    PlacedAdded(c, cur, valid, desired, added, todo, id);
    PlacedEntries(c, cur, valid, desired, added, todo, id);
    PlacedRecords(c, cur, valid, desired, added, todo, id);
  }

  /** With the stale loads gone every desired load is still to be placed. */
  lemma MidwayStart(c: S.Cron, cur: S.Cron, valid: set<string>, desired: S.Meta)
    requires S.EntriesOk(c) && Kept(c.scheduled, desired, {}, cur.scheduled)
    requires cur.entries == c.entries - RemovedBy(c, desired, desired.Keys)
    requires cur.nextEntry == c.nextEntry && cur.fingerprint == c.fingerprint
    ensures Midway(c, cur, valid, desired, map[], desired.Keys)
  {
    assert S.Closures(map[]) == map[];
    assert cur.entries + map[] == cur.entries;
  }

  /** With nothing left to place the schedule is the reconciled one. */
  lemma MidwayDone(c: S.Cron, cur: S.Cron, valid: set<string>, fp: S.Version, desired: S.Meta, added: Numbers)
    requires Midway(c, cur, valid, desired, added, {})
    ensures S.Allocates(c, valid, desired, added, cur.nextEntry)
    ensures cur.(fingerprint := Some(fp)) == S.Reconciled(c, fp, desired, added, cur.nextEntry)
  {
    assert RemovedBy(c, desired, {}) == S.Removed(c, desired);
    assert cur.scheduled == S.Reconciled(c, fp, desired, added, cur.nextEntry).scheduled;
  }

  class Scheduler {
    var scheduled: Records
    var entries: map<nat, Id>
    var nextEntry: nat
    var fingerprint: string

    /** The version whose text is the fingerprint. */
    ghost var version: Option<S.Version>

    /** The empty fingerprint of a new scheduler is the text of no version. */
    ghost predicate Valid()
      reads this
    {
      && S.EntriesOk(Abs())
      && fingerprint == if version.None? then "" else MetadataText.Text(version.value)
    }

    ghost function Abs(): S.Cron
      reads this
    {
      S.Cron(scheduled, entries, nextEntry, version)
    }

    constructor ()
      ensures Valid() && Abs() == S.Cron(map[], map[], 0, None)
    {
      scheduled, entries, nextEntry, fingerprint := map[], map[], 0, "";
      version := None;
    }

    /** cron.AddFunc: a new live entry, or an error when the expression does not parse. */
    method AddFunc(expr: string, id: Id, valid: set<string>) returns (entry: Option<nat>)
      modifies this`entries, this`nextEntry
      ensures entry == if expr in valid then Some(old(nextEntry)) else None
      ensures entry.Some? ==> entries == old(entries)[old(nextEntry) := id] && nextEntry == old(nextEntry) + 1
      ensures entry.None? ==> entries == old(entries) && nextEntry == old(nextEntry)
    {
      if expr !in valid {
        return None;
      }
      entry := Some(nextEntry);
      entries := entries[nextEntry := id];
      nextEntry := nextEntry + 1;
    }

    /** First loop: loads that are no longer desired lose their entry and their record. */
    method RemoveStale(desired: S.Meta)
      modifies this`scheduled, this`entries
      ensures Kept(old(scheduled), desired, {}, scheduled)
      ensures entries == old(entries) - RemovedBy(old(Abs()), desired, desired.Keys)
    {
      ghost var c := Abs();
      var todo := scheduled.Keys - desired.Keys;
      NoneRemoved(c, desired, desired.Keys + todo);
      while todo != {}
        invariant todo <= c.scheduled.Keys - desired.Keys
        invariant Kept(c.scheduled, desired, todo, scheduled)
        invariant entries == c.entries - RemovedBy(c, desired, desired.Keys + todo)
        decreases todo
      {
        var id :| id in todo;
        RemovedStale(c, desired, todo, id);
        KeptStep(c.scheduled, desired, todo, scheduled, id);
        entries := entries - {scheduled[id].entry};
        scheduled := scheduled - {id};
        todo := todo - {id};
      }
      assert desired.Keys + todo == desired.Keys;
    }

    /** One turn of the second loop: keep, reschedule or add one desired load. */
    method Place(id: Id, load: S.Load, valid: set<string>)
      modifies this`scheduled, this`entries, this`nextEntry
      ensures Abs() == Placed(old(Abs()), valid, id, load)
      ensures S.EntriesOk(old(Abs())) ==>
                && S.EntriesOk(Abs())
                && forall x :: S.LiveLoad(Abs(), x)
                     <==> if x != id || (id in old(scheduled) && old(scheduled)[id].load.cron == load.cron)
                          then S.LiveLoad(old(Abs()), x) else load.cron in valid
    {
      ghost var c := Abs();
      if S.EntriesOk(c) {
        PlacedKeepsEntries(c, valid, id, load);
        forall x ensures S.LiveLoad(Placed(c, valid, id, load), x)
                    <==> if x != id || (id in c.scheduled && c.scheduled[id].load.cron == load.cron)
                         then S.LiveLoad(c, x) else load.cron in valid
        {
          PlacedLive(c, valid, id, load, x);
        }
      }
      if id in scheduled && scheduled[id].load.cron == load.cron {
        scheduled := scheduled[id := S.Record(load, scheduled[id].entry)];
      } else {
        if id in scheduled {
          entries := entries - {scheduled[id].entry};
        }
        var entry := AddFunc(load.cron, id, valid);
        if entry.Some? {
          scheduled := scheduled[id := S.Record(load, entry.value)];
        }
      }
    }

    /** Reload's critical section: afterwards the schedule is a reconciled one. */
    method Reconcile(fp: string, ghost of: S.Version, desired: S.Meta, valid: set<string>)
      returns (ghost added: Numbers)
      requires Valid() && fp == MetadataText.Text(of)
      modifies this
      ensures S.Allocates(old(Abs()), valid, desired, added, nextEntry)
      ensures Abs() == S.Reconciled(old(Abs()), of, desired, added, nextEntry)
      ensures Valid() && fingerprint == fp
    {
      ghost var c := Abs();
      RemoveStale(desired);
      added := map[];
      var todo := desired.Keys;
      MidwayStart(c, Abs(), valid, desired);
      while todo != {}
        invariant Midway(c, Abs(), valid, desired, added, todo)
        decreases todo
      {
        var id :| id in todo;
        PlacedStep(c, Abs(), valid, desired, added, todo, id);
        added := AddedBy(c, Abs(), valid, desired, added, id);
        Place(id, desired[id], valid);
        todo := todo - {id};
      }
      MidwayDone(c, Abs(), valid, of, desired, added);
      fingerprint := fp;
      version := Some(of);
      S.ReconcileKeepsEntries(c, valid, of, desired, added, nextEntry);
    }

    /** Other reloads, while this one does not hold the mutex; sound ones when `coherent`. */
    method Elsewhere(valid: set<string>, coherent: bool)
      requires Valid()
      modifies this
      ensures Valid() && (coherent && S.InStep(old(Abs())) ==> S.InStep(Abs()))
    {
      var n: nat := *;
      while 0 < n
        invariant Valid() && (coherent && S.InStep(old(Abs())) ==> S.InStep(Abs()))
      {
        n := n - 1;
        var v: S.Version, listed: S.Meta := *, *;
        ghost var c := Abs();
        if !coherent {
          ghost var added := Reconcile(MetadataText.Text(v), v, listed, valid);
        } else if S.AllParse(S.Listing(v), valid) && MetadataText.Clean(v) {
          ghost var added := Reconcile(MetadataText.Text(v), v, S.Listing(v), valid);
          if S.InStep(c) {
            S.ReconcileMatches(c, valid, v, S.Listing(v), added, nextEntry);
          }
        }
      }
    }

    /**
     Reload with what its two queries returned, `of` being the version it read: skipped when
     the text is the stored one. The mutex is free between the comparison and the critical
     section. From a schedule in step, and with other reloads sound, it ends equal to the
     desired loads.
     */
    method Reload(fp: string, ghost of: S.Version, desired: S.Meta, valid: set<string>, coherent: bool)
      returns (skipped: bool)
      requires Valid() && fp == MetadataText.Text(of)
      modifies this
      ensures Valid() && (skipped <==> old(fingerprint) == fp)
      ensures skipped ==> Abs() == old(Abs())
      ensures !skipped ==> fingerprint == fp && version == Some(of)
      ensures skipped && S.InStep(old(Abs())) && MetadataText.Clean(of) ==> S.Matches(Abs(), S.Listing(of))
      ensures !skipped && coherent && S.InStep(old(Abs())) && S.AllParse(desired, valid) ==> S.Matches(Abs(), desired)
    {
      skipped := fingerprint == fp;
      if skipped {
        MetadataText.TextNotEmpty(of);
        if S.InStep(Abs()) && MetadataText.Clean(of) {
          S.SameTextSameVersion(version.value, of);
        }
        return;
      }
      Elsewhere(valid, coherent);
      ghost var c := Abs();
      ghost var added := Reconcile(fp, of, desired, valid);
      if S.InStep(c) && S.AllParse(desired, valid) {
        S.ReconcileMatches(c, valid, of, desired, added, nextEntry);
      }
    }
  }

  // ---------- The registry ----------

  /** The outcome fields of a load state. */
  datatype LastRun = LastRun(uuid: string, started: int, finished: int, status: string, read: int, written: int,
                             error: string)

  /** The fields that say what the load is. */
  datatype About = About(name: string, sourceName: string, sourceKind: string, cron: string)

  datatype LoadState = LoadState(about: About, last: LastRun, running: bool)

  function Began(last: LastRun, uuid: string, started: int): LastRun {
    last.(uuid := uuid, started := started, status := "running", error := "")
  }

  function Ended(last: LastRun, status: string, finished: int, read: int, written: int, error: string): LastRun {
    last.(finished := finished, status := status, read := read, written := written, error := error)
  }

  /** The zero values of the fields. */
  const NEVER_RUN: LastRun := LastRun("", 0, 0, "", 0, 0, "")

  class Registry {
    var loads: map<Id, LoadState>

    /** CurrentlyRunning of every registered load, as the machine sees it. */
    function Running(): map<Id, bool>
      reads this
    {
      map id | id in loads :: loads[id].running
    }

    constructor ()
      ensures loads == map[]
    {
      loads := map[];
    }

    /** Registering again replaces the description and keeps the history and the running flag. */
    method Register(id: Id, about: About)
      modifies this
      ensures Running() == old(Running())[id := id in old(loads) && old(loads)[id].running]
      ensures loads.Keys == old(loads).Keys + {id} && loads[id].about == about
      ensures loads[id].last == if id in old(loads) then old(loads)[id].last else LastRun("", 0, 0, "", 0, 0, "")
      ensures forall x :: x in old(loads) && x != id ==> loads[x] == old(loads)[x]
    {
      if id in loads {
        loads := loads[id := loads[id].(about := about)];
      } else {
        loads := loads[id := LoadState(about, NEVER_RUN, false)];
      }
    }

    method MarkRunning(id: Id, uuid: string, started: int)
      modifies this
      ensures Running() == S.Mark(old(Running()), id, true)
      ensures loads.Keys == old(loads).Keys
      ensures id in loads ==>
                var was, now := old(loads)[id], loads[id];
                && now.last.uuid == uuid && now.last.started == started && now.last.status == "running"
                && now.last.error == "" && now.about == was.about && now.running
                && now.last.finished == was.last.finished
                && now.last.read == was.last.read && now.last.written == was.last.written
      ensures forall x :: x in old(loads) && x != id ==> loads[x] == old(loads)[x]
    {
      if id in loads {
        var s := loads[id];
        loads := loads[id := s.(running := true, last := Began(s.last, uuid, started))];
      }
    }

    method MarkFinished(id: Id, status: string, finished: int, read: int, written: int, error: string)
      modifies this
      ensures Running() == S.Mark(old(Running()), id, false)
      ensures loads.Keys == old(loads).Keys
      ensures id in loads ==>
                var was, now := old(loads)[id], loads[id];
                && now.last.status == status && now.last.finished == finished && now.last.error == error
                && now.last.read == read && now.last.written == written && now.about == was.about && !now.running
                && now.last.uuid == was.last.uuid && now.last.started == was.last.started
      ensures forall x :: x in old(loads) && x != id ==> loads[x] == old(loads)[x]
    {
      if id in loads {
        var s := loads[id];
        loads := loads[id := s.(running := false, last := Ended(s.last, status, finished, read, written, error))];
      }
    }

    /** Reload registers every desired load, in any order: descriptions are new, run state is kept. */
    method RegisterAll(desired: map<Id, About>)
      modifies this
      ensures Running() == S.Registered(old(Running()), desired.Keys)
      ensures loads.Keys == old(loads).Keys + desired.Keys
      ensures forall id :: id in desired ==>
                && loads[id].about == desired[id]
                && loads[id].last == if id in old(loads) then old(loads)[id].last else NEVER_RUN
      ensures forall id :: id in old(loads) && id !in desired ==> loads[id] == old(loads)[id]
    {
      var todo := desired.Keys;
      while todo != {}
        invariant todo <= desired.Keys
        invariant loads.Keys == old(loads).Keys + (desired.Keys - todo)
        invariant forall id :: id in loads ==> RegisteredAs(old(loads), desired, todo, id, loads[id])
        decreases todo
      {
        var id :| id in todo;
        ghost var before := loads;
        Register(id, desired[id]);
        assert loads[id].running == Running()[id];
        todo := todo - {id};
        forall x | x in loads ensures RegisteredAs(old(loads), desired, todo, x, loads[x]) {
          assert x != id ==> loads[x] == before[x];
        }
      }
    }
  }

  /** What a load's state is once the loads outside `todo` are registered. */
  predicate RegisteredAs(was: map<Id, LoadState>, desired: map<Id, About>, todo: set<Id>,
                         id: Id, now: LoadState) {
    if id !in desired || id in todo then id in was && now == was[id]
    else now == LoadState(desired[id], if id in was then was[id].last else NEVER_RUN, id in was && was[id].running)
  }
}
