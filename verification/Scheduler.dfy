/**
 The scheduler: reconciliation of cron entries with metadata, the overlap guard and the
 in-memory run registry, as a machine in which any number of reload loops and cron ticks
 interleave. What the code does under its mutex is one step.
 */
module Scheduler {
  import MetadataText
  import opened Options

  datatype LoadId = LoadId(value: int)

  /** A load as it is scheduled: its cron expression, its row and the row of its source. */
  datatype Load = Load(cron: string, row: MetadataText.Load, source: MetadataText.Source)

  /** Cron entry numbers, or goroutines, by load. */
  type Numbers = map<LoadId, nat>

  /** The enabled loads of one metadata version. */
  type Meta = map<LoadId, Load>

  /** A metadata version. What is compared is the text of its fingerprint. */
  type Version = MetadataText.Metadata

  predicate SameText(a: Version, b: Version) { MetadataText.Text(a) == MetadataText.Text(b) }

  function SourceOf(sources: seq<MetadataText.Source>, id: int): Option<MetadataText.Source> {
    if sources == [] then None
    else if sources[|sources| - 1].id == id then Some(sources[|sources| - 1])
    else SourceOf(sources[..|sources| - 1], id)
  }

  /** The enabled loads of enabled sources, by id. */
  function EnabledLoads(sources: seq<MetadataText.Source>, loads: seq<MetadataText.Load>): Meta {
    if loads == [] then map[]
    else
      var rest, l := EnabledLoads(sources, loads[..|loads| - 1]), loads[|loads| - 1];
      var source := SourceOf(sources, l.sourceId);
      if l.isEnabled && source.Some? && source.value.isEnabled
      then rest[LoadId(l.id) := Load(l.cronExpression, l, source.value)] else rest
  }

  function Listing(v: Version): Meta { EnabledLoads(v.sources, v.loads) }

  predicate DistinctSources(sources: seq<MetadataText.Source>) {
    forall i, j :: 0 <= i < j < |sources| ==> sources[i].id != sources[j].id
  }

  predicate DistinctLoads(loads: seq<MetadataText.Load>) {
    forall i, j :: 0 <= i < j < |loads| ==> loads[i].id != loads[j].id
  }

  /** The load, as scheduled under the id, is an enabled row of an enabled source. */
  predicate EnabledIn(sources: seq<MetadataText.Source>, loads: seq<MetadataText.Load>, id: LoadId, x: Load) {
    && x.row in loads && x.source in sources && x.row.sourceId == x.source.id
    && x.row.isEnabled && x.source.isEnabled
    && x.row.id == id.value && x.cron == x.row.cronExpression
  }

  lemma {:induction false} SourceFound(sources: seq<MetadataText.Source>, id: int, x: MetadataText.Source)
    requires DistinctSources(sources)
    ensures SourceOf(sources, id) == Some(x) <==> x in sources && x.id == id
  {
    if sources == [] {
    } else {
      var front, last := sources[..|sources| - 1], sources[|sources| - 1];
      SourceFound(front, id, x);
      assert sources == front + [last];
    }
  }

  lemma {:induction false} LoadsFound(sources: seq<MetadataText.Source>, loads: seq<MetadataText.Load>,
                                      id: LoadId, x: Load)
    requires DistinctSources(sources) && DistinctLoads(loads)
    ensures id in EnabledLoads(sources, loads) && EnabledLoads(sources, loads)[id] == x
       <==> EnabledIn(sources, loads, id, x)
  {
    if loads == [] {
    } else {
      var front, l := loads[..|loads| - 1], loads[|loads| - 1];
      assert loads == front + [l];
      LoadsFound(sources, front, id, x);
      SourceFound(sources, l.sourceId, x.source);
      var source := SourceOf(sources, l.sourceId);
      if source.Some? {
        SourceFound(sources, l.sourceId, source.value);
      }
    }
  }

  /** What is listed, with primary keys: exactly the enabled rows whose source is enabled, each with its source. */
  lemma ListingMeans(v: Version, id: LoadId, x: Load)
    requires DistinctSources(v.sources) && DistinctLoads(v.loads)
    ensures id in Listing(v) && Listing(v)[id] == x <==>
      && x.row in v.loads && x.source in v.sources && x.row.sourceId == x.source.id
      && x.row.isEnabled && x.source.isEnabled
      && x.row.id == id.value && x.cron == x.row.cronExpression
  {
    LoadsFound(v.sources, v.loads, id, x);
  }

  /** A record of the `scheduled` map; the cron entry it names need not be live. */
  datatype Record = Record(load: Load, entry: nat)

  /** The schedule; `entries` maps each live cron entry to the load id its closure fires. */
  datatype Cron = Cron(scheduled: map<LoadId, Record>, entries: map<nat, LoadId>, nextEntry: nat,
                       fingerprint: Option<Version>)

  /** Where a Reload is: fingerprint read, found different, or enabled loads listed too. */
  datatype ReloadPc = Read(fp: Version) | Differs(fp: Version) | Listed(fp: Version, desired: Meta)

  /** Where a cron goroutine is: fired, holding the guard, between MarkRunning and MarkFinished, or done. */
  datatype RunPc = Fired(id: LoadId) | Guarded(id: LoadId) | Marked(id: LoadId) | Settled(id: LoadId)

  /**
   The goroutines; `running` maps each guarded load to the goroutine that took the guard, and
   `registry` each registered load to CurrentlyRunning.
   */
  datatype Flight = Flight(running: Numbers, registry: map<LoadId, bool>, runs: map<nat, RunPc>)

  /** `valid` is what the cron parser accepts. */
  datatype State = State(valid: set<string>, meta: Version, cron: Cron, flight: Flight, reloads: map<nat, ReloadPc>)

  function Init(valid: set<string>, meta: Version): State {
    State(valid, meta, Cron(map[], map[], 0, None), Flight(map[], map[], map[]), map[])
  }

  // ---------- Reconciliation ----------

  /** The desired load needs a new cron entry, and its expression parses. */
  predicate Adds(c: Cron, valid: set<string>, desired: Meta, id: LoadId) {
    && id in desired && desired[id].cron in valid
    && (id in c.scheduled ==> c.scheduled[id].load.cron != desired[id].cron)
  }

  /** The scheduled load's cron entry is removed. */
  predicate Drops(c: Cron, desired: Meta, id: LoadId) {
    id in c.scheduled && (id in desired ==> c.scheduled[id].load.cron != desired[id].cron)
  }

  predicate Injective(m: Numbers) {
    forall i, j :: i in m && j in m && m[i] == m[j] ==> i == j
  }

  /** `added` gives one new entry number, below `next`, to each load that gets an entry. */
  predicate Allocates(c: Cron, valid: set<string>, desired: Meta, added: Numbers, next: nat) {
    && c.nextEntry <= next && Injective(added)
    && (forall id :: id in added ==> Adds(c, valid, desired, id) && c.nextEntry <= added[id] < next)
    && (forall id :: id in desired && Adds(c, valid, desired, id) ==> id in added)
  }

  /** The record a load ends up with, or None when it is not desired or never parsed. */
  function NewRecord(c: Cron, desired: Meta, added: Numbers, id: LoadId): Option<Record> {
    if id !in desired then None
    else if id in added then Some(Record(desired[id], added[id]))
    else if id !in c.scheduled then None
    else if c.scheduled[id].load.cron == desired[id].cron then Some(Record(desired[id], c.scheduled[id].entry))
    else Some(c.scheduled[id])
  }

  /** The cron entries that are removed: those the dropped records name. */
  function Removed(c: Cron, desired: Meta): set<nat> {
    set id | id in c.scheduled && Drops(c, desired, id) :: c.scheduled[id].entry
  }

  /** The closures of the added entries. */
  function Closures(added: Numbers): map<nat, LoadId>
    requires Injective(added)
  {
    map id | id in added :: added[id] := id
  }

  /** What Reload does to the schedule under the mutex. */
  function Reconciled(c: Cron, fp: Version, desired: Meta, added: Numbers, next: nat): Cron
    requires Injective(added)
  {
    Cron(map id | id in desired && NewRecord(c, desired, added, id).Some? :: NewRecord(c, desired, added, id).value,
         (c.entries - Removed(c, desired)) + Closures(added),
         next, Some(fp))
  }

  /** Register for every desired load: known loads keep their run state. */
  function Registered(registry: map<LoadId, bool>, ids: set<LoadId>): map<LoadId, bool> {
    map id | id in registry.Keys + ids :: id in registry && registry[id]
  }

  // ---------- The machine ----------

  datatype Event =
    | Edit(meta: Version)
    | ReadFingerprint(r: nat)
    | Compare(r: nat)
    | List(r: nat, ok: bool)
    | Reconcile(r: nat, added: Numbers, next: nat)
    | Fire(t: nat, entry: nat)
    | Run(step: RunEvent)

  datatype RunEvent =
    | Trigger(t: nat)
    | FailEarly(t: nat)
    | MarkRunning(t: nat)
    | MarkFinished(t: nat)
    | Leave(t: nat)

  predicate RunEnabled(f: Flight, e: RunEvent) {
    e.t in f.runs &&
    match e
    case Trigger(t) => f.runs[t].Fired?
    case FailEarly(t) => f.runs[t].Guarded?
    case MarkRunning(t) => f.runs[t].Guarded?
    case MarkFinished(t) => f.runs[t].Marked?
    case Leave(t) => f.runs[t].Settled?
  }

  predicate Enabled(s: State, e: Event) {
    match e
    case Edit(_) => true
    case ReadFingerprint(r) => r !in s.reloads
    case Compare(r) => r in s.reloads && s.reloads[r].Read?
    case List(r, _) => r in s.reloads && s.reloads[r].Differs?
    case Reconcile(r, added, next) =>
      && r in s.reloads && s.reloads[r].Listed?
      && Allocates(s.cron, s.valid, s.reloads[r].desired, added, next)
    case Fire(t, entry) => t !in s.flight.runs && entry in s.cron.entries
    case Run(step) => RunEnabled(s.flight, step)
  }

  /** MarkRunning and MarkFinished ignore loads that are not registered. */
  function Mark(registry: map<LoadId, bool>, id: LoadId, value: bool): map<LoadId, bool> {
    if id in registry then registry[id := value] else registry
  }

  /** `scheduled` is the set of ids trigger finds in the schedule. */
  function RunApply(f: Flight, scheduled: set<LoadId>, e: RunEvent): Flight
    requires RunEnabled(f, e)
  {
    var t, id := e.t, f.runs[e.t].id;
    match e
    case Trigger(_) =>
      if id !in scheduled || id in f.running then f.(runs := f.runs - {t})
      else f.(runs := f.runs[t := Guarded(id)], running := f.running[id := t])
    case FailEarly(_) => f.(runs := f.runs[t := Settled(id)])
    case MarkRunning(_) => f.(registry := Mark(f.registry, id, true), runs := f.runs[t := Marked(id)])
    case MarkFinished(_) => f.(registry := Mark(f.registry, id, false), runs := f.runs[t := Settled(id)])
    case Leave(_) => f.(runs := f.runs - {t}, running := f.running - {id})
  }

  function Apply(s: State, e: Event): State
    requires Enabled(s, e)
  {
    match e
    case Edit(meta) => s.(meta := meta)
    case ReadFingerprint(r) => s.(reloads := s.reloads[r := Read(s.meta)])
    case Compare(r) =>
      var same := s.cron.fingerprint.Some? && SameText(s.cron.fingerprint.value, s.reloads[r].fp);
      s.(reloads := if same then s.reloads - {r} else s.reloads[r := Differs(s.reloads[r].fp)])
    case List(r, ok) =>
      s.(reloads := if ok then s.reloads[r := Listed(s.reloads[r].fp, Listing(s.meta))] else s.reloads - {r})
    case Reconcile(r, added, next) =>
      s.(cron := Reconciled(s.cron, s.reloads[r].fp, s.reloads[r].desired, added, next),
         flight := s.flight.(registry := Registered(s.flight.registry, s.reloads[r].desired.Keys)),
         reloads := s.reloads - {r})
    case Fire(t, entry) => s.(flight := s.flight.(runs := s.flight.runs[t := Fired(s.cron.entries[entry])]))
    case Run(step) => s.(flight := RunApply(s.flight, s.cron.scheduled.Keys, step))
  }

  ghost function RunFrom(s: State, evs: seq<Event>): Option<State> {
    if evs == [] then Some(s)
    else
      match RunFrom(s, evs[..|evs| - 1])
      case None => None
      case Some(p) => if Enabled(p, evs[|evs| - 1]) then Some(Apply(p, evs[|evs| - 1])) else None
  }

  // ---------- Live entries ----------

  predicate LiveLoad(c: Cron, id: LoadId) {
    id in c.scheduled && c.scheduled[id].entry in c.entries && c.entries[c.scheduled[id].entry] == id
  }

  /** Every live entry is named by the record of the load it fires, and no two records share one. */
  ghost predicate EntriesOk(c: Cron) {
    && (forall e :: e in c.entries ==> c.entries[e] in c.scheduled && c.scheduled[c.entries[e]].entry == e)
    && (forall id :: id in c.scheduled ==> c.scheduled[id].entry < c.nextEntry)
    && (forall i, j :: i in c.scheduled && j in c.scheduled && c.scheduled[i].entry == c.scheduled[j].entry ==> i == j)
  }

  lemma ReconciledEntry(c: Cron, valid: set<string>, fp: Version, desired: Meta, added: Numbers, next: nat, e: nat)
    requires EntriesOk(c) && Allocates(c, valid, desired, added, next)
    requires e in Reconciled(c, fp, desired, added, next).entries
    ensures var u := Reconciled(c, fp, desired, added, next);
            u.entries[e] in u.scheduled && u.scheduled[u.entries[e]].entry == e
  {
    if e !in Closures(added) {
      assert e in c.entries && e !in Removed(c, desired);
      assert !Drops(c, desired, c.entries[e]);
    }
  }

  /** A record names an entry of before or the new one of its load. */
  lemma ReconciledRecord(c: Cron, valid: set<string>, desired: Meta, added: Numbers, next: nat, id: LoadId)
    requires EntriesOk(c) && Allocates(c, valid, desired, added, next) && NewRecord(c, desired, added, id).Some?
    ensures var n := NewRecord(c, desired, added, id).value.entry;
      if id in added then n == added[id] >= c.nextEntry
      else id in c.scheduled && n == c.scheduled[id].entry < c.nextEntry
  {}

  lemma ReconcileKeepsEntries(c: Cron, valid: set<string>, fp: Version, desired: Meta, added: Numbers, next: nat)
    requires EntriesOk(c) && Allocates(c, valid, desired, added, next)
    ensures EntriesOk(Reconciled(c, fp, desired, added, next))
  {
    var u := Reconciled(c, fp, desired, added, next);
    forall e | e in u.entries ensures u.entries[e] in u.scheduled && u.scheduled[u.entries[e]].entry == e {
      ReconciledEntry(c, valid, fp, desired, added, next, e);
    }
    forall id | id in u.scheduled
      ensures if id in added then u.scheduled[id].entry == added[id] >= c.nextEntry
              else id in c.scheduled && u.scheduled[id].entry == c.scheduled[id].entry < c.nextEntry
    {
      ReconciledRecord(c, valid, desired, added, next, id);
    }
  }

  /**
   Which loads are live after a reload: a desired load that was scheduled under the same
   expression is live if it was before, and any other desired load is live if its
   expression parses.
   */
  lemma ReconcileLive(c: Cron, valid: set<string>, fp: Version, desired: Meta, added: Numbers, next: nat, id: LoadId)
    requires EntriesOk(c) && Allocates(c, valid, desired, added, next)
    ensures LiveLoad(Reconciled(c, fp, desired, added, next), id)
        <==> id in desired && if id in c.scheduled && c.scheduled[id].load.cron == desired[id].cron then LiveLoad(c, id)
                              else desired[id].cron in valid
  {
    ReconcileKeepsEntries(c, valid, fp, desired, added, next);
    if id in added {
      assert added[id] in Closures(added);
    } else if id in c.scheduled && id in desired {
      var e := c.scheduled[id].entry;
      assert e !in Closures(added);
      assert e in Removed(c, desired) <==> Drops(c, desired, id);
    }
  }

  /** In every interleaving each live cron entry belongs to exactly the one load it fires. */
  lemma {:induction false} EntriesAlways(valid: set<string>, meta: Version, evs: seq<Event>)
    requires RunFrom(Init(valid, meta), evs).Some?
    ensures EntriesOk(RunFrom(Init(valid, meta), evs).value.cron)
  {
    if evs == [] {
    } else {
      var s, e := RunFrom(Init(valid, meta), evs[..|evs| - 1]).value, evs[|evs| - 1];
      EntriesAlways(valid, meta, evs[..|evs| - 1]);
      if e.Reconcile? {
        ReconcileKeepsEntries(s.cron, s.valid, s.reloads[e.r].fp, s.reloads[e.r].desired, e.added, e.next);
      }
    }
  }

  // ---------- Convergence ----------

  predicate AllParse(m: Meta, valid: set<string>) { forall id :: id in m ==> m[id].cron in valid }

  /** Fields are free of separators, so that the text determines them, and all expressions parse. */
  ghost predicate Sound(v: Version, valid: set<string>) { MetadataText.Clean(v) && AllParse(Listing(v), valid) }

  /**
   What a reload lists are the loads of the version whose fingerprint it read, and that one is
   sound. Nothing is asked of versions that no reload lists.
   */
  ghost predicate Coherent(s: State, e: Event) {
    e.List? && e.ok && e.r in s.reloads ==>
      Sound(s.reloads[e.r].fp, s.valid) && Listing(s.meta) == Listing(s.reloads[e.r].fp)
  }

  ghost predicate CoherentRun(s: State, evs: seq<Event>) {
    forall k :: 0 <= k < |evs| && RunFrom(s, evs[..k]).Some? ==> Coherent(RunFrom(s, evs[..k]).value, evs[k])
  }

  /** The schedule is exactly the enabled loads of one version, all live. */
  ghost predicate Matches(c: Cron, v: Meta) {
    && c.scheduled.Keys == v.Keys
    && (forall id :: id in v ==> c.scheduled[id].load == v[id] && LiveLoad(c, id))
    && (forall e :: e in c.entries ==> c.entries[e] in v)
  }

  ghost predicate ReloadsOk(reloads: map<nat, ReloadPc>, valid: set<string>) {
    forall r :: r in reloads && reloads[r].Listed? ==>
      Sound(reloads[r].fp, valid) && reloads[r].desired == Listing(reloads[r].fp)
  }

  /** The schedule matches the version whose fingerprint is stored. */
  ghost predicate InStep(c: Cron) {
    && EntriesOk(c)
    && (c.fingerprint.None? ==> c.scheduled == map[] && c.entries == map[])
    && (c.fingerprint.Some? ==> MetadataText.Clean(c.fingerprint.value) && Matches(c, Listing(c.fingerprint.value)))
  }

  ghost predicate Converged(s: State) {
    InStep(s.cron) && ReloadsOk(s.reloads, s.valid)
  }

  lemma ReconciledMatches(c: Cron, fp: Version, desired: Meta, added: Numbers, next: nat)
    requires Injective(added) && EntriesOk(Reconciled(c, fp, desired, added, next))
    requires forall id :: id in desired ==>
      && NewRecord(c, desired, added, id).Some? && NewRecord(c, desired, added, id).value.load == desired[id]
      && LiveLoad(Reconciled(c, fp, desired, added, next), id)
    ensures Matches(Reconciled(c, fp, desired, added, next), desired)
  {
    assert Reconciled(c, fp, desired, added, next).scheduled.Keys == desired.Keys;
  }

  /** What a reload needs of one load: a live entry under the same expression, or a new one that parses. */
  predicate CanGoLive(c: Cron, valid: set<string>, desired: Meta, id: LoadId)
    requires id in desired
  {
    if id in c.scheduled && c.scheduled[id].load.cron == desired[id].cron then LiveLoad(c, id)
    else desired[id].cron in valid
  }

  /**
   The exact condition, from any schedule, in step or not: a reload ends with exactly the loads
   it listed if and only if each of them has a live entry under its expression already or needs
   a new entry and parses.
   */
  lemma ConvergesIff(c: Cron, valid: set<string>, fp: Version, desired: Meta, added: Numbers, next: nat)
    requires EntriesOk(c) && Allocates(c, valid, desired, added, next)
    ensures Matches(Reconciled(c, fp, desired, added, next), desired)
       <==> forall id :: id in desired ==> CanGoLive(c, valid, desired, id)
  {
    var u := Reconciled(c, fp, desired, added, next);
    forall id | id in desired ensures LiveLoad(u, id) <==> CanGoLive(c, valid, desired, id) {
      ReconcileLive(c, valid, fp, desired, added, next, id);
    }
    if forall id :: id in desired ==> CanGoLive(c, valid, desired, id) {
      ReconcileKeepsEntries(c, valid, fp, desired, added, next);
      forall id | id in desired
        ensures NewRecord(c, desired, added, id).Some? && NewRecord(c, desired, added, id).value.load == desired[id]
      {
        assert CanGoLive(c, valid, desired, id) && (Adds(c, valid, desired, id) ==> id in added);
      }
      ReconciledMatches(c, fp, desired, added, next);
    }
  }

  /** From a schedule in step, a reload whose expressions all parse ends with exactly the desired loads. */
  lemma ReconcileMatches(c: Cron, valid: set<string>, fp: Version, desired: Meta, added: Numbers, next: nat)
    requires InStep(c) && AllParse(desired, valid) && Allocates(c, valid, desired, added, next)
    ensures EntriesOk(Reconciled(c, fp, desired, added, next))
    ensures Matches(Reconciled(c, fp, desired, added, next), desired)
  {
    ReconcileKeepsEntries(c, valid, fp, desired, added, next);
    forall id | id in desired ensures CanGoLive(c, valid, desired, id) {
      assert id in c.scheduled ==> LiveLoad(c, id);
    }
    ConvergesIff(c, valid, fp, desired, added, next);
  }

  /** Records are only ever made for expressions that parsed. */
  predicate RecordsParse(c: Cron, valid: set<string>) {
    forall id :: id in c.scheduled ==> c.scheduled[id].load.cron in valid
  }

  lemma ReconcileRecords(c: Cron, valid: set<string>, fp: Version, desired: Meta, added: Numbers, next: nat)
    requires RecordsParse(c, valid) && Allocates(c, valid, desired, added, next)
    ensures RecordsParse(Reconciled(c, fp, desired, added, next), valid)
  {
    assert forall id :: id in added ==> Adds(c, valid, desired, id);
  }

  lemma {:induction false} RecordsAlways(valid: set<string>, meta: Version, evs: seq<Event>)
    requires RunFrom(Init(valid, meta), evs).Some?
    ensures var s := RunFrom(Init(valid, meta), evs).value; s.valid == valid && RecordsParse(s.cron, valid)
  {
    if evs == [] {
    } else {
      var s, e := RunFrom(Init(valid, meta), evs[..|evs| - 1]).value, evs[|evs| - 1];
      RecordsAlways(valid, meta, evs[..|evs| - 1]);
      if e.Reconcile? {
        ReconcileRecords(s.cron, valid, s.reloads[e.r].fp, s.reloads[e.r].desired, e.added, e.next);
      }
    }
  }

  /**
   So from a schedule in step with its fingerprint, in any reachable state, it does if and only
   if all those expressions parse.
   */
  lemma {:induction false} ConvergesIffAllParse(valid: set<string>, meta: Version, evs: seq<Event>,
                                                fp: Version, desired: Meta, added: Numbers, next: nat)
    requires RunFrom(Init(valid, meta), evs).Some?
    requires var c := RunFrom(Init(valid, meta), evs).value.cron;
             InStep(c) && Allocates(c, valid, desired, added, next)
    ensures var c := RunFrom(Init(valid, meta), evs).value.cron;
            Matches(Reconciled(c, fp, desired, added, next), desired) <==> AllParse(desired, valid)
  {
    var c := RunFrom(Init(valid, meta), evs).value.cron;
    ConvergesIff(c, valid, fp, desired, added, next);
    RecordsAlways(valid, meta, evs);
    forall id | id in desired ensures CanGoLive(c, valid, desired, id) <==> desired[id].cron in valid {
      assert id in c.scheduled ==> LiveLoad(c, id) && c.scheduled[id].load.cron in valid;
    }
  }

  lemma ConvergedStep(s: State, e: Event)
    requires Converged(s) && Enabled(s, e) && Coherent(s, e)
    ensures Converged(Apply(s, e))
  {
    if e.Reconcile? {
      ReconcileMatches(s.cron, s.valid, s.reloads[e.r].fp, s.reloads[e.r].desired, e.added, e.next);
    }
  }

  /**
   Reload convergence: for every interleaving of reload loops, ticks and metadata edits in
   which each reload that lists sees one version and the expressions it lists parse, the live
   cron entries are the enabled loads of the version whose fingerprint is stored.
   */
  lemma {:induction false} ReloadConverges(valid: set<string>, meta: Version, evs: seq<Event>)
    requires RunFrom(Init(valid, meta), evs).Some? && CoherentRun(Init(valid, meta), evs)
    ensures Converged(RunFrom(Init(valid, meta), evs).value)
  {
    if evs == [] {
    } else {
      var front := evs[..|evs| - 1];
      assert forall k :: 0 <= k < |front| ==> front[..k] == evs[..k];
      ReloadConverges(valid, meta, front);
      assert evs[..|front|] == front;
      ConvergedStep(RunFrom(Init(valid, meta), front).value, evs[|evs| - 1]);
    }
  }

  /**
   In terms of the rows: after such a history a load has a live entry exactly when it and its
   source are enabled in the version whose fingerprint is stored, and it is scheduled under
   the expression of its row.
   */
  lemma {:induction false} LiveAreEnabled(valid: set<string>, meta: Version, evs: seq<Event>, v: Version, id: LoadId)
    requires RunFrom(Init(valid, meta), evs).Some? && CoherentRun(Init(valid, meta), evs)
    requires RunFrom(Init(valid, meta), evs).value.cron.fingerprint == Some(v)
    requires DistinctSources(v.sources) && DistinctLoads(v.loads)
    ensures var c := RunFrom(Init(valid, meta), evs).value.cron;
            && (LiveLoad(c, id) <==> exists x :: EnabledIn(v.sources, v.loads, id, x))
            && (LiveLoad(c, id) ==> EnabledIn(v.sources, v.loads, id, c.scheduled[id].load))
  {
    ReloadConverges(valid, meta, evs);
    var c := RunFrom(Init(valid, meta), evs).value.cron;
    if id in Listing(v) {
      LoadsFound(v.sources, v.loads, id, Listing(v)[id]);
    }
    forall x | EnabledIn(v.sources, v.loads, id, x) ensures id in Listing(v) {
      LoadsFound(v.sources, v.loads, id, x);
    }
  }

  /** For clean fields the compared texts are equal exactly when all fingerprinted rows are. */
  lemma SameTextSameVersion(a: Version, b: Version)
    requires MetadataText.Clean(a) && MetadataText.Clean(b)
    ensures SameText(a, b) <==> a == b
  {
    MetadataText.TextDetermines(a, b);
  }

  /** A reload that is skipped because the texts agree leaves the schedule equal to the version it read. */
  lemma {:induction false} SkipLosesNothing(valid: set<string>, meta: Version, evs: seq<Event>, r: nat)
    requires RunFrom(Init(valid, meta), evs).Some? && CoherentRun(Init(valid, meta), evs)
    requires var s := RunFrom(Init(valid, meta), evs).value;
             Enabled(s, Compare(r)) && MetadataText.Clean(s.reloads[r].fp)
    ensures var s := RunFrom(Init(valid, meta), evs).value;
            r !in Apply(s, Compare(r)).reloads ==> Matches(s.cron, Listing(s.reloads[r].fp))
  {
    ReloadConverges(valid, meta, evs);
    var s := RunFrom(Init(valid, meta), evs).value;
    if s.cron.fingerprint.Some? {
      SameTextSameVersion(s.cron.fingerprint.value, s.reloads[r].fp);
    }
  }

  // ---------- An expression that does not parse ----------

  lemma RunSnoc(s: State, evs: seq<Event>, p: State, e: Event)
    requires RunFrom(s, evs) == Some(p) && Enabled(p, e)
    ensures RunFrom(s, evs + [e]) == Some(Apply(p, e))
  {
    assert (evs + [e])[..|evs|] == evs;
  }

  /** One undisturbed reload. */
  function ReloadSteps(added: Numbers, next: nat): seq<Event> {
    [ReadFingerprint(0)] + [Compare(0)] + [List(0, true)] + [Reconcile(0, added, next)]
  }

  /** The state after it. */
  function Reloaded(s: State, added: Numbers, next: nat): State
    requires Injective(added)
  {
    s.(cron := Reconciled(s.cron, s.meta, Listing(s.meta), added, next),
       flight := s.flight.(registry := Registered(s.flight.registry, Listing(s.meta).Keys)))
  }

  /** A reload that finds another fingerprint and lists the loads, step by step. */
  lemma ListStates(s: State)
    requires s.reloads == map[] && (s.cron.fingerprint.Some? ==> !SameText(s.cron.fingerprint.value, s.meta))
    ensures var p1, p2 := s.(reloads := map[0 := Read(s.meta)]), s.(reloads := map[0 := Differs(s.meta)]);
            && Apply(s, ReadFingerprint(0)) == p1 && Apply(p1, Compare(0)) == p2
            && Apply(p2, List(0, true)) == s.(reloads := map[0 := Listed(s.meta, Listing(s.meta))])
  {
    var l := Listed(s.meta, Listing(s.meta));
    assert map[0 := Differs(s.meta)][0 := l] == map[0 := l];
    assert map[0 := Read(s.meta)][0 := Differs(s.meta)] == map[0 := Differs(s.meta)];
  }

  lemma ListRun(s0: State, evs: seq<Event>, s: State)
    requires RunFrom(s0, evs) == Some(s) && s.reloads == map[]
    requires s.cron.fingerprint.Some? ==> !SameText(s.cron.fingerprint.value, s.meta)
    ensures RunFrom(s0, evs + [ReadFingerprint(0)] + [Compare(0)] + [List(0, true)])
         == Some(s.(reloads := map[0 := Listed(s.meta, Listing(s.meta))]))
  {
    ListStates(s);
    RunSnoc(s0, evs, s, ReadFingerprint(0));
    RunSnoc(s0, evs + [ReadFingerprint(0)], s.(reloads := map[0 := Read(s.meta)]), Compare(0));
    RunSnoc(s0, evs + [ReadFingerprint(0)] + [Compare(0)], s.(reloads := map[0 := Differs(s.meta)]), List(0, true));
  }

  lemma ReloadRun(s0: State, evs: seq<Event>, s: State, added: Numbers, next: nat)
    requires RunFrom(s0, evs) == Some(s) && s.reloads == map[]
    requires s.cron.fingerprint.Some? ==> !SameText(s.cron.fingerprint.value, s.meta)
    requires Allocates(s.cron, s.valid, Listing(s.meta), added, next)
    ensures RunFrom(s0, evs + ReloadSteps(added, next)) == Some(Reloaded(s, added, next))
  {
    ListRun(s0, evs, s);
    var p3 := s.(reloads := map[0 := Listed(s.meta, Listing(s.meta))]);
    RunSnoc(s0, evs + [ReadFingerprint(0)] + [Compare(0)] + [List(0, true)], p3, Reconcile(0, added, next));
    assert p3.reloads - {0} == map[];
    assert evs + ReloadSteps(added, next)
        == evs + [ReadFingerprint(0)] + [Compare(0)] + [List(0, true)] + [Reconcile(0, added, next)];
  }

  /** There are entry numbers for any loads. */
  lemma AllocationExists(c: Cron, valid: set<string>, desired: Meta) returns (added: Numbers, next: nat)
    ensures Allocates(c, valid, desired, added, next)
  {
    added, next := map[], c.nextEntry;
    var todo := desired.Keys;
    while todo != {}
      invariant todo <= desired.Keys && c.nextEntry <= next && Injective(added)
      invariant forall id :: id in added ==>
            id !in todo && Adds(c, valid, desired, id) && c.nextEntry <= added[id] < next
      invariant forall id :: id in desired && id !in todo && Adds(c, valid, desired, id) ==> id in added
      decreases |todo|
    {
      var id :| id in todo;
      if Adds(c, valid, desired, id) {
        added, next := added[id := next], next + 1;
      }
      todo := todo - {id};
    }
  }

  /** A reload adds nothing when every load that parses has a record under its expression. */
  lemma NothingToAdd(c: Cron, valid: set<string>, desired: Meta)
    requires forall x :: x in desired && desired[x].cron in valid ==>
      x in c.scheduled && c.scheduled[x].load.cron == desired[x].cron
    ensures Allocates(c, valid, desired, map[], c.nextEntry)
  {
    assert forall x :: x in desired ==> !Adds(c, valid, desired, x);
  }

  /** The same loads, with one of them under an expression that does not parse. */
  predicate Breaks(valid: set<string>, good: Meta, bad: Meta, id: LoadId) {
    && good.Keys == bad.Keys && id in good && good[id].cron in valid && bad[id].cron !in valid
    && forall x :: x in good && x != id ==> bad[x].cron == good[x].cron
  }

  /** The schedule that results: three reconciliations, none of which adds an entry after the first. */
  lemma BrokenSchedule(valid: set<string>, v0: Version, v1: Version, id: LoadId, c1: Cron, c2: Cron)
    requires Breaks(valid, Listing(v0), Listing(v1), id) && EntriesOk(c1)
    requires forall x :: x in Listing(v0) && Listing(v0)[x].cron in valid ==>
      LiveLoad(c1, x) && c1.scheduled[x].load == Listing(v0)[x]
    requires c2 == Reconciled(c1, v1, Listing(v1), map[], c1.nextEntry)
    ensures Allocates(c1, valid, Listing(v1), map[], c1.nextEntry)
    ensures Allocates(c2, valid, Listing(v0), map[], c1.nextEntry)
    ensures forall x :: x in Listing(v0) && Listing(v0)[x].cron in valid ==>
      (LiveLoad(Reconciled(c2, v0, Listing(v0), map[], c1.nextEntry), x) <==> x != id)
  {
    var good, bad := Listing(v0), Listing(v1);
    NothingToAdd(c1, valid, bad);
    ReconcileKeepsEntries(c1, valid, v1, bad, map[], c1.nextEntry);
    forall x | x in good && good[x].cron in valid
      ensures x in c2.scheduled && c2.scheduled[x].load.cron == good[x].cron && (LiveLoad(c2, x) <==> x != id)
    {
      assert LiveLoad(c1, x) && NewRecord(c1, bad, map[], x).Some?;
      ReconcileLive(c1, valid, v1, bad, map[], c1.nextEntry, x);
    }
    NothingToAdd(c2, valid, good);
    forall x | x in good && good[x].cron in valid
      ensures LiveLoad(Reconciled(c2, v0, good, map[], c1.nextEntry), x) <==> x != id
    {
      ReconcileLive(c2, valid, v0, good, map[], c1.nextEntry, x);
    }
  }

  /**
   Convergence needs every expression to parse: in a history that moves one load to an
   expression that does not parse and back again, whatever the other loads are, the load ends
   enabled, with a valid expression and under the stored fingerprint, without a live entry,
   while all others that parse have theirs.
   */
  lemma BadExpressionSticks(valid: set<string>, v0: Version, v1: Version, id: LoadId) returns (evs: seq<Event>)
    requires MetadataText.Clean(v0) && MetadataText.Clean(v1) && Breaks(valid, Listing(v0), Listing(v1), id)
    ensures RunFrom(Init(valid, v0), evs).Some?
    ensures var s := RunFrom(Init(valid, v0), evs).value;
            && s.meta == v0 && s.cron.fingerprint == Some(v0) && s.reloads == map[]
            && forall x :: x in Listing(v0) && Listing(v0)[x].cron in valid ==> (LiveLoad(s.cron, x) <==> x != id)
  {
    var s0, good := Init(valid, v0), Listing(v0);
    SameTextSameVersion(v0, v1);
    var added, next := AllocationExists(s0.cron, valid, good);
    evs := ReloadSteps(added, next);
    assert [] + evs == evs;
    ReloadRun(s0, [], s0, added, next);
    var s1 := Reloaded(s0, added, next);
    FirstSchedule(valid, v0, added, next);
    var e1 := s1.(meta := v1);
    RunSnoc(s0, evs, s1, Edit(v1));
    evs := evs + [Edit(v1)];
    var s2 := Reloaded(e1, map[], next);
    BrokenSchedule(valid, v0, v1, id, s1.cron, s2.cron);
    ReloadRun(s0, evs, e1, map[], next);
    evs := evs + ReloadSteps(map[], next);
    var e2 := s2.(meta := v0);
    RunSnoc(s0, evs, s2, Edit(v0));
    evs := evs + [Edit(v0)];
    ReloadRun(s0, evs, e2, map[], next);
    evs := evs + ReloadSteps(map[], next);
  }

  /** The first reload makes every load live that parses. */
  lemma FirstSchedule(valid: set<string>, v: Version, added: Numbers, next: nat)
    requires var c := Cron(map[], map[], 0, None); Allocates(c, valid, Listing(v), added, next)
    ensures var u := Reconciled(Cron(map[], map[], 0, None), v, Listing(v), added, next);
            && EntriesOk(u) && u.nextEntry == next
            && forall x :: x in Listing(v) && Listing(v)[x].cron in valid ==>
                 LiveLoad(u, x) && u.scheduled[x].load == Listing(v)[x]
  {
    var c := Cron(map[], map[], 0, None);
    ReconcileKeepsEntries(c, valid, v, Listing(v), added, next);
    forall x | x in Listing(v) && Listing(v)[x].cron in valid
      ensures var u := Reconciled(c, v, Listing(v), added, next); LiveLoad(u, x) && u.scheduled[x].load == Listing(v)[x]
    {
      assert Adds(c, valid, Listing(v), x);
      ReconcileLive(c, valid, v, Listing(v), added, next, x);
    }
  }

  // ---------- Overlap guard ----------

  predicate HoldsGuard(pc: RunPc) { !pc.Fired? }

  /** Goroutine t is executing load `id`. */
  predicate InFlight(f: Flight, t: nat, id: LoadId) { t in f.runs && HoldsGuard(f.runs[t]) && f.runs[t].id == id }

  /** The guard is held by a goroutine that runs this load. */
  ghost predicate RunnerOk(f: Flight, id: LoadId)
    requires id in f.running
  {
    InFlight(f, f.running[id], id)
  }

  /** A goroutine past the guard holds it, and its load is registered. */
  ghost predicate RunOk(f: Flight, t: nat)
    requires t in f.runs
  {
    HoldsGuard(f.runs[t]) ==> f.runs[t].id in f.running && f.running[f.runs[t].id] == t && f.runs[t].id in f.registry
  }

  /** CurrentlyRunning is set exactly between MarkRunning and MarkFinished of the guard's holder. */
  ghost predicate RegisteredOk(f: Flight, id: LoadId)
    requires id in f.registry
  {
    f.registry[id] <==> id in f.running && f.running[id] in f.runs && f.runs[f.running[id]] == Marked(id)
  }

  ghost predicate GuardOk(f: Flight, scheduled: set<LoadId>) {
    && (forall id :: id in f.running ==> RunnerOk(f, id))
    && (forall t :: t in f.runs ==> RunOk(f, t))
    && (forall id :: id in f.registry ==> RegisteredOk(f, id))
    && (forall id :: id in scheduled ==> id in f.registry)
  }

  /** Registration keeps the run state, also of loads that are running. */
  lemma GuardReconcile(f: Flight, scheduled: set<LoadId>, ids: set<LoadId>, scheduled': set<LoadId>)
    requires GuardOk(f, scheduled) && scheduled' <= ids
    ensures GuardOk(f.(registry := Registered(f.registry, ids)), scheduled')
  {
    var u := f.(registry := Registered(f.registry, ids));
    assert forall id :: id in f.running ==> RunnerOk(f, id) && RunOk(f, f.running[id]);
    forall id | id in u.registry ensures RegisteredOk(u, id) {
      assert id in f.registry ==> RegisteredOk(f, id);
    }
    assert forall t :: t in u.runs ==> RunOk(f, t);
    assert forall id :: id in u.running ==> RunnerOk(f, id);
  }

  lemma GuardRun(f: Flight, scheduled: set<LoadId>, e: RunEvent)
    requires GuardOk(f, scheduled) && RunEnabled(f, e)
    ensures GuardOk(RunApply(f, scheduled, e), scheduled)
  {
    var u := RunApply(f, scheduled, e);
    assert RunOk(f, e.t);
    forall id | id in u.running ensures RunnerOk(u, id) {
      if id in f.running {
        assert RunnerOk(f, id);
      }
    }
    forall t | t in u.runs ensures RunOk(u, t) {
      assert RunOk(f, t);
    }
    forall id | id in u.registry ensures RegisteredOk(u, id) {
      assert RegisteredOk(f, id);
      if id in f.running {
        assert RunnerOk(f, id);
      }
    }
  }

  lemma GuardFire(f: Flight, scheduled: set<LoadId>, t: nat, id: LoadId)
    requires GuardOk(f, scheduled) && t !in f.runs
    ensures GuardOk(f.(runs := f.runs[t := Fired(id)]), scheduled)
  {
    var u := f.(runs := f.runs[t := Fired(id)]);
    assert forall x :: x in f.runs ==> RunOk(f, x);
    assert forall i :: i in u.running ==> RunnerOk(f, i);
    assert forall i :: i in u.registry ==> RegisteredOk(f, i);
  }

  lemma {:induction false} GuardAlways(valid: set<string>, meta: Version, evs: seq<Event>)
    requires RunFrom(Init(valid, meta), evs).Some?
    ensures var s := RunFrom(Init(valid, meta), evs).value; GuardOk(s.flight, s.cron.scheduled.Keys)
  {
    if evs == [] {
    } else {
      var s, e := RunFrom(Init(valid, meta), evs[..|evs| - 1]).value, evs[|evs| - 1];
      GuardAlways(valid, meta, evs[..|evs| - 1]);
      match e
      case Reconcile(r, added, next) =>
        GuardReconcile(s.flight, s.cron.scheduled.Keys, s.reloads[r].desired.Keys, Apply(s, e).cron.scheduled.Keys);
      case Fire(t, entry) => GuardFire(s.flight, s.cron.scheduled.Keys, t, s.cron.entries[entry]);
      case Run(step) => GuardRun(s.flight, s.cron.scheduled.Keys, step);
      case _ =>
    }
  }

  /**
   Overlap guard across reloads: in every interleaving at most one Execute per load is in
   flight, its load is registered, so MarkRunning is never dropped, and CurrentlyRunning is
   set exactly while one is between MarkRunning and MarkFinished; with none in flight it is
   false. This includes loads removed and added again while they run.
   */
  lemma {:induction false} OverlapGuard(valid: set<string>, meta: Version, evs: seq<Event>, id: LoadId)
    requires RunFrom(Init(valid, meta), evs).Some?
    ensures var f := RunFrom(Init(valid, meta), evs).value.flight;
            && (forall t, x :: InFlight(f, t, id) && InFlight(f, x, id) ==> t == x)
            && (forall t :: InFlight(f, t, id) ==> id in f.registry && id in f.running)
            && (id in f.registry ==> (f.registry[id] <==> exists t :: t in f.runs && f.runs[t] == Marked(id)))
            && (id in f.registry && f.registry[id] ==> id in f.running)
  {
    GuardAlways(valid, meta, evs);
    var f := RunFrom(Init(valid, meta), evs).value.flight;
    assert forall t :: t in f.runs ==> RunOk(f, t);
    if id in f.registry {
      assert RegisteredOk(f, id);
    }
  }

  /**
   What a tick does in every reachable state. With the guard free the load runs: it is in
   flight and shows as running between its marks, and afterwards the guard is free again and
   nothing else has changed. With the guard taken, or the load no longer scheduled, the tick
   has no effect.
   */
  lemma TickRuns(valid: set<string>, meta: Version, evs: seq<Event>, t: nat, entry: nat)
    requires RunFrom(Init(valid, meta), evs).Some?
    requires var s := RunFrom(Init(valid, meta), evs).value; t !in s.flight.runs && entry in s.cron.entries
    ensures var s := RunFrom(Init(valid, meta), evs).value;
            var id, fired := s.cron.entries[entry], evs + [Fire(t, entry)] + [Run(Trigger(t))];
            if id in s.cron.scheduled && id !in s.flight.running then
              var marked := RunFrom(Init(valid, meta), fired + [Run(MarkRunning(t))]);
              && marked.Some? && InFlight(marked.value.flight, t, id) && id in marked.value.flight.running
              && id in marked.value.flight.registry && marked.value.flight.registry[id]
              && RunFrom(Init(valid, meta), fired + [Run(MarkRunning(t))] + [Run(MarkFinished(t))] + [Run(Leave(t))])
                 == Some(s)
            else RunFrom(Init(valid, meta), fired) == Some(s)
  {
    var s0, s := Init(valid, meta), RunFrom(Init(valid, meta), evs).value;
    var f, id := s.flight, s.cron.entries[entry];
    GuardAlways(valid, meta, evs);
    RunSnoc(s0, evs, s, Fire(t, entry));
    var p1 := s.(flight := f.(runs := f.runs[t := Fired(id)]));
    RunSnoc(s0, evs + [Fire(t, entry)], p1, Run(Trigger(t)));
    if id in s.cron.scheduled && id !in f.running {
      assert p1.flight.runs[t := Guarded(id)] == f.runs[t := Guarded(id)];
      assert RegisteredOk(f, id);
      RunMarked(s0, evs + [Fire(t, entry)] + [Run(Trigger(t))], s, t, id);
    } else {
      assert p1.flight.runs - {t} == f.runs;
    }
  }

  /** The goroutines while t runs the load. */
  function InRun(f: Flight, pc: RunPc, t: nat): Flight {
    f.(runs := f.runs[t := pc], running := f.running[pc.id := t],
       registry := if pc.Marked? then f.registry[pc.id := true] else f.registry)
  }

  lemma RunSteps(f: Flight, scheduled: set<LoadId>, t: nat, id: LoadId)
    requires t !in f.runs && id !in f.running && id in f.registry && !f.registry[id]
    ensures RunEnabled(InRun(f, Guarded(id), t), MarkRunning(t)) && RunEnabled(InRun(f, Marked(id), t), MarkFinished(t))
    ensures RunEnabled(InRun(f, Settled(id), t), Leave(t))
    ensures RunApply(InRun(f, Guarded(id), t), scheduled, MarkRunning(t)) == InRun(f, Marked(id), t)
    ensures RunApply(InRun(f, Marked(id), t), scheduled, MarkFinished(t)) == InRun(f, Settled(id), t)
    ensures RunApply(InRun(f, Settled(id), t), scheduled, Leave(t)) == f
  {
    assert f.runs[t := Guarded(id)][t := Marked(id)] == f.runs[t := Marked(id)];
    assert f.runs[t := Marked(id)][t := Settled(id)] == f.runs[t := Settled(id)];
    assert f.registry[id := true][id := false] == f.registry;
    assert f.runs[t := Settled(id)] - {t} == f.runs && f.running[id := t] - {id} == f.running;
  }

  /** From the guard on. */
  lemma RunMarked(s0: State, evs: seq<Event>, s: State, t: nat, id: LoadId)
    requires t !in s.flight.runs && id !in s.flight.running && id in s.flight.registry && !s.flight.registry[id]
    requires RunFrom(s0, evs) == Some(s.(flight := InRun(s.flight, Guarded(id), t)))
    ensures RunFrom(s0, evs + [Run(MarkRunning(t))]) == Some(s.(flight := InRun(s.flight, Marked(id), t)))
    ensures RunFrom(s0, evs + [Run(MarkRunning(t))] + [Run(MarkFinished(t))] + [Run(Leave(t))]) == Some(s)
  {
    var f := s.flight;
    RunSteps(f, s.cron.scheduled.Keys, t, id);
    RunSnoc(s0, evs, s.(flight := InRun(f, Guarded(id), t)), Run(MarkRunning(t)));
    RunSnoc(s0, evs + [Run(MarkRunning(t))], s.(flight := InRun(f, Marked(id), t)), Run(MarkFinished(t)));
    RunSnoc(s0, evs + [Run(MarkRunning(t))] + [Run(MarkFinished(t))], s.(flight := InRun(f, Settled(id), t)),
            Run(Leave(t)));
  }
}
