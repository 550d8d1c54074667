/**
 Atomic replace: every replace load of one sink as a machine over single SQL statements.
 Runs of different loads interleave freely, each statement may fail with or without effect,
 and the process may die between any two. The reference is a sink in which a run's rows
 appear all at once when its swap commits.
 */
module Replace {
  import opened Calls
  import opened Options

  datatype Table = Table(schema: string, name: string)

  function Staging(t: Table): Table { Table(t.schema, t.name + "_stg") }

  function Old(t: Table): Table { Table(t.schema, t.name + "_old") }

  function Triple(t: Table): set<Table> { {t, Staging(t), Old(t)} }

  /** A sink row: the source row and the load timestamp of its run. */
  datatype Stamped = Stamped(row: nat, loadTs: int)

  function Stamp(rows: seq<nat>, ts: int): seq<Stamped> {
    seq(|rows|, i requires 0 <= i < |rows| => Stamped(rows[i], ts))
  }

  /** The table holds exactly these rows in order, each with the timestamp. */
  predicate Loads(table: seq<Stamped>, rows: seq<nat>, ts: int) {
    |table| == |rows| && forall i :: 0 <= i < |rows| ==> table[i].row == rows[i] && table[i].loadTs == ts
  }

  type Tables = map<Table, seq<Stamped>>

  // ---------- SQL statements ----------

  /** DROP TABLE IF EXISTS. */
  function DropIfExists(db: Tables, t: Table): Tables { db - {t} }

  /** sp_rename fails when the table is missing or the new name is taken. */
  function Rename(db: Tables, from: Table, to: Table): Option<Tables> {
    if from in db && to !in db then Some((db - {from})[to := db[from]]) else None
  }

  /** The three statements of the swap transaction; None rolls back. */
  function SwapTx(db: Tables, t: Table): Option<Tables> {
    match Rename(db, t, Old(t))
    case None => None
    case Some(a) =>
      match Rename(a, Staging(t), t)
      case None => None
      case Some(b) => if Old(t) in b then Some(b - {Old(t)}) else None
  }

  /** The whole transaction moves staging over live and leaves no `_old` behind. */
  lemma SwapEffect(db: Tables, t: Table)
    requires t in db && Staging(t) in db && Old(t) !in db
    ensures SwapTx(db, t) == Some((db - {Staging(t)})[t := db[Staging(t)]])
  {
    SuffixesDiffer(t);
    var a := Rename(db, t, Old(t)).value;
    var b := Rename(a, Staging(t), t).value;
    assert b - {Old(t)} == (db - {Staging(t)})[t := db[Staging(t)]];
  }

  lemma SuffixesDiffer(t: Table)
    ensures t != Staging(t) && t != Old(t) && Staging(t) != Old(t)
  {
    assert |t.name| < |t.name + "_stg"| && |t.name| < |t.name + "_old"|;
    assert (t.name + "_stg")[|t.name| + 1] == 's' && (t.name + "_old")[|t.name| + 1] == 'o';
  }

  // ---------- The machine ----------

  /** The next statement of a run; Open streams rows, into staging when `active`. */
  datatype Phase =
    | Probing
    | DroppingStaging(columns: bool)
    | CheckingLive(columns: bool)
    | Cloning
    | Creating
    | Open(active: bool)
    | CommitLive
    | CommitStaging(live: bool)
    | Renaming
    | DroppingOld
    | Swapping
    | Aborting

  datatype Session = Session(phase: Phase, ts: int)

  datatype State = State(tables: Tables, runs: map<Table, Session>)

  datatype Event =
    | Start(t: Table, ts: int)
    | Probe(t: Table, ok: bool)
    | DropStaging(t: Table, outcome: Outcome)
    | CheckLive(t: Table, ok: bool)
    | Clone(t: Table, outcome: Outcome)
    | Create(t: Table, outcome: Outcome)
    | FirstBatch(t: Table)
    | Write(t: Table, rows: seq<nat>, outcome: Outcome)
    | ReadFails(t: Table)
    | ReadDone(t: Table)
    | ProbeLive(t: Table, ok: bool)
    | ProbeStaging(t: Table, ok: bool)
    | RenameLive(t: Table, outcome: Outcome)
    | DropOld(t: Table, outcome: Outcome)
    | Swap(t: Table, outcome: Outcome)
    | Abort(t: Table, outcome: Outcome)
    | Crash

  predicate At(s: State, t: Table, p: Phase) { t in s.runs && s.runs[t].phase == p }

  predicate Enabled(s: State, e: Event) {
    match e
    case Start(t, _) => t !in s.runs
    case Probe(t, _) => At(s, t, Probing)
    case DropStaging(t, _) => t in s.runs && s.runs[t].phase.DroppingStaging?
    case CheckLive(t, _) => t in s.runs && s.runs[t].phase.CheckingLive?
    case Clone(t, o) => At(s, t, Cloning) && (o != Failed ==> t in s.tables && Staging(t) !in s.tables)
    case Create(t, _) => At(s, t, Creating)
    case FirstBatch(t) => At(s, t, Open(false))
    case Write(t, _, o) => At(s, t, Open(true)) && (o != Failed ==> Staging(t) in s.tables)
    case ReadFails(t) => t in s.runs && s.runs[t].phase.Open?
    case ReadDone(t) => t in s.runs && s.runs[t].phase.Open?
    case ProbeLive(t, _) => At(s, t, CommitLive)
    case ProbeStaging(t, _) => t in s.runs && s.runs[t].phase.CommitStaging?
    case RenameLive(t, o) => At(s, t, Renaming) && (o != Failed ==> Rename(s.tables, Staging(t), t).Some?)
    case DropOld(t, _) => At(s, t, DroppingOld)
    case Swap(t, o) => At(s, t, Swapping) && (o != Failed ==> SwapTx(s.tables, t).Some?)
    case Abort(t, _) => At(s, t, Aborting)
    case Crash => true
  }

  function Go(s: State, t: Table, p: Phase): State
    requires t in s.runs
  {
    s.(runs := s.runs[t := s.runs[t].(phase := p)])
  }

  /** The run is over. */
  function End(s: State, t: Table): State { s.(runs := s.runs - {t}) }

  /** One statement: its effect unless it failed, then the next phase or the error path. */
  function Statement(s: State, t: Table, o: Outcome, db: Tables, onOk: Option<Phase>, onError: Option<Phase>): State
    requires t in s.runs
  {
    var s1 := if o == Failed then s else s.(tables := db);
    var next := if o == Done then onOk else onError;
    if next.None? then End(s1, t) else Go(s1, t, next.value)
  }

  function Apply(s: State, e: Event): State
    requires Enabled(s, e)
  {
    match e
    case Start(t, ts) => s.(runs := s.runs[t := Session(Probing, ts)])
    case Probe(t, ok) =>
      if !ok then End(s, t) else Go(s, t, if t in s.tables then DroppingStaging(false) else Open(false))
    case DropStaging(t, o) =>
      Statement(s, t, o, DropIfExists(s.tables, Staging(t)), Some(CheckingLive(s.runs[t].phase.columns)), None)
    case CheckLive(t, ok) =>
      if !ok then End(s, t)
      else if t in s.tables then Go(s, t, Cloning)
      else if s.runs[t].phase.columns then Go(s, t, Creating)
      else End(s, t)
    case Clone(t, o) => Statement(s, t, o, s.tables[Staging(t) := []], Some(Open(true)), None)
    case Create(t, o) =>
      Statement(s, t, o, if Staging(t) in s.tables then s.tables else s.tables[Staging(t) := []],
                Some(Open(true)), None)
    case FirstBatch(t) => Go(s, t, DroppingStaging(true))
    case Write(t, rows, o) =>
      Statement(s, t, o,
                if o == Failed then s.tables
                else s.tables[Staging(t) := s.tables[Staging(t)] + Stamp(rows, s.runs[t].ts)],
                Some(Open(true)), Some(Aborting))
    case ReadFails(t) => if s.runs[t].phase.active then Go(s, t, Aborting) else End(s, t)
    case ReadDone(t) => if s.runs[t].phase.active then Go(s, t, CommitLive) else End(s, t)
    case ProbeLive(t, ok) => Go(s, t, if ok then CommitStaging(t in s.tables) else Aborting)
    case ProbeStaging(t, ok) =>
      Go(s, t, if !ok || Staging(t) !in s.tables then Aborting
               else if s.runs[t].phase.live then DroppingOld else Renaming)
    case RenameLive(t, o) =>
      Statement(s, t, o, if o == Failed then s.tables else Rename(s.tables, Staging(t), t).value, None, Some(Aborting))
    case DropOld(t, o) => Statement(s, t, o, DropIfExists(s.tables, Old(t)), Some(Swapping), Some(Aborting))
    case Swap(t, o) =>
      Statement(s, t, o, if o == Failed then s.tables else SwapTx(s.tables, t).value, None, Some(Aborting))
    case Abort(t, o) => Statement(s, t, o, DropIfExists(s.tables, Staging(t)), None, None)
    case Crash => s.(runs := map[])
  }

  // ---------- The reference ----------

  datatype Buffer = Buffer(ts: int, rows: seq<nat>)

  /** Live tables that only ever change as a whole, and the rows each current run has sent. */
  datatype Spec = Spec(live: Tables, sent: map<Table, Buffer>)

  function SpecApply(sp: Spec, e: Event): Spec {
    match e
    case Start(t, ts) => sp.(sent := sp.sent[t := Buffer(ts, [])])
    case Write(t, rows, o) =>
      if o == Failed || t !in sp.sent then sp
      else sp.(sent := sp.sent[t := sp.sent[t].(rows := sp.sent[t].rows + rows)])
    case RenameLive(t, o) => Publish(sp, t, o)
    case Swap(t, o) => Publish(sp, t, o)
    case _ => sp
  }

  function Publish(sp: Spec, t: Table, o: Outcome): Spec {
    if o == Failed || t !in sp.sent then sp
    else sp.(live := sp.live[t := Stamp(sp.sent[t].rows, sp.sent[t].ts)])
  }

  function Target(e: Event): Option<Table> {
    if e.Crash? then None else Some(e.t)
  }

  function RunFrom(s: State, evs: seq<Event>): Option<State> {
    if evs == [] then Some(s)
    else
      match RunFrom(s, evs[..|evs| - 1])
      case None => None
      case Some(p) => if Enabled(p, evs[|evs| - 1]) then Some(Apply(p, evs[|evs| - 1])) else None
  }

  function SpecFrom(sp: Spec, evs: seq<Event>): Spec {
    if evs == [] then sp else SpecApply(SpecFrom(sp, evs[..|evs| - 1]), evs[|evs| - 1])
  }

  // ---------- Refinement ----------

  /** Loads own disjoint table names. */
  predicate Disjoint(targets: set<Table>) {
    forall a, b :: a in targets && b in targets && a != b ==> Triple(a) !! Triple(b)
  }

  predicate SameTable(a: Tables, b: Tables, t: Table) {
    if t in a then t in b && a[t] == b[t] else t !in b
  }

  /** Staging holds exactly the rows this run has sent, stamped once. */
  predicate StagingHolds(s: State, sp: Spec, t: Table)
    requires t in s.runs
  {
    && t in sp.sent && sp.sent[t].ts == s.runs[t].ts
    && Staging(t) in s.tables
    && s.tables[Staging(t)] == Stamp(sp.sent[t].rows, sp.sent[t].ts)
  }

  predicate PhaseOk(s: State, sp: Spec, t: Table)
    requires t in s.runs
  {
    match s.runs[t].phase
    case Probing | DroppingStaging(_) | Open(false) => Unsent(s, sp, t)
    case CheckingLive(_) => Unsent(s, sp, t) && Staging(t) !in s.tables
    case Cloning => Unsent(s, sp, t) && Staging(t) !in s.tables && t in s.tables
    case Creating => Unsent(s, sp, t) && Staging(t) !in s.tables
    case Open(true) | CommitLive => StagingHolds(s, sp, t)
    case CommitStaging(live) => StagingHolds(s, sp, t) && (live <==> t in s.tables)
    case Renaming => StagingHolds(s, sp, t) && t !in s.tables
    case DroppingOld => StagingHolds(s, sp, t) && t in s.tables
    case Swapping => StagingHolds(s, sp, t) && t in s.tables && Old(t) !in s.tables
    case Aborting => true
  }

  predicate Unsent(s: State, sp: Spec, t: Table)
    requires t in s.runs
  {
    t in sp.sent && sp.sent[t] == Buffer(s.runs[t].ts, [])
  }

  /** An `_old` table is one that was there before any run, as it was. */
  predicate OldKept(db: Tables, live: Tables, t: Table) {
    Old(t) in db ==> Old(t) in live && db[Old(t)] == live[Old(t)]
  }

  predicate LoadOk(s: State, sp: Spec, t: Table) {
    && SameTable(s.tables, sp.live, t)
    && OldKept(s.tables, sp.live, t)
    && (t in s.runs ==> PhaseOk(s, sp, t))
  }

  lemma StampConcat(a: seq<nat>, b: seq<nat>, ts: int)
    ensures Stamp(a + b, ts) == Stamp(a, ts) + Stamp(b, ts)
  {}

  lemma OwnBegin(s: State, sp: Spec, e: Event, t: Table)
    requires LoadOk(s, sp, t) && Enabled(s, e) && Target(e) == Some(t)
    requires e.Start? || e.Probe? || e.DropStaging? || e.CheckLive? || e.Clone? || e.Create? || e.FirstBatch?
    ensures LoadOk(Apply(s, e), SpecApply(sp, e), t)
  {
    SuffixesDiffer(t);
  }

  lemma OwnStream(s: State, sp: Spec, e: Event, t: Table)
    requires LoadOk(s, sp, t) && Enabled(s, e) && Target(e) == Some(t)
    requires e.Write? || e.ReadFails? || e.ReadDone? || e.ProbeLive? || e.ProbeStaging?
    ensures LoadOk(Apply(s, e), SpecApply(sp, e), t)
  {
    SuffixesDiffer(t);
    if e.Write? {
      StampConcat(sp.sent[t].rows, e.rows, sp.sent[t].ts);
    }
  }

  lemma OwnRename(s: State, sp: Spec, t: Table, o: Outcome)
    requires LoadOk(s, sp, t) && Enabled(s, RenameLive(t, o))
    ensures LoadOk(Apply(s, RenameLive(t, o)), SpecApply(sp, RenameLive(t, o)), t)
  {
    SuffixesDiffer(t);
  }

  lemma OwnDrop(s: State, sp: Spec, e: Event, t: Table)
    requires LoadOk(s, sp, t) && Enabled(s, e) && Target(e) == Some(t) && (e.DropOld? || e.Abort?)
    ensures LoadOk(Apply(s, e), SpecApply(sp, e), t)
  {
    SuffixesDiffer(t);
  }

  lemma OwnSwap(s: State, sp: Spec, t: Table, o: Outcome)
    requires LoadOk(s, sp, t) && Enabled(s, Swap(t, o))
    ensures LoadOk(Apply(s, Swap(t, o)), SpecApply(sp, Swap(t, o)), t)
  {
    SuffixesDiffer(t);
    SwapEffect(s.tables, t);
  }

  lemma OwnStep(s: State, sp: Spec, e: Event, t: Table)
    requires LoadOk(s, sp, t) && Enabled(s, e) && Target(e) == Some(t)
    ensures LoadOk(Apply(s, e), SpecApply(sp, e), t)
  {
    match e
    case RenameLive(_, o) => OwnRename(s, sp, t, o);
    case Swap(_, o) => OwnSwap(s, sp, t, o);
    case DropOld(_, _) => OwnDrop(s, sp, e, t);
    case Abort(_, _) => OwnDrop(s, sp, e, t);
    case _ =>
      if e.Write? || e.ReadFails? || e.ReadDone? || e.ProbeLive? || e.ProbeStaging? {
        OwnStream(s, sp, e, t);
      } else {
        OwnBegin(s, sp, e, t);
      }
  }

  /** A step touches only the tables and the run of its own load. */
  lemma Footprint(s: State, e: Event, a: Table, x: Table)
    requires Enabled(s, e) && Target(e) == Some(a) && x !in Triple(a)
    ensures SameTable(Apply(s, e).tables, s.tables, x)
    ensures forall t :: t != a ==> (t in Apply(s, e).runs <==> t in s.runs)
    ensures forall t :: t != a && t in s.runs ==> Apply(s, e).runs[t] == s.runs[t]
  {
    assert x != a && x != Staging(a) && x != Old(a);
  }

  /** A step of one load leaves every disjoint load alone. */
  lemma ForeignStep(s: State, sp: Spec, e: Event, a: Table, t: Table)
    requires LoadOk(s, sp, t) && Enabled(s, e) && Target(e) == Some(a) && a != t && Triple(a) !! Triple(t)
    ensures LoadOk(Apply(s, e), SpecApply(sp, e), t)
  {
    assert t in Triple(t) && Staging(t) in Triple(t) && Old(t) in Triple(t);
    Footprint(s, e, a, t);
    Footprint(s, e, a, Staging(t));
    Footprint(s, e, a, Old(t));
    assert a in Triple(a);
    SpecFootprint(sp, e, a, t);
    SpecFootprint(sp, e, a, Old(t));
    SameView(s, sp, Apply(s, e), SpecApply(sp, e), t);
  }

  lemma SpecFootprint(sp: Spec, e: Event, a: Table, t: Table)
    requires Target(e) == Some(a) && a != t
    ensures SameTable(SpecApply(sp, e).live, sp.live, t)
    ensures t in sp.sent ==> t in SpecApply(sp, e).sent && SpecApply(sp, e).sent[t] == sp.sent[t]
  {}

  lemma SameView(s: State, sp: Spec, s': State, sp': Spec, t: Table)
    requires LoadOk(s, sp, t)
    requires SameTable(s'.tables, s.tables, t) && SameTable(s'.tables, s.tables, Staging(t))
    requires SameTable(s'.tables, s.tables, Old(t))
    requires SameTable(sp'.live, sp.live, t) && SameTable(sp'.live, sp.live, Old(t))
    requires t in sp.sent ==> t in sp'.sent && sp'.sent[t] == sp.sent[t]
    requires (t in s'.runs <==> t in s.runs) && (t in s.runs ==> s'.runs[t] == s.runs[t])
    ensures LoadOk(s', sp', t)
  {}

  ghost predicate Refines(s: State, sp: Spec, targets: set<Table>) {
    forall t :: t in targets ==> LoadOk(s, sp, t)
  }

  /** All events belong to the given loads. */
  predicate Among(evs: seq<Event>, targets: set<Table>) {
    forall e :: e in evs && !e.Crash? ==> e.t in targets
  }

  /**
   Atomic replace safety: from any tables, left-over `_old` and staging tables included,
   after any interleaving of replace runs with errors and crashes between any two
   statements, each live table is exactly what the reference says, that is the rows of its
   last committed run in order under one timestamp, or its initial contents; no run leaves an
   `_old` table that was not there before; and abandoned staging rows never reach live.
   */
  lemma {:induction false} AtomicReplace(s: State, targets: set<Table>, evs: seq<Event>)
    requires Disjoint(targets) && s.runs == map[] && Among(evs, targets)
    requires RunFrom(s, evs).Some?
    ensures Refines(RunFrom(s, evs).value, SpecFrom(Spec(s.tables, map[]), evs), targets)
  {
    if evs == [] {
    } else {
      var front, e := evs[..|evs| - 1], evs[|evs| - 1];
      AtomicReplace(s, targets, front);
      var p, sp := RunFrom(s, front).value, SpecFrom(Spec(s.tables, map[]), front);
      forall t | t in targets ensures LoadOk(Apply(p, e), SpecApply(sp, e), t) {
        if e.Crash? {
        } else if e.t == t {
          OwnStep(p, sp, e, t);
        } else {
          assert e in evs;
          ForeignStep(p, sp, e, e.t, t);
        }
      }
    }
  }

  // ---------- What a live table holds ----------

  /** The rename or the swap of this load takes effect. */
  predicate Publishes(e: Event, t: Table) { (e.RenameLive? || e.Swap?) && e.t == t && e.outcome != Failed }

  /** The rows of all writes of this load that took effect since it last started. */
  function SentRows(evs: seq<Event>, t: Table): seq<nat> {
    if evs == [] then []
    else
      var sent, e := SentRows(evs[..|evs| - 1], t), evs[|evs| - 1];
      if e.Start? && e.t == t then []
      else if e.Write? && e.t == t && e.outcome != Failed then sent + e.rows
      else sent
  }

  /** The timestamp it last started with. */
  function StartedAt(evs: seq<Event>, t: Table): Option<int> {
    if evs == [] then None
    else
      var e := evs[|evs| - 1];
      if e.Start? && e.t == t then Some(e.ts) else StartedAt(evs[..|evs| - 1], t)
  }

  lemma {:induction false} SpecSent(live: Tables, evs: seq<Event>, t: Table)
    requires t in SpecFrom(Spec(live, map[]), evs).sent
    ensures var b := SpecFrom(Spec(live, map[]), evs).sent[t];
            Some(b.ts) == StartedAt(evs, t) && b.rows == SentRows(evs, t)
  {
    if evs[|evs| - 1] != Start(t, SpecFrom(Spec(live, map[]), evs).sent[t].ts) {
      SpecSent(live, evs[..|evs| - 1], t);
    }
  }

  lemma {:induction false} SpecKept(sp: Spec, evs: seq<Event>, k: nat, t: Table)
    requires k <= |evs| && forall i :: k <= i < |evs| ==> !Publishes(evs[i], t)
    ensures SameTable(SpecFrom(sp, evs).live, SpecFrom(sp, evs[..k]).live, t)
  {
    if k == |evs| {
      assert evs[..k] == evs;
    } else {
      assert evs[..|evs| - 1][..k] == evs[..k];
      SpecKept(sp, evs[..|evs| - 1], k, t);
    }
  }

  lemma {:induction false} RunPrefix(s: State, evs: seq<Event>, k: nat)
    requires k <= |evs| && RunFrom(s, evs).Some?
    ensures RunFrom(s, evs[..k]).Some?
  {
    if k == |evs| {
      assert evs[..k] == evs;
    } else {
      assert evs[..|evs| - 1][..k] == evs[..k];
      RunPrefix(s, evs[..|evs| - 1], k);
    }
  }

  /** What is published is what the run has sent. */
  lemma PublishStep(s: State, sp: Spec, e: Event, t: Table)
    requires LoadOk(s, sp, t) && Enabled(s, e) && Publishes(e, t)
    ensures t in sp.sent && t in SpecApply(sp, e).live
    ensures Loads(SpecApply(sp, e).live[t], sp.sent[t].rows, sp.sent[t].ts)
  {}

  lemma RunLast(s: State, evs: seq<Event>, k: nat)
    requires k < |evs| && RunFrom(s, evs).Some?
    ensures RunFrom(s, evs[..k]).Some? && Enabled(RunFrom(s, evs[..k]).value, evs[k])
  {
    RunPrefix(s, evs, k + 1);
    assert evs[..k + 1][..k] == evs[..k];
  }

  lemma SpecPublished(s: State, targets: set<Table>, evs: seq<Event>, k: nat, t: Table)
    requires Disjoint(targets) && s.runs == map[] && Among(evs, targets) && RunFrom(s, evs).Some?
    requires t in targets && k < |evs| && Publishes(evs[k], t) && forall i :: k < i < |evs| ==> !Publishes(evs[i], t)
    ensures var live := SpecFrom(Spec(s.tables, map[]), evs).live;
            t in live && StartedAt(evs[..k], t).Some?
            && Loads(live[t], SentRows(evs[..k], t), StartedAt(evs[..k], t).value)
  {
    var sp0, before := Spec(s.tables, map[]), evs[..k];
    RunLast(s, evs, k);
    AtomicReplace(s, targets, before);
    PublishStep(RunFrom(s, before).value, SpecFrom(sp0, before), evs[k], t);
    SpecSent(s.tables, before, t);
    assert evs[..k + 1][..k] == before;
    SpecKept(sp0, evs, k + 1, t);
  }

  /**
   So in the same histories a live table holds, in order and under the timestamp of their run,
   exactly the rows written between the last start and the last publication of its load.
   */
  lemma {:induction false} LiveIsLastPublished(s: State, targets: set<Table>, evs: seq<Event>, k: nat, t: Table)
    requires Disjoint(targets) && s.runs == map[] && Among(evs, targets) && RunFrom(s, evs).Some?
    requires t in targets && k < |evs| && Publishes(evs[k], t) && forall i :: k < i < |evs| ==> !Publishes(evs[i], t)
    ensures t in RunFrom(s, evs).value.tables && StartedAt(evs[..k], t).Some?
    ensures Loads(RunFrom(s, evs).value.tables[t], SentRows(evs[..k], t), StartedAt(evs[..k], t).value)
  {
    SpecPublished(s, targets, evs, k, t);
    AtomicReplace(s, targets, evs);
    assert LoadOk(RunFrom(s, evs).value, SpecFrom(Spec(s.tables, map[]), evs), t);
  }

  /** And one that was never published is as it was. */
  lemma {:induction false} LiveIsKept(s: State, targets: set<Table>, evs: seq<Event>, t: Table)
    requires Disjoint(targets) && s.runs == map[] && Among(evs, targets) && RunFrom(s, evs).Some?
    requires t in targets && forall i :: 0 <= i < |evs| ==> !Publishes(evs[i], t)
    ensures SameTable(RunFrom(s, evs).value.tables, s.tables, t)
  {
    AtomicReplace(s, targets, evs);
    assert LoadOk(RunFrom(s, evs).value, SpecFrom(Spec(s.tables, map[]), evs), t);
    SpecKept(Spec(s.tables, map[]), evs, 0, t);
  }

  // ---------- When names are disjoint ----------

  /**
   Two loads own disjoint tables exactly when neither target is the other's staging or old
   name, which can be checked on the names alone.
   */
  lemma DisjointNames(a: Table, b: Table)
    requires a != b
    ensures Triple(a) !! Triple(b) <==> a !in {Staging(b), Old(b)} && b !in {Staging(a), Old(a)}
  {
    assert forall n: string, m: string {:trigger n + m} :: (n + m)[..|n|] == n && (n + m)[|n|..] == m;
    assert (a.name + "_stg")[|a.name + "_stg"| - 1] == 'g' && (b.name + "_stg")[|b.name + "_stg"| - 1] == 'g';
    assert (a.name + "_old")[|a.name + "_old"| - 1] == 'd' && (b.name + "_old")[|b.name + "_old"| - 1] == 'd';
    assert a in Triple(a) && b in Triple(b);
    assert Staging(a) in Triple(a) && Staging(b) in Triple(b) && Old(a) in Triple(a) && Old(b) in Triple(b);
  }

  /** Steps of one load that publish nothing. */
  predicate Unpublished(evs: seq<Event>, t: Table) {
    forall e :: e in evs ==> Target(e) == Some(t) && !e.RenameLive? && !e.Swap?
  }

  lemma RunSnoc(s: State, evs: seq<Event>, p: State, e: Event)
    requires RunFrom(s, evs) == Some(p) && Enabled(p, e) && !e.Crash?
    ensures RunFrom(s, evs + [e]) == Some(Apply(p, e))
    ensures Unpublished(evs, e.t) && !e.RenameLive? && !e.Swap? ==> Unpublished(evs + [e], e.t)
  {
    assert (evs + [e])[..|evs|] == evs;
  }

  /** Until a rename or a swap the reference keeps every table. */
  lemma {:induction false} SpecUnpublished(sp: Spec, evs: seq<Event>, t: Table)
    requires Unpublished(evs, t)
    ensures SpecFrom(sp, evs).live == sp.live
  {
    if evs == [] {
    } else {
      assert evs[|evs| - 1] in evs;
      SpecUnpublished(sp, evs[..|evs| - 1], t);
    }
  }

  /** A run of t up to the statement that drops its staging table. */
  function DropsStaging(t: Table): seq<Event> {
    [] + [Start(t, 0)] + [Probe(t, true)] + [DropStaging(t, Done)]
  }

  lemma DropsStagingState(t: Table, db: Tables)
    requires t in db
    ensures Unpublished(DropsStaging(t), t)
    ensures RunFrom(State(db, map[]), DropsStaging(t))
         == Some(State(db - {Staging(t)}, map[t := Session(CheckingLive(false), 0)]))
  {
    SuffixesDiffer(t);
    var s := State(db, map[]);
    var p1, p2 := State(db, map[t := Session(Probing, 0)]), State(db, map[t := Session(DroppingStaging(false), 0)]);
    assert Apply(p1, Probe(t, true)) == p2;
    assert Apply(p2, DropStaging(t, Done)) == State(db - {Staging(t)}, map[t := Session(CheckingLive(false), 0)]);
    RunSnoc(s, [], s, Start(t, 0));
    RunSnoc(s, [] + [Start(t, 0)], p1, Probe(t, true));
    RunSnoc(s, [] + [Start(t, 0)] + [Probe(t, true)], p2, DropStaging(t, Done));
  }

  /** And further, over an empty source, up to its commit. */
  function EmptyRead(t: Table): seq<Event> {
    DropsStaging(t) + [CheckLive(t, true)] + [Clone(t, Done)] + [ReadDone(t)]
  }

  /** A cloned staging table, from the check of the live one. */
  lemma CloneState(s: State, evs: seq<Event>, t: Table, db: Tables)
    requires RunFrom(s, evs) == Some(State(db, map[t := Session(CheckingLive(false), 0)]))
    requires t in db && Staging(t) !in db && Unpublished(evs, t)
    ensures Unpublished(evs + [CheckLive(t, true)] + [Clone(t, Done)], t)
    ensures RunFrom(s, evs + [CheckLive(t, true)] + [Clone(t, Done)])
         == Some(State(db[Staging(t) := []], map[t := Session(Open(true), 0)]))
  {
    var p1, p2 := State(db, map[t := Session(CheckingLive(false), 0)]), State(db, map[t := Session(Cloning, 0)]);
    assert Apply(p1, CheckLive(t, true)) == p2;
    assert Apply(p2, Clone(t, Done)) == State(db[Staging(t) := []], map[t := Session(Open(true), 0)]);
    RunSnoc(s, evs, p1, CheckLive(t, true));
    RunSnoc(s, evs + [CheckLive(t, true)], p2, Clone(t, Done));
  }

  lemma EmptyReadState(t: Table, db: Tables)
    requires t in db
    ensures Unpublished(EmptyRead(t), t)
    ensures RunFrom(State(db, map[]), EmptyRead(t))
          == Some(State(db[Staging(t) := []], map[t := Session(CommitLive, 0)]))
  {
    SuffixesDiffer(t);
    DropsStagingState(t, db);
    var s, evs, db1, db2 := State(db, map[]), DropsStaging(t), db - {Staging(t)}, db[Staging(t) := []];
    var p3 := State(db2, map[t := Session(Open(true), 0)]);
    assert db1[Staging(t) := []] == db2;
    CloneState(s, evs, t, db1);
    RunSnoc(s, evs + [CheckLive(t, true)] + [Clone(t, Done)], p3, ReadDone(t));
    assert Apply(p3, ReadDone(t)) == State(db2, map[t := Session(CommitLive, 0)]);
  }

  /** Up to the statement that drops its `_old` table. */
  function DropsOld(t: Table): seq<Event> {
    EmptyRead(t) + [ProbeLive(t, true)] + [ProbeStaging(t, true)] + [DropOld(t, Done)]
  }

  lemma DropsOldState(t: Table, db: Tables)
    requires t in db
    ensures Unpublished(DropsOld(t), t) && RunFrom(State(db, map[]), DropsOld(t)).Some?
    ensures Old(t) !in RunFrom(State(db, map[]), DropsOld(t)).value.tables
  {
    SuffixesDiffer(t);
    EmptyReadState(t, db);
    var s, evs, db2 := State(db, map[]), EmptyRead(t), db[Staging(t) := []];
    var p4, p5 := State(db2, map[t := Session(CommitLive, 0)]), State(db2, map[t := Session(CommitStaging(true), 0)]);
    var p6 := State(db2, map[t := Session(DroppingOld, 0)]);
    assert Apply(p4, ProbeLive(t, true)) == p5 && Apply(p5, ProbeStaging(t, true)) == p6;
    RunSnoc(s, evs, p4, ProbeLive(t, true));
    RunSnoc(s, evs + [ProbeLive(t, true)], p5, ProbeStaging(t, true));
    RunSnoc(s, evs + [ProbeLive(t, true)] + [ProbeStaging(t, true)], p6, DropOld(t, Done));
  }

  /** A load whose target is another's staging or `_old` name loses its live table to a run of that one. */
  lemma SharedNamesLoseLiveTable(t: Table, x: Table, rows: seq<Stamped>) returns (evs: seq<Event>)
    requires x == Staging(t) || x == Old(t)
    ensures var s := State(map[t := [], x := rows], map[]);
            && RunFrom(s, evs).Some? && Among(evs, {t})
            && x !in RunFrom(s, evs).value.tables && x in SpecFrom(Spec(s.tables, map[]), evs).live
  {
    var db := map[t := [], x := rows];
    if x == Staging(t) {
      evs := DropsStaging(t);
      DropsStagingState(t, db);
    } else {
      evs := DropsOld(t);
      DropsOldState(t, db);
    }
    SpecUnpublished(Spec(db, map[]), evs, t);
  }

  /** Whatever the tables and whatever happens to the given loads, the reference is refined. */
  ghost predicate AlwaysSafe(targets: set<Table>) {
    forall s: State, evs: seq<Event> ::
      s.runs == map[] && Among(evs, targets) && RunFrom(s, evs).Some? ==>
        Refines(RunFrom(s, evs).value, SpecFrom(Spec(s.tables, map[]), evs), targets)
  }

  lemma NamesDiffer(targets: set<Table>)
    requires forall a, b :: a in targets && b in targets ==> b != Staging(a) && b != Old(a)
    ensures Disjoint(targets)
  {
    forall a, b | a in targets && b in targets && a != b ensures Triple(a) !! Triple(b) {
      DisjointNames(a, b);
    }
  }

  lemma NotSafe(targets: set<Table>, a: Table, b: Table)
    requires a in targets && b in targets && (b == Staging(a) || b == Old(a))
    ensures !AlwaysSafe(targets)
  {
    var evs := SharedNamesLoseLiveTable(a, b, []);
    var s := State(map[a := [], b := []], map[]);
    assert Among(evs, targets);
    assert !LoadOk(RunFrom(s, evs).value, SpecFrom(Spec(s.tables, map[]), evs), b);
  }

  /**
   The exact condition: replace loads are safe in all histories if and only if no target is
   the staging or `_old` name of another.
   */
  lemma SafeIffNamesDiffer(targets: set<Table>)
    ensures AlwaysSafe(targets) <==>
      forall a, b :: a in targets && b in targets && a.schema == b.schema ==>
        b.name != a.name + "_stg" && b.name != a.name + "_old"
  {
    assert forall a: Table, b: Table :: a in targets && b in targets ==>
      (b == Staging(a) <==> a.schema == b.schema && b.name == a.name + "_stg")
      && (b == Old(a) <==> a.schema == b.schema && b.name == a.name + "_old");
    if forall a, b :: a in targets && b in targets ==> b != Staging(a) && b != Old(a) {
      NamesDiffer(targets);
      forall s: State, evs: seq<Event> | s.runs == map[] && Among(evs, targets) && RunFrom(s, evs).Some?
        ensures Refines(RunFrom(s, evs).value, SpecFrom(Spec(s.tables, map[]), evs), targets)
      {
        AtomicReplace(s, targets, evs);
      }
    } else {
      var a, b :| a in targets && b in targets && (b == Staging(a) || b == Old(a));
      NotSafe(targets, a, b);
    }
  }
}
