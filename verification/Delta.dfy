/**
 The delta watermark protocol of one load: the runner, the SQL source's window query and
 the watermark store, as a machine whose steps are single store, source and sink calls.
 The environment inserts and deletes source rows between any two steps, an operator may
 reset the watermark, every call may fail with or without having taken effect, and the
 process may crash anywhere. The overlap guard of the scheduler gives one run at a time.
 */
module Delta {
  import opened Calls
  import opened Options

  /** A source row: its identity and its watermark column. */
  datatype Row = Row(id: nat, wm: int)

  /** The rows with lo < wm <= hi. */
  datatype Window = Window(lo: int, hi: int) {
    predicate Has(r: Row) { lo < r.wm <= hi }
  }

  /** Where the run of this load stands; `last` is the watermark the run read. */
  datatype Phase =
    | Idle
    | Fetched(last: Option<int>)
    | Started(last: Option<int>)
    | Seeding(upper: Option<int>)
    | Snapped(lo: int, upper: Option<int>)
    | Streaming(lo: int, upper: Option<int>, pending: seq<Row>)
    | Finishing

  /**
   The stores and the run, followed by history no code reads: the first watermark stored
   (`base`), the rows no query will see (`late`), and the windows of the runs whose upsert
   took effect (`advanced`) or that stopped after their query without one (`stopped`).
   */
  datatype State = State(
    source: set<Row>, stored: Option<int>, sink: multiset<Row>, phase: Phase,
    base: Option<int>, late: set<Row>, advanced: seq<Window>, stopped: seq<Window>)

  datatype Event =
    | Insert(row: Row)
    | Delete(row: Row)
    | Reset
    | GetWatermark(ok: bool)
    | StartRun(ok: bool)
    | SeedMax(max: Option<int>)
    | SnapshotMax(max: Option<int>)
    | Query(rows: seq<Row>)
    | Write(n: nat, outcome: Outcome)
    | ReadFails
    | Upsert(outcome: Outcome)
    | KeepWatermark
    | FinishRun(ok: bool)
    | Crash

  function Init(source: set<Row>): State {
    State(source, None, multiset{}, Idle, None, {}, [], [])
  }

  /** SELECT MAX(wm): None stands for the empty string an empty table yields. */
  ghost predicate IsMax(source: set<Row>, m: Option<int>) {
    match m
    case None => source == {}
    case Some(v) => (exists r :: r in source && r.wm == v) && forall r :: r in source ==> r.wm <= v
  }

  /** The rows the window query selects; a missing upper bound selects nothing. */
  function Selected(source: set<Row>, lo: int, upper: Option<int>): set<Row> {
    set r | r in source && upper.Some? && Window(lo, upper.value).Has(r)
  }

  /** Whether a row inserted now lies at or below the watermark, or in a window already queried. */
  predicate Behind(s: State, r: Row) {
    || (s.stored.Some? && r.wm <= s.stored.value)
    || (s.phase.Streaming? && s.phase.upper.Some? && r.wm <= s.phase.upper.value)
  }

  /** The condition under which the runner calls UpsertWatermark. */
  predicate MustUpsert(p: Phase) {
    || (p.Seeding? && p.upper.Some?)
    || (p.Streaming? && p.pending == [] && p.upper.Some? && p.upper.value != p.lo)
  }

  /** Read succeeded, so only the watermark and the run row are left. */
  predicate ReadComplete(p: Phase) {
    p.Seeding? || (p.Streaming? && p.pending == [])
  }

  ghost predicate Enabled(s: State, e: Event) {
    match e
    case Insert(_) | Delete(_) | Reset | Crash => true
    case GetWatermark(_) => s.phase.Idle?
    case StartRun(_) => s.phase.Fetched?
    case SeedMax(m) => s.phase == Started(None) && IsMax(s.source, m)
    case SnapshotMax(m) => s.phase.Started? && s.phase.last.Some? && IsMax(s.source, m)
    case Query(rows) => s.phase.Snapped? && multiset(rows) == multiset(Selected(s.source, s.phase.lo, s.phase.upper))
    case Write(n, _) => s.phase.Streaming? && 0 < n <= |s.phase.pending|
    case ReadFails => s.phase.Started? || s.phase.Snapped? || s.phase.Streaming?
    case Upsert(_) => MustUpsert(s.phase)
    case KeepWatermark => ReadComplete(s.phase) && !MustUpsert(s.phase)
    case FinishRun(_) => s.phase.Finishing?
  }

  /** The run ends before its upsert took effect: its window will be queried again. */
  function Stop(s: State): State {
    s.(phase := Idle,
       late := (set r | r in s.late && s.stored.Some? && r.wm <= s.stored.value),
       stopped := s.stopped + WindowOf(s.phase))
  }

  /** The next n rows of the stream reach the sink. */
  function Written(s: State, n: nat): State
    requires s.phase.Streaming? && n <= |s.phase.pending|
  {
    s.(sink := s.sink + multiset(s.phase.pending[..n]), phase := s.phase.(pending := s.phase.pending[n..]))
  }

  /** The window a run in this phase advances by; a seeding run has none. */
  function WindowOf(p: Phase): seq<Window> {
    if p.Streaming? && p.upper.Some? then [Window(p.lo, p.upper.value)] else []
  }

  /** The upsert takes effect. */
  function Advance(s: State): State
    requires MustUpsert(s.phase)
  {
    s.(stored := s.phase.upper,
       base := if s.base.None? then s.phase.upper else s.base,
       advanced := s.advanced + WindowOf(s.phase),
       phase := Finishing)
  }

  function Apply(s: State, e: Event): State
    requires Enabled(s, e)
  {
    match e
    case Insert(r) =>
      s.(source := s.source + {r},
         late := if r !in s.source && Behind(s, r) then s.late + {r} else s.late)
    case Delete(r) => s.(source := s.source - {r}, late := s.late - {r})
    case Reset => s.(stored := None, base := None)
    case GetWatermark(ok) => if ok then s.(phase := Fetched(s.stored)) else s
    case StartRun(ok) => s.(phase := if ok then Started(s.phase.last) else Idle)
    case SeedMax(m) => s.(phase := Seeding(m))
    case SnapshotMax(m) => s.(phase := Snapped(s.phase.last.value, m))
    case Query(rows) => s.(phase := Streaming(s.phase.lo, s.phase.upper, rows))
    case Write(n, outcome) =>
      var w := if outcome == Failed then s else Written(s, n);
      if outcome == Done then w else Stop(w)
    case ReadFails | Crash => Stop(s)
    case Upsert(outcome) =>
      if outcome == Failed then Stop(s)
      else if outcome == Done then Advance(s)
      else Advance(s).(phase := Idle)
    case KeepWatermark => s.(phase := Finishing)
    case FinishRun(_) => s.(phase := Idle)
  }

  /** The state after a history, or None when some step could not happen. */
  ghost function RunFrom(s: State, evs: seq<Event>): Option<State> {
    if evs == [] then Some(s)
    else
      match RunFrom(s, evs[..|evs| - 1])
      case None => None
      case Some(p) => if Enabled(p, evs[|evs| - 1]) then Some(Apply(p, evs[|evs| - 1])) else None
  }

  // ---------- No loss ----------

  /** Rows the stored watermark claims to have delivered. */
  predicate Claimed(s: State, r: Row) {
    s.base.Some? && s.stored.Some? && Window(s.base.value, s.stored.value).Has(r)
  }

  ghost predicate NothingLost(s: State) {
    forall r :: r in s.source && r !in s.late && Claimed(s, r) ==> r in s.sink
  }

  /** A run in flight started from the stored watermark, unless that was reset meanwhile. */
  predicate StartsAtStored(s: State) {
    match s.phase
    case Idle | Finishing => true
    case Fetched(last) => s.stored.Some? ==> s.stored == last
    case Started(last) => s.stored.Some? ==> s.stored == last
    case Seeding(_) => s.stored.None?
    case Snapped(lo, _) => s.stored.Some? ==> s.stored.value == lo
    case Streaming(lo, _, _) => s.stored.Some? ==> s.stored.value == lo
  }

  /** A row of an open window is written already or waiting to be. */
  ghost predicate WindowAccounted(s: State) {
    s.phase.Streaming? && s.phase.upper.Some? ==>
      forall r :: r in s.source && r !in s.late && Window(s.phase.lo, s.phase.upper.value).Has(r)
        ==> r in s.sink || r in s.phase.pending
  }

  ghost predicate Safe(s: State) {
    && (s.base.Some? <==> s.stored.Some?)
    && StartsAtStored(s)
    && NothingLost(s)
    && WindowAccounted(s)
  }

  lemma SafeQuery(s: State, rows: seq<Row>)
    requires Safe(s) && Enabled(s, Query(rows))
    ensures Safe(Apply(s, Query(rows)))
  {
    forall r | r in Selected(s.source, s.phase.lo, s.phase.upper) ensures r in rows {
      assert r in multiset(rows);
    }
  }

  lemma SafeWrite(s: State, n: nat, outcome: Outcome)
    requires Safe(s) && Enabled(s, Write(n, outcome))
    ensures Safe(Apply(s, Write(n, outcome)))
  {
    var p := s.phase.pending;
    assert p == p[..n] + p[n..];
  }

  lemma SafeStep(s: State, e: Event)
    requires Safe(s) && Enabled(s, e)
    ensures Safe(Apply(s, e))
  {
    match e
    case Query(rows) => SafeQuery(s, rows);
    case Write(n, outcome) => SafeWrite(s, n, outcome);
    case _ =>
  }

  lemma {:induction false} SafeAlways(source: set<Row>, evs: seq<Event>)
    requires RunFrom(Init(source), evs).Some?
    ensures Safe(RunFrom(Init(source), evs).value)
  {
    if evs == [] {
    } else {
      SafeAlways(source, evs[..|evs| - 1]);
      SafeStep(RunFrom(Init(source), evs[..|evs| - 1]).value, evs[|evs| - 1]);
    }
  }

  /** Every insert of the history lands above the watermark and any window already queried. */
  ghost predicate OnTime(s: State, evs: seq<Event>) {
    forall k :: 0 <= k < |evs| && evs[k].Insert? && RunFrom(s, evs[..k]).Some? ==>
      !Behind(RunFrom(s, evs[..k]).value, evs[k].row)
  }

  lemma {:induction false} OnTimeMeansNoneLate(source: set<Row>, evs: seq<Event>)
    requires RunFrom(Init(source), evs).Some? && OnTime(Init(source), evs)
    ensures RunFrom(Init(source), evs).value.late == {}
  {
    if evs == [] {
    } else {
      var front := evs[..|evs| - 1];
      forall k | 0 <= k < |front| ensures front[..k] == evs[..k] {}
      OnTimeMeansNoneLate(source, front);
      var p := RunFrom(Init(source), front).value;
      assert evs[..|front|] == front;
    }
  }

  /**
   No loss: after any history of failures, crashes, deletes, resets and timely inserts,
   every source row between the first watermark stored since the last reset and the current
   one is in the sink.
   */
  lemma {:induction false} NoLoss(source: set<Row>, evs: seq<Event>)
    requires RunFrom(Init(source), evs).Some? && OnTime(Init(source), evs)
    ensures var s := RunFrom(Init(source), evs).value;
            forall r :: r in s.source && Claimed(s, r) ==> r in s.sink
  {
    SafeAlways(source, evs);
    OnTimeMeansNoneLate(source, evs);
  }

  // ---------- Windows telescope ----------

  /** A snapshot below the watermark the run read: the one thing that can lower it. */
  predicate SnapsBelow(s: State, e: Event) {
    && e.SnapshotMax? && s.phase.Started? && s.phase.last.Some?
    && e.max.Some? && e.max.value < s.phase.last.value
  }

  /** It happens exactly when the source has rows but none at or above that watermark any more. */
  lemma SnapsBelowWhen(s: State, e: Event)
    requires Enabled(s, e) && e.SnapshotMax?
    ensures SnapsBelow(s, e) <==> s.source != {} && forall r :: r in s.source ==> r.wm < s.phase.last.value
  {
    if s.source != {} {
      var r :| r in s.source;
      assert e.max.Some?;
    }
  }

  ghost predicate NeverBelow(source: set<Row>, evs: seq<Event>) {
    forall k :: 0 <= k < |evs| && RunFrom(Init(source), evs[..k]).Some? ==>
      !SnapsBelow(RunFrom(Init(source), evs[..k]).value, evs[k])
  }

  predicate NoReset(evs: seq<Event>) { forall e :: e in evs ==> !e.Reset? }

  lemma NeverBelowFront(source: set<Row>, evs: seq<Event>)
    requires evs != [] && NeverBelow(source, evs)
    ensures NeverBelow(source, evs[..|evs| - 1])
    ensures RunFrom(Init(source), evs[..|evs| - 1]).Some? ==>
              !SnapsBelow(RunFrom(Init(source), evs[..|evs| - 1]).value, evs[|evs| - 1])
  {
    var front := evs[..|evs| - 1];
    forall k | 0 <= k < |front| ensures front[..k] == evs[..k] {}
  }

  /** Consecutive non-empty windows leading from `from` to `to`. */
  predicate Chain(ws: seq<Window>, from: int, to: int) {
    if ws == [] then from == to
    else
      var w := ws[|ws| - 1];
      w.hi == to && w.lo < w.hi && Chain(ws[..|ws| - 1], from, w.lo)
  }

  ghost predicate Telescoped(s: State) {
    && (s.base.Some? <==> s.stored.Some?)
    && (s.stored.Some? ==> Chain(s.advanced, s.base.value, s.stored.value))
    && (s.stored.None? ==> s.advanced == [])
    && (match s.phase
        case Idle | Finishing => true
        case Fetched(last) => s.stored == last
        case Started(last) => s.stored == last
        case Seeding(_) => s.stored.None?
        case Snapped(lo, u) => s.stored == Some(lo) && (u.Some? ==> lo <= u.value)
        case Streaming(lo, u, _) => s.stored == Some(lo) && (u.Some? ==> lo <= u.value))
  }

  lemma TelescopedStep(s: State, e: Event)
    requires Telescoped(s) && Enabled(s, e) && !e.Reset? && !SnapsBelow(s, e)
    ensures Telescoped(Apply(s, e))
  {
    if e.Upsert? && e.outcome != Failed && s.phase.Streaming? {
      var t := Apply(s, e);
      assert t.advanced[..|t.advanced| - 1] == s.advanced;
    }
  }

  lemma {:induction false} TelescopedAlways(source: set<Row>, evs: seq<Event>)
    requires RunFrom(Init(source), evs).Some? && NoReset(evs) && NeverBelow(source, evs)
    ensures Telescoped(RunFrom(Init(source), evs).value)
  {
    if evs == [] {
    } else {
      NeverBelowFront(source, evs);
      TelescopedAlways(source, evs[..|evs| - 1]);
      TelescopedStep(RunFrom(Init(source), evs[..|evs| - 1]).value, evs[|evs| - 1]);
    }
  }

  /** How many windows of a list contain a row. */
  function Covers(ws: seq<Window>, r: Row): nat {
    if ws == [] then 0
    else Covers(ws[..|ws| - 1], r) + if ws[|ws| - 1].Has(r) then 1 else 0
  }

  /** A chain partitions (from, to]: each row in it lies in exactly one window, others in none. */
  lemma {:induction false} ChainPartitions(ws: seq<Window>, from: int, to: int, r: Row)
    requires Chain(ws, from, to)
    ensures from <= to
    ensures Covers(ws, r) == if Window(from, to).Has(r) then 1 else 0
  {
    if ws == [] {
    } else {
      ChainPartitions(ws[..|ws| - 1], from, ws[|ws| - 1].lo, r);
    }
  }

  /**
   The windows of the runs that advanced the watermark are consecutive and partition
   (base, stored]: a row is in exactly one of them when claimed and in none otherwise.
   */
  lemma {:induction false} WindowsTelescope(source: set<Row>, evs: seq<Event>, r: Row)
    requires RunFrom(Init(source), evs).Some? && NoReset(evs) && NeverBelow(source, evs)
    ensures var s := RunFrom(Init(source), evs).value;
            && (s.stored.Some? ==> s.base.Some? && Chain(s.advanced, s.base.value, s.stored.value))
            && Covers(s.advanced, r) == if Claimed(s, r) then 1 else 0
  {
    TelescopedAlways(source, evs);
    var s := RunFrom(Init(source), evs).value;
    if s.stored.Some? {
      ChainPartitions(s.advanced, s.base.value, s.stored.value, r);
    }
  }

  /** An open window runs upward. */
  predicate Rising(p: Phase) { (p.Snapped? || p.Streaming?) && p.upper.Some? ==> p.lo <= p.upper.value }

  /** Over histories with deletes and resets too. */
  lemma {:induction false} RisingAlways(source: set<Row>, evs: seq<Event>)
    requires RunFrom(Init(source), evs).Some? && NeverBelow(source, evs)
    ensures Rising(RunFrom(Init(source), evs).value.phase)
  {
    if evs == [] {
    } else {
      NeverBelowFront(source, evs);
      RisingAlways(source, evs[..|evs| - 1]);
      RisingStep(RunFrom(Init(source), evs[..|evs| - 1]).value, evs[|evs| - 1]);
    }
  }

  lemma RisingStep(s: State, e: Event)
    requires Rising(s.phase) && Enabled(s, e) && !SnapsBelow(s, e)
    ensures Rising(Apply(s, e).phase)
  {}

  /** The stored watermark is lower after the step. */
  predicate Lowers(s: State, e: Event)
    requires Enabled(s, e)
  {
    s.stored.Some? && Apply(s, e).stored.Some? && Apply(s, e).stored.value < s.stored.value
  }

  /**
   The exact condition: in any reachable state a step lowers the stored watermark if and only
   if it is the effective upsert of a run whose snapshot was below the watermark it started
   from.
   */
  lemma {:induction false} WatermarkFallsIff(source: set<Row>, evs: seq<Event>, e: Event)
    requires RunFrom(Init(source), evs).Some? && Enabled(RunFrom(Init(source), evs).value, e)
    ensures var s := RunFrom(Init(source), evs).value;
            Lowers(s, e) <==>
              && e.Upsert? && e.outcome != Failed && s.phase.Streaming? && s.stored.Some?
              && s.phase.upper.value < s.phase.lo
  {
    SafeAlways(source, evs);
  }

  lemma MonotoneStep(s: State, e: Event)
    requires Safe(s) && Rising(s.phase) && Enabled(s, e) && !e.Reset?
    ensures s.stored.Some? ==> Apply(s, e).stored.Some? && s.stored.value <= Apply(s, e).stored.value
  {}

  /** The stored watermark does not go down from step k on while no snapshot is below it and it is not reset. */
  lemma {:induction false} WatermarkMonotone(source: set<Row>, evs: seq<Event>, k: nat)
    requires k <= |evs| && RunFrom(Init(source), evs).Some? && NeverBelow(source, evs) && NoReset(evs[k..])
    ensures RunFrom(Init(source), evs[..k]).Some?
    ensures var a, b := RunFrom(Init(source), evs[..k]).value.stored, RunFrom(Init(source), evs).value.stored;
            a.Some? ==> b.Some? && a.value <= b.value
  {
    if k == |evs| {
      assert evs[..k] == evs;
    } else {
      var front := evs[..|evs| - 1];
      assert front[..k] == evs[..k] && evs[k..] == front[k..] + [evs[|evs| - 1]];
      NeverBelowFront(source, evs);
      WatermarkMonotone(source, front, k);
      SafeAlways(source, front);
      RisingAlways(source, front);
      MonotoneStep(RunFrom(Init(source), front).value, evs[|evs| - 1]);
    }
  }

  // ---------- A condition on deletes ----------

  ghost predicate Reached(source: set<Row>, v: int) {
    exists r :: r in source && v <= r.wm
  }

  /** The upper bound an open run holds. */
  function OpenUpper(p: Phase): Option<int> {
    match p
    case Seeding(u) => u
    case Snapped(_, u) => u
    case Streaming(_, u, _) => u
    case _ => None
  }

  /** The source has a row at or above the stored watermark and any open upper bound. */
  ghost predicate Anchored(s: State) {
    && (s.stored.Some? ==> Reached(s.source, s.stored.value))
    && (OpenUpper(s.phase).Some? ==> Reached(s.source, OpenUpper(s.phase).value))
    && StartsAtStored(s)
    && (s.phase.Started? && s.phase.last.Some? ==> s.stored == s.phase.last)
    && (s.phase.Fetched? && s.phase.last.Some? ==> s.stored == s.phase.last)
  }

  /** Nothing is reset, and a delete leaves such a row. */
  ghost predicate Gentle(s: State, e: Event) {
    !e.Reset? && (e.Delete? ==> Anchored(s.(source := s.source - {e.row})))
  }

  ghost predicate GentleRun(source: set<Row>, evs: seq<Event>) {
    forall k :: 0 <= k < |evs| && RunFrom(Init(source), evs[..k]).Some? ==>
      Gentle(RunFrom(Init(source), evs[..k]).value, evs[k])
  }

  lemma AnchoredStep(s: State, e: Event)
    requires Anchored(s) && Enabled(s, e) && Gentle(s, e)
    ensures Anchored(Apply(s, e)) && !SnapsBelow(s, e)
  {
    if e.Insert? {
      assert forall v :: Reached(s.source, v) ==> Reached(Apply(s, e).source, v);
    }
  }

  /** Deletes that leave a row at or above the watermark never let a snapshot fall below it. */
  lemma {:induction false} GentleNeverBelow(source: set<Row>, evs: seq<Event>)
    requires RunFrom(Init(source), evs).Some? && GentleRun(source, evs)
    ensures NoReset(evs) && NeverBelow(source, evs) && Anchored(RunFrom(Init(source), evs).value)
  {
    if evs == [] {
    } else {
      var front := evs[..|evs| - 1];
      forall k | 0 <= k < |front| ensures front[..k] == evs[..k] {}
      GentleNeverBelow(source, front);
      assert evs[..|front|] == front && evs == front + [evs[|front|]];
      AnchoredStep(RunFrom(Init(source), front).value, evs[|front|]);
    }
  }

  /** Nothing was deleted and no watermark was reset. */
  predicate AppendOnly(evs: seq<Event>) {
    forall e :: e in evs ==> !e.Delete? && !e.Reset?
  }

  lemma AppendOnlyGentle(source: set<Row>, evs: seq<Event>)
    requires AppendOnly(evs)
    ensures GentleRun(source, evs)
  {
    forall k | 0 <= k < |evs| ensures !evs[k].Delete? && !evs[k].Reset? {
      assert evs[k] in evs;
    }
  }

  // ---------- Duplicates ----------

  /** Copies of a row are paid for by the attempts whose window covered it. */
  predicate PaidFor(s: State, r: Row) {
    s.sink[r] + (if s.phase.Streaming? then multiset(s.phase.pending)[r] else 0)
    <= Covers(s.advanced, r) + Covers(s.stopped, r)
       + if s.phase.Streaming? && s.phase.upper.Some? && Window(s.phase.lo, s.phase.upper.value).Has(r) then 1 else 0
  }

  ghost predicate Bounded(s: State) { forall r :: PaidFor(s, r) }

  lemma CoversSnoc(ws: seq<Window>, w: Window, r: Row)
    ensures Covers(ws + [w], r) == Covers(ws, r) + if w.Has(r) then 1 else 0
  {
    assert (ws + [w])[..|ws|] == ws;
  }

  lemma PaidAfterStop(s: State, r: Row)
    requires PaidFor(s, r)
    ensures PaidFor(Stop(s), r)
  {
    if s.phase.Streaming? && s.phase.upper.Some? {
      CoversSnoc(s.stopped, Window(s.phase.lo, s.phase.upper.value), r);
    } else {
      assert s.stopped + [] == s.stopped;
    }
  }

  lemma PaidAfterAdvance(s: State, r: Row)
    requires PaidFor(s, r) && MustUpsert(s.phase)
    ensures PaidFor(Advance(s), r) && PaidFor(Advance(s).(phase := Idle), r)
  {
    if s.phase.Streaming? {
      CoversSnoc(s.advanced, Window(s.phase.lo, s.phase.upper.value), r);
    } else {
      assert s.advanced + [] == s.advanced;
    }
  }

  lemma PaidAfterWrite(s: State, n: nat, r: Row)
    requires PaidFor(s, r) && s.phase.Streaming? && n <= |s.phase.pending|
    ensures PaidFor(Written(s, n), r)
  {
    assert s.phase.pending == s.phase.pending[..n] + s.phase.pending[n..];
  }

  lemma PaidAfterQuery(s: State, rows: seq<Row>, r: Row)
    requires PaidFor(s, r) && s.phase.Snapped?
    requires multiset(rows) == multiset(Selected(s.source, s.phase.lo, s.phase.upper))
    ensures PaidFor(s.(phase := Streaming(s.phase.lo, s.phase.upper, rows)), r)
  {
    assert multiset(rows)[r] == if r in Selected(s.source, s.phase.lo, s.phase.upper) then 1 else 0;
  }

  lemma PaidAfterBatch(s: State, n: nat, outcome: Outcome, r: Row)
    requires PaidFor(s, r) && s.phase.Streaming? && 0 < n <= |s.phase.pending|
    ensures PaidFor(Apply(s, Write(n, outcome)), r)
  {
    match outcome
    case Failed =>
      assert Apply(s, Write(n, outcome)) == Stop(s);
      PaidAfterStop(s, r);
    case Done =>
      assert Apply(s, Write(n, outcome)) == Written(s, n);
      PaidAfterWrite(s, n, r);
    case LostReply =>
      assert Apply(s, Write(n, outcome)) == Stop(Written(s, n));
      PaidAfterWrite(s, n, r);
      PaidAfterStop(Written(s, n), r);
  }

  lemma BoundedStep(s: State, e: Event, r: Row)
    requires PaidFor(s, r) && Enabled(s, e)
    ensures PaidFor(Apply(s, e), r)
  {
    match e
    case Query(rows) => PaidAfterQuery(s, rows, r);
    case Write(n, outcome) => PaidAfterBatch(s, n, outcome, r);
    case ReadFails => PaidAfterStop(s, r);
    case Crash => PaidAfterStop(s, r);
    case Upsert(_) => PaidAfterStop(s, r); PaidAfterAdvance(s, r);
    case Insert(_) =>
    case Delete(_) =>
    case Reset =>
    case GetWatermark(_) =>
    case StartRun(_) =>
    case SeedMax(_) =>
    case SnapshotMax(_) =>
    case KeepWatermark =>
    case FinishRun(_) =>
  }

  lemma {:induction false} BoundedAlways(source: set<Row>, evs: seq<Event>)
    requires RunFrom(Init(source), evs).Some?
    ensures Bounded(RunFrom(Init(source), evs).value)
  {
    if evs == [] {
    } else {
      BoundedAlways(source, evs[..|evs| - 1]);
      forall r ensures PaidFor(RunFrom(Init(source), evs).value, r) {
        BoundedStep(RunFrom(Init(source), evs[..|evs| - 1]).value, evs[|evs| - 1], r);
      }
    }
  }

  /**
   Duplicate bound: in every state a row occurs in the sink at most once more than the
   attempts that covered it and stopped before their upsert took effect; between runs the
   one is for claimed rows only. A failing FinishRun comes after the upsert and pays for no
   copy.
   */
  lemma {:induction false} DuplicateBound(source: set<Row>, evs: seq<Event>, r: Row)
    requires RunFrom(Init(source), evs).Some? && NoReset(evs) && NeverBelow(source, evs)
    ensures var s := RunFrom(Init(source), evs).value;
            && s.sink[r] <= 1 + Covers(s.stopped, r)
            && (!s.phase.Streaming? || Claimed(s, r) ==>
                  s.sink[r] <= (if Claimed(s, r) then 1 else 0) + Covers(s.stopped, r))
  {
    BoundedAlways(source, evs);
    assert PaidFor(RunFrom(Init(source), evs).value, r);
    TelescopedAlways(source, evs);
    WindowsTelescope(source, evs, r);
  }

  /** A claimed row that was on time and that no stopped attempt covered is in the sink exactly once. */
  lemma {:induction false} ExactlyOnce(source: set<Row>, evs: seq<Event>, r: Row)
    requires RunFrom(Init(source), evs).Some? && NoReset(evs) && NeverBelow(source, evs)
    requires var s := RunFrom(Init(source), evs).value;
             r in s.source && r !in s.late && Claimed(s, r) && Covers(s.stopped, r) == 0
    ensures RunFrom(Init(source), evs).value.sink[r] == 1
  {
    SafeAlways(source, evs);
    DuplicateBound(source, evs, r);
  }

  // ---------- The exact condition for no loss ----------

  /** No query is open and the watermark is still below the row: the next query will see it. */
  predicate Ahead(s: State, r: Row) {
    !s.phase.Streaming? && (s.stored.Some? ==> s.stored.value < r.wm)
  }

  ghost predicate AheadAfter(source: set<Row>, evs: seq<Event>, r: Row) {
    RunFrom(Init(source), evs).Some? && Ahead(RunFrom(Init(source), evs).value, r)
  }

  /** The row is written or pending only if it is of the source and not late; late, it is behind. */
  predicate Settled(s: State, r: Row) {
    && (r in s.sink || (s.phase.Streaming? && r in s.phase.pending) ==> r in s.source && r !in s.late)
    && (r in s.late ==> r in s.source && Behind(s, r))
  }

  lemma SettledQuery(s: State, rows: seq<Row>, r: Row)
    requires Settled(s, r) && Telescoped(s) && Enabled(s, Query(rows))
    ensures Settled(Apply(s, Query(rows)), r)
  {
    assert r in rows <==> r in multiset(rows);
  }

  lemma SettledWrite(s: State, n: nat, outcome: Outcome, r: Row)
    requires Settled(s, r) && Enabled(s, Write(n, outcome))
    ensures Settled(Apply(s, Write(n, outcome)), r)
  {
    var p := s.phase.pending;
    assert p == p[..n] + p[n..];
  }

  lemma SettledStep(s: State, e: Event, r: Row)
    requires Settled(s, r) && Telescoped(s) && Enabled(s, e) && e != Delete(r) && !e.Reset?
    ensures Settled(Apply(s, e), r)
  {
    match e
    case Query(rows) => SettledQuery(s, rows, r);
    case Write(n, outcome) => SettledWrite(s, n, outcome, r);
    case _ =>
  }

  /** The row itself is not deleted, nothing is reset, and no snapshot is below the watermark. */
  ghost predicate Steady(source: set<Row>, evs: seq<Event>, r: Row) {
    NoReset(evs) && NeverBelow(source, evs) && Delete(r) !in evs
  }

  lemma SteadyFront(source: set<Row>, evs: seq<Event>, r: Row)
    requires evs != [] && Steady(source, evs, r)
    ensures Steady(source, evs[..|evs| - 1], r)
  {
    NeverBelowFront(source, evs);
  }

  lemma {:induction false} SettledAlways(source: set<Row>, evs: seq<Event>, r: Row)
    requires RunFrom(Init(source), evs).Some? && Steady(source, evs, r)
    ensures Settled(RunFrom(Init(source), evs).value, r)
  {
    if evs == [] {
    } else {
      var front := evs[..|evs| - 1];
      SteadyFront(source, evs, r);
      SettledAlways(source, front, r);
      TelescopedAlways(source, front);
      SettledStep(RunFrom(Init(source), front).value, evs[|evs| - 1], r);
    }
  }

  /** A claimed row of the source that was never deleted is lost exactly when it is late. */
  lemma {:induction false} LossExact(source: set<Row>, evs: seq<Event>, r: Row)
    requires RunFrom(Init(source), evs).Some? && Steady(source, evs, r)
    requires var s := RunFrom(Init(source), evs).value; r in s.source && Claimed(s, r)
    ensures var s := RunFrom(Init(source), evs).value; r in s.sink <==> r !in s.late
  {
    SafeAlways(source, evs);
    SettledAlways(source, evs, r);
  }

  lemma OnTimeStep(s: State, e: Event, r: Row)
    requires r in s.source && r !in s.late && Enabled(s, e) && e != Delete(r)
    ensures r in Apply(s, e).source && r !in Apply(s, e).late
  {}

  /** Once ahead, a row is never late again. */
  lemma {:induction false} AheadStays(source: set<Row>, evs: seq<Event>, k: nat, r: Row)
    requires k <= |evs| && RunFrom(Init(source), evs).Some? && Steady(source, evs, r)
    requires RunFrom(Init(source), evs[..k]).Some?
    requires var s := RunFrom(Init(source), evs[..k]).value; r in s.source && Ahead(s, r)
    ensures var s := RunFrom(Init(source), evs).value; r in s.source && r !in s.late
  {
    if k == |evs| {
      assert evs[..k] == evs;
      SettledAlways(source, evs, r);
    } else {
      var front := evs[..|evs| - 1];
      assert front[..k] == evs[..k];
      SteadyFront(source, evs, r);
      AheadStays(source, front, k, r);
      OnTimeStep(RunFrom(Init(source), front).value, evs[|evs| - 1], r);
    }
  }

  /** Late, or above the window of the run in flight. */
  predicate Waiting(s: State, r: Row) {
    || r in s.late
    || (s.phase.Streaming? && s.phase.lo < r.wm && (s.phase.upper.Some? ==> s.phase.upper.value < r.wm))
  }

  lemma WaitingStep(s: State, e: Event, r: Row)
    requires Telescoped(s) && Waiting(s, r) && Enabled(s, e) && e != Delete(r) && !e.Reset? && !Ahead(Apply(s, e), r)
    ensures Waiting(Apply(s, e), r)
  {}

  lemma WaitingInsert(s: State, r: Row)
    requires Telescoped(s) && r !in s.source && !Ahead(Apply(s, Insert(r)), r)
    ensures Waiting(Apply(s, Insert(r)), r)
  {}

  /** A row that is never ahead after its insert stays late, or above a window that stays open. */
  lemma {:induction false} NeverAhead(source: set<Row>, evs: seq<Event>, k: nat, r: Row)
    requires k < |evs| && RunFrom(Init(source), evs).Some? && Steady(source, evs, r) && evs[k] == Insert(r)
    requires RunFrom(Init(source), evs[..k]).Some? && r !in RunFrom(Init(source), evs[..k]).value.source
    requires forall j :: k < j <= |evs| ==> !AheadAfter(source, evs[..j], r)
    ensures Waiting(RunFrom(Init(source), evs).value, r)
  {
    var front := evs[..|evs| - 1];
    assert evs[..|evs|] == evs;
    SteadyFront(source, evs, r);
    TelescopedAlways(source, front);
    if k == |front| {
      assert evs[..k] == front;
      WaitingInsert(RunFrom(Init(source), front).value, r);
    } else {
      assert front[..k] == evs[..k];
      forall j | k < j <= |front| ensures front[..j] == evs[..j] {}
      NeverAhead(source, front, k, r);
      WaitingStep(RunFrom(Init(source), front).value, evs[|evs| - 1], r);
    }
  }

  /**
   The exact condition on inserts, checked step by step: a claimed row inserted at step k,
   in whatever phase, and never deleted, is delivered if and only if at some later moment no
   query was open while the watermark was still below it.
   */
  lemma {:induction false} LateRowFate(source: set<Row>, evs: seq<Event>, k: nat, r: Row)
    requires k < |evs| && RunFrom(Init(source), evs).Some? && Steady(source, evs, r) && evs[k] == Insert(r)
    requires RunFrom(Init(source), evs[..k]).Some? && r !in RunFrom(Init(source), evs[..k]).value.source
    requires Claimed(RunFrom(Init(source), evs).value, r)
    ensures r in RunFrom(Init(source), evs).value.sink
        <==> exists j :: k < j <= |evs| && AheadAfter(source, evs[..j], r)
  {
    InsertedStays(source, evs, k, r);
    LossExact(source, evs, r);
    if j :| k < j <= |evs| && AheadAfter(source, evs[..j], r) {
      assert evs[..j][..k] == evs[..k];
      InsertedStays(source, evs[..j], k, r);
      AheadStays(source, evs, j, r);
    } else {
      NeverAhead(source, evs, k, r);
      TelescopedAlways(source, evs);
    }
  }

  lemma InsertedStep(s: State, e: Event, r: Row)
    requires Enabled(s, e) && e != Delete(r) && (r in s.source || e == Insert(r))
    ensures r in Apply(s, e).source
  {}

  lemma {:induction false} InsertedStays(source: set<Row>, evs: seq<Event>, k: nat, r: Row)
    requires k < |evs| && RunFrom(Init(source), evs).Some? && Delete(r) !in evs && evs[k] == Insert(r)
    ensures r in RunFrom(Init(source), evs).value.source
  {
    if k < |evs| - 1 {
      InsertedStays(source, evs[..|evs| - 1], k, r);
    }
    InsertedStep(RunFrom(Init(source), evs[..|evs| - 1]).value, evs[|evs| - 1], r);
  }

  lemma RunSnoc(s: State, evs: seq<Event>, p: State, e: Event)
    requires RunFrom(s, evs) == Some(p) && Enabled(p, e)
    ensures RunFrom(s, evs + [e]) == Some(Apply(p, e))
    ensures AppendOnly(evs) && !e.Delete? && !e.Reset? ==> AppendOnly(evs + [e])
  {
    assert (evs + [e])[..|evs|] == evs;
  }

  /** A run that seeds the watermark with m. */
  function SeedSteps(m: int): seq<Event> {
    [GetWatermark(true)] + [StartRun(true)] + [SeedMax(Some(m))] + [Upsert(Done)] + [FinishRun(true)]
  }

  lemma SeedingState(s0: State, evs: seq<Event>, s: State, m: int)
    requires RunFrom(s0, evs) == Some(s) && s.phase.Idle? && s.stored.None? && IsMax(s.source, Some(m))
    ensures RunFrom(s0, evs + [GetWatermark(true)] + [StartRun(true)] + [SeedMax(Some(m))])
         == Some(s.(phase := Seeding(Some(m))))
  {
    RunSnoc(s0, evs, s, GetWatermark(true));
    RunSnoc(s0, evs + [GetWatermark(true)], s.(phase := Fetched(None)), StartRun(true));
    RunSnoc(s0, evs + [GetWatermark(true)] + [StartRun(true)], s.(phase := Started(None)), SeedMax(Some(m)));
  }

  lemma SeededState(s0: State, evs: seq<Event>, s: State, m: int)
    requires RunFrom(s0, evs) == Some(s) && s.phase == Seeding(Some(m)) && s.base.None?
    ensures RunFrom(s0, evs + [Upsert(Done)] + [FinishRun(true)])
         == Some(s.(stored := Some(m), base := Some(m), phase := Idle))
  {
    assert s.advanced + [] == s.advanced;
    RunSnoc(s0, evs, s, Upsert(Done));
    RunSnoc(s0, evs + [Upsert(Done)], s.(stored := Some(m), base := Some(m), phase := Finishing), FinishRun(true));
  }

  lemma SeedStepsState(s0: State, evs: seq<Event>, s: State, m: int)
    requires RunFrom(s0, evs) == Some(s) && s.phase.Idle? && s.stored.None? && s.base.None? && IsMax(s.source, Some(m))
    ensures RunFrom(s0, evs + SeedSteps(m)) == Some(s.(stored := Some(m), base := Some(m)))
  {
    var seeding := evs + [GetWatermark(true)] + [StartRun(true)] + [SeedMax(Some(m))];
    SeedingState(s0, evs, s, m);
    SeededState(s0, seeding, s.(phase := Seeding(Some(m))), m);
    assert evs + SeedSteps(m) == seeding + [Upsert(Done)] + [FinishRun(true)];
  }

  /** The first run of a load whose source holds the one row a. */
  function SeedRun(a: Row): seq<Event> { SeedSteps(a.wm) }

  lemma SeedAppends(m: int)
    ensures AppendOnly(SeedSteps(m))
  {}

  lemma SeedRunState(a: Row)
    ensures AppendOnly(SeedRun(a))
    ensures RunFrom(Init({a}), SeedRun(a))
         == Some(State({a}, Some(a.wm), multiset{}, Idle, Some(a.wm), {}, [], []))
  {
    SeedAppends(a.wm);
    var none: seq<Event> := [];
    assert a in {a} && IsMax({a}, Some(a.wm));
    SeedStepsState(Init({a}), none, Init({a}), a.wm);
    assert none + SeedRun(a) == SeedRun(a);
  }

  /** The next run up to its query, with c the one new row. */
  lemma OpenRunState(a: Row, c: Row)
    requires a.wm < c.wm
    ensures AppendOnly(SeedRun(a) + [Insert(c)] + [GetWatermark(true)] + [StartRun(true)]
                       + [SnapshotMax(Some(c.wm))] + [Query([c])])
    ensures RunFrom(Init({a}), SeedRun(a) + [Insert(c)] + [GetWatermark(true)] + [StartRun(true)]
                               + [SnapshotMax(Some(c.wm))] + [Query([c])])
         == Some(State({a, c}, Some(a.wm), multiset{}, Streaming(a.wm, Some(c.wm), [c]), Some(a.wm), {}, [], []))
  {
    SeedRunState(a);
    var s, evs := Init({a}), SeedRun(a);
    var p0 := RunFrom(s, evs).value;
    var p1 := p0.(source := {a, c});
    var p2, p3 := p1.(phase := Fetched(Some(a.wm))), p1.(phase := Started(Some(a.wm)));
    var p4 := p1.(phase := Snapped(a.wm, Some(c.wm)));
    assert p0.source + {c} == {a, c};
    assert c in p3.source;
    assert Selected(p4.source, a.wm, Some(c.wm)) == {c};
    RunSnoc(s, evs, p0, Insert(c));
    RunSnoc(s, evs + [Insert(c)], p1, GetWatermark(true));
    RunSnoc(s, evs + [Insert(c)] + [GetWatermark(true)], p2, StartRun(true));
    RunSnoc(s, evs + [Insert(c)] + [GetWatermark(true)] + [StartRun(true)], p3, SnapshotMax(Some(c.wm)));
    RunSnoc(s, evs + [Insert(c)] + [GetWatermark(true)] + [StartRun(true)] + [SnapshotMax(Some(c.wm))], p4, Query([c]));
  }

  /** A row b comes in behind the query, and the run completes. */
  lemma CloseRunState(s: State, evs: seq<Event>, a: Row, b: Row, c: Row)
    requires a.wm < b.wm < c.wm
    requires RunFrom(s, evs)
          == Some(State({a, c}, Some(a.wm), multiset{}, Streaming(a.wm, Some(c.wm), [c]), Some(a.wm), {}, [], []))
    ensures AppendOnly(evs) ==> AppendOnly(evs + [Insert(b)] + [Write(1, Done)] + [Upsert(Done)] + [FinishRun(true)])
    ensures RunFrom(s, evs + [Insert(b)] + [Write(1, Done)] + [Upsert(Done)] + [FinishRun(true)])
         == Some(State({a, c, b}, Some(c.wm), multiset{c}, Idle, Some(a.wm), {b}, [Window(a.wm, c.wm)], []))
  {
    var p := RunFrom(s, evs).value;
    var p1 := p.(source := {a, c, b}, late := {b});
    var p2 := p1.(sink := multiset{c}, phase := Streaming(a.wm, Some(c.wm), []));
    var p3 := p2.(stored := Some(c.wm), advanced := [Window(a.wm, c.wm)], phase := Finishing);
    assert {a, c} + {b} == {a, c, b} && {} + {b} == {b};
    assert [c][..1] == [c] && [c][1..] == [] && multiset{} + multiset([c]) == multiset{c};
    assert Apply(p1, Write(1, Done)) == p2;
    assert [] + [Window(a.wm, c.wm)] == [Window(a.wm, c.wm)];
    assert Apply(p2, Upsert(Done)) == p3;
    RunSnoc(s, evs, p, Insert(b));
    RunSnoc(s, evs + [Insert(b)], p1, Write(1, Done));
    RunSnoc(s, evs + [Insert(b)] + [Write(1, Done)], p2, Upsert(Done));
    RunSnoc(s, evs + [Insert(b)] + [Write(1, Done)] + [Upsert(Done)], p3, FinishRun(true));
  }

  /**
   Loss is real: a row b committed below the snapshot after the query ran is passed by the
   watermark of a history in which every call succeeds.
   */
  lemma LosesLateRow(a: Row, b: Row, c: Row) returns (evs: seq<Event>)
    requires a.wm < b.wm < c.wm
    ensures RunFrom(Init({a}), evs).Some? && AppendOnly(evs)
    ensures var s := RunFrom(Init({a}), evs).value;
            s.phase.Idle? && s.stopped == [] && b in s.source && Claimed(s, b) && b !in s.sink
  {
    OpenRunState(a, c);
    evs := SeedRun(a) + [Insert(c)] + [GetWatermark(true)] + [StartRun(true)] + [SnapshotMax(Some(c.wm))]
        + [Query([c])];
    CloseRunState(Init({a}), evs, a, b, c);
    evs := evs + [Insert(b)] + [Write(1, Done)] + [Upsert(Done)] + [FinishRun(true)];
  }

  ghost predicate Missed(s: State, r: Row) {
    && s.stored.Some? && r.wm <= s.stored.value
    && r !in s.sink
    && (s.phase.Streaming? ==> r !in s.phase.pending)
  }

  lemma MissedQuery(s: State, rows: seq<Row>, r: Row)
    requires Safe(s) && Missed(s, r) && Enabled(s, Query(rows))
    ensures Missed(Apply(s, Query(rows)), r)
  {
    assert r in rows <==> r in multiset(rows);
  }

  lemma MissedStep(s: State, e: Event, r: Row)
    requires Safe(s) && Rising(s.phase) && Missed(s, r) && Enabled(s, e) && !e.Reset?
    ensures Missed(Apply(s, e), r)
  {
    match e
    case Query(rows) => MissedQuery(s, rows, r);
    case Write(n, _) =>
      var p := s.phase.pending;
      assert p == p[..n] + p[n..];
    case _ =>
  }

  /**
   A row behind the stored watermark and neither in the sink nor on its way there never gets
   there, unless the watermark falls or is reset; also if it is below the first watermark.
   */
  lemma {:induction false} MissedForever(source: set<Row>, evs: seq<Event>, k: nat, r: Row)
    requires k <= |evs| && RunFrom(Init(source), evs).Some? && NeverBelow(source, evs) && NoReset(evs[k..])
    requires RunFrom(Init(source), evs[..k]).Some? && Missed(RunFrom(Init(source), evs[..k]).value, r)
    ensures Missed(RunFrom(Init(source), evs).value, r)
  {
    if k == |evs| {
      assert evs[..k] == evs;
    } else {
      var front := evs[..|evs| - 1];
      assert front[..k] == evs[..k] && evs[k..] == front[k..] + [evs[|evs| - 1]];
      NeverBelowFront(source, evs);
      MissedForever(source, front, k, r);
      SafeAlways(source, front);
      RisingAlways(source, front);
      MissedStep(RunFrom(Init(source), front).value, evs[|evs| - 1], r);
    }
  }

  // ---------- When the watermark falls or is reset ----------

  /** The first steps of a run, up to its query. */
  function QuerySteps(m: Option<int>, rows: seq<Row>): seq<Event> {
    [GetWatermark(true)] + [StartRun(true)] + [SnapshotMax(m)] + [Query(rows)]
  }

  lemma QueryRun(s0: State, evs: seq<Event>, s: State, m: Option<int>, rows: seq<Row>)
    requires RunFrom(s0, evs) == Some(s) && s.phase.Idle? && s.stored.Some? && IsMax(s.source, m)
    requires multiset(rows) == multiset(Selected(s.source, s.stored.value, m))
    ensures RunFrom(s0, evs + QuerySteps(m, rows)) == Some(s.(phase := Streaming(s.stored.value, m, rows)))
  {
    var p1, p2 := s.(phase := Fetched(s.stored)), s.(phase := Started(s.stored));
    var p3 := s.(phase := Snapped(s.stored.value, m));
    RunSnoc(s0, evs, s, GetWatermark(true));
    RunSnoc(s0, evs + [GetWatermark(true)], p1, StartRun(true));
    RunSnoc(s0, evs + [GetWatermark(true)] + [StartRun(true)], p2, SnapshotMax(m));
    RunSnoc(s0, evs + [GetWatermark(true)] + [StartRun(true)] + [SnapshotMax(m)], p3, Query(rows));
    assert evs + QuerySteps(m, rows)
        == evs + [GetWatermark(true)] + [StartRun(true)] + [SnapshotMax(m)] + [Query(rows)];
  }

  /** The last steps of a run, from its last batch on. */
  lemma SettleRun(s0: State, evs: seq<Event>, s: State)
    requires RunFrom(s0, evs) == Some(s) && s.phase.Streaming? && MustUpsert(s.phase) && s.base.Some?
    ensures RunFrom(s0, evs + [Upsert(Done)] + [FinishRun(true)])
         == Some(s.(phase := Idle, stored := s.phase.upper, advanced := s.advanced + WindowOf(s.phase)))
  {
    RunSnoc(s0, evs, s, Upsert(Done));
    RunSnoc(s0, evs + [Upsert(Done)], Apply(s, Upsert(Done)), FinishRun(true));
  }

  /** A run that loads the one row above the watermark. */
  function LoadRun(c: Row): seq<Event> {
    QuerySteps(Some(c.wm), [c]) + [Write(1, Done)] + [Upsert(Done)] + [FinishRun(true)]
  }

  lemma LoadRunState(s0: State, evs: seq<Event>, s: State, c: Row)
    requires RunFrom(s0, evs) == Some(s) && s.phase.Idle? && s.stored.Some? && s.base.Some?
    requires c in s.source && s.stored.value < c.wm && forall r :: r in s.source && r != c ==> r.wm <= s.stored.value
    ensures RunFrom(s0, evs + LoadRun(c))
         == Some(s.(stored := Some(c.wm), sink := s.sink + multiset{c},
                    advanced := s.advanced + [Window(s.stored.value, c.wm)]))
  {
    assert Selected(s.source, s.stored.value, Some(c.wm)) == {c};
    QueryRun(s0, evs, s, Some(c.wm), [c]);
    var q, p := evs + QuerySteps(Some(c.wm), [c]), s.(phase := Streaming(s.stored.value, Some(c.wm), [c]));
    assert [c][..1] == [c] && [c][1..] == [] && multiset([c]) == multiset{c};
    RunSnoc(s0, q, p, Write(1, Done));
    SettleRun(s0, q + [Write(1, Done)], Written(p, 1));
    assert evs + LoadRun(c) == q + [Write(1, Done)] + [Upsert(Done)] + [FinishRun(true)];
  }

  /** A run whose snapshot a is below the watermark: it reads nothing and stores the snapshot. */
  function FallRun(a: Row): seq<Event> {
    QuerySteps(Some(a.wm), []) + [Upsert(Done)] + [FinishRun(true)]
  }

  lemma FallRunState(s0: State, evs: seq<Event>, s: State, a: Row)
    requires RunFrom(s0, evs) == Some(s) && s.phase.Idle? && s.stored.Some? && s.base.Some?
    requires s.source == {a} && a.wm < s.stored.value
    ensures RunFrom(s0, evs + FallRun(a))
         == Some(s.(stored := Some(a.wm), advanced := s.advanced + [Window(s.stored.value, a.wm)]))
  {
    assert a in s.source && Selected(s.source, s.stored.value, Some(a.wm)) == {};
    QueryRun(s0, evs, s, Some(a.wm), []);
    var q := evs + QuerySteps(Some(a.wm), []);
    SettleRun(s0, q, s.(phase := Streaming(s.stored.value, Some(a.wm), [])));
    assert evs + FallRun(a) == q + [Upsert(Done)] + [FinishRun(true)];
  }

  /** Loads c above a. */
  function Risen(a: Row, c: Row): seq<Event> { SeedRun(a) + [Insert(c)] + LoadRun(c) }

  /** Then deletes it and runs again: the watermark falls back to a. */
  function Fallen(a: Row, c: Row): seq<Event> { Risen(a, c) + [Delete(c)] + FallRun(a) }

  /** And then c comes in again. */
  function Repeated(a: Row, c: Row): seq<Event> { Fallen(a, c) + [Insert(c)] + LoadRun(c) }

  lemma FallenState(a: Row, c: Row)
    requires a.wm < c.wm
    ensures RunFrom(Init({a}), Risen(a, c))
         == Some(State({a, c}, Some(c.wm), multiset{c}, Idle, Some(a.wm), {}, [Window(a.wm, c.wm)], []))
    ensures RunFrom(Init({a}), Fallen(a, c))
         == Some(State({a}, Some(a.wm), multiset{c}, Idle, Some(a.wm), {},
                       [Window(a.wm, c.wm), Window(c.wm, a.wm)], []))
  {
    SeedRunState(a);
    var s0, evs := Init({a}), SeedRun(a);
    var p0 := RunFrom(s0, evs).value;
    assert {a} + {c} == {a, c} && {a, c} - {c} == {a} && {} - {c} == {};
    RunSnoc(s0, evs, p0, Insert(c));
    var p1 := p0.(source := {a, c});
    LoadRunState(s0, evs + [Insert(c)], p1, c);
    var p2 := p1.(stored := Some(c.wm), sink := multiset{c}, advanced := [Window(a.wm, c.wm)]);
    assert multiset{} + multiset{c} == multiset{c} && [] + [Window(a.wm, c.wm)] == [Window(a.wm, c.wm)];
    RunSnoc(s0, evs + [Insert(c)] + LoadRun(c), p2, Delete(c));
    FallRunState(s0, evs + [Insert(c)] + LoadRun(c) + [Delete(c)], p2.(source := {a}), a);
    assert [Window(a.wm, c.wm)] + [Window(c.wm, a.wm)] == [Window(a.wm, c.wm), Window(c.wm, a.wm)];
  }

  lemma NoResetConcat(a: seq<Event>, b: seq<Event>)
    requires NoReset(a) && NoReset(b)
    ensures NoReset(a + b)
  {}

  lemma RepeatedNoReset(a: Row, c: Row)
    ensures NoReset(Repeated(a, c))
  {
    NoResetConcat(SeedRun(a), [Insert(c)]);
    NoResetConcat(SeedRun(a) + [Insert(c)], LoadRun(c));
    NoResetConcat(Risen(a, c), [Delete(c)]);
    NoResetConcat(Risen(a, c) + [Delete(c)], FallRun(a));
    NoResetConcat(Fallen(a, c), [Insert(c)]);
    NoResetConcat(Fallen(a, c) + [Insert(c)], LoadRun(c));
  }

  lemma RepeatedState(a: Row, c: Row)
    requires a.wm < c.wm
    ensures RunFrom(Init({a}), Repeated(a, c)).Some?
    ensures var s := RunFrom(Init({a}), Repeated(a, c)).value;
            s.phase.Idle? && s.stopped == [] && s.sink == multiset{c, c}
  {
    FallenState(a, c);
    var s0, p := Init({a}), RunFrom(Init({a}), Fallen(a, c)).value;
    assert {a} + {c} == {a, c} && Apply(p, Insert(c)) == p.(source := {a, c});
    RunSnoc(s0, Fallen(a, c), p, Insert(c));
    LoadRunState(s0, Fallen(a, c) + [Insert(c)], p.(source := {a, c}), c);
  }

  /**
   The watermark can fall: after the newest row is deleted a run in which every call succeeds
   lowers it, and a row inserted again is then loaded a second time though no attempt stopped.
   */
  lemma WatermarkFalls(a: Row, c: Row)
    requires a.wm < c.wm
    ensures Risen(a, c) <= Fallen(a, c) <= Repeated(a, c) && NoReset(Repeated(a, c))
    ensures var high := RunFrom(Init({a}), Risen(a, c)); high.Some? && high.value.stored == Some(c.wm)
    ensures var low := RunFrom(Init({a}), Fallen(a, c)); low.Some? && low.value.stored == Some(a.wm)
    ensures var twice := RunFrom(Init({a}), Repeated(a, c));
            twice.Some? && twice.value.phase.Idle? && twice.value.stopped == [] && twice.value.sink[c] == 2
  {
    FallenState(a, c);
    RepeatedState(a, c);
    RepeatedNoReset(a, c);
    assert Fallen(a, c) == Risen(a, c) + ([Delete(c)] + FallRun(a));
    assert Repeated(a, c) == Fallen(a, c) + ([Insert(c)] + LoadRun(c));
  }

  /**
   What a reset costs: a row at or below the watermark that a seeding run stores, and not in
   the sink by then, is never delivered, until the next reset.
   */
  lemma {:induction false} SeedSkips(source: set<Row>, evs: seq<Event>, k: nat, r: Row)
    requires k < |evs| && RunFrom(Init(source), evs).Some? && NeverBelow(source, evs) && NoReset(evs[k + 1..])
    requires RunFrom(Init(source), evs[..k]).Some?
    requires var s := RunFrom(Init(source), evs[..k]).value;
             && evs[k].Upsert? && evs[k].outcome != Failed
             && s.phase.Seeding? && s.phase.upper.Some? && r.wm <= s.phase.upper.value && r !in s.sink
    ensures r !in RunFrom(Init(source), evs).value.sink
  {
    assert evs[..k + 1][..k] == evs[..k];
    assert RunFrom(Init(source), evs[..k + 1]) == RunAt(source, evs, k);
    MissedForever(source, evs, k + 1, r);
  }

  ghost function RunAt(source: set<Row>, evs: seq<Event>, k: nat): Option<State>
    requires k < |evs| && RunFrom(Init(source), evs[..k]).Some?
  {
    var s := RunFrom(Init(source), evs[..k]).value;
    if Enabled(s, evs[k]) then Some(Apply(s, evs[k])) else None
  }

  /** A load seeds at a, then b comes in. */
  function Pending(a: Row, b: Row): seq<Event> { SeedRun(a) + [Insert(b)] }

  /** Before b is loaded the watermark is reset, and the next run seeds again. */
  function Reseeded(a: Row, b: Row): seq<Event> { Pending(a, b) + [Reset] + SeedSteps(b.wm) }

  /** And such rows there are: b lies above the watermark before the reset and at it after the next seed. */
  lemma ResetSkips(a: Row, b: Row)
    requires a.wm < b.wm
    ensures var s := RunFrom(Init({a}), Pending(a, b));
            s.Some? && s.value.phase.Idle? && s.value.stored == Some(a.wm) && b in s.value.source
    ensures var s := RunFrom(Init({a}), Reseeded(a, b));
            && s.Some? && s.value.phase.Idle? && s.value.stored == s.value.base == Some(b.wm)
            && b in s.value.source && b !in s.value.sink
  {
    SeedRunState(a);
    var s0, p0 := Init({a}), RunFrom(Init({a}), SeedRun(a)).value;
    var p1 := p0.(source := {a} + {b});
    RunSnoc(s0, SeedRun(a), p0, Insert(b));
    RunSnoc(s0, Pending(a, b), p1, Reset);
    assert b in p1.source;
    SeedStepsState(s0, Pending(a, b) + [Reset], p1.(stored := None, base := None), b.wm);
  }
}
