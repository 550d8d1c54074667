/**
 Housekeeping of run rows: the batched DELETE loop while the rest of the system inserts new
 runs and finishes old ones between any two batches.
 */
module Prune {
  import opened RunHistory

  type Rows = map<nat, Row>

  predicate Prunable(row: Row, cutoff: int) { row.startedAt < cutoff && row.status != Running }

  /** The ids a DELETE without TOP would remove. */
  function Matching(rows: Rows, cutoff: int): set<nat> {
    set id | id in rows && Prunable(rows[id], cutoff)
  }

  /** Rows older than the cutoff in any status: what bounds the loop. */
  function Older(rows: Rows, cutoff: int): set<nat> {
    set id | id in rows && rows[id].startedAt < cutoff
  }

  /** A later state of the table: rows may be new, finished, or deleted while prunable. */
  ghost predicate Evolves(rows: Rows, deleted: Rows, rows': Rows, deleted': Rows, cutoff: int) {
    && (forall id :: id in deleted ==> id in deleted' && deleted'[id] == deleted[id])
    && (forall id :: id in deleted' && id !in deleted ==> Prunable(deleted'[id], cutoff))
    && (forall id :: id in rows ==>
          if id in rows' then rows'[id].startedAt == rows[id].startedAt
          else id in deleted' && id !in deleted && deleted'[id].startedAt == rows[id].startedAt)
  }

  lemma EvolvesTransitive(r0: Rows, d0: Rows, r1: Rows, d1: Rows, r2: Rows, d2: Rows, cutoff: int)
    requires Evolves(r0, d0, r1, d1, cutoff) && Evolves(r1, d1, r2, d2, cutoff) && d2.Keys !! r2.Keys
    ensures Evolves(r0, d0, r2, d2, cutoff)
  {
    forall id | id in r0
      ensures if id in r2 then r2[id].startedAt == r0[id].startedAt
              else id in d2 && id !in d0 && d2[id].startedAt == r0[id].startedAt
    {
      if id in r1 {
        assert if id in r2 then r2[id].startedAt == r1[id].startedAt else id in d2 && id !in d1;
      } else {
        assert id in d1 && id in d2 && id in d2.Keys;
      }
    }
  }

  /** The rows deleted so far and those being deleted now. */
  ghost function Logged(rows: Rows, deleted: Rows, gone: set<nat>): (log: Rows)
    requires gone <= rows.Keys
    ensures log.Keys == deleted.Keys + gone
    ensures forall id :: id in gone ==> log[id] == rows[id]
    ensures forall id :: id in deleted && id !in gone ==> log[id] == deleted[id]
  {
    deleted + (map id | id in gone :: rows[id])
  }

  lemma DisjointUnion(a: set<nat>, b: set<nat>)
    requires a !! b
    ensures |a + b| == |a| + |b|
  {}

  lemma MatchingRows(rows: Rows, gone: set<nat>, cutoff: int)
    requires gone <= Matching(rows, cutoff)
    ensures gone <= rows.Keys && forall id :: id in gone ==> Prunable(rows[id], cutoff)
  {}

  lemma DeleteEvolves(rows: Rows, deleted: Rows, gone: set<nat>, cutoff: int)
    requires gone <= rows.Keys && (forall id :: id in gone ==> Prunable(rows[id], cutoff)) && deleted.Keys !! rows.Keys
    ensures Evolves(rows, deleted, rows - gone, Logged(rows, deleted, gone), cutoff)
    ensures Logged(rows, deleted, gone).Keys !! (rows - gone).Keys
  {
    var log := Logged(rows, deleted, gone);
  }

  /** Deleting prunable rows takes them out of the older ones, one for one. */
  lemma OlderShrinks(rows: Rows, gone: set<nat>, cutoff: int)
    requires gone <= rows.Keys && forall id :: id in gone ==> Prunable(rows[id], cutoff)
    ensures |Older(rows - gone, cutoff)| == |Older(rows, cutoff)| - |gone|
  {
    var left := Older(rows - gone, cutoff);
    assert left + gone == Older(rows, cutoff) && left !! gone;
    DisjointUnion(left, gone);
  }

  /** Some n ids of a set. */
  method Choose(ids: set<nat>, n: nat) returns (some: set<nat>)
    requires n <= |ids|
    ensures some <= ids && |some| == n && (n == |ids| ==> some == ids)
  {
    some := {};
    var left := ids;
    while |some| < n
      invariant some + left == ids && some !! left && |some| <= n
      decreases n - |some|
    {
      assert |ids| == |some| + |left|;
      var id :| id in left;
      some, left := some + {id}, left - {id};
    }
    assert |ids| == |some| + |left|;
  }

  /** All replies since then allowed the loop to go on. */
  ghost predicate Allowed(from: seq<bool>, replies: seq<bool>) {
    from <= replies && forall i :: |from| <= i < |replies| ==> replies[i]
  }

  /** What nothing matches is running or young. */
  lemma RowsLeft(rows: Rows, cutoff: int)
    requires Matching(rows, cutoff) == {}
    ensures forall id :: id in rows ==> rows[id].status == Running || cutoff <= rows[id].startedAt
  {
    forall id | id in rows ensures rows[id].status == Running || cutoff <= rows[id].startedAt {
      assert id !in Matching(rows, cutoff);
    }
  }

  class RunStore {
    var rows: Rows
    var nextId: nat

    /** Every row deleted so far, as it was when it was deleted. */
    ghost var deleted: Rows

    /** What the loop was told before and after each DELETE: whether it may go on. */
    ghost var replies: seq<bool>

    /** Ids are never reused. */
    ghost predicate Valid()
      reads this
    {
      && deleted.Keys !! rows.Keys
      && (forall id :: id in rows ==> id < nextId)
      && (forall id :: id in deleted ==> id < nextId)
    }

    constructor (rows: Rows, nextId: nat)
      requires forall id :: id in rows ==> id < nextId
      ensures Valid() && this.rows == rows && deleted == map[]
    {
      this.rows := rows;
      this.nextId := nextId;
      deleted, replies := map[], [];
    }

    /** DELETE TOP (n): removes matching rows, as many as there are up to n. */
    method DeleteTop(n: nat, cutoff: int) returns (count: nat, ghost gone: set<nat>)
      requires Valid()
      modifies this`rows, this`deleted
      ensures Valid() && Evolves(old(rows), old(deleted), rows, deleted, cutoff)
      ensures count == |gone| && gone <= Matching(old(rows), cutoff) && rows == old(rows) - gone
      ensures if count < n then gone == Matching(old(rows), cutoff) else count == n
      ensures forall id :: id in gone ==>
                var row := old(rows)[id];
                (row.status == Success || row.status == Failed || row.status == Aborted) && row.startedAt < cutoff
      ensures deleted.Keys == old(deleted).Keys + gone && |deleted.Keys| == |old(deleted).Keys| + count
      ensures |Older(rows, cutoff)| == |Older(old(rows), cutoff)| - count
    {
      var all := Matching(rows, cutoff);
      count := if |all| < n then |all| else n;
      var ids := Choose(all, count);
      gone := ids;
      MatchingRows(rows, ids, cutoff);
      OlderShrinks(rows, ids, cutoff);
      DisjointUnion(deleted.Keys, ids);
      Delete(ids, cutoff);
    }

    /** Takes the given rows out of the table and logs them. */
    method Delete(ids: set<nat>, ghost cutoff: int)
      requires Valid() && ids <= rows.Keys && forall id :: id in ids ==> Prunable(rows[id], cutoff)
      modifies this`rows, this`deleted
      ensures Valid() && Evolves(old(rows), old(deleted), rows, deleted, cutoff)
      ensures rows == old(rows) - ids && deleted.Keys == old(deleted).Keys + ids
    {
      DeleteEvolves(rows, deleted, ids, cutoff);
      deleted := Logged(rows, deleted, ids);
      rows := rows - ids;
    }

    /** Meanwhile: new runs start after the cutoff and old ones finish. Nothing at all when `quiet`. */
    method Elsewhere(cutoff: int, quiet: bool)
      requires Valid()
      modifies this`rows, this`nextId
      ensures Valid() && Evolves(old(rows), deleted, rows, deleted, cutoff)
      ensures quiet ==> rows == old(rows)
      ensures Older(rows, cutoff) == Older(old(rows), cutoff)
    {
      var n: nat := *;
      while 0 < n && !quiet
        invariant Valid() && (quiet ==> rows == old(rows))
        invariant Older(rows, cutoff) == Older(old(rows), cutoff)
        invariant forall id :: id in old(rows) ==> id in rows && rows[id].startedAt == old(rows)[id].startedAt
        decreases n
      {
        n := n - 1;
        var id: nat, row: Row := *, *;
        if row.startedAt >= cutoff {
          rows, nextId := rows[nextId := row], nextId + 1;
        } else if id in rows && rows[id].status == Running {
          rows := rows[id := rows[id].(status := row.status)];
        }
      }
    }

    /** One turn of the prune loop and what happens before the next one. */
    method Turn(size: nat, cutoff: int, quiet: bool) returns (count: nat)
      requires Valid() && 0 < size
      modifies this`rows, this`deleted, this`nextId
      ensures Valid() && Evolves(old(rows), old(deleted), rows, deleted, cutoff)
      ensures |deleted.Keys| == |old(deleted).Keys| + count
      ensures quiet ==> Undisturbed(old(rows), old(deleted), rows, deleted, cutoff)
      ensures quiet && count < size ==> Matching(rows, cutoff) == {}
      ensures |Older(rows, cutoff)| == |Older(old(rows), cutoff)| - count && count <= size
    {
      ghost var gone;
      count, gone := DeleteTop(size, cutoff);
      ghost var left := rows;
      MatchingRows(old(rows), gone, cutoff);
      TakenUndisturbed(old(rows), old(deleted), gone, deleted, cutoff);
      Elsewhere(cutoff, quiet);
      EvolvesTransitive(old(rows), old(deleted), left, deleted, rows, deleted, cutoff);
    }

    /** And what it adds to what was done since r0 and d0. */
    method Round(size: nat, cutoff: int, quiet: bool, ghost r0: Rows, ghost d0: Rows) returns (count: nat)
      requires Valid() && 0 < size && Evolves(r0, d0, rows, deleted, cutoff)
      requires quiet ==> Undisturbed(r0, d0, rows, deleted, cutoff)
      modifies this`rows, this`deleted, this`nextId
      ensures Valid() && Evolves(r0, d0, rows, deleted, cutoff)
      ensures |deleted.Keys| == |old(deleted).Keys| + count
      ensures quiet ==> Undisturbed(r0, d0, rows, deleted, cutoff)
      ensures quiet && count < size ==> Matching(rows, cutoff) == {}
      ensures |Older(rows, cutoff)| == |Older(old(rows), cutoff)| - count && count <= size
    {
      count := Turn(size, cutoff, quiet);
      EvolvesTransitive(r0, d0, old(rows), old(deleted), rows, deleted, cutoff);
      if quiet {
        UndisturbedTransitive(r0, d0, old(rows), old(deleted), rows, deleted, cutoff);
      }
    }

    /** Whether the loop may go on: the context is alive, or the last DELETE gave no error. */
    method Reply() returns (ok: bool)
      modifies this`replies
      ensures forall from :: Allowed(from, old(replies)) ==> (Allowed(from, replies) <==> ok)
    {
      ok := *;
      replies := replies + [ok];
      forall from | Allowed(from, old(replies)) ensures Allowed(from, replies) <==> ok {
        assert replies[|replies| - 1] == ok;
      }
    }

    /**
     The prune loop. It stops because every full batch removes an older row and nothing adds
     one, and finishes exactly if it was not cancelled and no statement failed. It removes only
     rows that have a terminal status and are older than the cutoff at that moment. It returns
     their number, less the last batch when that statement took effect but its reply was an
     error; and undisturbed it removes every such row and no other.
     */
    method PruneLoadRuns(cutoff: int, batchSize: int, quiet: bool)
      returns (total: nat, finished: bool, ghost lost: nat)
      requires Valid()
      modifies this
      ensures Valid() && Evolves(old(rows), old(deleted), rows, deleted, cutoff)
      ensures forall id :: id in deleted && id !in old(deleted) ==>
                && (deleted[id].status == Success || deleted[id].status == Failed || deleted[id].status == Aborted)
                && deleted[id].startedAt < cutoff
      ensures |deleted.Keys| == |old(deleted).Keys| + total + lost
      ensures lost <= (if batchSize <= 0 then 5000 else batchSize) && (finished ==> lost == 0)
      ensures finished <==> Allowed(old(replies), replies)
      ensures finished && quiet ==>
                && rows == old(rows) - Matching(old(rows), cutoff) && total == |Matching(old(rows), cutoff)|
                && forall id :: id in rows ==> rows[id].status == Running || cutoff <= rows[id].startedAt
    {
      var size: nat := if batchSize <= 0 then 5000 else batchSize;
      total, finished, lost := 0, false, 0;
      while !finished
        invariant Valid() && Evolves(old(rows), old(deleted), rows, deleted, cutoff)
        invariant |deleted.Keys| == |old(deleted).Keys| + total && lost == 0
        invariant Allowed(old(replies), replies)
        invariant quiet ==> Undisturbed(old(rows), old(deleted), rows, deleted, cutoff)
        invariant quiet && finished ==> Matching(rows, cutoff) == {}
        decreases !finished, |Older(rows, cutoff)|
      {
        var live := Reply();
        if !live {
          return;
        }
        var n := Round(size, cutoff, quiet, old(rows), old(deleted));
        var ok := Reply();
        if !ok {
          lost := n;
          return;
        }
        total := total + n;
        finished := n < size;
      }
      if quiet {
        AllTaken(old(rows), old(deleted), rows, deleted, cutoff);
        RowsLeft(rows, cutoff);
      }
    }
  }

  /** Nothing but the prune loop acted: the rows missing are the rows logged, and they matched. */
  ghost predicate Undisturbed(rows: Rows, deleted: Rows, rows': Rows, deleted': Rows, cutoff: int) {
    && rows'.Keys <= rows.Keys
    && (forall id :: id in rows' ==> rows'[id] == rows[id])
    && (forall id :: id in rows && id !in rows' ==> Prunable(rows[id], cutoff))
    && deleted.Keys !! rows.Keys && deleted'.Keys == deleted.Keys + (rows.Keys - rows'.Keys)
  }

  lemma TakenUndisturbed(rows: Rows, deleted: Rows, gone: set<nat>, deleted': Rows, cutoff: int)
    requires gone <= rows.Keys && (forall id :: id in gone ==> Prunable(rows[id], cutoff)) && deleted.Keys !! rows.Keys
    requires deleted'.Keys == deleted.Keys + gone
    ensures Undisturbed(rows, deleted, rows - gone, deleted', cutoff)
    ensures gone == Matching(rows, cutoff) ==> Matching(rows - gone, cutoff) == {}
  {}

  lemma UndisturbedTransitive(r0: Rows, d0: Rows, r1: Rows, d1: Rows, r2: Rows, d2: Rows, cutoff: int)
    requires Undisturbed(r0, d0, r1, d1, cutoff) && Undisturbed(r1, d1, r2, d2, cutoff)
    ensures Undisturbed(r0, d0, r2, d2, cutoff)
  {}

  lemma MissingMatched(rows: Rows, deleted: Rows, rows': Rows, deleted': Rows, cutoff: int)
    requires Undisturbed(rows, deleted, rows', deleted', cutoff) && Matching(rows', cutoff) == {}
    ensures rows.Keys - rows'.Keys == Matching(rows, cutoff)
  {
    forall id | id in rows ensures Prunable(rows[id], cutoff) <==> id !in rows' {
      assert id !in Matching(rows', cutoff);
    }
  }

  lemma RowsTaken(rows: Rows, rows': Rows, gone: set<nat>)
    requires rows'.Keys <= rows.Keys && (forall id :: id in rows' ==> rows'[id] == rows[id])
    requires rows.Keys - rows'.Keys == gone
    ensures rows' == rows - gone
  {}

  lemma AllTaken(rows: Rows, deleted: Rows, rows': Rows, deleted': Rows, cutoff: int)
    requires Undisturbed(rows, deleted, rows', deleted', cutoff) && Matching(rows', cutoff) == {}
    ensures rows' == rows - Matching(rows, cutoff)
    ensures |deleted'.Keys| == |deleted.Keys| + |Matching(rows, cutoff)|
  {
    var gone := Matching(rows, cutoff);
    MissingMatched(rows, deleted, rows', deleted', cutoff);
    RowsTaken(rows, rows', gone);
    DisjointUnion(deleted.Keys, gone);
  }
}
