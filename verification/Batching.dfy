/** The batch loop of the SQL sources: one reused buffer, and the handler that writes each batch. */
module Batching {
  function Flatten<T>(batches: seq<seq<T>>): seq<T> {
    if batches == [] then [] else Flatten(batches[..|batches| - 1]) + batches[|batches| - 1]
  }

  lemma FlattenSnoc<T>(batches: seq<seq<T>>, b: seq<T>)
    ensures Flatten(batches + [b]) == Flatten(batches) + b
  {
    assert (batches + [b])[..|batches|] == batches;
  }

  predicate AllFull<T>(batches: seq<seq<T>>, n: nat) { forall i :: 0 <= i < |batches| ==> |batches[i]| == n }

  /** None empty, and all full but perhaps the last. */
  predicate WellCut<T>(batches: seq<seq<T>>, n: nat) {
    && (forall i :: 0 <= i < |batches| - 1 ==> |batches[i]| == n)
    && (batches != [] ==> 0 < |batches[|batches| - 1]| <= n)
  }

  lemma {:induction false} FlattenConcat<T>(a: seq<seq<T>>, b: seq<seq<T>>)
    ensures Flatten(a + b) == Flatten(a) + Flatten(b)
  {
    if b == [] {
      assert a + b == a;
    } else {
      var front := b[..|b| - 1];
      FlattenConcat(a, front);
      assert (a + b)[..|a + b| - 1] == a + front;
    }
  }

  /** Whole batches of a prefix of the stream are a prefix of its batches. */
  lemma {:induction false} WholePrefix<T>(a: seq<seq<T>>, b: seq<seq<T>>, n: nat)
    requires n > 0 && AllFull(a, n) && WellCut(b, n) && Flatten(a) <= Flatten(b)
    ensures a <= b
  {
    if a == [] {
    } else {
      var front, last := a[..|a| - 1], a[|a| - 1];
      assert Flatten(front) <= Flatten(a);
      WholePrefix(front, b, n);
      var rest := b[|front|..];
      assert b == front + rest;
      FlattenConcat(front, rest);
      assert last <= Flatten(rest) by {
        assert Flatten(a) == Flatten(front) + last;
        assert Flatten(b)[|Flatten(front)|..] == Flatten(rest);
      }
      assert rest != [];
      FlattenConcat([rest[0]], rest[1..]);
      assert rest == [rest[0]] + rest[1..] && Flatten([rest[0]]) == rest[0];
      assert rest[0] == b[|front|];
      assert |rest[0]| == n by {
        if |rest| == 1 {
          assert rest[1..] == [] && rest[0] == b[|b| - 1];
        }
      }
      assert last == rest[0];
    }
  }

  /** A stream and a batch size have one well-cut list of batches. */
  lemma CutUnique<T>(a: seq<seq<T>>, b: seq<seq<T>>, n: nat)
    requires WellCut(a, n) && WellCut(b, n) && Flatten(a) == Flatten(b)
    ensures a == b
  {
    if a != [] && b != [] {
      var fa, fb := a[..|a| - 1], b[..|b| - 1];
      WholePrefix(fa, b, n);
      WholePrefix(fb, a, n);
      assert fa != b && fb != a;
      assert |a| == |b|;
      assert fa == fb;
      assert a[|a| - 1] == Flatten(a)[|Flatten(fa)|..] == b[|b| - 1];
      assert a == fa + [a[|a| - 1]] && b == fb + [b[|b| - 1]];
    }
  }

  /** The handler of a run: it prepares the target once, writes each batch to the sink and counts its rows. */
  class Handler<Row> {
    var delivered: seq<seq<Row>>
    var rowsWritten: nat
    var firstBatch: bool

    /** How often the target was prepared. */
    ghost var prepared: nat

    /** How many calls to the sink reported an error. */
    ghost var errors: nat

    constructor ()
      ensures Valid() && delivered == []
    {
      delivered, rowsWritten, firstBatch, prepared, errors := [], 0, true, 0, 0;
    }

    ghost predicate Valid()
      reads this
    {
      && rowsWritten == |Flatten(delivered)|
      && prepared == (if firstBatch then 0 else 1)
      && (delivered != [] ==> prepared == 1)
    }

    /**
     Takes the first n rows of the caller's buffer. The first batch prepares the target, once
     even if its write then fails; on an error the batch was not delivered.
     */
    method Handle(buffer: array<Row>, n: nat) returns (ok: bool)
      requires Valid() && n <= buffer.Length
      modifies this
      ensures Valid() && delivered == if ok then old(delivered) + [buffer[..n]] else old(delivered)
      ensures ok ==> prepared == 1
      ensures errors == if ok then old(errors) else old(errors) + 1
    {
      ok := Prepare();
      if ok {
        ok := Call();
      }
      if !ok {
        return;
      }
      var batch := buffer[..n];
      FlattenSnoc(delivered, batch);
      delivered := delivered + [batch];
      rowsWritten := rowsWritten + n;
    }

    /** Creates the target, or its staging table, before the first write. */
    method Prepare() returns (ok: bool)
      requires Valid()
      modifies this`firstBatch, this`prepared, this`errors
      ensures Valid() && (ok <==> prepared == 1)
      ensures errors == if ok then old(errors) else old(errors) + 1
    {
      ok := true;
      if firstBatch {
        ok := Call();
        if ok {
          firstBatch, prepared := false, prepared + 1;
        }
      }
    }

    /** A call to the sink, which may fail. */
    method Call() returns (ok: bool)
      modifies this`errors
      ensures errors == if ok then old(errors) else old(errors) + 1
    {
      ok := *;
      if !ok {
        errors := errors + 1;
      }
    }
  }

  /** How a read ends: well, by an error of the row stream, or by one of the handler. */
  datatype Ending = Ok | StreamFailed | HandlerFailed

  function Size(batchSize: int): nat { if batchSize <= 0 then 1000 else batchSize }

  /** One row into the buffer, and the buffer to the handler when it is full. */
  method Take<Row>(row: Row, buffer: array<Row>, count: nat, handler: Handler<Row>) returns (ok: bool, left: nat)
    requires handler.Valid() && count < buffer.Length && AllFull(handler.delivered, buffer.Length)
    modifies handler, buffer
    ensures handler.Valid() && AllFull(handler.delivered, buffer.Length)
    ensures ok ==> left < buffer.Length
    ensures ok ==>
              Flatten(handler.delivered) + buffer[..left] == old(Flatten(handler.delivered) + buffer[..count]) + [row]
    ensures !ok ==> handler.delivered == old(handler.delivered)
    ensures handler.errors == if ok then old(handler.errors) else old(handler.errors) + 1
  {
    ghost var sent, pending := handler.delivered, buffer[..count];
    buffer[count] := row;
    assert buffer[..count + 1] == pending + [row];
    ok, left := true, count + 1;
    if left >= buffer.Length {
      ok := handler.Handle(buffer, left);
      left := 0;
      if ok {
        FlattenSnoc(sent, pending + [row]);
      }
    }
  }

  /** What is left in the buffer goes to the handler as the last batch. */
  method Flush<Row>(buffer: array<Row>, count: nat, handler: Handler<Row>) returns (ok: bool)
    requires handler.Valid() && count < buffer.Length && AllFull(handler.delivered, buffer.Length)
    modifies handler
    ensures handler.Valid() && handler.errors == if ok then old(handler.errors) else old(handler.errors) + 1
    ensures if ok then Flatten(handler.delivered) == old(Flatten(handler.delivered)) + buffer[..count]
            else 0 < count && handler.delivered == old(handler.delivered)
    ensures ok ==> WellCut(handler.delivered, buffer.Length)
  {
    ok := true;
    if count > 0 {
      FlattenSnoc(handler.delivered, buffer[..count]);
      ok := handler.Handle(buffer, count);
    }
  }

  /**
   The batch loop over the rows a query yields, `broken` when an error ends them. It fails
   exactly when a call of the handler fails or, if none does, the stream is broken.
   Success delivers the stream in order, well cut, and reports as many rows as were written.
   On an error only whole batches of a prefix of it were delivered, and zero rows are reported.
   */
  method Read<Row(0)>(stream: seq<Row>, broken: bool, batchSize: int, handler: Handler<Row>)
    returns (ending: Ending, rowsRead: nat)
    requires handler.Valid() && handler.delivered == []
    modifies handler
    ensures handler.Valid()
    ensures ending == HandlerFailed <==> old(handler.errors) < handler.errors
    ensures ending == StreamFailed <==> broken && handler.errors == old(handler.errors)
    ensures ending == Ok ==>
              && Flatten(handler.delivered) == stream && rowsRead == handler.rowsWritten == |stream|
              && WellCut(handler.delivered, if batchSize <= 0 then 1000 else batchSize)
    ensures ending != Ok ==>
              && rowsRead == 0 && Flatten(handler.delivered) <= stream
              && AllFull(handler.delivered, if batchSize <= 0 then 1000 else batchSize)
    ensures ending == StreamFailed ==>
              |stream| < |Flatten(handler.delivered)| + (if batchSize <= 0 then 1000 else batchSize)
    ensures ending == HandlerFailed ==> Flatten(handler.delivered) < stream
  {
    var buffer := new Row[Size(batchSize)];
    var count: nat, read: nat := 0, 0;
    for i := 0 to |stream|
      invariant handler.Valid() && read == i && count < buffer.Length
      invariant Flatten(handler.delivered) + buffer[..count] == stream[..i]
      invariant AllFull(handler.delivered, buffer.Length) && handler.errors == old(handler.errors)
    {
      var ok;
      ok, count := Take(stream[i], buffer, count, handler);
      if !ok {
        return HandlerFailed, 0;
      }
      read := read + 1;
    }
    assert stream[..|stream|] == stream;
    if broken {
      return StreamFailed, 0;
    }
    var ok := Flush(buffer, count, handler);
    if !ok {
      return HandlerFailed, 0;
    }
    return Ok, read;
  }
}
