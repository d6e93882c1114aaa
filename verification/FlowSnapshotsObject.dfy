/** The snapshot writer's queue, its batching loop and the table it writes, updated in place. */
module FlowSnapshotsObject {
  import opened Sequences
  import opened FlowEngine
  import opened FlowSnapshots

  /** Rows of one batch as taken off the queue, and whether storage committed them. */
  datatype Batch = Batch(rows: seq<Snapshot>, ok: bool)

  function AllRows(batches: seq<Batch>): seq<Snapshot> {
    if batches == [] then [] else AllRows(batches[..|batches| - 1]) + batches[|batches| - 1].rows
  }

  function Committed(batches: seq<Batch>): seq<seq<Snapshot>> {
    if batches == [] then []
    else
      var last := batches[|batches| - 1];
      if last.ok then Committed(batches[..|batches| - 1]) + [last.rows] else Committed(batches[..|batches| - 1])
  }

  function RowsKept(b: Batch): nat { if b.ok then |Latest(b.rows)| else 0 }

  function RowsLost(b: Batch): nat { if b.ok then 0 else |Latest(b.rows)| }

  /** {row["flow_id"]: row for row in rows} */
  method Coalesce(rows: seq<Snapshot>) returns (latest: seq<Snapshot>)
    ensures latest == Latest(rows)
  {
    latest := [];
    for i := 0 to |rows|
      invariant latest == Latest(rows[..i])
    {
      assert rows[..i + 1][..i] == rows[..i];
      var at := 0;
      while at < |latest| && latest[at].id != rows[i].id
        invariant at <= |latest| && forall j :: 0 <= j < at ==> latest[j].id != rows[i].id
      {
        at := at + 1;
      }
      if at < |latest| { latest := latest[at := rows[i]]; } else { latest := latest + [rows[i]]; }
    }
    assert rows[..|rows|] == rows;
  }

  /** One transaction: every row is upserted, in order. */
  method ExecuteMany(before: Table, rows: seq<Snapshot>) returns (table: Table)
    ensures table == UpsertAll(before, rows)
  {
    table := before;
    for i := 0 to |rows|
      invariant table == UpsertAll(before, rows[..i])
    {
      assert rows[..i + 1][..i] == rows[..i];
      var s := rows[i];
      if s.id in table {
        table := table[s.id := table[s.id].(live := s.row.live)];
      } else {
        table := table[s.id := s.row];
      }
    }
    assert rows[..|rows|] == rows;
  }

  class SnapshotWriter {
    const batchSize: nat
    const maxSize: nat
    var queue: seq<Snapshot>
    var table: Table
    var accepted: nat
    var dropped: nat
    var persisted: nat
    var failed: nat
    var batches: nat
    /** Snapshots accepted, in order; the batches taken off the queue; the table at the start. */
    ghost var log: seq<Snapshot>
    ghost var taken: seq<Batch>
    ghost const initial: Table

    ghost predicate Valid()
      reads this
    {
      && batchSize >= 1 && |queue| <= maxSize
      && AllRows(taken) + queue == log && accepted == |log|
      && table == WriteBatches(initial, Committed(taken))
      && persisted == SumBy(taken, RowsKept) && failed == SumBy(taken, RowsLost) && batches == |Committed(taken)|
    }

    constructor (batchSize: nat, maxSize: nat, table: Table)
      requires batchSize >= 1 && maxSize >= 1
      ensures Valid() && log == [] && taken == [] && initial == table && this.maxSize == maxSize
              && this.batchSize == batchSize
    {
      this.batchSize, this.maxSize, this.table, this.initial := batchSize, maxSize, table, table;
      queue, accepted, dropped, persisted, failed, batches := [], 0, 0, 0, 0, 0;
      log, taken := [], [];
    }

    /** A full queue drops the snapshot and counts it; otherwise it is accepted at the tail. */
    method Enqueue(s: Snapshot)
      requires Valid()
      modifies this`queue, this`accepted, this`dropped, this`log
      ensures Valid()
      ensures if |old(queue)| < maxSize then log == old(log) + [s] && dropped == old(dropped)
              else log == old(log) && dropped == old(dropped) + 1
    {
      if |queue| < maxSize {
        assert AllRows(taken) + (queue + [s]) == log + [s];
        queue, accepted, log := queue + [s], accepted + 1, log + [s];
      } else {
        dropped := dropped + 1;
      }
    }

    /** The first waiting snapshot and those that follow within the window, up to a full batch; and
        `arrivals` says when the window closes. */
    method Gather(arrivals: nat) returns (rows: seq<Snapshot>)
      requires batchSize >= 1 && queue != []
      modifies this`queue
      ensures old(queue) == rows + queue && 1 <= |rows| <= batchSize
    {
      rows := [queue[0]];
      queue := queue[1..];
      while |rows| < batchSize && |rows| <= arrivals && queue != []
        invariant old(queue) == rows + queue && 1 <= |rows| <= batchSize
        decreases |queue|
      {
        rows := rows + [queue[0]];
        queue := queue[1..];
      }
    }

    /** One round of the worker; `commits` is storage's final answer. A refused batch writes nothing. */
    method Round(arrivals: nat, commits: bool)
      requires Valid() && queue != []
      modifies this
      ensures Valid() && log == old(log) && dropped == old(dropped)
      ensures exists rows ::
                1 <= |rows| <= batchSize && old(queue) == rows + queue && taken == old(taken) + [Batch(rows, commits)]
      ensures !commits ==> table == old(table)
    {
      hide AllRows, Committed, SumBy, WriteBatches, Latest, UpsertAll;
      var rows := Gather(arrivals);
      var latest := Coalesce(rows);
      ghost var batch := Batch(rows, commits);
      RoundRecorded(initial, taken, batch);
      if commits {
        table := ExecuteMany(table, latest);
        persisted, batches := persisted + |latest|, batches + 1;
      } else {
        failed := failed + |latest|;
      }
      assert AllRows(taken) + (rows + queue) == AllRows(taken) + rows + queue;
      taken := taken + [batch];
    }

    /** If the accepted snapshots agree with each other, the table is what upserting the committed ones one by one
        would have made it; with no batch refused, those are all but the queued ones. */
    lemma TableIsTheLog()
      requires Valid() && Constant(log)
      ensures table == UpsertAll(initial, Concat(Committed(taken)))
      ensures (forall i :: 0 <= i < |taken| ==> taken[i].ok) ==> Concat(Committed(taken)) + queue == log
    {
      CommittedIsConstant(taken, queue);
      BatchingPreservesTheTable(initial, Committed(taken));
      if forall i :: 0 <= i < |taken| ==> taken[i].ok { AllCommitted(taken); }
    }
  }

  lemma RoundRecorded(initial: Table, taken: seq<Batch>, batch: Batch)
    ensures AllRows(taken + [batch]) == AllRows(taken) + batch.rows
    ensures SumBy(taken + [batch], RowsKept) == SumBy(taken, RowsKept) + RowsKept(batch)
    ensures SumBy(taken + [batch], RowsLost) == SumBy(taken, RowsLost) + RowsLost(batch)
    ensures WriteBatches(initial, Committed(taken + [batch]))
            == if batch.ok then UpsertAll(WriteBatches(initial, Committed(taken)), Latest(batch.rows))
               else WriteBatches(initial, Committed(taken))
    ensures |Committed(taken + [batch])| == |Committed(taken)| + if batch.ok then 1 else 0
  {
    assert (taken + [batch])[..|taken|] == taken;
    var before := Committed(taken);
    assert (before + [batch.rows])[..|before|] == before;
  }

  lemma {:induction false} AllCommitted(taken: seq<Batch>)
    requires forall i :: 0 <= i < |taken| ==> taken[i].ok
    ensures Concat(Committed(taken)) == AllRows(taken)
  {
    if taken != [] {
      var before := Committed(taken[..|taken| - 1]);
      AllCommitted(taken[..|taken| - 1]);
      assert (before + [taken[|taken| - 1].rows])[..|before|] == before;
    }
  }

  lemma {:induction false} CommittedIsSubseq(taken: seq<Batch>)
    ensures Subseq(Concat(Committed(taken)), AllRows(taken))
  {
    if taken != [] {
      var init, last := taken[..|taken| - 1], taken[|taken| - 1];
      var before := Committed(init);
      CommittedIsSubseq(init);
      SubseqAppend(Concat(before), AllRows(init), last.rows);
      assert (before + [last.rows])[..|before|] == before;
    }
  }

  lemma {:induction false} ConstantSubseq(a: seq<Snapshot>, b: seq<Snapshot>)
    requires Subseq(a, b) && Constant(b)
    ensures Constant(a)
    decreases |b|
  {
    if a != [] {
      var a', b' := a[..|a| - 1], b[..|b| - 1];
      if Subseq(a, b') {
        ConstantSubseq(a, b');
      } else {
        ConstantSubseq(a', b');
        SubseqMembers(a', b');
        forall i | 0 <= i < |a'| && a[i].id == a[|a'|].id ensures a[i].row.fixed == a[|a'|].row.fixed {
          assert a'[i] in b';
          var k :| 0 <= k < |b'| && b'[k] == a'[i];
          assert b[k] == a[i];
        }
      }
    }
  }

  lemma CommittedIsConstant(taken: seq<Batch>, queue: seq<Snapshot>)
    requires Constant(AllRows(taken) + queue)
    ensures Constant(Concat(Committed(taken)))
  {
    var rows := AllRows(taken);
    assert forall i :: 0 <= i < |rows| ==> (rows + queue)[i] == rows[i];
    CommittedIsSubseq(taken);
    ConstantSubseq(Concat(Committed(taken)), rows);
  }
}
