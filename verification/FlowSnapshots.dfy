/** backend/app/services/flow_service.py: flow snapshots are queued, batched, reduced to the latest
    of each flow, and upserted into a table that fixes two columns at the first insert. */
module FlowSnapshots {
  import opened Sequences
  import opened Values
  import opened FlowRisk
  import opened FlowEngine
  import opened FlowEngineObject
  import opened FlowEngineResults

  /** The columns ON CONFLICT leaves alone, and those it replaces. */
  datatype Fixed = Fixed(conversation: ConversationKey, firstSeen: string)

  datatype Live = Live(lastSeen: string, app: string, score: nat, direction: Direction, json: Flow)

  datatype Row = Row(fixed: Fixed, live: Live)

  datatype Snapshot = Snapshot(id: FlowKey, row: Row)

  type Table = map<FlowKey, Row>

  function SnapshotOf(f: Flow): Snapshot {
    Snapshot(f.origin.key, Row(Fixed(f.origin.conversation, f.origin.firstSeen),
                               Live(f.traffic.lastSeen, f.traffic.app, f.risk.score, f.origin.key.direction, f)))
  }

  // ----- upserting -----

  function Upsert(table: Table, s: Snapshot): Table {
    table[s.id := Row(if s.id in table then table[s.id].fixed else s.row.fixed, s.row.live)]
  }

  function UpsertAll(table: Table, rows: seq<Snapshot>): Table {
    if rows == [] then table else Upsert(UpsertAll(table, rows[..|rows| - 1]), rows[|rows| - 1])
  }

  /** The fixed columns of a flow's first snapshot and the live ones of its last. */
  function FirstFixed(rows: seq<Snapshot>, id: FlowKey): Option<Fixed> {
    if rows == [] then None
    else if FirstFixed(rows[..|rows| - 1], id).Some? then FirstFixed(rows[..|rows| - 1], id)
    else if rows[|rows| - 1].id == id then Some(rows[|rows| - 1].row.fixed) else None
  }

  function LastRow(rows: seq<Snapshot>, id: FlowKey): Option<Row> {
    if rows == [] then None
    else if rows[|rows| - 1].id == id then Some(rows[|rows| - 1].row)
    else LastRow(rows[..|rows| - 1], id)
  }

  lemma {:induction false} FirstAndLast(rows: seq<Snapshot>, id: FlowKey)
    ensures FirstFixed(rows, id).Some? <==> LastRow(rows, id).Some?
    ensures LastRow(rows, id).Some? <==> exists i :: 0 <= i < |rows| && rows[i].id == id
  {
    if rows != [] {
      FirstAndLast(rows[..|rows| - 1], id);
      assert forall i :: 0 <= i < |rows| - 1 ==> rows[..|rows| - 1][i] == rows[i];
    }
  }

  /** What a run of upserts leaves in the table, flow by flow. */
  lemma {:induction false} UpsertsLeave(table: Table, rows: seq<Snapshot>, id: FlowKey)
    ensures var after, last := UpsertAll(table, rows), LastRow(rows, id);
            && (id in after <==> id in table || last.Some?)
            && (last.Some? ==> FirstFixed(rows, id).Some? && id in after && after[id].live == last.value.live
                               && after[id].fixed == if id in table then table[id].fixed
                                                     else FirstFixed(rows, id).value)
            && (last.None? && id in table ==> after[id] == table[id])
  {
    if rows != [] {
      UpsertsLeave(table, rows[..|rows| - 1], id);
      FirstAndLast(rows[..|rows| - 1], id);
      FirstAndLast(rows, id);
    }
  }

  // ----- keeping the latest snapshot of each flow -----

  function Place(rows: seq<Snapshot>, id: FlowKey): (i: nat)
    ensures i <= |rows|
    ensures i < |rows| ==> rows[i].id == id
    ensures forall j :: 0 <= j < i ==> rows[j].id != id
  {
    if rows == [] then 0
    else
      var i := Place(rows[..|rows| - 1], id);
      if i < |rows| - 1 then i else if rows[|rows| - 1].id == id then |rows| - 1 else |rows|
  }

  /** {row["flow_id"]: row for row in rows}, in insertion order. */
  function Latest(rows: seq<Snapshot>): seq<Snapshot> {
    if rows == [] then []
    else
      var kept, s := Latest(rows[..|rows| - 1]), rows[|rows| - 1];
      var i := Place(kept, s.id);
      if i < |kept| then kept[i := s] else kept + [s]
  }

  predicate DistinctIds(rows: seq<Snapshot>) { forall i, j :: 0 <= i < j < |rows| ==> rows[i].id != rows[j].id }

  lemma {:induction false} LatestIsDistinct(rows: seq<Snapshot>)
    ensures DistinctIds(Latest(rows))
  {
    if rows != [] { LatestIsDistinct(rows[..|rows| - 1]); }
  }

  /** Among rows of distinct flows, each row is both the first and the last of its flow. */
  lemma {:induction false} RowAt(rows: seq<Snapshot>, i: nat)
    requires DistinctIds(rows) && i < |rows|
    ensures LastRow(rows, rows[i].id) == Some(rows[i].row) && FirstFixed(rows, rows[i].id) == Some(rows[i].row.fixed)
  {
    var init := rows[..|rows| - 1];
    FirstAndLast(init, rows[i].id);
    if i < |rows| - 1 { RowAt(init, i); }
  }

  lemma {:induction false} LatestKeepsLast(rows: seq<Snapshot>, id: FlowKey)
    ensures LastRow(Latest(rows), id) == LastRow(rows, id)
    ensures FirstFixed(Latest(rows), id)
            == if LastRow(rows, id).Some? then Some(LastRow(rows, id).value.fixed) else None
  {
    if rows != [] {
      var init, s := rows[..|rows| - 1], rows[|rows| - 1];
      var kept := Latest(init);
      var i := Place(kept, s.id);
      LatestKeepsLast(init, id);
      LatestIsDistinct(init);
      LatestIsDistinct(rows);
      FirstAndLast(kept, id);
      FirstAndLast(Latest(rows), id);
      if id == s.id {
        RowAt(Latest(rows), i);
      } else if LastRow(kept, id).Some? {
        var j := Place(kept, id);
        RowAt(kept, j);
        RowAt(Latest(rows), j);
      } else {
        assert forall j :: 0 <= j < |Latest(rows)| ==> Latest(rows)[j].id != id;
      }
    }
  }

  // ----- one batch -----

  /** For every flow the table does not know yet, the batch's first and last snapshot agree on the
      columns that the first insert fixes. */
  ghost predicate Agrees(table: Table, rows: seq<Snapshot>) {
    forall id :: id !in table && LastRow(rows, id).Some? ==> FirstFixed(rows, id) == Some(LastRow(rows, id).value.fixed)
  }

  lemma RowsCompared(table: Table, rows: seq<Snapshot>, id: FlowKey)
    ensures var short, long, last := UpsertAll(table, Latest(rows)), UpsertAll(table, rows), LastRow(rows, id);
            && (id in short <==> id in long) && (id in long <==> id in table || last.Some?)
            && (last.Some? ==> (short[id] == long[id]
                                <==> id in table || FirstFixed(rows, id) == Some(last.value.fixed)))
            && (last.None? && id in table ==> short[id] == long[id])
  {
    UpsertsLeave(table, Latest(rows), id);
    UpsertsLeave(table, rows, id);
    LatestKeepsLast(rows, id);
  }

  /** Writing only the latest snapshot of each flow leaves the same table as writing them all exactly
      when the batch agrees. */
  lemma CoalescingIsExact(table: Table, rows: seq<Snapshot>)
    ensures UpsertAll(table, Latest(rows)) == UpsertAll(table, rows) <==> Agrees(table, rows)
  {
    hide UpsertAll, Latest, LastRow, FirstFixed;
    var short, long := UpsertAll(table, Latest(rows)), UpsertAll(table, rows);
    forall id ensures id in short <==> id in long { RowsCompared(table, rows, id); }
    if short == long {
      forall id | id !in table && LastRow(rows, id).Some?
        ensures FirstFixed(rows, id) == Some(LastRow(rows, id).value.fixed) {
        RowsCompared(table, rows, id);
      }
    }
    if Agrees(table, rows) {
      forall id | id in long ensures short[id] == long[id] { RowsCompared(table, rows, id); }
    }
  }

  // ----- any split into batches -----

  function Concat(batches: seq<seq<Snapshot>>): seq<Snapshot> {
    if batches == [] then [] else Concat(batches[..|batches| - 1]) + batches[|batches| - 1]
  }

  /** What the writer does: each batch coalesced, one after the other. */
  function WriteBatches(table: Table, batches: seq<seq<Snapshot>>): Table {
    if batches == [] then table
    else UpsertAll(WriteBatches(table, batches[..|batches| - 1]), Latest(batches[|batches| - 1]))
  }

  /** Snapshots of one flow never disagree on the fixed columns. */
  ghost predicate Constant(rows: seq<Snapshot>) {
    forall i, j :: 0 <= i < j < |rows| && rows[i].id == rows[j].id ==> rows[i].row.fixed == rows[j].row.fixed
  }

  lemma {:induction false} UpsertConcat(table: Table, a: seq<Snapshot>, b: seq<Snapshot>)
    ensures UpsertAll(table, a + b) == UpsertAll(UpsertAll(table, a), b)
  {
    if b == [] {
      assert a + b == a;
    } else {
      assert (a + b)[..|a + b| - 1] == a + b[..|b| - 1];
      UpsertConcat(table, a, b[..|b| - 1]);
    }
  }

  lemma {:induction false} SomeRows(rows: seq<Snapshot>, id: FlowKey)
    requires LastRow(rows, id).Some?
    ensures FirstFixed(rows, id).Some?
    ensures exists i, j :: 0 <= i <= j < |rows| && rows[i].id == id && rows[j].id == id
              && FirstFixed(rows, id).value == rows[i].row.fixed && LastRow(rows, id).value == rows[j].row
  {
    var n := |rows| - 1;
    var init := rows[..n];
    FirstAndLast(init, id);
    if LastRow(init, id).Some? {
      SomeRows(init, id);
      var i, j :| 0 <= i <= j < n && init[i].id == id && init[j].id == id
                  && FirstFixed(init, id).value == init[i].row.fixed && LastRow(init, id).value == init[j].row;
      assert rows[i] == init[i] && rows[j] == init[j];
      if rows[n].id == id {
        assert FirstFixed(rows, id).value == rows[i].row.fixed && LastRow(rows, id).value == rows[n].row;
      }
    }
  }

  lemma ConstantAgrees(table: Table, rows: seq<Snapshot>)
    requires Constant(rows)
    ensures Agrees(table, rows)
  {
    forall id | id !in table && LastRow(rows, id).Some?
      ensures FirstFixed(rows, id) == Some(LastRow(rows, id).value.fixed) {
      SomeRows(rows, id);
    }
  }

  /** However the stream is cut into batches, the table ends up as if every snapshot had been
      upserted on its own. */
  lemma {:induction false} BatchingPreservesTheTable(table: Table, batches: seq<seq<Snapshot>>)
    requires Constant(Concat(batches))
    ensures WriteBatches(table, batches) == UpsertAll(table, Concat(batches))
  {
    if batches != [] {
      var init, last := batches[..|batches| - 1], batches[|batches| - 1];
      var before := Concat(init);
      assert forall i :: 0 <= i < |before| ==> (before + last)[i] == before[i];
      assert forall i :: 0 <= i < |last| ==> (before + last)[|before| + i] == last[i];
      BatchingPreservesTheTable(table, init);
      ConstantAgrees(WriteBatches(table, init), last);
      CoalescingIsExact(WriteBatches(table, init), last);
      UpsertConcat(table, before, last);
    }
  }

  // ----- the snapshots of the flow engine -----

  /** The snapshot returned for each packet ingested since a reset. */
  ghost function Stream(history: seq<Entry>): seq<Snapshot> {
    if history == [] then []
    else Stream(history[..|history| - 1]) + [SnapshotOf(FlowsOf(history)[EntryKey(history[|history| - 1])])]
  }

  lemma {:induction false} StreamAt(history: seq<Entry>, i: nat)
    requires i < |history|
    ensures |Stream(history)| == |history|
    ensures EntryKey(history[i]) in KeysIn(history[..i + 1]) && EntryKey(history[i]) in FlowsOf(history[..i + 1])
    ensures Stream(history)[i] == SnapshotOf(FlowsOf(history[..i + 1])[EntryKey(history[i])])
  {
    hide FlowIn, SnapshotOf, IsNew, KeyOf;
    var n := |history| - 1;
    assert history[..i + 1][i] == history[i] && history[i] in history[..i + 1];
    StreamLength(history[..n]);
    if i < n {
      StreamAt(history[..n], i);
      assert history[..n][..i + 1] == history[..i + 1];
    } else {
      assert history[..i + 1] == history;
    }
  }

  lemma {:induction false} StreamLength(history: seq<Entry>)
    ensures |Stream(history)| == |history|
  {
    if history != [] { StreamLength(history[..|history| - 1]); }
  }

  lemma OriginHasItsKey(history: seq<Entry>, key: FlowKey)
    requires key in KeysIn(history)
    ensures key in FlowsOf(history) && FlowsOf(history)[key].origin.key == key
  {
    hide IsNew, TrafficOf, AlertsOf, WholeTimeline, RiskOf, KeyOf;
    FlowsAt(history);
    FilterMembers(history, OfKey(key));
    assert PacketsOf(history, key)[0] in PacketsOf(history, key);
  }

  /** Between resets the engine never changes what the first insert fixed. */
  lemma EngineStreamIsConstant(history: seq<Entry>)
    ensures Constant(Stream(history))
  {
    hide FlowsOf, Stream, KeyOf;
    StreamLength(history);
    forall i, j | 0 <= i < j < |Stream(history)| && Stream(history)[i].id == Stream(history)[j].id
      ensures Stream(history)[i].row.fixed == Stream(history)[j].row.fixed
    {
      StreamAt(history, i);
      StreamAt(history, j);
      var early, late := history[..i + 1], history[..j + 1];
      OriginHasItsKey(early, EntryKey(history[i]));
      OriginHasItsKey(late, EntryKey(history[j]));
      assert early + late[i + 1..] == late;
      FlowsOnlyGrow(early, late[i + 1..], EntryKey(history[i]));
    }
  }

  /** Snapshots of one flow from before and after an engine reset, first written in one batch: the
      coalesced write keeps the later first_seen, single writes keep the earlier one. */
  lemma ResetInsideABatch(before: Snapshot, after: Snapshot)
    requires before.id == after.id && before.row.fixed != after.row.fixed
    ensures UpsertAll(map[], Latest([before, after])) != UpsertAll(map[], [before, after])
  {
    var rows := [before, after];
    assert rows[..1] == [before] && rows[..1][..0] == [];
    assert LastRow(rows, before.id) == Some(after.row);
    assert FirstFixed(rows[..1], before.id) == Some(before.row.fixed);
    CoalescingIsExact(map[], rows);
  }
}
