/** The row a run of flow snapshots leaves in the table, column by column. */
module FlowSnapshotsLaws {
  import opened Values
  import opened FlowRisk
  import opened FlowEngine
  import opened FlowSnapshots

  function Snapshots(flows: seq<Flow>): seq<Snapshot> {
    if flows == [] then [] else Snapshots(flows[..|flows| - 1]) + [SnapshotOf(flows[|flows| - 1])]
  }

  lemma {:induction false} SnapshotsAt(flows: seq<Flow>)
    ensures |Snapshots(flows)| == |flows|
    ensures forall i :: 0 <= i < |flows| ==> Snapshots(flows)[i] == SnapshotOf(flows[i])
  {
    if flows != [] { SnapshotsAt(flows[..|flows| - 1]); }
  }

  /** Flow `i` is the first of its key, flow `j` the last. */
  predicate FirstOf(flows: seq<Flow>, key: FlowKey, i: nat) {
    i < |flows| && flows[i].origin.key == key && forall k :: 0 <= k < i ==> flows[k].origin.key != key
  }

  predicate LastOf(flows: seq<Flow>, key: FlowKey, j: nat) {
    j < |flows| && flows[j].origin.key == key && forall k :: j < k < |flows| ==> flows[k].origin.key != key
  }

  lemma {:induction false} FirstFixedIs(flows: seq<Flow>, key: FlowKey, i: nat)
    requires FirstOf(flows, key, i)
    ensures FirstFixed(Snapshots(flows), key) == Some(Fixed(flows[i].origin.conversation, flows[i].origin.firstSeen))
  {
    var n := |flows| - 1;
    var init := flows[..n];
    assert Snapshots(flows)[..n] == Snapshots(init) by { SnapshotsAt(init); }
    SnapshotsAt(flows);
    if i < n {
      FirstFixedIs(init, key, i);
    } else {
      NotThere(init, key);
    }
  }

  lemma {:induction false} NotThere(flows: seq<Flow>, key: FlowKey)
    requires forall k :: 0 <= k < |flows| ==> flows[k].origin.key != key
    ensures FirstFixed(Snapshots(flows), key) == None && LastRow(Snapshots(flows), key) == None
  {
    SnapshotsAt(flows);
    FirstAndLast(Snapshots(flows), key);
  }

  lemma {:induction false} LastRowIs(flows: seq<Flow>, key: FlowKey, j: nat)
    requires LastOf(flows, key, j)
    ensures LastRow(Snapshots(flows), key) == Some(SnapshotOf(flows[j]).row)
  {
    var n := |flows| - 1;
    var init := flows[..n];
    assert Snapshots(flows)[..n] == Snapshots(init) by { SnapshotsAt(init); }
    SnapshotsAt(flows);
    if j < n { LastRowIs(init, key, j); }
  }

  /** Upserting the snapshots of some flows: conversation and first_seen are those of the row that was there, else of
      the key's first flow; last_seen, protocol, risk, direction and JSON are those of its last flow. */
  lemma RowIs(table: Table, flows: seq<Flow>, key: FlowKey, i: nat, j: nat)
    requires FirstOf(flows, key, i) && LastOf(flows, key, j)
    ensures var after := UpsertAll(table, Snapshots(flows));
            && key in after
            && var row := after[key];
               && row.live.lastSeen == flows[j].traffic.lastSeen && row.live.app == flows[j].traffic.app
               && row.live.score == flows[j].risk.score && row.live.direction == key.direction
               && row.live.json == flows[j]
               && (if key in table then row.fixed == table[key].fixed
                   else row.fixed.conversation == flows[i].origin.conversation
                        && row.fixed.firstSeen == flows[i].origin.firstSeen)
  {
    hide UpsertAll, FirstFixed, LastRow, Snapshots;
    UpsertsLeave(table, Snapshots(flows), key);
    FirstFixedIs(flows, key, i);
    LastRowIs(flows, key, j);
  }

  /** And a row of a flow that is not among them stays. */
  lemma OtherRowsStay(table: Table, flows: seq<Flow>, key: FlowKey)
    requires forall k :: 0 <= k < |flows| ==> flows[k].origin.key != key
    ensures var after := UpsertAll(table, Snapshots(flows));
            (key in after <==> key in table) && (key in table ==> after[key] == table[key])
  {
    UpsertsLeave(table, Snapshots(flows), key);
    NotThere(flows, key);
  }
}
