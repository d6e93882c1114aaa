/** What the flow index says about the packets ingested since the last reset. */
module FlowEngineResults {
  import opened Sequences
  import opened Text
  import opened Maps
  import opened Values
  import opened FlowRisk
  import opened FlowEngine
  import opened FlowEngineObject

  // ----- identities -----

  /** The packet that answers `p`: the endpoints exchanged. */
  predicate Replies(p: Packet, q: Packet) {
    q.src == p.dst && q.dst == p.src && q.sport == p.dport && q.dport == p.sport && q.proto == p.proto
  }

  /** A packet and its reply share a conversation; and sharing one means the same protocol and the
      same two endpoints, whichever way round. */
  lemma ConversationsAreUnordered(p: Packet, q: Packet)
    ensures var a, b := Endpoint(OrElse(p.src, "-"), p.sport), Endpoint(OrElse(p.dst, "-"), p.dport);
            var c, d := Endpoint(OrElse(q.src, "-"), q.sport), Endpoint(OrElse(q.dst, "-"), q.dport);
            ConversationFor(p) == ConversationFor(q)
            <==> ((a == c && b == d) || (a == d && b == c))
                 && Upper(OrElse(p.proto, "OTHER")) == Upper(OrElse(q.proto, "OTHER"))
    ensures Replies(p, q) ==> ConversationFor(p) == ConversationFor(q)
  {
    hide Upper, OrElse, StringLeq;
    var a, b := OrElse(p.src, "-"), OrElse(p.dst, "-");
    StringLeqTotal(a, b);
    if StringLeq(a, b) && StringLeq(b, a) { StringLeqAntisymmetric(a, b); }
  }

  // ----- totals -----

  lemma FlowCounts(history: seq<Entry>, key: FlowKey)
    requires key in KeysIn(history)
    ensures key in FlowsOf(history)
    ensures FlowPackets(FlowsOf(history)[key]) == |PacketsOf(history, key)|
    ensures FlowBytes(FlowsOf(history)[key]) == SumBy(PacketsOf(history, key), Length)
  {
    FlowsAt(history);
  }

  lemma TotalsGrow(init: seq<Entry>, e: Entry)
    requires Total(FlowsOf(init), FlowPackets) == |init| && Total(FlowsOf(init), FlowBytes) == SumBy(init, Length)
    ensures Total(FlowsOf(init + [e]), FlowPackets) == |init| + 1
    ensures Total(FlowsOf(init + [e]), FlowBytes) == SumBy(init + [e], Length)
  {
    hide *;
    var key := EntryKey(e);
    FlowsSnoc(init, e);
    var flow := FlowIn(init + [e], key);
    TotalUpdate(FlowsOf(init), FlowPackets, key, flow);
    TotalUpdate(FlowsOf(init), FlowBytes, key, flow);
    OneMorePacket(init, e);
    SumBySnoc(init, e, Length);
  }

  /** Over all flows, packets and bytes add up to everything ingested. */
  lemma {:induction false} FlowTotalsAreTheHistory(history: seq<Entry>)
    ensures Total(FlowsOf(history), FlowPackets) == |history|
    ensures Total(FlowsOf(history), FlowBytes) == SumBy(history, Length)
  {
    if history != [] {
      var init, e := history[..|history| - 1], history[|history| - 1];
      assert history == init + [e];
      FlowTotalsAreTheHistory(init);
      TotalsGrow(init, e);
    }
  }

  lemma OneMorePacket(init: seq<Entry>, e: Entry)
    ensures var key, before := EntryKey(e), FlowsOf(init);
            && PacketsOf(init + [e], key) != []
            && FlowPackets(FlowIn(init + [e], key)) == 1 + (if key in before then FlowPackets(before[key]) else 0)
            && FlowBytes(FlowIn(init + [e], key)) == Length(e) + (if key in before then FlowBytes(before[key]) else 0)
  {
    var key := EntryKey(e);
    OwnFlow(init, e);
    SumBySnoc(PacketsOf(init, key), e, Length);
    FlowsAt(init);
    SomeKept(init, key);
    if key in KeysIn(init) { FlowCounts(init, key); } else { assert SumBy([], Length) == 0; }
  }

  // ----- conversations -----

  /** Every flow is in the conversation of its key and in no other; no conversation is empty. */
  lemma ConversationsPartitionFlows(history: seq<Entry>)
    ensures Partition(ConversationsOf(history), FlowsOf(history).Keys)
    ensures forall c :: c in ConversationsOf(history) ==> ConversationsOf(history)[c] != {}
  {
    hide FlowsOf, KeyOf, ConversationFor;
    FlowsAt(history);
    forall c | c in ConversationsOf(history) ensures ConversationsOf(history)[c] != {} {
      var e :| e in history && ConversationFor(e.packet) == c;
      assert EntryKey(e) in ConversationsOf(history)[c];
    }
    forall key | key in KeysIn(history)
      ensures exists c :: c in ConversationsOf(history) && key in ConversationsOf(history)[c] {
      var e :| e in history && EntryKey(e) == key;
      KnownMember(history, e.packet);
    }
    forall c, d, key | c in ConversationsOf(history) && d in ConversationsOf(history)
      && key in ConversationsOf(history)[c] && key in ConversationsOf(history)[d] ensures c == d
    {
      var x :| x in history && ConversationFor(x.packet) == c && EntryKey(x) == key;
      var y :| y in history && ConversationFor(y.packet) == d && EntryKey(y) == key;
      ConversationOfKey(x.packet, y.packet);
    }
  }

  /** Over all conversations, packets and bytes add up to everything ingested. */
  lemma ConversationTotalsAreTheHistory(history: seq<Entry>)
    ensures Total(GroupTotals(FlowsOf(history), ConversationsOf(history), FlowPackets), Itself) == |history|
    ensures Total(GroupTotals(FlowsOf(history), ConversationsOf(history), FlowBytes), Itself) == SumBy(history, Length)
  {
    hide FlowsOf, ConversationsOf, GroupTotals, Total;
    ConversationsPartitionFlows(history);
    GroupsAddUp(FlowsOf(history), ConversationsOf(history), FlowPackets);
    GroupsAddUp(FlowsOf(history), ConversationsOf(history), FlowBytes);
    FlowTotalsAreTheHistory(history);
  }

  // ----- one flow -----

  lemma {:induction false} SentAndReceived(hs: seq<Entry>)
    ensures SumBy(hs, SentBytes) + SumBy(hs, ReceivedBytes) == SumBy(hs, Length)
  {
    if hs != [] { SentAndReceived(hs[..|hs| - 1]); }
  }

  /** In every flow all bytes are either sent or received, and the risk is that of the stored flow. */
  lemma FlowsAreConsistent(history: seq<Entry>, key: FlowKey)
    requires key in KeysIn(history)
    ensures key in FlowsOf(history)
    ensures var f := FlowsOf(history)[key];
            && f.traffic.bytes == f.traffic.sent + f.traffic.received
            && f.risk == RiskOf(StoredFeatures(f)) && f.risk.score <= 100
            && |f.timeline| <= MAX_TIMELINE && |f.traffic.samples| <= MAX_SAMPLES
  {
    hide FlowsOf, SumBy, FirstPackets;
    FlowsAt(history);
    SentAndReceived(PacketsOf(history, key));
    FewSamples(PacketsOf(history, key), MAX_SAMPLES);
  }

  lemma {:induction false} FewSamples(hs: seq<Entry>, n: nat)
    ensures |FirstPackets(hs, n)| <= n
  {
    if hs != [] { FewSamples(hs[..|hs| - 1], n); }
  }

  /** A destination is flagged new in at most one flow. */
  lemma OneNewFlowPerDestination(history: seq<Entry>, a: FlowKey, b: FlowKey)
    requires a in KeysIn(history) && b in KeysIn(history) && a.dst == b.dst
    ensures a in FlowsOf(history) && b in FlowsOf(history)
    ensures FlowsOf(history)[a].origin.isNew && FlowsOf(history)[b].origin.isNew ==> a == b
  {
    hide FlowsOf;
    FlowsAt(history);
    if IsNew(history, a) && IsNew(history, b) {
      var i :| 0 <= i < |history| && EntryKey(history[i]) == a && FirstContact(history, i);
      var j :| 0 <= j < |history| && EntryKey(history[j]) == b && FirstContact(history, j);
      assert history[i].packet.dst == history[j].packet.dst;
    }
  }

  // ----- a flow over time -----

  lemma {:induction false} AlertsGrow(hs: seq<Entry>, more: seq<Entry>)
    ensures AlertsOf(hs).counts <= AlertsOf(hs + more).counts
  {
    if more == [] {
      assert hs + more == hs;
    } else {
      var before, e := hs + more[..|more| - 1], more[|more| - 1];
      AlertsGrow(hs, more[..|more| - 1]);
      assert (hs + more)[..|hs + more| - 1] == before;
      TallyGrows(AlertsOf(before), e.alerts);
    }
  }

  lemma {:induction false} TallyGrows(book: AlertBook, alerts: seq<Alert>)
    ensures book.counts <= AddAlerts(book, alerts).counts
  {
    if alerts != [] { TallyGrows(book, alerts[..|alerts| - 1]); }
  }

  lemma {:induction false} IsNewStaysLong(history: seq<Entry>, more: seq<Entry>, key: FlowKey)
    requires key in KeysIn(history)
    ensures key in KeysIn(history + more) && IsNew(history + more, key) == IsNew(history, key)
  {
    hide IsNew;
    if more == [] {
      assert history + more == history;
    } else {
      var init, e := more[..|more| - 1], more[|more| - 1];
      IsNewStaysLong(history, init, key);
      assert history + more == history + init + [e];
      IsNewStays(history + init, e, key);
      KeysSnoc(history + init, e);
    }
  }

  /** What later packets leave of a flow: its origin - so its first_seen and its conversation - is
      the same for good, and nothing its risk counts goes down except through its protocol. */
  lemma FlowsOnlyGrow(history: seq<Entry>, more: seq<Entry>, key: FlowKey)
    requires key in KeysIn(history)
    ensures key in FlowsOf(history) && key in FlowsOf(history + more)
    ensures var f, g := FlowsOf(history)[key], FlowsOf(history + more)[key];
            && g.origin == f.origin && f.alerts.counts <= g.alerts.counts
            && f.traffic.packets <= g.traffic.packets && f.traffic.bytes <= g.traffic.bytes
            && f.traffic.dnsFailures <= g.traffic.dnsFailures
  {
    hide FlowsOf, IsNew;
    FlowsAt(history);
    FlowsAt(history + more);
    IsNewStaysLong(history, more, key);
    var hs, later := PacketsOf(history, key), PacketsOf(more, key);
    FilterConcat(history, more, OfKey(key));
    SumByConcat(hs, later, Length);
    SumByConcat(hs, later, NameFailures);
    AlertsGrow(hs, later);
  }

  /** Whatever packets follow, the stored risk of a flow ends lower exactly when its protocol has lost more
      points than the rest of the evidence has gained and the new score is below the cap. */
  lemma StoredRiskDropsIff(history: seq<Entry>, more: seq<Entry>, key: FlowKey)
    requires key in KeysIn(history)
    ensures key in FlowsOf(history) && key in FlowsOf(history + more)
    ensures var f, g := FlowsOf(history)[key], FlowsOf(history + more)[key];
            var before, after := StoredFeatures(f), StoredFeatures(g);
            && Evidence(before) <= Evidence(after)
            && (g.risk.score < f.risk.score
                <==> Raw(after) < 100
                     && ProtocolPoints(before) - ProtocolPoints(after) > Evidence(after) - Evidence(before))
  {
    IsNewStaysLong(history, more, key);
    hide *;
    FlowsOnlyGrow(history, more, key);
    FlowsAreConsistent(history, key);
    FlowsAreConsistent(history + more, key);
    var f, g := FlowsOf(history)[key], FlowsOf(history + more)[key];
    LaterFeatures(f, g);
    RiskDropsIff(StoredFeatures(f), StoredFeatures(g));
  }

  lemma LaterFeatures(f: Flow, g: Flow)
    requires g.origin == f.origin && f.alerts.counts <= g.alerts.counts && f.traffic.packets <= g.traffic.packets
    requires f.traffic.bytes <= g.traffic.bytes && f.traffic.dnsFailures <= g.traffic.dnsFailures
    ensures Later(StoredFeatures(f), StoredFeatures(g))
  {
  }

  /** In particular it never drops while the protocol costs no less, as when it stays the same. */
  lemma StoredRiskNeverDrops(history: seq<Entry>, more: seq<Entry>, key: FlowKey)
    requires key in KeysIn(history)
    ensures key in FlowsOf(history) && key in FlowsOf(history + more)
    ensures var f, g := FlowsOf(history)[key], FlowsOf(history + more)[key];
            (Upper(OrElse(f.traffic.app, "UNKNOWN")) == Upper(OrElse(g.traffic.app, "UNKNOWN"))
             || ProtocolPoints(StoredFeatures(f)) <= ProtocolPoints(StoredFeatures(g)))
            ==> f.risk.score <= g.risk.score
  {
    IsNewStaysLong(history, more, key);
    hide *;
    FlowsOnlyGrow(history, more, key);
    StoredRiskDropsIff(history, more, key);
    SameProtocolCostsTheSame(FlowsOf(history)[key], FlowsOf(history + more)[key]);
  }

  lemma SameProtocolCostsTheSame(f: Flow, g: Flow)
    requires f.origin == g.origin
    ensures Upper(OrElse(f.traffic.app, "UNKNOWN")) == Upper(OrElse(g.traffic.app, "UNKNOWN"))
            ==> ProtocolPoints(StoredFeatures(f)) == ProtocolPoints(StoredFeatures(g))
  {
  }

  // ----- alert ids -----

  predicate Listed(hs: seq<Entry>, id: string) {
    exists i, j :: 0 <= i < |hs| && 0 <= j < |hs[i].alerts| && hs[i].alerts[j].id == id
  }

  lemma {:induction false} AddedIds(book: AlertBook, alerts: seq<Alert>)
    requires Distinct(book.ids)
    ensures Distinct(AddAlerts(book, alerts).ids)
    ensures forall id :: id in AddAlerts(book, alerts).ids
              <==> id in book.ids || (id != "" && exists j :: 0 <= j < |alerts| && alerts[j].id == id)
  {
    if alerts != [] {
      var k := |alerts| - 1;
      AddedIds(book, alerts[..k]);
      assert forall j :: 0 <= j < k ==> alerts[..k][j] == alerts[j];
    }
  }

  /** A flow lists the id of every alert raised on it, once. */
  lemma {:induction false} AlertIdsAreListedOnce(hs: seq<Entry>)
    ensures Distinct(AlertsOf(hs).ids)
    ensures forall id :: id in AlertsOf(hs).ids <==> id != "" && Listed(hs, id)
  {
    if hs != [] {
      var k := |hs| - 1;
      AlertIdsAreListedOnce(hs[..k]);
      AddedIds(AlertsOf(hs[..k]), hs[k].alerts);
      assert forall i :: 0 <= i < k ==> hs[..k][i] == hs[i];
      forall id
        ensures Listed(hs, id) <==>
                  Listed(hs[..k], id) || exists j :: 0 <= j < |hs[k].alerts| && hs[k].alerts[j].id == id {
        if Listed(hs[..k], id) {
          var i, j :| 0 <= i < k && 0 <= j < |hs[..k][i].alerts| && hs[..k][i].alerts[j].id == id;
          assert hs[i].alerts[j].id == id;
        }
      }
    }
  }
}
