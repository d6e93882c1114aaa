/** The aggregator object, updated in place: one method per lock section, and the
    public calls made of them, for a caller that is not disturbed. */
module EventAggregatorObject {
  import opened EventAggregator

  class Aggregator {
    const config: Config
    var pending: map<Category, seq<Message>>
    var registry: map<Category, nat>
    var timers: seq<Timer>
    var received: nat
    var sent: nat
    var batchesSent: nat
    var coalesced: nat
    /** What the emit callback has been given, in order; an unbatched message is a batch of its own. */
    ghost var emitted: seq<Batch>

    function View(): Shared
      reads this
    {
      Shared(pending, registry, timers, received, sent, batchesSent, coalesced)
    }

    ghost predicate Valid()
      reads this
    {
      && Sound(View())
      && forall i :: 0 <= i < |timers| && timers[i].status.Waiting? ==> exists c :: c in registry && registry[c] == i
    }

    constructor (cfg: Config)
      ensures config == cfg && Valid() && View() == Init(0).shared && emitted == []
    {
      config := cfg;
      pending := EmptyPending();
      registry := map[];
      timers := [];
      CategoriesListed();
      received, sent, batchesSent, coalesced := 0, 0, 0, 0;
      emitted := [];
    }

    method RecordReceived()
      requires Valid()
      modifies this`received
      ensures Valid() && View() == Perform(old(View()), Receive)
    {
      received := received + 1;
    }

    method AppendSection(c: Category, m: Message) returns (shouldFlush: bool)
      requires Valid() && !IsSlot(c)
      modifies this`pending
      ensures Valid() && View() == Perform(old(View()), Append(c, m))
      ensures shouldFlush == (|old(pending)[c]| + 1 >= MaxSize(config, c))
    {
      pending := pending[c := pending[c] + [m]];
      shouldFlush := |pending[c]| >= MaxSize(config, c);
    }

    method CoalesceSection(c: Category, m: Message)
      requires Valid() && IsSlot(c)
      modifies this`pending, this`coalesced
      ensures Valid() && View() == Perform(old(View()), Overwrite(c, m))
    {
      if pending[c] != [] { coalesced := coalesced + 1; }
      pending := pending[c := [m]];
    }

    method FlushSection(c: Category) returns (batch: Batch)
      requires Valid()
      modifies this`pending, this`registry, this`timers, this`sent, this`batchesSent
      ensures Valid() && View() == Perform(old(View()), Take(c))
      ensures batch == Batch(c, old(pending)[c])
    {
      if c in registry {
        timers := CancelTimer(timers, registry[c]);
        registry := registry - {c};
      }
      batch := Batch(c, pending[c]);
      pending := pending[c := []];
      if batch.events != [] {
        batchesSent := batchesSent + 1;
        sent := sent + |batch.events|;
      }
      forall i | 0 <= i < |timers| && timers[i].status.Waiting? ensures exists d :: d in registry && registry[d] == i {
        var d :| d in old(registry) && old(registry)[d] == i;
        assert d in registry && registry[d] == i;
      }
    }

    method Schedule(c: Category)
      requires Valid()
      modifies this`registry, this`timers
      ensures Valid() && View() == Perform(old(View()), Arm(c))
    {
      if c in registry { return; }
      timers := timers + [Timer(c, Waiting)];
      registry := registry[c := |timers| - 1];
      forall i | 0 <= i < |timers| && timers[i].status.Waiting? ensures exists d :: d in registry && registry[d] == i {
        if i == |timers| - 1 {
          assert registry[c] == i;
        } else {
          var d :| d in old(registry) && old(registry)[d] == i;
          assert d in registry && registry[d] == i;
        }
      }
    }

    method Flush(c: Category)
      requires Valid()
      modifies this
      ensures Valid() && View() == Perform(old(View()), Take(c))
      ensures emitted == old(emitted) + if old(pending)[c] == [] then [] else [Batch(c, old(pending)[c])]
    {
      var batch := FlushSection(c);
      if batch.events != [] { emitted := emitted + [batch]; }
    }

    /** A full buffer is emitted at once, in order; otherwise the event waits under a timer. */
    method AppendBuffer(c: Category, m: Message)
      requires Valid() && !IsSlot(c)
      modifies this
      ensures Valid() && received == old(received) + 1
      ensures forall d: Category :: d != c ==> pending[d] == old(pending)[d]
      ensures if |old(pending)[c]| + 1 >= MaxSize(config, c)
              then pending[c] == [] && c !in registry && emitted == old(emitted) + [Batch(c, old(pending)[c] + [m])]
              else pending[c] == old(pending)[c] + [m] && c in registry && emitted == old(emitted)
    {
      RecordReceived();
      var shouldFlush := AppendSection(c, m);
      if shouldFlush {
        Flush(c);
        return;
      }
      Schedule(c);
    }

    method Coalesce(c: Category, m: Message)
      requires Valid() && IsSlot(c)
      modifies this
      ensures Valid() && received == old(received) + 1 && emitted == old(emitted)
      ensures pending == old(pending)[c := [m]] && c in registry
      ensures coalesced == old(coalesced) + if old(pending)[c] == [] then 0 else 1
    {
      RecordReceived();
      CoalesceSection(c, m);
      Schedule(c);
    }

    method FlushAll()
      requires Valid()
      modifies this
      ensures Valid() && (forall c: Category :: pending[c] == [] && c !in registry)
      ensures emitted == old(emitted) + Batches(old(pending), ALL)
      ensures forall i :: 0 <= i < |timers| ==> !timers[i].status.Waiting?
    {
      hide Perform, Batches;
      var i := 0;
      ghost var before := pending;
      BatchesSnoc(before, [], Packet);
      while i < |ALL|
        invariant 0 <= i <= |ALL| && Valid()
        invariant forall j :: 0 <= j < i ==> pending[ALL[j]] == [] && ALL[j] !in registry
        invariant forall j :: i <= j < |ALL| ==> pending[ALL[j]] == before[ALL[j]]
        invariant emitted == old(emitted) + Batches(before, ALL[..i])
      {
        assert ALL[..i + 1] == ALL[..i] + [ALL[i]];
        BatchesSnoc(before, ALL[..i], ALL[i]);
        ghost var sh := View();
        Flush(ALL[i]);
        TakeEmpties(sh, ALL[i]);
        i := i + 1;
      }
      assert ALL[..i] == ALL;
      CategoriesListed();
      forall c: Category ensures pending[c] == [] && c !in registry {
        assert c in ALL;
      }
    }

    /** Every timer is cancelled and everything pending is emitted, category by category. */
    method Close()
      requires Valid()
      modifies this
      ensures Valid() && (forall c: Category :: pending[c] == [] && c !in registry)
      ensures emitted == old(emitted) + Batches(old(pending), ALL)
      ensures forall i :: 0 <= i < |timers| ==> !timers[i].status.Waiting?
    {
      var cancelled := registry.Values;
      registry := map[];
      while cancelled != {}
        invariant Sound(View()) && registry == map[] && pending == old(pending) && emitted == old(emitted)
        invariant forall i :: 0 <= i < |timers| && timers[i].status.Waiting? ==> i in cancelled
        decreases |cancelled|
      {
        var i :| i in cancelled;
        timers := CancelTimer(timers, i);
        cancelled := cancelled - {i};
      }
      FlushAll();
    }
  }

  /** The batches a flush of the given categories emits. */
  lemma BatchesSnoc(pending: map<Category, seq<Message>>, categories: seq<Category>, c: Category)
    requires forall d: Category :: d in pending
    ensures Batches(pending, []) == []
    ensures Batches(pending, categories + [c])
            == Batches(pending, categories) + if pending[c] == [] then [] else [Batch(c, pending[c])]
  {
    assert (categories + [c])[..|categories|] == categories;
  }

  lemma TakeEmpties(sh: Shared, c: Category)
    requires Sound(sh)
    ensures var sh' := Perform(sh, Take(c)); sh'.pending == sh.pending[c := []] && sh'.registry == sh.registry - {c}
  {
  }

  function Batches(pending: map<Category, seq<Message>>, categories: seq<Category>): seq<Batch>
    requires forall c: Category :: c in pending
  {
    if categories == [] then []
    else
      var c := categories[|categories| - 1];
      Batches(pending, categories[..|categories| - 1]) + if pending[c] == [] then [] else [Batch(c, pending[c])]
  }
}
