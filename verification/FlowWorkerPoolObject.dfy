/** The pool object itself, updated in place. Each method up to `TryTake` is one atomic
    section of the threaded model (`Perform`); `EvictHead`, `Enqueue`, `Submit` and
    `AllDrained` are the source's code on top of them, for an undisturbed caller. */
module FlowWorkerPoolObject {
  import opened FlowWorkerPool

  class Pool {
    const config: Config
    var accepting: bool
    var stop: bool
    var received: nat
    var processed: nat
    var failed: nat
    var dropped: nat
    var rejected: nat
    var unknown: nat
    var lanes: seq<Lane>

    function View(): Shared
      reads this
    {
      Shared(accepting, stop, received, processed, failed, dropped, rejected, unknown, lanes)
    }

    ghost predicate Valid()
      reads this
    {
      WellFormed(config) && |lanes| == |config.capacity|
    }

    constructor (c: Config)
      requires WellFormed(c)
      ensures config == c && Valid() && View() == EmptyPool(|c.capacity|)
    {
      config := c;
      accepting, stop := true, false;
      received, processed, failed, dropped, rejected, unknown := 0, 0, 0, 0, 0, 0;
      lanes := seq(|c.capacity|, _ => Lane([], 0, 0, 0, 0));
    }

    method RecordReceived() returns (open: bool)
      modifies this
      ensures View() == Perform(old(View()), Receive) && open == old(accepting)
    {
      received := received + 1;
      open := accepting;
    }

    method RecordUnknown()
      modifies this
      ensures View() == Perform(old(View()), NoteUnknown)
    {
      unknown := unknown + 1;
    }

    method RecordRejection()
      modifies this
      ensures View() == Perform(old(View()), Reject)
    {
      rejected := rejected + 1;
    }

    method RecordInline(ok: bool)
      modifies this
      ensures View() == Perform(old(View()), Settle(ok))
    {
      if ok { processed := processed + 1; } else { failed := failed + 1; }
    }

    method RecordDrop(l: nat)
      requires l < |lanes|
      modifies this
      ensures View() == Perform(old(View()), Drop(l))
    {
      lanes := lanes[l := lanes[l].(dropped := lanes[l].dropped + 1)];
      dropped := dropped + 1;
    }

    method RecordCompletion(l: nat, ok: bool)
      requires l < |lanes|
      modifies this
      ensures View() == Perform(old(View()), Complete(l, ok))
    {
      if ok {
        lanes := lanes[l := lanes[l].(processed := lanes[l].processed + 1)];
        processed := processed + 1;
      } else {
        lanes := lanes[l := lanes[l].(failed := lanes[l].failed + 1)];
        failed := failed + 1;
      }
    }

    method TaskDone(l: nat)
      requires l < |lanes|
      modifies this
      ensures View() == Perform(old(View()), Done(l))
    {
      lanes := lanes[l := lanes[l].(unfinished := lanes[l].unfinished - 1)];
    }

    /** put_nowait, or a put whose timeout has run out on a full lane. */
    method TryPut(l: nat, job: Job) returns (ok: bool)
      requires Valid() && l < |lanes|
      modifies this
      ensures ok == HasRoom(config, old(View()), l)
      ensures View() == if ok then Perform(old(View()), Put(l, job)) else old(View())
    {
      ok := |lanes[l].queue| < config.capacity[l];
      if ok {
        lanes := lanes[l := lanes[l].(queue := lanes[l].queue + [job], unfinished := lanes[l].unfinished + 1)];
      }
    }

    /** get_nowait, for the evicting submitter and for the worker alike. */
    method TryTake(l: nat) returns (ok: bool)
      requires l < |lanes|
      modifies this
      ensures ok == (old(lanes)[l].queue != [])
      ensures View() == if ok then Perform(old(View()), Pop(l)) else old(View())
    {
      ok := lanes[l].queue != [];
      if ok {
        lanes := lanes[l := lanes[l].(queue := lanes[l].queue[1..])];
      }
    }

    /** drop_oldest: the head of the lane is taken off, marked done and counted as dropped. */
    method EvictHead(l: nat)
      requires Valid() && l < |lanes|
      modifies this
      ensures Valid() && |lanes| == |old(lanes)|
      ensures forall m :: 0 <= m < |lanes| && m != l ==> lanes[m] == old(lanes)[m]
      ensures var before := old(lanes)[l];
              if before.queue == [] then View() == old(View())
              else
                && lanes[l] == before.(queue := before.queue[1..], unfinished := before.unfinished - 1,
                                       dropped := before.dropped + 1)
                && View() == old(View()).(lanes := lanes, dropped := old(dropped) + 1)
    {
      var evicted := TryTake(l);
      if evicted {
        TaskDone(l);
        RecordDrop(l);
      }
    }

    /** A full lane loses its head, refuses the newcomer with a drop, or rejects it, by policy. */
    method Enqueue(l: nat, job: Job) returns (accepted: bool)
      requires Valid() && l < |lanes| && |lanes[l].queue| <= config.capacity[l]
      modifies this
      ensures Valid() && |lanes| == |old(lanes)|
      ensures forall m :: 0 <= m < |lanes| && m != l ==> lanes[m] == old(lanes)[m]
      ensures var room := HasRoom(config, old(View()), l);
              && accepted == (room || config.policy.DropOldest?)
              && lanes[l].queue == (if room then old(lanes)[l].queue + [job]
                                    else if config.policy.DropOldest? then old(lanes)[l].queue[1..] + [job]
                                    else old(lanes)[l].queue)
              && dropped - old(dropped)
                 == (if !room && (config.policy.DropOldest? || config.policy.DropNewest?) then 1 else 0)
              && rejected - old(rejected)
                 == (if !room && (config.policy.RejectNew? || config.policy.BlockShort?) then 1 else 0)
      ensures lanes[l].unfinished - |lanes[l].queue| == old(lanes)[l].unfinished - |old(lanes)[l].queue|
      ensures lanes[l].dropped - old(lanes)[l].dropped == dropped - old(dropped)
      ensures received == old(received) && processed == old(processed) && failed == old(failed)
              && unknown == old(unknown)
      ensures accepting == old(accepting) && stop == old(stop)
    {
      accepted := TryPut(l, job);
      if accepted { return; }
      match config.policy {
        case DropOldest =>
          EvictHead(l);
          accepted := TryPut(l, job);
          assert accepted; // nobody else can have filled the lane in between
        case DropNewest => RecordDrop(l);
        case RejectNew => RecordRejection();
        case BlockShort => RecordRejection();
      }
    }

    /** `inlineOk` is the processor's outcome when the pool is disabled. */
    method Submit(key: string, complete: bool, inlineOk: bool) returns (accepted: bool)
      requires Valid() && forall l :: 0 <= l < |lanes| ==> |lanes[l].queue| <= config.capacity[l]
      modifies this
      ensures Valid() && forall l :: 0 <= l < |lanes| ==> |lanes[l].queue| <= config.capacity[l]
      ensures received == old(received) + 1 && accepting == old(accepting) && stop == old(stop)
      ensures forall l :: 0 <= l < |lanes| && l != config.route(key) ==> lanes[l] == old(lanes)[l]
      ensures unknown == old(unknown) + if old(accepting) && !complete then 1 else 0
      ensures !old(accepting) ==>
                && !accepted && lanes == old(lanes) && rejected == old(rejected) + 1
                && processed == old(processed) && failed == old(failed) && dropped == old(dropped)
      ensures old(accepting) && !config.enabled ==>
                && accepted && lanes == old(lanes) && rejected == old(rejected) && dropped == old(dropped)
                && processed == old(processed) + (if inlineOk then 1 else 0)
                && failed == old(failed) + (if inlineOk then 0 else 1)
      ensures old(accepting) && config.enabled ==>
                var l, policy, before := config.route(key), config.policy, old(lanes)[config.route(key)].queue;
                var job, room := Job(old(received), key), |before| < config.capacity[l];
                && accepted == (room || policy.DropOldest?)
                && lanes[l].queue == (if room then before + [job] else if accepted then before[1..] + [job] else before)
                && dropped == old(dropped) + (if !room && (policy.DropOldest? || policy.DropNewest?) then 1 else 0)
                && rejected == old(rejected) + (if !room && (policy.RejectNew? || policy.BlockShort?) then 1 else 0)
                && lanes[l].dropped - old(lanes)[l].dropped == dropped - old(dropped)
                && processed == old(processed) && failed == old(failed)
    {
      var ticket := received;
      var open := RecordReceived();
      if !open {
        RecordRejection();
        return false;
      }
      if !complete { RecordUnknown(); }
      if !config.enabled {
        RecordInline(inlineOk);
        return true;
      }
      accepted := Enqueue(config.route(key), Job(ticket, key));
    }

    /** One pass of `wait_until_drained` over the lanes. */
    method AllDrained() returns (drained: bool)
      ensures drained <==> forall l :: 0 <= l < |lanes| ==> lanes[l].unfinished == 0
    {
      var l := 0;
      while l < |lanes|
        invariant 0 <= l <= |lanes|
        invariant forall m :: 0 <= m < l ==> lanes[m].unfinished == 0
      {
        if lanes[l].unfinished != 0 { return false; }
        l := l + 1;
      }
      return true;
    }
  }
}
