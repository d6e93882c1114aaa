/** The results about whole runs of the batch writer. */
module BatchPersistenceResults {
  import opened Sequences
  import opened Maps
  import opened Values
  import opened BatchPersistence
  import opened BatchPersistenceSafety

  // ----- every run -----

  lemma {:induction false} ItemsAt(popped: seq<Popped>)
    ensures |Items(popped)| == |popped| && forall i :: 0 <= i < |popped| ==> Items(popped)[i] == popped[i].item
  {
    if popped != [] { ItemsAt(popped[..|popped| - 1]); }
  }

  /** Whoever waits for a flush command put it in the log. */
  ghost predicate AwaitsItsCommand(s: System) {
    forall t :: 0 <= t < |s.threads| && s.threads[t].Awaiting? ==>
      s.threads[t].place < |s.log| && s.log[s.threads[t].place] == FlushCommand
  }

  lemma StepKeepsAwaits(cfg: Config, s: System, a: Action)
    requires Can(cfg, s, a) && Fifo(s) && AwaitsItsCommand(s)
    ensures AwaitsItsCommand(Apply(cfg, s, a))
  {
    ItemsAt(s.popped);
  }

  ghost predicate Inv(cfg: Config, s: System) {
    && Buffered(cfg, s.shared.buffers) && Fifo(s) && (forall kind :: KindInOrder(s, kind)) && Books(s)
    && (!cfg.policy.DropOldest? ==> Honest(s)) && Barrier(s) && AwaitsItsCommand(s)
  }

  lemma StepKeepsInv(cfg: Config, s: System, a: Action)
    requires Can(cfg, s, a) && Inv(cfg, s)
    ensures Inv(cfg, Apply(cfg, s, a))
  {
    StepKeepsBuffered(cfg, s, a);
    StepKeepsFifo(cfg, s, a);
    StepKeepsAwaits(cfg, s, a);
    if !cfg.policy.DropOldest? { StepKeepsHonest(cfg, s, a); }
    forall kind ensures KindInOrder(Apply(cfg, s, a), kind) {
      if a.Work? { WorkerKeepsKind(cfg, s, a.later, a.ok, kind); } else { ThreadKeepsKind(cfg, s, a, kind); }
    }
    if a.Work? {
      WorkerKeepsBooks(cfg, s, a.later, a.ok);
      WorkerKeepsBarrier(cfg, s, a.later, a.ok);
    } else {
      ThreadKeepsBooks(cfg, s, a);
      ThreadKeepsBarrier(cfg, s, a);
    }
  }

  lemma InitInv(cfg: Config, threads: nat)
    ensures Inv(cfg, Init(threads))
  {
    SumByZero(Init(threads).threads, Pending);
    SumByZero(Init(threads).threads, Uncharged);
  }

  lemma {:induction false} RunKeepsInv(cfg: Config, s: System, run: seq<Action>)
    requires Legal(cfg, s, run) && Inv(cfg, s)
    ensures Inv(cfg, After(cfg, s, run))
    decreases |run|
  {
    if run != [] {
      StepKeepsInv(cfg, s, run[0]);
      RunKeepsInv(cfg, Apply(cfg, s, run[0]), run[1..]);
    }
  }

  lemma ReachableInv(cfg: Config, s: System)
    requires Reachable(cfg, s)
    ensures Inv(cfg, s)
  {
    var threads: nat, run :| Legal(cfg, Init(threads), run) && After(cfg, Init(threads), run) == s;
    InitInv(cfg, threads);
    RunKeepsInv(cfg, Init(threads), run);
  }

  // ----- order -----

  function AllEvents(items: seq<Item>): seq<Event> {
    if items == [] then [] else AllEvents(items[..|items| - 1]) + EventsOf(items[|items| - 1])
  }

  /** The units the worker took: what was popped, less what was evicted. */
  function TakenUnits(popped: seq<Popped>): seq<Item> {
    if popped == [] then []
    else TakenUnits(popped[..|popped| - 1]) + if popped[|popped| - 1].evicted then [] else [popped[|popped| - 1].item]
  }

  lemma {:induction false} TakenUnitsEvents(popped: seq<Popped>)
    ensures AllEvents(TakenUnits(popped)) == TakenEvents(popped)
  {
    if popped != [] {
      var init, last := popped[..|popped| - 1], popped[|popped| - 1];
      TakenUnitsEvents(init);
      if last.evicted {
        assert TakenUnits(init) + [] == TakenUnits(init);
      } else {
        assert (TakenUnits(init) + [last.item])[..|TakenUnits(init)|] == TakenUnits(init);
      }
    }
  }

  lemma {:induction false} TakenUnitsSubseq(popped: seq<Popped>)
    ensures Subseq(TakenUnits(popped), Items(popped))
    ensures (forall i :: 0 <= i < |popped| ==> !popped[i].evicted) ==> TakenUnits(popped) == Items(popped)
  {
    if popped != [] {
      var init, last := popped[..|popped| - 1], popped[|popped| - 1];
      TakenUnitsSubseq(init);
      SubseqSnoc(TakenUnits(init), Items(init), last.item);
      assert TakenUnits(init) + [] == TakenUnits(init);
    }
  }

  /** Batching preserves the log. There is one sequence of whole units - so groups are taken all or
      nothing - that with the queue is a subsequence of everything enqueued, and is all of it under
      drop_newest and reject_new; and the rows settled, being written, buffered and in hand are,
      type by type, exactly its events in order. */
  lemma BatchingPreservesTheLog(cfg: Config, s: System, kind: string)
    requires Reachable(cfg, s)
    ensures Subseq(TakenUnits(s.popped) + s.shared.queue, s.log)
    ensures !cfg.policy.DropOldest? ==> TakenUnits(s.popped) + s.shared.queue == s.log
    ensures SettledOf(s.handed, kind) + RowsOf(InFlight(s.worker), kind) + RowsOf(s.shared.buffers.rows, kind)
            + Filter(HeldEvents(s.worker), OfKind(kind))
            == Filter(AllEvents(TakenUnits(s.popped)), OfKind(kind))
  {
    ReachableInv(cfg, s);
    TakenUnitsEvents(s.popped);
    TakenUnitsSubseq(s.popped);
    SubseqAppend(TakenUnits(s.popped), Items(s.popped), s.shared.queue);
    assert KindInOrder(s, kind);
  }

  /** At every step each received event is in exactly one place; and except under drop_oldest the
      drop counter is what was lost, once refused units have been counted. */
  lemma EventsAreConserved(cfg: Config, s: System)
    requires Reachable(cfg, s)
    ensures s.shared.received == s.shared.written + s.shared.failed + s.lost + SumBy(s.shared.queue, Size)
                                 + Downstream(s.shared.buffers, s.worker) + SumBy(s.threads, Pending)
    ensures !cfg.policy.DropOldest? ==> s.lost == s.shared.dropped + SumBy(s.threads, Uncharged)
  {
    ReachableInv(cfg, s);
  }

  /** In every reachable state the buffers are below their batch sizes and exactly the non-empty ones
      are timed; and a round of the worker leaves none of them older than its interval. */
  lemma BuffersStayBounded(cfg: Config, s: System, later: nat, ok: bool)
    requires Reachable(cfg, s)
    ensures Tidy(s.shared.buffers) && BelowBatchSize(cfg, s.shared.buffers)
    ensures Passes(s) ==> var s' := Apply(cfg, s, Work(later, ok)); InTime(cfg, s'.shared.buffers, s'.now)
  {
    ReachableInv(cfg, s);
    if Passes(s) {
      PassStep(cfg, s, later, ok);
      RoundFlushesWhatIsDue(cfg, s, later);
    }
  }

  // ----- the flush barrier -----

  lemma TakenBefore(popped: seq<Popped>, p: nat)
    requires p <= |popped|
    ensures p <= |Items(popped)| && TakenEvents(popped[..p]) == AllEvents(TakenUnits(popped[..p]))
    ensures Subseq(TakenUnits(popped[..p]), Items(popped)[..p])
    ensures (forall i :: 0 <= i < |popped| ==> !popped[i].evicted) ==> TakenUnits(popped[..p]) == Items(popped)[..p]
  {
    hide Items, TakenEvents, TakenUnits, AllEvents, Subseq;
    ItemsAt(popped);
    ItemsAt(popped[..p]);
    TakenUnitsEvents(popped[..p]);
    TakenUnitsSubseq(popped[..p]);
    assert Items(popped[..p]) == Items(popped)[..p];
  }

  /** A flush that returns true because the worker signalled its command: of the units put before the
      command, those not evicted are settled, written or failed, in order. Under drop_newest and
      reject_new the worker is the only one to signal, and those are all the units put before it. */
  lemma FlushIsABarrier(cfg: Config, s: System, t: nat, kind: string)
    requires Reachable(cfg, s)
    requires t < |s.threads| && s.threads[t].Awaiting? && Can(cfg, s, Proceed(t))
    ensures var p := s.threads[t].place;
            && p < |s.popped| && p < |s.log| && s.log[p] == FlushCommand
            && (!s.popped[p].evicted ==>
                  && Filter(AllEvents(TakenUnits(s.popped[..p])), OfKind(kind)) <= SettledOf(s.handed, kind)
                  && Subseq(TakenUnits(s.popped[..p]), s.log[..p]))
            && (!cfg.policy.DropOldest? ==> !s.popped[p].evicted && TakenUnits(s.popped[..p]) == s.log[..p])
  {
    hide Reachable, Filter, AllEvents, TakenUnits, TakenEvents, Subseq, SettledOf;
    ReachableInv(cfg, s);
    var p := s.threads[t].place;
    TakenBefore(s.popped, p);
    ItemsAt(s.popped);
    assert s.log[..p] == Items(s.popped)[..p];
    if !s.popped[p].evicted { assert SettledBefore(s.handed, s.popped, p, kind); }
  }

  lemma NothingBetween<T>(settled: seq<T>, writing: seq<T>, buffered: seq<T>, held: seq<T>, taken: seq<T>)
    requires settled + writing + buffered + held == taken
    ensures taken <= settled <==> writing == [] && buffered == [] && held == []
  {
    assert |taken| == |settled| + |writing| + |buffered| + |held|;
    assert writing == [] && buffered == [] && held == [] ==> taken == settled;
  }

  /** Under drop_oldest a producer may evict the command itself and so signal it. At that moment the
      barrier holds exactly when the worker has nothing buffered, in hand or being written. */
  lemma EvictedFlushIsABarrierWhenIdle(cfg: Config, s: System, t: nat)
    requires Reachable(cfg, s) && cfg.policy.DropOldest?
    requires t < |s.threads| && s.threads[t].Overflowing? && s.shared.queue != [] && s.shared.queue[0].FlushCommand?
    ensures var s', p := Apply(cfg, s, Proceed(t)), |s.popped|;
            && p in s'.shared.completed
            && ((forall kind :: SettledBefore(s'.handed, s'.popped, p, kind))
                <==> (forall kind :: RowsOf(InFlight(s.worker), kind) == [] && RowsOf(s.shared.buffers.rows, kind) == []
                                     && Filter(HeldEvents(s.worker), OfKind(kind)) == []))
  {
    ReachableInv(cfg, s);
    var s', p := Apply(cfg, s, Proceed(t)), |s.popped|;
    assert s'.popped[..p] == s.popped;
    forall kind
      ensures SettledBefore(s'.handed, s'.popped, p, kind)
              <==> RowsOf(InFlight(s.worker), kind) == [] && RowsOf(s.shared.buffers.rows, kind) == []
                   && Filter(HeldEvents(s.worker), OfKind(kind)) == []
    {
      assert KindInOrder(s, kind);
      NothingBetween(SettledOf(s.handed, kind), RowsOf(InFlight(s.worker), kind), RowsOf(s.shared.buffers.rows, kind),
                     Filter(HeldEvents(s.worker), OfKind(kind)), Filter(TakenEvents(s.popped), OfKind(kind)));
    }
  }

  // ----- the drop counter under drop_oldest -----

  /** One overflow handled without interruption loses the head of the queue but counts the incoming
      unit: the counter is right exactly when the two have the same size. */
  lemma OverflowCountsTheIncomingUnit(cfg: Config, s: System, t: nat)
    requires cfg.policy.DropOldest? && cfg.queueMax >= 1 && |s.shared.queue| == cfg.queueMax
    requires t < |s.threads| && s.threads[t].Overflowing?
    ensures var item := s.threads[t].item;
            var run := [Proceed(t), Proceed(t), Proceed(t)];
            && Legal(cfg, s, run)
            && var s' := After(cfg, s, run);
               && s'.shared.queue == s.shared.queue[1..] + [item] && s'.threads == s.threads[t := Idle]
               && s'.lost == s.lost + Size(s.shared.queue[0]) && s'.shared.dropped == s.shared.dropped + Size(item)
               && (s'.lost - s.lost == s'.shared.dropped - s.shared.dropped <==> Size(s.shared.queue[0]) == Size(item))
  {
    var item := s.threads[t].item;
    var s1 := Apply(cfg, s, Proceed(t));
    assert s1.threads[t] == Evicting(item) && s1.shared.queue == s.shared.queue[1..];
    var s2 := Apply(cfg, s1, Proceed(t));
    assert s2.threads[t] == Charging(item) && s2.shared.queue == s.shared.queue[1..] + [item];
    var s3 := Apply(cfg, s2, Proceed(t));
    var run := [Proceed(t), Proceed(t), Proceed(t)];
    assert run[1..] == [Proceed(t), Proceed(t)] && run[1..][1..] == [Proceed(t)] && run[1..][1..][1..] == [];
    assert Legal(cfg, s3, []) && After(cfg, s3, []) == s3;
    assert Legal(cfg, s2, run[1..][1..]) && After(cfg, s2, run[1..][1..]) == s3;
    assert Legal(cfg, s1, run[1..]) && After(cfg, s1, run[1..]) == s3;
  }

  /** Single events only, no flush commands, and nobody moves while a thread handles an overflow. */
  ghost predicate Disciplined(cfg: Config, s: System, run: seq<Action>)
    requires Legal(cfg, s, run)
    decreases |run|
  {
    run == [] ||
    (var a := run[0];
     && !a.Flush? && (a.Enqueue? ==> a.item.Single?)
     && (forall t :: 0 <= t < |s.threads| && (s.threads[t].Overflowing? || s.threads[t].Evicting?) ==> a == Proceed(t))
     && Disciplined(cfg, Apply(cfg, s, a), run[1..]))
  }

  /** Lost events the counter has still to be told of. */
  function Owed(pc: Thread): nat { if pc.Evicting? || pc.Charging? then 1 else 0 }

  predicate CarriesSingle(pc: Thread) { !pc.Flushing? && !pc.Awaiting? && (!pc.Idle? ==> pc.item.Single?) }

  ghost predicate OneForOne(cfg: Config, s: System) {
    && |s.shared.queue| <= cfg.queueMax
    && (forall i :: 0 <= i < |s.shared.queue| ==> s.shared.queue[i].Single?)
    && (forall t :: 0 <= t < |s.threads| ==> CarriesSingle(s.threads[t]))
    && (forall t :: 0 <= t < |s.threads| && s.threads[t].Overflowing? ==> |s.shared.queue| == cfg.queueMax)
    && (forall t :: 0 <= t < |s.threads| && s.threads[t].Evicting? ==> |s.shared.queue| < cfg.queueMax)
    && s.lost == s.shared.dropped + SumBy(s.threads, Owed)
  }

  lemma TurnIsOneForOne(cfg: Config, sh: Shared, popped: nat, pc: Thread)
    requires cfg.policy.DropOldest? && cfg.queueMax >= 1 && !pc.Idle? && CarriesSingle(pc) && |sh.queue| <= cfg.queueMax
    requires forall i :: 0 <= i < |sh.queue| ==> sh.queue[i].Single?
    requires (pc.Overflowing? ==> |sh.queue| == cfg.queueMax) && (pc.Evicting? ==> |sh.queue| < cfg.queueMax)
    ensures var (op, pc', loss) := ThreadTurn(cfg, sh, popped, pc);
            var sh' := Perform(sh, op);
            && CarriesSingle(pc') && |sh'.queue| <= cfg.queueMax
               && (forall i :: 0 <= i < |sh'.queue| ==> sh'.queue[i].Single?)
            && (pc'.Overflowing? ==> |sh'.queue| == cfg.queueMax) && (pc'.Evicting? ==> |sh'.queue| < cfg.queueMax)
            && loss + Owed(pc) + sh.dropped == sh'.dropped + Owed(pc')
  {
  }

  lemma ProceedKeepsOneForOne(cfg: Config, s: System, t: nat)
    requires cfg.policy.DropOldest? && cfg.queueMax >= 1 && Can(cfg, s, Proceed(t)) && OneForOne(cfg, s)
    requires forall t' :: 0 <= t' < |s.threads| && (s.threads[t'].Overflowing? || s.threads[t'].Evicting?) ==> t' == t
    ensures OneForOne(cfg, Apply(cfg, s, Proceed(t)))
  {
    TurnIsOneForOne(cfg, s.shared, |s.popped|, s.threads[t]);
    SumByUpdate(s.threads, Owed, t, ThreadTurn(cfg, s.shared, |s.popped|, s.threads[t]).1);
  }

  lemma StepKeepsOneForOne(cfg: Config, s: System, a: Action)
    requires cfg.policy.DropOldest? && cfg.queueMax >= 1 && Can(cfg, s, a) && Disciplined(cfg, s, [a])
             && OneForOne(cfg, s)
    ensures OneForOne(cfg, Apply(cfg, s, a))
  {
    match a
    case Proceed(t) => ProceedKeepsOneForOne(cfg, s, t);
    case Enqueue(t, item) => SumByUpdate(s.threads, Owed, t, Counted(item));
    case GiveUp(t) => SumByUpdate(s.threads, Owed, t, Idle);
    case Work(later, ok) =>
      if Passes(s) { PassStep(cfg, s, later, ok); }
      else if s.worker.Waiting? { TakeStep(cfg, s, later, ok); }
      else if s.worker.Writing? { WriteStep(cfg, s, later, ok); }
      else { CompleteStep(cfg, s, later, ok); }
    case _ =>
  }

  lemma {:induction false} DisciplinedKeepsOneForOne(cfg: Config, s: System, run: seq<Action>)
    requires cfg.policy.DropOldest? && cfg.queueMax >= 1 && Legal(cfg, s, run) && Disciplined(cfg, s, run)
             && OneForOne(cfg, s)
    ensures OneForOne(cfg, After(cfg, s, run))
    decreases |run|
  {
    if run != [] {
      assert [run[0]][1..] == [] && Legal(cfg, s, [run[0]]) && Disciplined(cfg, s, [run[0]]);
      StepKeepsOneForOne(cfg, s, run[0]);
      DisciplinedKeepsOneForOne(cfg, Apply(cfg, s, run[0]), run[1..]);
    }
  }

  /** Under that discipline drop_oldest counts every loss: whenever no producer is inside its overflow
      handling, received = written + failed + dropped + queued + past the queue + about to be put. */
  lemma DropOldestCountsSingleEvents(cfg: Config, threads: nat, run: seq<Action>)
    requires cfg.policy.DropOldest? && cfg.queueMax >= 1
    requires Legal(cfg, Init(threads), run) && Disciplined(cfg, Init(threads), run)
    ensures var s := After(cfg, Init(threads), run);
            (forall t :: 0 <= t < |s.threads| ==> s.threads[t].Idle? || s.threads[t].Counted?) ==>
            s.shared.received == s.shared.written + s.shared.failed + s.shared.dropped + |s.shared.queue|
                                 + Downstream(s.shared.buffers, s.worker) + SumBy(s.threads, Pending)
  {
    var s := After(cfg, Init(threads), run);
    SumByZero(Init(threads).threads, Owed);
    DisciplinedKeepsOneForOne(cfg, Init(threads), run);
    EventsAreConserved(cfg, s);
    SumOfSingles(s.shared.queue);
    if forall t :: 0 <= t < |s.threads| ==> s.threads[t].Idle? || s.threads[t].Counted? {
      SumByZero(s.threads, Owed);
    }
  }

  lemma {:induction false} SumOfSingles(queue: seq<Item>)
    requires forall i :: 0 <= i < |queue| ==> queue[i].Single?
    ensures SumBy(queue, Size) == |queue|
  {
    if queue != [] { SumOfSingles(queue[..|queue| - 1]); }
  }

  // ----- a flush that returns true too early -----

  lemma {:induction false} AfterSnoc(cfg: Config, s: System, run: seq<Action>, a: Action)
    requires Legal(cfg, s, run) && Can(cfg, After(cfg, s, run), a)
    ensures Legal(cfg, s, run + [a]) && After(cfg, s, run + [a]) == Apply(cfg, After(cfg, s, run), a)
    decreases |run|
  {
    if run == [] {
      assert run + [a] == [a] && [a][1..] == [];
      assert Legal(cfg, Apply(cfg, s, a), []);
    } else {
      AfterSnoc(cfg, Apply(cfg, s, run[0]), run[1..], a);
      assert (run + [a])[0] == run[0] && (run + [a])[1..] == run[1..] + [a];
    }
  }

  lemma Step(cfg: Config, s: System, a: Action) returns (s': System)
    requires Reachable(cfg, s) && Can(cfg, s, a)
    ensures Reachable(cfg, s') && s' == Apply(cfg, s, a)
  {
    var threads: nat, run :| Legal(cfg, Init(threads), run) && After(cfg, Init(threads), run) == s;
    AfterSnoc(cfg, Init(threads), run, a);
    s' := Apply(cfg, s, a);
  }

  /** A producer puts an event into an empty queue. */
  lemma QueueOne(cfg: Config, e: Event) returns (s: System)
    requires cfg.queueMax == 1
    ensures Reachable(cfg, s) && s.threads == [Idle, Idle] && s.worker.Waiting? && s.now == 0
    ensures s.shared == Shared([Single(e)], EMPTY, 1, 0, 0, 0, {}, false)
    ensures s.log == [Single(e)] && s.popped == [] && s.handed == []
  {
    assert Legal(cfg, Init(2), []) && After(cfg, Init(2), []) == Init(2);
    s := Step(cfg, Init(2), Enqueue(0, Single(e)));
    s := Step(cfg, s, Proceed(0));
  }

  /** And the worker buffers it. */
  lemma BufferOne(cfg: Config, e: Event) returns (s: System)
    requires cfg.queueMax == 1 && BatchSize(cfg, e.kind) > 1 && e.priority.Normal?
    ensures Reachable(cfg, s) && |s.threads| == 2 && s.threads[0].Idle? && s.threads[1].Idle? && s.worker.Waiting?
    ensures s.shared.queue == [] && s.log == [Single(e)] && |s.popped| == 1 && s.handed == []
            && s.shared.completed == {}
  {
    hide Reachable;
    s := QueueOne(cfg, e);
    TakeStep(cfg, s, 0, true);
    s := Step(cfg, s, Work(0, true));
    assert s.worker == Holding(Single(e), 0) && s.shared.buffers == EMPTY && s.now == 0;
    PassStep(cfg, s, 0, true);
    OneEventStays(cfg, e);
    s := Step(cfg, s, Work(0, true));
  }

  lemma OneEventStays(cfg: Config, e: Event)
    requires BatchSize(cfg, e.kind) > 1 && e.priority.Normal?
    ensures !Urgent([e]) && !SizeDue(cfg, EMPTY, [e], 0) && Pass(cfg, EMPTY, [e], 0, 0, false).1 == map[]
  {
    assert [e][..0] == [] && AddAll(EMPTY, [e], 0) == AddEvent(EMPTY, e, 0);
    assert Due(cfg, AddEvent(EMPTY, e, 0), 0, false) == {};
  }

  /** drop_oldest: with the first event still buffered, a producer evicts the flush command and the
      flush returns true. */
  lemma EvictedFlushReturnsTooEarly(first: Event, second: Event) returns (cfg: Config, s: System)
    requires first.priority.Normal?
    ensures Reachable(cfg, s) && |s.threads| == 2 && s.threads[0] == Awaiting(1) && Can(cfg, s, Proceed(0))
    ensures |s.log| >= 1 && s.log[..1] == [Single(first)]
    ensures !(Filter(AllEvents(s.log[..1]), OfKind(first.kind)) <= SettledOf(s.handed, first.kind))
  {
    hide Reachable, AllEvents, Filter;
    cfg := Config(DropOldest, 1, map[], map[]);
    s := BufferOne(cfg, first);
    s := Step(cfg, s, Flush(0));
    s := Step(cfg, s, Proceed(0));
    assert s.shared.queue == [FlushCommand] && s.threads[0] == Awaiting(1);
    s := Step(cfg, s, Enqueue(1, Single(second)));
    s := Step(cfg, s, Proceed(1));
    assert s.threads[1] == Overflowing(Single(second)) && s.shared.queue == [FlushCommand];
    s := Step(cfg, s, Proceed(1));
    assert s.log[..1] == [Single(first)];
    OneEventLog(first);
  }

  lemma OneEventLog(e: Event)
    ensures Filter(AllEvents([Single(e)]), OfKind(e.kind)) == [e]
  {
    assert [Single(e)][..0] == [] && AllEvents([Single(e)]) == [e];
    assert [e][..0] == [] && Filter([e], OfKind(e.kind)) == [e];
  }
}
