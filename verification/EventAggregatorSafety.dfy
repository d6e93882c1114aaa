/** No event is ever stranded, lost or duplicated, under any interleaving. */
module EventAggregatorSafety {
  import opened Sequences
  import opened EventAggregator

  lemma StepKeepsShape(cfg: Config, s: System, a: Action)
    requires Can(s, a)
    ensures Shape(Apply(cfg, s, a))
  {
  }

  // ----- no stranded event -----

  /** The timer registered for `c` is its own, and is waiting or about to be served. */
  ghost predicate Serves(s: System, c: Category) {
    c in s.shared.registry ==>
      && s.shared.registry[c] < |s.shared.timers|
      && s.shared.timers[s.shared.registry[c]].category == c
      && (s.shared.timers[s.shared.registry[c]].status.Waiting? || SomeoneWillFlush(s, c))
  }

  ghost predicate TimersServe(s: System) { forall c :: Serves(s, c) }

  ghost predicate Covered(s: System) {
    forall c: Category :: c in s.shared.pending && s.shared.pending[c] != [] ==>
      c in s.shared.registry || SomeoneWillFlush(s, c) || SomeoneWillSchedule(s, c)
  }

  /** Close cancels only timers it has taken out of the registry. */
  ghost predicate CancelsAreOld(s: System) {
    forall t, i :: 0 <= t < |s.threads| && s.threads[t].Cancelling? && i in s.threads[t].timers ==>
      i < |s.shared.timers| && forall c :: c in s.shared.registry ==> s.shared.registry[c] != i
  }

  lemma StepKeepsCancelsOld(cfg: Config, s: System, a: Action)
    requires Can(s, a) && CancelsAreOld(s)
    ensures CancelsAreOld(Apply(cfg, s, a))
  {
    var s' := Apply(cfg, s, a);
    forall t, i | 0 <= t < |s'.threads| && s'.threads[t].Cancelling? && i in s'.threads[t].timers
      ensures i < |s'.shared.timers| && forall c :: c in s'.shared.registry ==> s'.shared.registry[c] != i
    {
      if a.Close? && t == a.thread {
        assert i in (set j | j in a.timers);
        assert i in s.shared.registry.Values;
      } else {
        assert t < |s.threads| && s.threads[t].Cancelling? && i in s.threads[t].timers;
      }
    }
  }

  lemma TurnKeepsFlushDuty(cfg: Config, sh: Shared, pc: Thread, c: Category)
    requires (forall d: Category :: d in sh.pending) && !pc.Idle? && (pc.Flushing? ==> pc.categories != [])
    requires WillFlush(pc, c)
    ensures var (op, pc') := ThreadTurn(cfg, sh, pc); op == Take(c) || WillFlush(pc', c)
  {
    CategoriesListed();
  }

  /** A thread gives up its duty to flush a category only by flushing it. */
  lemma FlushDutyPersists(cfg: Config, s: System, a: Action, c: Category)
    requires Can(s, a) && SomeoneWillFlush(s, c)
    ensures SomeoneWillFlush(Apply(cfg, s, a), c) || OpOf(cfg, s, a) == Take(c)
  {
    hide ThreadTurn, Perform, TakenBy, AppendedBy;
    var t :| 0 <= t < |s.threads| && WillFlush(s.threads[t], c);
    var s' := Apply(cfg, s, a);
    if a.Proceed? && a.thread == t {
      TurnKeepsFlushDuty(cfg, s.shared, s.threads[t], c);
      if OpOf(cfg, s, a) != Take(c) { assert WillFlush(s'.threads[t], c); }
    } else {
      assert s'.threads[t] == s.threads[t];
    }
  }

  lemma ScheduleDutyPersists(cfg: Config, s: System, a: Action, c: Category)
    requires Can(s, a) && SomeoneWillSchedule(s, c)
    ensures SomeoneWillSchedule(Apply(cfg, s, a), c) || OpOf(cfg, s, a) == Arm(c)
  {
    var t :| 0 <= t < |s.threads| && s.threads[t] == Scheduling(c);
    var s' := Apply(cfg, s, a);
    if OpOf(cfg, s, a) != Arm(c) {
      assert s'.threads[t] == Scheduling(c);
    }
  }

  lemma StepKeepsTimersServe(cfg: Config, s: System, a: Action)
    requires Can(s, a) && TimersServe(s) && CancelsAreOld(s)
    ensures TimersServe(Apply(cfg, s, a))
  {
    hide Serves, Apply;
    forall c ensures Serves(Apply(cfg, s, a), c) { TimerStillServes(cfg, s, a, c); }
  }

  lemma FlushingFlushes(c: Category)
    ensures WillFlush(Flushing([c]), c)
  {
  }

  lemma FiredTimerServes(cfg: Config, s: System, a: Action, c: Category)
    requires Can(s, a) && a.Fire? && Serves(s, c)
    ensures Serves(Apply(cfg, s, a), c)
  {
    hide FlushDuty, OpOf, SomeoneWillFlush;
    var s' := Apply(cfg, s, a);
    if c in s.shared.registry {
      if s.shared.registry[c] == a.timer {
        FlushingFlushes(c);
        assert WillFlush(s'.threads[|s.threads|], c);
        NamedFlusher(s', |s.threads|, c);
      } else if SomeoneWillFlush(s, c) {
        FiringAddsNoTake(cfg, s, a, c);
        FlushDutyPersists(cfg, s, a, c);
      }
    }
  }

  lemma NamedFlusher(s: System, t: nat, c: Category)
    requires t < |s.threads| && WillFlush(s.threads[t], c)
    ensures SomeoneWillFlush(s, c)
  {
  }

  lemma FiringAddsNoTake(cfg: Config, s: System, a: Action, c: Category)
    requires Can(s, a) && a.Fire?
    ensures OpOf(cfg, s, a) != Take(c)
  {
  }

  /** Only arming registers a timer, and the timer is new. */
  lemma NewlyArmed(sh: Shared, op: Op, c: Category)
    requires Sound(sh) && c !in sh.registry && c in Perform(sh, op).registry
    ensures var sh' := Perform(sh, op);
            sh'.registry[c] < |sh'.timers| && sh'.timers[sh'.registry[c]] == Timer(c, Waiting)
  {
  }

  lemma CancelledIsOld(cfg: Config, s: System, a: Action, c: Category)
    requires Can(s, a) && CancelsAreOld(s) && OpOf(cfg, s, a).Cancel? && c in s.shared.registry
    ensures OpOf(cfg, s, a).timer != s.shared.registry[c]
  {
    assert OpOf(cfg, s, a).timer in s.threads[a.thread].timers;
  }

  lemma TimerStillServes(cfg: Config, s: System, a: Action, c: Category)
    requires Can(s, a) && TimersServe(s) && CancelsAreOld(s)
    ensures Serves(Apply(cfg, s, a), c)
  {
    hide FlushDuty, SomeoneWillFlush, Perform, OpOf, NextThread;
    assert Serves(s, c);
    if a.Fire? {
      FiredTimerServes(cfg, s, a, c);
    } else {
      var s', op := Apply(cfg, s, a), OpOf(cfg, s, a);
      if c in s'.shared.registry {
        if c !in s.shared.registry {
          NewlyArmed(s.shared, op, c);
        } else {
          if op.Cancel? { CancelledIsOld(cfg, s, a, c); }
          assert forall d :: d in s.shared.registry ==> Serves(s, d);
          RegisteredTimerKept(s.shared, op, c);
          if SomeoneWillFlush(s, c) { FlushDutyPersists(cfg, s, a, c); }
        }
      }
    }
  }

  lemma RegisteredTimerKept(sh: Shared, op: Op, c: Category)
    requires Sound(sh) && c in sh.registry && c in Perform(sh, op).registry
    requires op.Cancel? ==> op.timer != sh.registry[c]
    requires forall d :: d in sh.registry ==> sh.timers[sh.registry[d]].category == d
    ensures op != Take(c)
    ensures var sh' := Perform(sh, op);
            && sh'.registry[c] == sh.registry[c] && sh'.registry[c] < |sh'.timers|
            && sh'.timers[sh'.registry[c]] == sh.timers[sh.registry[c]]
  {
  }

  lemma StepKeepsCovered(cfg: Config, s: System, a: Action)
    requires Can(s, a) && Covered(s)
    ensures Covered(Apply(cfg, s, a))
  {
    var s' := Apply(cfg, s, a);
    forall c: Category | c in s'.shared.pending && s'.shared.pending[c] != []
      ensures c in s'.shared.registry || SomeoneWillFlush(s', c) || SomeoneWillSchedule(s', c)
    {
      StillCovered(cfg, s, a, c);
    }
  }

  lemma StillPending(sh: Shared, op: Op, c: Category)
    requires (forall d: Category :: d in sh.pending) && Perform(sh, op).pending[c] != []
    requires !((op.Append? || op.Overwrite?) && op.category == c)
    ensures op != Take(c) && sh.pending[c] != []
    ensures c in sh.registry && !op.Disarm? ==> c in Perform(sh, op).registry
    ensures op == Arm(c) ==> c in Perform(sh, op).registry
  {
  }

  lemma AppenderCovers(cfg: Config, s: System, a: Action, c: Category)
    requires Can(s, a)
    requires (OpOf(cfg, s, a).Append? || OpOf(cfg, s, a).Overwrite?) && OpOf(cfg, s, a).category == c
    ensures SomeoneWillFlush(Apply(cfg, s, a), c) || SomeoneWillSchedule(Apply(cfg, s, a), c)
  {
    var s', t := Apply(cfg, s, a), a.thread;
    assert s'.threads[t] == Scheduling(c) || s'.threads[t] == Flushing([c]);
    if s'.threads[t].Flushing? {
      FlushingFlushes(c);
      NamedFlusher(s', t, c);
    }
  }

  lemma StillCovered(cfg: Config, s: System, a: Action, c: Category)
    requires Can(s, a) && Covered(s) && c in Apply(cfg, s, a).shared.pending && Apply(cfg, s, a).shared.pending[c] != []
    ensures var s' := Apply(cfg, s, a);
            c in s'.shared.registry || SomeoneWillFlush(s', c) || SomeoneWillSchedule(s', c)
  {
    hide SomeoneWillFlush, SomeoneWillSchedule, Perform;
    var s', op := Apply(cfg, s, a), OpOf(cfg, s, a);
    if a.Close? {
      NamedFlusher(s', a.thread, c);
    } else if (op.Append? || op.Overwrite?) && op.category == c {
      AppenderCovers(cfg, s, a, c);
    } else {
      if !a.Fire? { StillPending(s.shared, op, c); }
      if SomeoneWillFlush(s, c) {
        FlushDutyPersists(cfg, s, a, c);
      } else if SomeoneWillSchedule(s, c) {
        ScheduleDutyPersists(cfg, s, a, c);
      }
    }
  }

  // ----- the buffers stay small -----

  ghost predicate WithinBound(cfg: Config, s: System, c: Category)
    requires Shape(s)
  {
    if IsSlot(c) then |s.shared.pending[c]| <= 1
    else |s.shared.pending[c]| < MaxSize(cfg, c) + SumBy(s.threads, FlushDuty(c))
  }

  lemma DutyNeverShrinks(cfg: Config, s: System, a: Action, c: Category)
    requires Can(s, a) && OpOf(cfg, s, a) != Take(c)
    ensures SumBy(Apply(cfg, s, a).threads, FlushDuty(c)) >= SumBy(s.threads, FlushDuty(c))
  {
    hide SumBy;
    var s' := Apply(cfg, s, a);
    if a.Fire? {
      SumBySnoc(s.threads, Flushing([s.shared.timers[a.timer].category]), FlushDuty(c));
    } else {
      SumByUpdate(s.threads, FlushDuty(c), a.thread, s'.threads[a.thread]);
    }
  }

  lemma PendingAfter(sh: Shared, op: Op, c: Category)
    requires forall d: Category :: d in sh.pending
    ensures Perform(sh, op).pending[c] == if (op.Append? || op.Overwrite? || op.Take?) && op.category == c
                                          then (if op.Append? then sh.pending[c] + [op.message]
                                                else if op.Overwrite? then [op.message] else [])
                                          else sh.pending[c]
  {
  }

  /** An append that fills the buffer takes on the duty to flush it. */
  lemma AppendTakesDuty(cfg: Config, s: System, a: Action, c: Category)
    requires Can(s, a) && OpOf(cfg, s, a).Append? && OpOf(cfg, s, a).category == c
    ensures var more := if |s.shared.pending[c]| + 1 >= MaxSize(cfg, c) then 1 else 0;
            SumBy(Apply(cfg, s, a).threads, FlushDuty(c)) == SumBy(s.threads, FlushDuty(c)) + more
  {
    hide SumBy, Perform, TakenBy, AppendedBy;
    SumByUpdate(s.threads, FlushDuty(c), a.thread, Apply(cfg, s, a).threads[a.thread]);
  }

  lemma StepKeepsBound(cfg: Config, s: System, a: Action, c: Category)
    requires Can(s, a) && WithinBound(cfg, s, c) && (IsSlot(c) || MaxSize(cfg, c) >= 1)
    ensures Shape(Apply(cfg, s, a)) && WithinBound(cfg, Apply(cfg, s, a), c)
  {
    hide SumBy, Perform, TakenBy, AppendedBy, Shape, FlushDuty;
    StepKeepsShape(cfg, s, a);
    OpFitsCategory(cfg, s, a);
    var op := OpOf(cfg, s, a);
    PendingAfter(s.shared, op, c);
    if op.Append? && op.category == c {
      AppendTakesDuty(cfg, s, a, c);
    } else if op != Take(c) {
      DutyNeverShrinks(cfg, s, a, c);
    }
  }

  lemma OpFitsCategory(cfg: Config, s: System, a: Action)
    requires Can(s, a)
    ensures Sound(s.shared)
    ensures OpOf(cfg, s, a).Overwrite? ==> IsSlot(OpOf(cfg, s, a).category)
    ensures OpOf(cfg, s, a).Append? ==> !IsSlot(OpOf(cfg, s, a).category)
  {
  }

  // ----- nothing lost, nothing twice, in order -----

  /** Buffers: what was taken, then what is pending, is the append order. Slots: the newest message is
      pending, or was the last one taken. */
  ghost predicate OrderLaw(c: Category, pending: seq<Message>, taken: seq<Message>, appended: seq<Message>) {
    if IsSlot(c) then
      && (pending != [] ==> appended != [] && pending == [appended[|appended| - 1]])
      && (pending == [] && appended != [] ==> taken != [] && taken[|taken| - 1] == appended[|appended| - 1])
    else taken + pending == appended
  }

  ghost predicate InOrder(s: System, c: Category)
    requires Shape(s)
  {
    OrderLaw(c, s.shared.pending[c], TakenOf(s.taken, c), s.appended[c])
  }

  lemma TakenOfSnoc(taken: seq<Batch>, batch: Batch, c: Category)
    ensures TakenOf(taken + [batch], c)
            == if batch.category == c then TakenOf(taken, c) + batch.events else TakenOf(taken, c)
  {
    assert (taken + [batch])[..|taken|] == taken;
  }

  lemma SectionKeepsOrder(sh: Shared, op: Op, taken: seq<Batch>, appended: map<Category, seq<Message>>, c: Category)
    requires (forall d: Category :: d in sh.pending && d in appended)
             && OrderLaw(c, sh.pending[c], TakenOf(taken, c), appended[c])
    requires (op.Append? ==> !IsSlot(op.category)) && (op.Overwrite? ==> IsSlot(op.category))
    ensures OrderLaw(c, Perform(sh, op).pending[c], TakenOf(taken + TakenBy(sh, op), c), AppendedBy(appended, op)[c])
  {
    hide TakenOf;
    if TakenBy(sh, op) == [] {
      assert taken + TakenBy(sh, op) == taken;
    } else {
      TakenOfSnoc(taken, Batch(op.category, sh.pending[op.category]), c);
    }
  }

  lemma StepKeepsOrder(cfg: Config, s: System, a: Action, c: Category)
    requires Can(s, a) && InOrder(s, c)
    ensures Shape(Apply(cfg, s, a)) && InOrder(Apply(cfg, s, a), c)
  {
    hide TakenOf, OrderLaw, Perform, AppendedBy, TakenBy;
    StepKeepsShape(cfg, s, a);
    if !a.Fire? { SectionKeepsOrder(s.shared, OpOf(cfg, s, a), s.taken, s.appended, c); }
  }

  // ----- counters -----

  function BatchSize(batch: Batch): nat { |batch.events| }

  /** Counted as received, not yet stored or emitted. */
  function OnTheWay(pc: Thread): nat { if pc.Received? || pc.Direct? then 1 else 0 }

  function PendingTotal(sh: Shared): nat
    requires forall c: Category :: c in sh.pending
  {
    |sh.pending[Packet]| + |sh.pending[Alert]| + |sh.pending[Flow]| + |sh.pending[Incident]| + |sh.pending[Agent]|
    + |sh.pending[Dashboard]| + |sh.pending[Ops]|
  }

  ghost predicate SlotsHoldOne(sh: Shared)
    requires forall c: Category :: c in sh.pending
  {
    |sh.pending[Dashboard]| <= 1 && |sh.pending[Ops]| <= 1
  }

  ghost predicate Counted(s: System)
    requires Shape(s)
  {
    && s.shared.received == s.shared.sent + PendingTotal(s.shared) + s.shared.coalesced + s.direct
       + SumBy(s.threads, OnTheWay)
    && s.shared.sent == SumBy(s.taken, BatchSize) && s.shared.batchesSent == |s.taken|
    && SlotsHoldOne(s.shared)
  }

  /** What a section takes over from the message on its way. */
  function Stored(op: Op): int {
    match op
    case Receive => -1
    case Append(_, _) => 1
    case Overwrite(_, _) => 1
    case EmitDirect(_) => 1
    case _ => 0
  }

  lemma PerformBalances(sh: Shared, op: Op)
    requires forall c: Category :: c in sh.pending
    requires op.Overwrite? ==> |sh.pending[op.category]| <= 1
    ensures var sh' := Perform(sh, op);
            sh'.sent + PendingTotal(sh') + sh'.coalesced - sh'.received
            == sh.sent + PendingTotal(sh) + sh.coalesced - sh.received + Stored(op) - if op.EmitDirect? then 1 else 0
  {
    if op.Overwrite? {
      assert sh.pending[op.category] == [] <==> |sh.pending[op.category]| == 0;
      OneCellChanges(sh, op.category, [op.message]);
    } else if op.Append? {
      OneCellChanges(sh, op.category, sh.pending[op.category] + [op.message]);
    } else if op.Take? {
      OneCellChanges(sh, op.category, []);
    }
  }

  lemma OneCellChanges(sh: Shared, c: Category, cell: seq<Message>)
    requires forall d: Category :: d in sh.pending
    ensures var sh' := sh.(pending := sh.pending[c := cell]);
            PendingTotal(sh') + |sh.pending[c]| == PendingTotal(sh) + |cell|
  {
  }

  lemma TurnBalances(cfg: Config, s: System, a: Action)
    requires Can(s, a) && !a.Fire?
    ensures OnTheWay(NextThread(cfg, s, a)) == OnTheWay(s.threads[a.thread]) - Stored(OpOf(cfg, s, a))
    ensures OpOf(cfg, s, a).Overwrite? ==> IsSlot(OpOf(cfg, s, a).category)
    ensures OpOf(cfg, s, a).Append? ==> !IsSlot(OpOf(cfg, s, a).category)
  {
  }

  lemma SlotsStay(sh: Shared, sh': Shared)
    requires (forall d: Category :: d in sh.pending) && sh'.pending == sh.pending && SlotsHoldOne(sh)
    ensures SlotsHoldOne(sh')
  {
  }

  lemma SlotsStayOne(sh: Shared, op: Op)
    requires (forall d: Category :: d in sh.pending) && SlotsHoldOne(sh)
    requires op.Append? ==> !IsSlot(op.category)
    ensures SlotsHoldOne(Perform(sh, op)) && (op.Overwrite? && IsSlot(op.category) ==> |sh.pending[op.category]| <= 1)
  {
  }

  lemma StepKeepsCounted(cfg: Config, s: System, a: Action)
    requires Can(s, a) && Counted(s)
    ensures Shape(Apply(cfg, s, a)) && Counted(Apply(cfg, s, a))
  {
    hide SumBy, Perform, TakenBy, AppendedBy, SlotsHoldOne;
    StepKeepsShape(cfg, s, a);
    if a.Fire? {
      SlotsStay(s.shared, Apply(cfg, s, a).shared);
      SumBySnoc(s.threads, Flushing([s.shared.timers[a.timer].category]), OnTheWay);
    } else {
      TurnBalances(cfg, s, a);
      SlotsStayOne(s.shared, OpOf(cfg, s, a));
      PerformBalances(s.shared, OpOf(cfg, s, a));
      SumByUpdate(s.threads, OnTheWay, a.thread, NextThread(cfg, s, a));
      TakenAreCounted(s.shared, OpOf(cfg, s, a), s.taken);
    }
  }

  lemma TakenAreCounted(sh: Shared, op: Op, taken: seq<Batch>)
    requires forall c: Category :: c in sh.pending
    ensures var sh', taken' := Perform(sh, op), taken + TakenBy(sh, op);
            && sh'.sent - SumBy(taken', BatchSize) == sh.sent - SumBy(taken, BatchSize)
            && sh'.batchesSent - |taken'| == sh.batchesSent - |taken|
  {
    SumByConcat(taken, TakenBy(sh, op), BatchSize);
  }

  // ----- emission -----

  /** The batches that threads hold between the lock and the emit call. */
  function InFlight(threads: seq<Thread>): multiset<Batch> {
    if threads == [] then multiset{}
    else InFlight(threads[..|threads| - 1]) + Held(threads[|threads| - 1])
  }

  function Held(pc: Thread): multiset<Batch> { if pc.Emitting? then multiset{pc.batch} else multiset{} }

  lemma AddToBoth<T>(a: multiset<T>, b: multiset<T>, c: multiset<T>, d: multiset<T>, e: multiset<T>)
    requires a + b == c + d
    ensures a + e + b == c + e + d
  {
    assert a + e + b == a + b + e && c + e + d == c + d + e;
  }

  lemma {:induction false} InFlightUpdate(threads: seq<Thread>, t: nat, pc: Thread)
    requires t < |threads|
    ensures InFlight(threads[t := pc]) + Held(threads[t]) == InFlight(threads) + Held(pc)
  {
    hide Held;
    var last := |threads| - 1;
    if t == last {
      assert threads[t := pc][..last] == threads[..last];
    } else {
      assert threads[t := pc][..last] == threads[..last][t := pc];
      InFlightUpdate(threads[..last], t, pc);
      AddToBoth(InFlight(threads[..last][t := pc]), Held(threads[t]), InFlight(threads[..last]), Held(pc),
                Held(threads[last]));
    }
  }

  /** Every taken batch is emitted exactly once, or still in the hands of one thread. */
  ghost predicate EmittedOnce(s: System) {
    multiset(s.taken) == multiset(s.emitted) + InFlight(s.threads)
  }

  lemma StepKeepsEmittedOnce(cfg: Config, s: System, a: Action)
    requires Can(s, a) && EmittedOnce(s)
    ensures EmittedOnce(Apply(cfg, s, a))
  {
    var s' := Apply(cfg, s, a);
    if a.Fire? {
      assert s'.threads[..|s.threads|] == s.threads;
    } else {
      var op, pc' := OpOf(cfg, s, a), NextThread(cfg, s, a);
      InFlightUpdate(s.threads, a.thread, pc');
      HandedOver(cfg, s, a);
      BatchesMove(s.taken, TakenBy(s.shared, op), s.emitted, if op.Emit? then [op.batch] else [],
                  InFlight(s.threads), InFlight(s'.threads), Held(s.threads[a.thread]), Held(pc'));
      assert s'.emitted == s.emitted + if op.Emit? then [op.batch] else [];
    }
  }

  lemma BatchesMove(taken: seq<Batch>, more: seq<Batch>, emitted: seq<Batch>, out: seq<Batch>,
                    flying: multiset<Batch>, flying': multiset<Batch>, held: multiset<Batch>, held': multiset<Batch>)
    requires multiset(taken) == multiset(emitted) + flying
    requires flying' + held == flying + held' && held + multiset(more) == held' + multiset(out)
    ensures multiset(taken + more) == multiset(emitted + out) + flying'
  {
    forall b ensures multiset(taken + more)[b] == (multiset(emitted + out) + flying')[b] {
      assert (flying' + held)[b] == (flying + held')[b];
      assert (held + multiset(more))[b] == (held' + multiset(out))[b];
      assert multiset(taken)[b] == (multiset(emitted) + flying)[b];
    }
  }

  lemma TurnHandsOver(cfg: Config, sh: Shared, pc: Thread)
    requires (forall c: Category :: c in sh.pending) && !pc.Idle? && (pc.Flushing? ==> pc.categories != [])
    ensures var (op, pc') := ThreadTurn(cfg, sh, pc);
            if pc.Emitting? then op == Emit(pc.batch) && !pc'.Emitting? && TakenBy(sh, op) == []
            else !op.Emit? && if pc'.Emitting? then TakenBy(sh, op) == [pc'.batch] else TakenBy(sh, op) == []
  {
  }

  lemma HandedOver(cfg: Config, s: System, a: Action)
    requires Can(s, a) && !a.Fire?
    ensures var op, pc' := OpOf(cfg, s, a), NextThread(cfg, s, a);
            Held(s.threads[a.thread]) + multiset(TakenBy(s.shared, op))
            == Held(pc') + multiset(if op.Emit? then [op.batch] else [])
  {
    hide ThreadTurn, Perform;
    if a.Proceed? { TurnHandsOver(cfg, s.shared, s.threads[a.thread]); }
  }

  // ----- the invariant over every run -----

  ghost predicate Inv(cfg: Config, s: System) {
    && Shape(s) && CancelsAreOld(s) && TimersServe(s) && Covered(s) && Counted(s) && EmittedOnce(s)
    && (forall c: Category :: InOrder(s, c))
    && (forall c: Category :: IsSlot(c) || MaxSize(cfg, c) >= 1 ==> WithinBound(cfg, s, c))
  }

  lemma StepKeepsInv(cfg: Config, s: System, a: Action)
    requires Inv(cfg, s) && Can(s, a)
    ensures Inv(cfg, Apply(cfg, s, a))
  {
    var s' := Apply(cfg, s, a);
    StepKeepsShape(cfg, s, a);
    StepKeepsCancelsOld(cfg, s, a);
    StepKeepsTimersServe(cfg, s, a);
    StepKeepsCovered(cfg, s, a);
    StepKeepsCounted(cfg, s, a);
    StepKeepsEmittedOnce(cfg, s, a);
    forall c: Category ensures InOrder(s', c) { StepKeepsOrder(cfg, s, a, c); }
    forall c: Category | IsSlot(c) || MaxSize(cfg, c) >= 1 ensures WithinBound(cfg, s', c) {
      StepKeepsBound(cfg, s, a, c);
    }
  }

  lemma {:induction false} RunKeepsInv(cfg: Config, s: System, run: seq<Action>)
    requires Inv(cfg, s) && Legal(cfg, s, run)
    ensures Inv(cfg, After(cfg, s, run))
    decreases |run|
  {
    if run != [] {
      StepKeepsInv(cfg, s, run[0]);
      RunKeepsInv(cfg, Apply(cfg, s, run[0]), run[1..]);
    }
  }

  lemma {:induction false} NobodyHolds(threads: seq<Thread>)
    requires forall t :: 0 <= t < |threads| ==> threads[t].Idle?
    ensures InFlight(threads) == multiset{}
  {
    if threads != [] { NobodyHolds(threads[..|threads| - 1]); }
  }

  lemma InitInv(cfg: Config, threads: nat)
    ensures Inv(cfg, Init(threads))
  {
    var s := Init(threads);
    CategoriesListed();
    NobodyHolds(s.threads);
    SumByZero(s.threads, OnTheWay);
    assert Shape(s) && Counted(s) && EmittedOnce(s);
    forall c: Category ensures InOrder(s, c) { }
    forall c: Category | IsSlot(c) || MaxSize(cfg, c) >= 1 ensures WithinBound(cfg, s, c) { }
  }

  lemma ReachableInv(cfg: Config, s: System)
    requires Reachable(cfg, s)
    ensures Inv(cfg, s)
  {
    var threads: nat, run :| Legal(cfg, Init(threads), run) && After(cfg, Init(threads), run) == s;
    InitInv(cfg, threads);
    RunKeepsInv(cfg, Init(threads), run);
  }

  // ----- main results -----

  /** Whatever waits in a buffer or slot has a live timer, or a thread already committed to
      schedule or flush it: no interleaving of publishers, timers, flushes and close strands it. */
  lemma NoEventIsStranded(cfg: Config, s: System, c: Category)
    requires Reachable(cfg, s)
    ensures c in s.shared.pending
    ensures s.shared.pending[c] != [] ==> TimerWaits(s, c) || SomeoneWillFlush(s, c) || SomeoneWillSchedule(s, c)
  {
    ReachableInv(cfg, s);
    assert Serves(s, c);
  }

  /** Buffered events leave in the order they came, each in exactly one batch. */
  lemma BatchesAreTheAppendOrder(cfg: Config, s: System, c: Category)
    requires Reachable(cfg, s) && !IsSlot(c)
    ensures c in s.shared.pending && c in s.appended
    ensures TakenOf(s.taken, c) + s.shared.pending[c] == s.appended[c]
  {
    ReachableInv(cfg, s);
    assert InOrder(s, c);
  }

  /** Coalescing keeps the newest summary: it waits, or was the last one sent. */
  lemma NewestSummarySurvives(cfg: Config, s: System, c: Category)
    requires Reachable(cfg, s) && IsSlot(c)
    ensures Shape(s) && var pending, taken, all := s.shared.pending[c], TakenOf(s.taken, c), s.appended[c];
            && (pending != [] ==> all != [] && pending == [all[|all| - 1]])
            && (pending == [] && all != [] ==> taken != [] && taken[|taken| - 1] == all[|all| - 1])
  {
    hide TakenOf, Reachable;
    ReachableInv(cfg, s);
    assert InOrder(s, c);
  }

  /** A buffer holds at most max - 1 events and one more per thread committed to flush it. */
  lemma BuffersStaySmall(cfg: Config, s: System, c: Category)
    requires Reachable(cfg, s) && !IsSlot(c) && MaxSize(cfg, c) >= 1
    ensures c in s.shared.pending
    ensures |s.shared.pending[c]| <= MaxSize(cfg, c) - 1 + SumBy(s.threads, FlushDuty(c))
  {
    ReachableInv(cfg, s);
    assert WithinBound(cfg, s, c);
  }

  /** Every event received was sent, waits, was overwritten by a newer summary, or is on its way;
      every batch taken was emitted once, or one thread is about to. */
  lemma EventsAreConserved(cfg: Config, s: System)
    requires Reachable(cfg, s)
    ensures Shape(s)
    ensures s.shared.received
            == s.shared.sent + PendingTotal(s.shared) + s.shared.coalesced + s.direct + SumBy(s.threads, OnTheWay)
    ensures s.shared.sent == SumBy(s.taken, BatchSize) && s.shared.batchesSent == |s.taken|
    ensures multiset(s.taken) == multiset(s.emitted) + InFlight(s.threads)
  {
    ReachableInv(cfg, s);
  }

  // ----- emission is outside the lock -----

  lemma {:induction false} AfterSnoc(cfg: Config, s: System, run: seq<Action>, a: Action)
    requires Legal(cfg, s, run) && Can(After(cfg, s, run), a)
    ensures Legal(cfg, s, run + [a]) && After(cfg, s, run + [a]) == Apply(cfg, After(cfg, s, run), a)
    decreases |run|
  {
    if run == [] {
      assert run + [a] == [a] && [a][1..] == [];
      assert Legal(cfg, Apply(cfg, s, a), []);
    } else {
      AfterSnoc(cfg, Apply(cfg, s, run[0]), run[1..], a);
      assert (run + [a])[0] == run[0] && (run + [a])[1..] == run[1..] + [a];
    }
  }

  lemma Step(cfg: Config, s: System, a: Action) returns (s': System)
    requires Reachable(cfg, s) && Can(s, a)
    ensures Reachable(cfg, s') && s' == Apply(cfg, s, a)
  {
    var threads: nat, run :| Legal(cfg, Init(threads), run) && After(cfg, Init(threads), run) == s;
    AfterSnoc(cfg, Init(threads), run, a);
    s' := Apply(cfg, s, a);
  }

  lemma Turn(cfg: Config, s: System, t: nat) returns (s': System)
    requires Reachable(cfg, s) && Can(s, Proceed(t))
    ensures var (op, pc) := ThreadTurn(cfg, s.shared, s.threads[t]);
            && Reachable(cfg, s') && Shape(s')
            && s'.threads == s.threads[t := pc]
            && s'.shared.pending == Perform(s.shared, op).pending
            && s'.taken == s.taken + TakenBy(s.shared, op)
            && s'.emitted == if op.Emit? then s.emitted + [op.batch] else s.emitted
  {
    StepKeepsShape(cfg, s, Proceed(t));
    s' := Step(cfg, s, Proceed(t));
  }

  lemma InitReachable(cfg: Config, threads: nat)
    ensures Reachable(cfg, Init(threads))
  {
    assert Legal(cfg, Init(threads), []) && After(cfg, Init(threads), []) == Init(threads);
  }

  /** A thread publishes a packet that fills the buffer. */
  lemma PublishOne(cfg: Config, s: System, t: nat, m: Message) returns (s': System)
    requires cfg.packetMax == 1 && Reachable(cfg, s) && Shape(s) && t < |s.threads| && s.threads[t].Idle?
    requires s.shared.pending[Packet] == []
    ensures Reachable(cfg, s') && Shape(s') && s'.shared.pending[Packet] == [m]
    ensures s'.threads == s.threads[t := Flushing([Packet])] && s'.taken == s.taken && s'.emitted == s.emitted
  {
    hide Reachable;
    var s1 := Step(cfg, s, Publish(t, Packet, m));
    assert s1.threads[t] == Received(Packet, m) && s1.shared.pending == s.shared.pending && s1.taken == s.taken;
    s' := Turn(cfg, s1, t);
    assert s'.threads == s.threads[t := Flushing([Packet])];
  }

  /** And takes the batch. */
  lemma PublishAndTake(cfg: Config, s: System, t: nat, m: Message) returns (s': System)
    requires cfg.packetMax == 1 && Reachable(cfg, s) && Shape(s) && t < |s.threads| && s.threads[t].Idle?
    requires s.shared.pending[Packet] == []
    ensures Reachable(cfg, s') && Shape(s') && s'.shared.pending[Packet] == []
    ensures s'.threads == s.threads[t := Emitting(Batch(Packet, [m]), [])]
    ensures s'.taken == s.taken + [Batch(Packet, [m])] && s'.emitted == s.emitted
  {
    hide Reachable;
    var s1 := PublishOne(cfg, s, t, m);
    assert s1.threads[t].categories[1..] == [] && s1.shared.pending[Packet] != [];
    assert ThreadTurn(cfg, s1.shared, s1.threads[t]) == (Take(Packet), Emitting(Batch(Packet, [m]), []));
    s' := Turn(cfg, s1, t);
    assert s'.threads == s.threads[t := Emitting(Batch(Packet, [m]), [])];
  }

  lemma EmitOne(cfg: Config, s: System, t: nat, batch: Batch) returns (s': System)
    requires Reachable(cfg, s) && Shape(s) && t < |s.threads| && s.threads[t] == Emitting(batch, [])
    ensures Reachable(cfg, s') && Shape(s') && s'.threads == s.threads[t := Idle]
    ensures s'.taken == s.taken && s'.emitted == s.emitted + [batch]
  {
    s' := Turn(cfg, s, t);
  }

  /** The taken order is not the emitted order: a later batch can overtake an earlier one
      between the lock and the emit call. */
  lemma BatchesCanOvertake(first: Message, second: Message) returns (cfg: Config, s: System)
    ensures Reachable(cfg, s)
    ensures s.taken == [Batch(Packet, [first]), Batch(Packet, [second])]
    ensures s.emitted == [Batch(Packet, [second]), Batch(Packet, [first])]
  {
    hide Reachable;
    cfg := Config(1, 1, 1);
    s := Init(2);
    InitReachable(cfg, 2);
    CategoriesListed();
    s := PublishAndTake(cfg, s, 0, first);
    s := PublishAndTake(cfg, s, 1, second);
    s := EmitOne(cfg, s, 1, Batch(Packet, [second]));
    s := EmitOne(cfg, s, 0, Batch(Packet, [first]));
  }
}
