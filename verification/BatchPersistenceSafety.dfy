/** Every interleaving of producers, flushers and the worker keeps each type's order,
    the books, the batch bounds and the flush barrier. */
module BatchPersistenceSafety {
  import opened Sequences
  import opened Maps
  import opened Values
  import opened BatchPersistence

  // ----- buffers -----

  /** Exactly the non-empty buffers have a first-buffered time. */
  ghost predicate Tidy(b: Buffers) {
    b.rows.Keys == b.first.Keys && forall kind :: kind in b.rows ==> b.rows[kind] != []
  }

  ghost predicate BelowBatchSize(cfg: Config, b: Buffers) {
    forall kind :: kind in b.rows ==> |b.rows[kind]| < BatchSize(cfg, kind)
  }

  ghost predicate InTime(cfg: Config, b: Buffers, now: int) {
    forall kind :: kind in b.first ==> now - b.first[kind] < Interval(cfg, kind)
  }

  lemma {:induction false} AddAllTidy(b: Buffers, events: seq<Event>, now: nat)
    requires Tidy(b)
    ensures Tidy(AddAll(b, events, now))
  {
    if events != [] { AddAllTidy(b, events[..|events| - 1], now); }
  }

  /** Buffering appends each event to its own type's row. */
  lemma {:induction false} AddAllAppends(b: Buffers, events: seq<Event>, now: nat, kind: string)
    ensures RowsOf(AddAll(b, events, now).rows, kind) == RowsOf(b.rows, kind) + Filter(events, OfKind(kind))
  {
    if events != [] {
      var init, last := events[..|events| - 1], events[|events| - 1];
      AddAllAppends(b, init, now, kind);
      assert events == init + [last];
      FilterSnoc(init, last, OfKind(kind));
    }
  }

  lemma {:induction false} AddAllTotal(b: Buffers, events: seq<Event>, now: nat)
    ensures Total(AddAll(b, events, now).rows, RowCount) == Total(b.rows, RowCount) + |events|
  {
    if events != [] {
      var init, last := events[..|events| - 1], events[|events| - 1];
      AddAllTotal(b, init, now);
      var rows := AddAll(b, init, now).rows;
      TotalUpdate(rows, RowCount, last.kind, RowsOf(rows, last.kind) + [last]);
    }
  }

  /** When no append reached the batch size, every buffer is still below it. */
  lemma {:induction false} NotSizeDue(cfg: Config, b: Buffers, events: seq<Event>, now: nat)
    requires BelowBatchSize(cfg, b) && !SizeDue(cfg, b, events, now)
    ensures BelowBatchSize(cfg, AddAll(b, events, now))
  {
    if events != [] { NotSizeDue(cfg, b, events[..|events| - 1], now); }
  }

  /** Between two items: buffers below their batch sizes, exactly the non-empty ones timed. */
  ghost predicate Buffered(cfg: Config, b: Buffers) { Tidy(b) && BelowBatchSize(cfg, b) }

  /** What was buffered, then the new events, is what is handed on, then what is kept. */
  ghost predicate Splits(b: Buffers, events: seq<Event>, kept: Buffers, rows: Rows) {
    && (forall kind :: RowsOf(rows, kind) + RowsOf(kept.rows, kind)
                       == RowsOf(b.rows, kind) + Filter(events, OfKind(kind)))
    && Total(rows, RowCount) + Total(kept.rows, RowCount) == Total(b.rows, RowCount) + |events|
  }

  lemma PassSplits(cfg: Config, b: Buffers, events: seq<Event>, now: nat, later: nat, force: bool)
    requires Tidy(b)
    ensures var (kept, rows) := Pass(cfg, b, events, now, later, force);
            Splits(b, events, kept, rows)
  {
    var filled := AddAll(b, events, now);
    AddAllTidy(b, events, now);
    AddAllTotal(b, events, now);
    TotalSplit(filled.rows, RowCount, Due(cfg, filled, now + later, force));
    forall kind ensures RowsOf(filled.rows, kind) == RowsOf(b.rows, kind) + Filter(events, OfKind(kind)) {
      AddAllAppends(b, events, now, kind);
    }
  }

  lemma PassKeepsBuffered(cfg: Config, b: Buffers, events: seq<Event>, now: nat, later: nat, force: bool)
    requires Buffered(cfg, b) && (SizeDue(cfg, b, events, now) ==> force)
    ensures var (kept, rows) := Pass(cfg, b, events, now, later, force);
            Buffered(cfg, kept) && InTime(cfg, kept, now + later) && (force ==> kept == EMPTY)
  {
    var filled := AddAll(b, events, now);
    AddAllTidy(b, events, now);
    if !force {
      NotSizeDue(cfg, b, events, now);
    } else {
      assert Due(cfg, filled, now + later, true) == filled.rows.Keys;
    }
  }

  /** A round of the worker leaves the buffers below their sizes and no type overdue. */
  lemma RoundFlushesWhatIsDue(cfg: Config, s: System, later: nat)
    requires Passes(s) && Buffered(cfg, s.shared.buffers)
    ensures var (kept, rows) := PassOf(cfg, s, later);
            && Buffered(cfg, kept) && Splits(s.shared.buffers, HeldEvents(s.worker), kept, rows)
            && InTime(cfg, kept, s.now + if s.worker.Holding? then later else 0)
            && (s.worker.Holding? && s.worker.item.FlushCommand? ==> kept == EMPTY)
  {
    var b := s.shared.buffers;
    if s.worker.Waiting? {
      PassSplits(cfg, b, [], s.now, 0, false);
      PassKeepsBuffered(cfg, b, [], s.now, 0, false);
    } else if s.worker.item.FlushCommand? {
      PassSplits(cfg, b, [], s.now, later, true);
      PassKeepsBuffered(cfg, b, [], s.now, later, true);
    } else {
      var events := EventsOf(s.worker.item);
      var force := Urgent(events) || SizeDue(cfg, b, events, s.now);
      PassSplits(cfg, b, events, s.now, later, force);
      PassKeepsBuffered(cfg, b, events, s.now, later, force);
    }
  }

  // ----- what each step changes -----

  /** The part of the state each type's order is about. */
  ghost predicate SameButWorker(s: System, s': System, kept: Buffers, w: Worker) {
    s' == s.(worker := w, now := s'.now, shared := s.shared.(buffers := kept))
  }

  lemma PassStep(cfg: Config, s: System, later: nat, ok: bool)
    requires Passes(s)
    ensures var (kept, rows) := PassOf(cfg, s, later);
            SameButWorker(s, Apply(cfg, s, Work(later, ok)), kept, WriteThen(rows, s.worker))
  {
  }

  lemma TakeStep(cfg: Config, s: System, later: nat, ok: bool)
    requires s.worker.Waiting? && s.shared.queue != []
    ensures var q := s.shared.queue;
            Apply(cfg, s, Work(later, ok))
            == s.(worker := Holding(q[0], |s.popped|), shared := s.shared.(queue := q[1..]),
                  popped := s.popped + [Popped(q[0], false)], now := Apply(cfg, s, Work(later, ok)).now)
  {
  }

  lemma WriteStep(cfg: Config, s: System, later: nat, ok: bool)
    requires s.worker.Writing?
    ensures var n := Total(s.worker.rows, RowCount);
            Apply(cfg, s, Work(later, ok))
            == s.(worker := AfterWrite(s.worker.next), handed := s.handed + [s.worker.rows],
                  now := Apply(cfg, s, Work(later, ok)).now,
                  shared := if ok then s.shared.(written := s.shared.written + n)
                            else s.shared.(failed := s.shared.failed + n))
  {
  }

  lemma CompleteStep(cfg: Config, s: System, later: nat, ok: bool)
    requires s.worker.Completing?
    ensures Apply(cfg, s, Work(later, ok))
            == s.(worker := Waiting, now := Apply(cfg, s, Work(later, ok)).now,
                  shared := s.shared.(completed := s.shared.completed + {s.worker.place}))
  {
  }

  /** A step of another thread pops the head, puts a unit at the tail, or does neither. */
  lemma ThreadStep(cfg: Config, s: System, a: Action)
    requires Can(cfg, s, a) && !a.Work?
    ensures var s', q := Apply(cfg, s, a), s.shared.queue;
            && s'.handed == s.handed && s'.shared.buffers == s.shared.buffers
            && (s'.worker == s.worker || (s'.worker.Exited? && s.worker.Waiting?))
            && ((s'.popped == s.popped && s'.shared.queue == q && s'.log == s.log)
                || (q != [] && s'.popped == s.popped + [Popped(q[0], true)] && s'.shared.queue == q[1..]
                    && s'.log == s.log)
                || (exists item :: s'.popped == s.popped && s'.shared.queue == q + [item] && s'.log == s.log + [item]))
  {
  }

  lemma StepKeepsBuffered(cfg: Config, s: System, a: Action)
    requires Can(cfg, s, a) && Buffered(cfg, s.shared.buffers)
    ensures Buffered(cfg, Apply(cfg, s, a).shared.buffers)
  {
    if !a.Work? {
      ThreadStep(cfg, s, a);
    } else if Passes(s) {
      PassStep(cfg, s, a.later, a.ok);
      RoundFlushesWhatIsDue(cfg, s, a.later);
    } else {
      match s.worker
      case Waiting => TakeStep(cfg, s, a.later, a.ok);
      case Writing(_, _) => WriteStep(cfg, s, a.later, a.ok);
      case Completing(_) => CompleteStep(cfg, s, a.later, a.ok);
    }
  }

  // ----- first in, first out -----

  ghost predicate Fifo(s: System) { Items(s.popped) + s.shared.queue == s.log }

  lemma ItemsSnoc(popped: seq<Popped>, p: Popped)
    ensures Items(popped + [p]) == Items(popped) + [p.item]
  {
    assert (popped + [p])[..|popped|] == popped;
  }

  lemma TakenSnoc(popped: seq<Popped>, p: Popped)
    ensures TakenEvents(popped + [p]) == TakenEvents(popped) + if p.evicted then [] else EventsOf(p.item)
  {
    assert (popped + [p])[..|popped|] == popped;
  }

  lemma SettledSnoc(handed: seq<Rows>, rows: Rows, kind: string)
    ensures SettledOf(handed + [rows], kind) == SettledOf(handed, kind) + RowsOf(rows, kind)
  {
    assert (handed + [rows])[..|handed|] == handed;
  }

  lemma PopKeepsFifo(popped: seq<Popped>, queue: seq<Item>, log: seq<Item>, evicted: bool)
    requires Items(popped) + queue == log && queue != []
    ensures Items(popped + [Popped(queue[0], evicted)]) + queue[1..] == log
  {
    ItemsSnoc(popped, Popped(queue[0], evicted));
    assert (Items(popped) + [queue[0]]) + queue[1..] == Items(popped) + queue;
  }

  lemma StepKeepsFifo(cfg: Config, s: System, a: Action)
    requires Can(cfg, s, a) && Fifo(s)
    ensures Fifo(Apply(cfg, s, a))
  {
    var q := s.shared.queue;
    if a.Work? {
      if Passes(s) { PassStep(cfg, s, a.later, a.ok); }
      else if s.worker.Waiting? { TakeStep(cfg, s, a.later, a.ok); PopKeepsFifo(s.popped, q, s.log, false); }
      else if s.worker.Writing? { WriteStep(cfg, s, a.later, a.ok); }
      else { CompleteStep(cfg, s, a.later, a.ok); }
    } else {
      ThreadStep(cfg, s, a);
      if q != [] { PopKeepsFifo(s.popped, q, s.log, true); }
    }
  }

  // ----- each type in order -----

  /** What was handed to storage, is being written, is buffered and is in the worker's hand is,
      in this order, what the worker took. */
  ghost predicate KindLaw(handed: seq<Rows>, w: Worker, rows: Rows, popped: seq<Popped>, kind: string) {
    SettledOf(handed, kind) + RowsOf(InFlight(w), kind) + RowsOf(rows, kind) + Filter(HeldEvents(w), OfKind(kind))
    == Filter(TakenEvents(popped), OfKind(kind))
  }

  ghost predicate KindInOrder(s: System, kind: string) {
    KindLaw(s.handed, s.worker, s.shared.buffers.rows, s.popped, kind)
  }

  lemma EvictKeepsKind(handed: seq<Rows>, w: Worker, rows: Rows, popped: seq<Popped>, item: Item, kind: string)
    requires KindLaw(handed, w, rows, popped, kind)
    ensures KindLaw(handed, w, rows, popped + [Popped(item, true)], kind)
  {
    TakenSnoc(popped, Popped(item, true));
    assert TakenEvents(popped) + [] == TakenEvents(popped);
  }

  lemma ThreadKeepsKind(cfg: Config, s: System, a: Action, kind: string)
    requires Can(cfg, s, a) && !a.Work? && KindInOrder(s, kind)
    ensures KindInOrder(Apply(cfg, s, a), kind)
  {
    ThreadStep(cfg, s, a);
    var s' := Apply(cfg, s, a);
    if s'.popped != s.popped {
      EvictKeepsKind(s.handed, s.worker, s.shared.buffers.rows, s.popped, s.shared.queue[0], kind);
    }
  }

  lemma TakeKeepsKind(handed: seq<Rows>, rows: Rows, popped: seq<Popped>, item: Item, place: nat, kind: string)
    requires KindLaw(handed, Waiting, rows, popped, kind)
    ensures KindLaw(handed, Holding(item, place), rows, popped + [Popped(item, false)], kind)
  {
    TakenSnoc(popped, Popped(item, false));
    FilterConcat(TakenEvents(popped), EventsOf(item), OfKind(kind));
  }

  lemma Regroup<T>(settled: seq<T>, buffered: seq<T>, held: seq<T>, rows: seq<T>, kept: seq<T>)
    requires rows + kept == buffered + held
    ensures settled + [] + buffered + held == settled + rows + kept + []
  {
    assert settled + [] + buffered + held == settled + (buffered + held);
    assert settled + rows + kept + [] == settled + (rows + kept);
  }

  lemma PassKeepsKind(handed: seq<Rows>, w: Worker, b: Buffers, popped: seq<Popped>, kept: Buffers, rows: Rows,
                      kind: string)
    requires KindLaw(handed, w, b.rows, popped, kind) && (w.Waiting? || w.Holding?)
    requires Splits(b, HeldEvents(w), kept, rows)
    ensures KindLaw(handed, WriteThen(rows, w), kept.rows, popped, kind)
  {
    Regroup(SettledOf(handed, kind), RowsOf(b.rows, kind), Filter(HeldEvents(w), OfKind(kind)),
            RowsOf(rows, kind), RowsOf(kept.rows, kind));
  }

  lemma WriteKeepsKind(handed: seq<Rows>, rows: Rows, next: Option<nat>, w': Worker, buffered: Rows,
                       popped: seq<Popped>, kind: string)
    requires KindLaw(handed, Writing(rows, next), buffered, popped, kind) && !w'.Holding? && !w'.Writing?
    ensures KindLaw(handed + [rows], w', buffered, popped, kind)
  {
    SettledSnoc(handed, rows, kind);
  }

  lemma PassingKeepsKind(cfg: Config, s: System, later: nat, ok: bool, kind: string)
    requires Passes(s) && Buffered(cfg, s.shared.buffers) && KindInOrder(s, kind)
    ensures KindInOrder(Apply(cfg, s, Work(later, ok)), kind)
  {
    PassStep(cfg, s, later, ok);
    RoundFlushesWhatIsDue(cfg, s, later);
    var (kept, rows) := PassOf(cfg, s, later);
    PassKeepsKind(s.handed, s.worker, s.shared.buffers, s.popped, kept, rows, kind);
  }

  lemma WorkerKeepsKind(cfg: Config, s: System, later: nat, ok: bool, kind: string)
    requires !s.worker.Exited? && Buffered(cfg, s.shared.buffers) && KindInOrder(s, kind)
    ensures KindInOrder(Apply(cfg, s, Work(later, ok)), kind)
  {
    var rows := s.shared.buffers.rows;
    if Passes(s) {
      PassingKeepsKind(cfg, s, later, ok, kind);
    } else {
      match s.worker
      case Waiting =>
        TakeStep(cfg, s, later, ok);
        TakeKeepsKind(s.handed, rows, s.popped, s.shared.queue[0], |s.popped|, kind);
      case Writing(_, next) =>
        WriteStep(cfg, s, later, ok);
        WriteKeepsKind(s.handed, s.worker.rows, next, AfterWrite(next), rows, s.popped, kind);
      case Completing(_) => CompleteStep(cfg, s, later, ok);
    }
  }

  // ----- the books -----

  /** Received but neither queued nor lost yet. */
  function Pending(pc: Thread): nat { if pc.Counted? || pc.Overflowing? || pc.Evicting? then Size(pc.item) else 0 }

  /** Lost but not counted as dropped yet. */
  function Uncharged(pc: Thread): nat { if pc.Charging? then Size(pc.item) else 0 }

  /** Events past the queue whose fate is open. */
  ghost function Downstream(b: Buffers, w: Worker): nat {
    Total(b.rows, RowCount) + |HeldEvents(w)| + Total(InFlight(w), RowCount)
  }

  ghost predicate Books(s: System) {
    s.shared.received == s.shared.written + s.shared.failed + s.lost + SumBy(s.shared.queue, Size)
                         + Downstream(s.shared.buffers, s.worker) + SumBy(s.threads, Pending)
  }

  lemma WorkerKeepsBooks(cfg: Config, s: System, later: nat, ok: bool)
    requires !s.worker.Exited? && Buffered(cfg, s.shared.buffers) && Books(s)
    ensures Books(Apply(cfg, s, Work(later, ok)))
  {
    if Passes(s) {
      PassStep(cfg, s, later, ok);
      RoundFlushesWhatIsDue(cfg, s, later);
    } else {
      match s.worker
      case Waiting =>
        TakeStep(cfg, s, later, ok);
        SumByHead(s.shared.queue, Size);
      case Writing(_, _) => WriteStep(cfg, s, later, ok);
      case Completing(_) => CompleteStep(cfg, s, later, ok);
    }
  }

  /** What one thread's step does to the queue and the books. */
  lemma TurnBalances(cfg: Config, sh: Shared, popped: nat, pc: Thread)
    requires !pc.Idle?
    ensures var (op, pc', loss) := ThreadTurn(cfg, sh, popped, pc);
            var sh' := Perform(sh, op);
            && SumBy(sh'.queue, Size) + loss + Pending(pc') == SumBy(sh.queue, Size) + Pending(pc)
            && (!cfg.policy.DropOldest? && !pc.Evicting?
                ==> !pc'.Evicting? && !op.Evict? && sh'.dropped + Uncharged(pc') == sh.dropped + loss + Uncharged(pc))
  {
    hide SumBy;
    var op := ThreadTurn(cfg, sh, popped, pc).0;
    match op
    case Put(item) => SumBySnoc(sh.queue, item, Size);
    case Evict(_) => SumByHead(sh.queue, Size);
    case _ =>
  }

  lemma ProceedKeepsBooks(cfg: Config, s: System, t: nat)
    requires Can(cfg, s, Proceed(t)) && Books(s)
    ensures Books(Apply(cfg, s, Proceed(t)))
  {
    hide SumBy, Downstream;
    TurnBalances(cfg, s.shared, |s.popped|, s.threads[t]);
    SumByUpdate(s.threads, Pending, t, ThreadTurn(cfg, s.shared, |s.popped|, s.threads[t]).1);
  }

  lemma ThreadKeepsBooks(cfg: Config, s: System, a: Action)
    requires Can(cfg, s, a) && !a.Work? && Books(s)
    ensures Books(Apply(cfg, s, a))
  {
    match a
    case Proceed(t) => ProceedKeepsBooks(cfg, s, t);
    case Enqueue(t, item) => SumByUpdate(s.threads, Pending, t, Counted(item));
    case Flush(t) => SumByUpdate(s.threads, Pending, t, Flushing);
    case GiveUp(t) => SumByUpdate(s.threads, Pending, t, Idle);
    case _ =>
  }

  /** drop_newest and reject_new: nothing is evicted, and the drop counter is what was lost, less
      the charges still to be made. */
  ghost predicate Honest(s: System) {
    && (forall i :: 0 <= i < |s.popped| ==> !s.popped[i].evicted)
    && (forall t :: 0 <= t < |s.threads| ==> !s.threads[t].Evicting?)
    && s.lost == s.shared.dropped + SumBy(s.threads, Uncharged)
  }

  lemma StepKeepsHonest(cfg: Config, s: System, a: Action)
    requires Can(cfg, s, a) && !cfg.policy.DropOldest? && Honest(s)
    ensures Honest(Apply(cfg, s, a))
  {
    if a.Enqueue? || a.Flush? || a.GiveUp? || a.Proceed? {
      SumByUpdate(s.threads, Uncharged, a.thread, Apply(cfg, s, a).threads[a.thread]);
    }
    if a.Proceed? { TurnBalances(cfg, s.shared, |s.popped|, s.threads[a.thread]); }
  }

  // ----- the flush barrier -----

  /** The place of the command the worker has reached, if it has one. */
  function CommandOf(w: Worker): Option<nat> {
    match w
    case Holding(item, place) => if item.FlushCommand? then Some(place) else None
    case Writing(_, next) => next
    case Completing(place) => Some(place)
    case _ => None
  }

  /** Everything of this type that the worker took before `place` has been answered for. */
  ghost predicate SettledBefore(handed: seq<Rows>, popped: seq<Popped>, place: nat, kind: string)
    requires place <= |popped|
  {
    Filter(TakenEvents(popped[..place]), OfKind(kind)) <= SettledOf(handed, kind)
  }

  /** The command the worker has reached: nothing was taken after it, and once its flush is under
      way nothing is buffered. */
  ghost predicate AtCommand(w: Worker, b: Buffers, popped: seq<Popped>) {
    CommandOf(w).Some? ==>
      var p := CommandOf(w).value;
      && p < |popped| && popped[p] == Popped(FlushCommand, false)
      && TakenEvents(popped[..p]) == TakenEvents(popped)
      && (!w.Holding? ==> b == EMPTY)
  }

  ghost predicate Completed(popped: seq<Popped>, handed: seq<Rows>, completed: set<nat>) {
    forall p :: p in completed ==>
      p < |popped| && popped[p].item.FlushCommand?
      && (!popped[p].evicted ==> forall kind :: SettledBefore(handed, popped, p, kind))
  }

  ghost predicate Barrier(s: System) {
    AtCommand(s.worker, s.shared.buffers, s.popped) && Completed(s.popped, s.handed, s.shared.completed)
  }

  lemma CompletedGrows(popped: seq<Popped>, more: seq<Popped>, handed: seq<Rows>, completed: set<nat>)
    requires Completed(popped, handed, completed)
    ensures Completed(popped + more, handed, completed)
  {
    forall p, kind | p in completed && !popped[p].evicted ensures SettledBefore(handed, popped + more, p, kind) {
      assert SettledBefore(handed, popped, p, kind);
      assert (popped + more)[..p] == popped[..p];
    }
  }

  lemma AtCommandEvict(w: Worker, b: Buffers, popped: seq<Popped>, item: Item)
    requires AtCommand(w, b, popped)
    ensures AtCommand(w, b, popped + [Popped(item, true)])
  {
    TakenSnoc(popped, Popped(item, true));
    assert forall p :: 0 <= p <= |popped| ==> (popped + [Popped(item, true)])[..p] == popped[..p];
  }

  lemma AtCommandTake(b: Buffers, popped: seq<Popped>, item: Item)
    ensures AtCommand(Holding(item, |popped|), b, popped + [Popped(item, false)])
  {
    TakenSnoc(popped, Popped(item, false));
    assert (popped + [Popped(item, false)])[..|popped|] == popped;
  }

  lemma CompletedSettles(popped: seq<Popped>, handed: seq<Rows>, rows: Rows, completed: set<nat>)
    requires Completed(popped, handed, completed)
    ensures Completed(popped, handed + [rows], completed)
  {
    forall p, kind | p in completed && !popped[p].evicted ensures SettledBefore(handed + [rows], popped, p, kind) {
      assert SettledBefore(handed, popped, p, kind);
      SettledSnoc(handed, rows, kind);
    }
  }

  /** The command completes only when all that was taken before it is settled. */
  lemma CompletedSignals(popped: seq<Popped>, handed: seq<Rows>, completed: set<nat>, place: nat)
    requires Completed(popped, handed, completed) && AtCommand(Completing(place), EMPTY, popped)
    requires forall kind :: KindLaw(handed, Completing(place), map[], popped, kind)
    ensures Completed(popped, handed, completed + {place})
  {
    forall kind ensures SettledBefore(handed, popped, place, kind) {
      assert KindLaw(handed, Completing(place), map[], popped, kind);
      assert SettledOf(handed, kind) + [] + [] + [] == SettledOf(handed, kind);
    }
  }

  lemma WorkerKeepsBarrier(cfg: Config, s: System, later: nat, ok: bool)
    requires !s.worker.Exited? && Barrier(s) && Buffered(cfg, s.shared.buffers) && forall kind :: KindInOrder(s, kind)
    ensures Barrier(Apply(cfg, s, Work(later, ok)))
  {
    var b, completed := s.shared.buffers, s.shared.completed;
    if Passes(s) {
      PassStep(cfg, s, later, ok);
      RoundFlushesWhatIsDue(cfg, s, later);
    } else {
      match s.worker
      case Waiting =>
        var item := s.shared.queue[0];
        TakeStep(cfg, s, later, ok);
        AtCommandTake(b, s.popped, item);
        CompletedGrows(s.popped, [Popped(item, false)], s.handed, completed);
      case Writing(rows, _) =>
        WriteStep(cfg, s, later, ok);
        CompletedSettles(s.popped, s.handed, rows, completed);
      case Completing(place) =>
        CompleteStep(cfg, s, later, ok);
        forall kind ensures KindLaw(s.handed, Completing(place), map[], s.popped, kind) { assert KindInOrder(s, kind); }
        CompletedSignals(s.popped, s.handed, completed, place);
    }
  }

  lemma ThreadKeepsBarrier(cfg: Config, s: System, a: Action)
    requires Can(cfg, s, a) && !a.Work? && Barrier(s)
    ensures Barrier(Apply(cfg, s, a))
  {
    ThreadStep(cfg, s, a);
    if s.shared.queue != [] {
      var item := s.shared.queue[0];
      AtCommandEvict(s.worker, s.shared.buffers, s.popped, item);
      CompletedGrows(s.popped, [Popped(item, true)], s.handed, s.shared.completed);
    }
  }
}
