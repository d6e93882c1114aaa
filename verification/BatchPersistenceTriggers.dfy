/** When a buffered type leaves for storage, said in terms of the configuration, the events and the clock. */
module BatchPersistenceTriggers {
  import opened Sequences
  import opened Values
  import opened BatchPersistence
  import opened BatchPersistenceSafety
  import opened BatchPersistenceResults

  /** The configured batch size of a type: 100 unless given, and at least 1. */
  function SizeLimit(cfg: Config, kind: string): int {
    if kind !in cfg.batchSizes then 100 else if cfg.batchSizes[kind] < 1 then 1 else cfg.batchSizes[kind]
  }

  /** The configured flush interval in milliseconds: 2000 unless given, and at least 1. */
  function AgeLimit(cfg: Config, kind: string): int {
    if kind !in cfg.flushMs then 2000 else if cfg.flushMs[kind] < 1 then 1 else cfg.flushMs[kind]
  }

  ghost predicate SomeUrgent(events: seq<Event>) {
    exists e :: e in events && (e.priority == High || e.priority == Critical)
  }

  /** What type `kind` holds once the events are buffered. */
  function Had(b: Buffers, events: seq<Event>, kind: string): seq<Event> {
    RowsOf(b.rows, kind) + Filter(events, OfKind(kind))
  }

  ghost predicate SomeFilled(cfg: Config, b: Buffers, events: seq<Event>) {
    exists kind :: |Had(b, events, kind)| >= SizeLimit(cfg, kind)
  }

  /** When the oldest event of `kind` was buffered, if the new ones are buffered at `now`. */
  function Since(b: Buffers, kind: string, now: nat): nat { if kind in b.first then b.first[kind] else now }

  lemma LimitsAreConfigured(cfg: Config, kind: string)
    ensures BatchSize(cfg, kind) == SizeLimit(cfg, kind) && Interval(cfg, kind) == AgeLimit(cfg, kind)
  {
  }

  lemma UrgentIsSome(events: seq<Event>)
    ensures Urgent(events) <==> SomeUrgent(events)
  {
    if e :| e in events && (e.priority == High || e.priority == Critical) {
      var i :| 0 <= i < |events| && events[i] == e;
      assert events[i].priority.High? || events[i].priority.Critical?;
    }
    if i :| 0 <= i < |events| && (events[i].priority.High? || events[i].priority.Critical?) {
      assert events[i] in events;
    }
  }

  lemma HadSnoc(b: Buffers, events: seq<Event>, e: Event, kind: string)
    ensures Had(b, events + [e], kind) == if e.kind == kind then Had(b, events, kind) + [e] else Had(b, events, kind)
  {
    FilterSnoc(events, e, OfKind(kind));
  }

  /** Starting below every batch size, some append fills a buffer exactly when some buffer is full at the end. */
  lemma {:induction false} SizeDueIsFilled(cfg: Config, b: Buffers, events: seq<Event>, now: nat)
    requires BelowBatchSize(cfg, b)
    ensures SizeDue(cfg, b, events, now) <==> SomeFilled(cfg, b, events)
  {
    if events == [] {
      forall kind ensures |Had(b, [], kind)| < SizeLimit(cfg, kind) { LimitsAreConfigured(cfg, kind); }
    } else {
      hide Had, SizeLimit, BelowBatchSize;
      var init, last := events[..|events| - 1], events[|events| - 1];
      assert events == init + [last];
      SizeDueIsFilled(cfg, b, init, now);
      LimitsAreConfigured(cfg, last.kind);
      AddAllAppends(b, events, now, last.kind);
      HadIs(b, events, now, last.kind);
      forall kind ensures |Had(b, events, kind)| == |Had(b, init, kind)| + if last.kind == kind then 1 else 0 {
        HadSnoc(b, init, last, kind);
      }
      if kind :| |Had(b, init, kind)| >= SizeLimit(cfg, kind) { assert |Had(b, events, kind)| >= SizeLimit(cfg, kind); }
      if kind :| |Had(b, events, kind)| >= SizeLimit(cfg, kind) {
        if kind != last.kind { assert |Had(b, init, kind)| >= SizeLimit(cfg, kind); }
      }
    }
  }

  lemma HadIs(b: Buffers, events: seq<Event>, now: nat, kind: string)
    ensures RowsOf(AddAll(b, events, now).rows, kind) == Had(b, events, kind)
  {
    AddAllAppends(b, events, now, kind);
  }

  lemma {:induction false} FirstIsSince(b: Buffers, events: seq<Event>, now: nat, kind: string)
    requires Tidy(b)
    ensures var filled := AddAll(b, events, now);
            && (kind in filled.first <==> Had(b, events, kind) != [])
            && (kind in filled.first ==> filled.first[kind] == Since(b, kind, now))
  {
    if events == [] {
      assert Filter([], OfKind(kind)) == [];
    } else {
      hide Had, AddAll;
      var init, last := events[..|events| - 1], events[|events| - 1];
      assert events == init + [last];
      FirstIsSince(b, init, now, kind);
      HadSnoc(b, init, last, kind);
      assert AddAll(b, events, now) == AddEvent(AddAll(b, init, now), last, now) by { AddAllSnoc(b, init, last, now); }
      if kind in b.first { HadStarts(b, init, kind); }
    }
  }

  lemma AddAllSnoc(b: Buffers, events: seq<Event>, e: Event, now: nat)
    ensures AddAll(b, events + [e], now) == AddEvent(AddAll(b, events, now), e, now)
  {
    assert (events + [e])[..|events|] == events;
  }

  lemma HadStarts(b: Buffers, events: seq<Event>, kind: string)
    requires Tidy(b) && kind in b.first
    ensures Had(b, events, kind) != []
  {
  }

  lemma PassLeaves(cfg: Config, b: Buffers, events: seq<Event>, now: nat, later: nat, force: bool, kind: string)
    requires Tidy(b)
    ensures var (kept, rows) := Pass(cfg, b, events, now, later, force);
            var had := Had(b, events, kind);
            var leaves := force || now + later - Since(b, kind, now) >= AgeLimit(cfg, kind);
            && RowsOf(kept.rows, kind) == (if leaves then [] else had)
            && RowsOf(rows, kind) == (if leaves then had else [])
            && (had != [] && !leaves ==> kind in kept.first && kept.first[kind] == Since(b, kind, now))
  {
    hide AddAll, Had;
    var filled := AddAll(b, events, now);
    AddAllTidy(b, events, now);
    HadIs(b, events, now, kind);
    FirstIsSince(b, events, now, kind);
    LimitsAreConfigured(cfg, kind);
  }

  /** One round of the worker: with the unit in hand buffered, a type leaves for storage, whole and in order,
      if and only if the unit is a flush command or holds an urgent event, some buffer has reached its
      configured size, or the type's oldest event has reached its configured age. */
  lemma TypeLeavesIff(cfg: Config, s: System, later: nat, ok: bool, kind: string)
    requires Reachable(cfg, s) && Passes(s)
    ensures var s', b, events := Apply(cfg, s, Work(later, ok)), s.shared.buffers, HeldEvents(s.worker);
            var clock := s.now + if s.worker.Holding? then later else 0;
            var had, since := Had(b, events, kind), Since(b, kind, s.now);
            var leaves := (s.worker.Holding? && s.worker.item.FlushCommand?) || SomeUrgent(events)
                          || SomeFilled(cfg, b, events) || clock - since >= AgeLimit(cfg, kind);
            && s'.now == clock
            && RowsOf(s'.shared.buffers.rows, kind) == (if leaves then [] else had)
            && RowsOf(InFlight(s'.worker), kind) == (if leaves then had else [])
            && (had != [] && !leaves ==>
                  kind in s'.shared.buffers.first && s'.shared.buffers.first[kind] == since)
  {
    hide Reachable, Pass, Had, SomeUrgent, SomeFilled, Urgent, SizeDue;
    BuffersStayBounded(cfg, s, later, ok);
    PassStep(cfg, s, later, ok);
    var b, events := s.shared.buffers, HeldEvents(s.worker);
    UrgentIsSome(events);
    SizeDueIsFilled(cfg, b, events, s.now);
    var lag := if s.worker.Holding? then later else 0;
    var command := s.worker.Holding? && s.worker.item.FlushCommand?;
    PassLeaves(cfg, b, events, s.now, lag, command || SomeUrgent(events) || SomeFilled(cfg, b, events), kind);
    NothingNew(cfg, b, s.now);
  }

  lemma NothingNew(cfg: Config, b: Buffers, now: nat)
    ensures !Urgent([]) && !SizeDue(cfg, b, [], now)
  {
  }

  /** And no other step touches the buffers. */
  lemma OnlyRoundsTouchBuffers(cfg: Config, s: System, a: Action)
    requires Can(cfg, s, a) && !(a.Work? && Passes(s))
    ensures Apply(cfg, s, a).shared.buffers == s.shared.buffers
  {
    if !a.Work? { ThreadStep(cfg, s, a); }
    else if s.worker.Waiting? { TakeStep(cfg, s, a.later, a.ok); }
    else if s.worker.Writing? { WriteStep(cfg, s, a.later, a.ok); }
    else { CompleteStep(cfg, s, a.later, a.ok); }
  }
}
