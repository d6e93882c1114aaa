/** backend/app/services/event_aggregator.py: live events are buffered per category
    and sent in batches, by size, by timer, or at shutdown.

    `Perform` is one lock section (or one timer or emit call); `Aggregator` does the
    same in place. Appending and then scheduling or flushing are separate sections,
    and a timer may fire between any two of them: a legal run interleaves them freely. */
module EventAggregator {

  /** Five buffers and, last, two slots that hold only the newest message. */
  datatype Category = Packet | Alert | Flow | Incident | Agent | Dashboard | Ops

  const ALL: seq<Category> := [Packet, Alert, Flow, Incident, Agent, Dashboard, Ops]

  predicate IsSlot(c: Category) { c.Dashboard? || c.Ops? }

  datatype Message = Message(kind: string, payload: string)

  datatype Batch = Batch(category: Category, events: seq<Message>)

  datatype Config = Config(packetMax: nat, alertMax: nat, flowMax: nat)

  function MaxSize(cfg: Config, c: Category): nat {
    match c
    case Packet => cfg.packetMax
    case Alert => cfg.alertMax
    case Incident => cfg.alertMax
    case _ => cfg.flowMax
  }

  datatype Status = Waiting | Fired | Cancelled

  datatype Timer = Timer(category: Category, status: Status)

  /** `registry` is `_timers`; `timers` lists every timer ever started, by number. */
  datatype Shared = Shared(pending: map<Category, seq<Message>>, registry: map<Category, nat>, timers: seq<Timer>,
                           received: nat, sent: nat, batchesSent: nat, coalesced: nat)

  ghost predicate Sound(sh: Shared) {
    && (forall c: Category :: c in sh.pending)
    && (forall c :: c in sh.registry ==> sh.registry[c] < |sh.timers|)
  }

  // ----- sections -----

  datatype Op =
    | Nothing
    | Receive
    | Append(category: Category, message: Message)
    | Overwrite(category: Category, message: Message)
    | Take(category: Category)
    | Arm(category: Category)
    | Disarm
    | Cancel(timer: nat)
    | Emit(batch: Batch)
    | EmitDirect(message: Message)

  /** timer.cancel() stops a timer that is still waiting; a fired one runs on. */
  function CancelTimer(timers: seq<Timer>, i: nat): seq<Timer> {
    if i < |timers| && timers[i].status.Waiting? then timers[i := timers[i].(status := Cancelled)] else timers
  }

  function EmptyPending(): map<Category, seq<Message>> {
    map[Packet := [], Alert := [], Flow := [], Incident := [], Agent := [], Dashboard := [], Ops := []]
  }

  lemma CategoriesListed()
    ensures forall c: Category :: c in ALL
    ensures forall c: Category :: c in EmptyPending() && EmptyPending()[c] == []
  {
    assert ALL[0] == Packet && ALL[1] == Alert && ALL[2] == Flow && ALL[3] == Incident && ALL[4] == Agent
           && ALL[5] == Dashboard && ALL[6] == Ops;
    forall c: Category ensures c in ALL && c in EmptyPending() && EmptyPending()[c] == [] {
      match c { case Packet => case Alert => case Flow => case Incident => case Agent => case Dashboard => case Ops => }
    }
  }

  function Perform(sh: Shared, op: Op): Shared
    requires forall c: Category :: c in sh.pending
  {
    match op
    case Receive => sh.(received := sh.received + 1)
    case Append(c, m) => sh.(pending := sh.pending[c := sh.pending[c] + [m]])
    case Overwrite(c, m) =>
      sh.(pending := sh.pending[c := [m]], coalesced := sh.coalesced + if sh.pending[c] == [] then 0 else 1)
    case Take(c) =>
      sh.(pending := sh.pending[c := []], registry := sh.registry - {c},
          timers := if c in sh.registry then CancelTimer(sh.timers, sh.registry[c]) else sh.timers,
          sent := sh.sent + |sh.pending[c]|, batchesSent := sh.batchesSent + if sh.pending[c] == [] then 0 else 1)
    case Arm(c) =>
      if c in sh.registry then sh
      else sh.(registry := sh.registry[c := |sh.timers|], timers := sh.timers + [Timer(c, Waiting)])
    case Disarm => sh.(registry := map[])
    case Cancel(i) => sh.(timers := CancelTimer(sh.timers, i))
    case _ => sh
  }

  // ----- threads -----

  datatype Thread =
    | Idle
    | Received(category: Category, message: Message)     // counted, about to append
    | Direct(message: Message)                           // counted, about to emit unbatched
    | Scheduling(category: Category)
    | Flushing(categories: seq<Category>)                // flush the first, then the others
    | Emitting(batch: Batch, categories: seq<Category>)  // emit outside the lock, then flush the others
    | Cancelling(timers: seq<nat>)                       // close: then flush everything

  function Resume(categories: seq<Category>): Thread { if categories == [] then Idle else Flushing(categories) }

  function ThreadTurn(cfg: Config, sh: Shared, pc: Thread): (Op, Thread)
    requires (forall c: Category :: c in sh.pending) && !pc.Idle? && (pc.Flushing? ==> pc.categories != [])
  {
    match pc
    case Received(c, m) =>
      if IsSlot(c) then (Overwrite(c, m), Scheduling(c))
      else (Append(c, m), if |sh.pending[c]| + 1 >= MaxSize(cfg, c) then Flushing([c]) else Scheduling(c))
    case Direct(m) => (EmitDirect(m), Idle)
    case Scheduling(c) => (Arm(c), Idle)
    case Flushing(cs) =>
      (Take(cs[0]),
       if sh.pending[cs[0]] == [] then Resume(cs[1..]) else Emitting(Batch(cs[0], sh.pending[cs[0]]), cs[1..]))
    case Emitting(batch, cs) => (Emit(batch), Resume(cs))
    case Cancelling(ids) => if ids == [] then (Nothing, Flushing(ALL)) else (Cancel(ids[0]), Cancelling(ids[1..]))
  }

  // ----- the system -----

  /** Histories: what was appended per category, the batches taken, and what was emitted. */
  datatype System = System(shared: Shared, threads: seq<Thread>, appended: map<Category, seq<Message>>,
                           taken: seq<Batch>, emitted: seq<Batch>, direct: nat)

  datatype Action =
    | Publish(thread: nat, category: Category, message: Message)
    | PublishDirect(thread: nat, message: Message)
    | FlushAll(thread: nat)
    | Close(thread: nat, timers: seq<nat>)
    | Proceed(thread: nat)
    | Fire(timer: nat)

  function Init(threads: nat): System {
    System(Shared(EmptyPending(), map[], [], 0, 0, 0, 0), seq(threads, _ => Idle), EmptyPending(), [], [], 0)
  }

  ghost predicate Shape(s: System) {
    && Sound(s.shared)
    && (forall c: Category :: c in s.appended)
    && (forall t :: 0 <= t < |s.threads| && s.threads[t].Flushing? ==> s.threads[t].categories != [])
  }

  ghost predicate Can(s: System, a: Action) {
    && Shape(s)
    && match a
       case Proceed(t) => t < |s.threads| && !s.threads[t].Idle?
       case Fire(i) => i < |s.shared.timers| && s.shared.timers[i].status.Waiting?
       case Close(t, ids) => t < |s.threads| && s.threads[t].Idle? && (set i | i in ids) == s.shared.registry.Values
       case _ => a.thread < |s.threads| && s.threads[a.thread].Idle?
  }

  ghost function OpOf(cfg: Config, s: System, a: Action): Op
    requires Can(s, a)
  {
    match a
    case Publish(_, _, _) => Receive
    case PublishDirect(_, _) => Receive
    case Close(_, _) => Disarm
    case Proceed(t) => ThreadTurn(cfg, s.shared, s.threads[t]).0
    case _ => Nothing
  }

  function AppendedBy(appended: map<Category, seq<Message>>, op: Op): map<Category, seq<Message>>
    requires forall c: Category :: c in appended
  {
    if op.Append? || op.Overwrite? then appended[op.category := appended[op.category] + [op.message]] else appended
  }

  function TakenBy(sh: Shared, op: Op): seq<Batch>
    requires forall c: Category :: c in sh.pending
  {
    if op.Take? && sh.pending[op.category] != [] then [Batch(op.category, sh.pending[op.category])] else []
  }

  ghost function NextThread(cfg: Config, s: System, a: Action): Thread
    requires Can(s, a) && !a.Fire?
  {
    match a
    case Publish(_, c, m) => Received(c, m)
    case PublishDirect(_, m) => Direct(m)
    case FlushAll(_) => Flushing(ALL)
    case Close(_, ids) => Cancelling(ids)
    case Proceed(t) => ThreadTurn(cfg, s.shared, s.threads[t]).1
  }

  ghost function Apply(cfg: Config, s: System, a: Action): System
    requires Can(s, a)
  {
    if a.Fire? then
      s.(shared := s.shared.(timers := s.shared.timers[a.timer := s.shared.timers[a.timer].(status := Fired)]),
         threads := s.threads + [Flushing([s.shared.timers[a.timer].category])])
    else
      var op := OpOf(cfg, s, a);
      System(Perform(s.shared, op), s.threads[a.thread := NextThread(cfg, s, a)], AppendedBy(s.appended, op),
             s.taken + TakenBy(s.shared, op), if op.Emit? then s.emitted + [op.batch] else s.emitted,
             s.direct + if op.EmitDirect? then 1 else 0)
  }

  ghost predicate Legal(cfg: Config, s: System, run: seq<Action>)
    decreases |run|
  {
    run == [] || (Can(s, run[0]) && Legal(cfg, Apply(cfg, s, run[0]), run[1..]))
  }

  ghost function After(cfg: Config, s: System, run: seq<Action>): System
    requires Legal(cfg, s, run)
    decreases |run|
  {
    if run == [] then s else After(cfg, Apply(cfg, s, run[0]), run[1..])
  }

  ghost predicate Reachable(cfg: Config, s: System) {
    exists threads: nat, run :: Legal(cfg, Init(threads), run) && After(cfg, Init(threads), run) == s
  }

  // ----- what threads are committed to -----

  function FlushDuty(c: Category): Thread -> nat {
    (pc: Thread) => if pc.Cancelling? || ((pc.Flushing? || pc.Emitting?) && c in pc.categories) then 1 else 0
  }

  predicate WillFlush(pc: Thread, c: Category) { FlushDuty(c)(pc) == 1 }

  ghost predicate SomeoneWillFlush(s: System, c: Category) {
    exists t :: 0 <= t < |s.threads| && WillFlush(s.threads[t], c)
  }

  ghost predicate SomeoneWillSchedule(s: System, c: Category) {
    exists t :: 0 <= t < |s.threads| && s.threads[t] == Scheduling(c)
  }

  /** A registered timer that has neither fired nor been cancelled. */
  predicate TimerWaits(s: System, c: Category) {
    c in s.shared.registry && s.shared.registry[c] < |s.shared.timers|
    && s.shared.timers[s.shared.registry[c]] == Timer(c, Waiting)
  }

  /** The messages of the taken batches of one category, in order. */
  function TakenOf(taken: seq<Batch>, c: Category): seq<Message> {
    if taken == [] then []
    else
      var last := taken[|taken| - 1];
      TakenOf(taken[..|taken| - 1], c) + if last.category == c then last.events else []
  }
}
