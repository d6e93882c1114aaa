/** backend/app/services/batch_persistence.py: a bounded queue of single events, atomic
    groups and flush commands, sorted by one worker into per-type buffers and written in batches.

    `Perform` is one atomic access to the shared state. Producers, flushers and the worker
    take turns in any order; the clock is logical, in milliseconds, and storage may fail. */
module BatchPersistence {
  import opened Sequences
  import opened Maps
  import opened Values

  datatype Policy = DropOldest | DropNewest | RejectNew

  datatype Priority = Low | Normal | High | Critical

  datatype Event = Event(kind: string, priority: Priority, payload: string)

  datatype Item = Single(event: Event) | Group(events: seq<Event>) | FlushCommand

  function EventsOf(item: Item): seq<Event> {
    match item
    case Single(event) => [event]
    case Group(events) => events
    case FlushCommand => []
  }

  function Size(item: Item): nat { |EventsOf(item)| }

  datatype Config = Config(policy: Policy, queueMax: nat, batchSizes: map<string, nat>, flushMs: map<string, nat>)

  function BatchSize(cfg: Config, kind: string): (n: nat)
    ensures n >= 1
  {
    Max(1, if kind in cfg.batchSizes then cfg.batchSizes[kind] else 100)
  }

  function Interval(cfg: Config, kind: string): (n: nat)
    ensures n >= 1
  {
    Max(1, if kind in cfg.flushMs then cfg.flushMs[kind] else 2000)
  }

  // ----- buffers -----

  type Rows = map<string, seq<Event>>

  /** `_buffers` and `_first_buffered_at`. */
  datatype Buffers = Buffers(rows: Rows, first: map<string, nat>)

  const EMPTY := Buffers(map[], map[])

  function RowsOf(rows: Rows, kind: string): seq<Event> { if kind in rows then rows[kind] else [] }

  function AddEvent(b: Buffers, e: Event, now: nat): Buffers {
    Buffers(b.rows[e.kind := RowsOf(b.rows, e.kind) + [e]],
            if e.kind in b.first then b.first else b.first[e.kind := now])
  }

  function AddAll(b: Buffers, events: seq<Event>, now: nat): Buffers {
    if events == [] then b else AddEvent(AddAll(b, events[..|events| - 1], now), events[|events| - 1], now)
  }

  predicate Urgent(events: seq<Event>) {
    exists i :: 0 <= i < |events| && (events[i].priority.High? || events[i].priority.Critical?)
  }

  /** Some append filled its buffer up to the batch size. */
  predicate SizeDue(cfg: Config, b: Buffers, events: seq<Event>, now: nat) {
    events != [] &&
    (var last := events[|events| - 1];
     SizeDue(cfg, b, events[..|events| - 1], now)
     || |RowsOf(AddAll(b, events, now).rows, last.kind)| >= BatchSize(cfg, last.kind))
  }

  function Due(cfg: Config, b: Buffers, now: int, force: bool): set<string> {
    set kind | kind in b.first && (force || now - b.first[kind] >= Interval(cfg, kind))
  }

  /** What `_flush_due` hands to storage, and what stays buffered. */
  function Handed(b: Buffers, due: set<string>): Rows { map kind | kind in b.rows && kind in due :: b.rows[kind] }

  function Kept(b: Buffers, due: set<string>): Buffers { Buffers(b.rows - due, b.first - due) }

  // ----- shared state -----

  /** A flush command is known by its place in the enqueue log; `completed` holds the signalled ones. */
  datatype Shared = Shared(queue: seq<Item>, buffers: Buffers, received: nat, written: nat, failed: nat, dropped: nat,
                           completed: set<nat>, stop: bool)

  datatype Op =
    | Nothing
    | Receive(n: nat)
    | Put(item: Item)
    | Evict(place: nat)
    | Charge(n: nat)
    | Take
    | Rebuffer(buffers: Buffers)
    | Settle(n: nat, ok: bool)
    | Complete(place: nat)
    | SetStop

  function Perform(sh: Shared, op: Op): Shared
    requires op.Evict? || op.Take? ==> sh.queue != []
  {
    match op
    case Nothing => sh
    case Receive(n) => sh.(received := sh.received + n)
    case Put(item) => sh.(queue := sh.queue + [item])
    case Evict(place) =>
      sh.(queue := sh.queue[1..],
          completed := if sh.queue[0].FlushCommand? then sh.completed + {place} else sh.completed)
    case Charge(n) => sh.(dropped := sh.dropped + n)
    case Take => sh.(queue := sh.queue[1..])
    case Rebuffer(buffers) => sh.(buffers := buffers)
    case Settle(n, ok) => if ok then sh.(written := sh.written + n) else sh.(failed := sh.failed + n)
    case Complete(place) => sh.(completed := sh.completed + {place})
    case SetStop => sh.(stop := true)
  }

  // ----- threads -----

  datatype Thread =
    | Idle
    | Counted(item: Item)        // received, about to put
    | Overflowing(item: Item)    // the put found the queue full
    | Evicting(item: Item)       // drop_oldest has made room, or found the queue empty
    | Charging(item: Item)       // about to count a drop of the incoming unit's size
    | Flushing                   // about to queue a flush command
    | Awaiting(place: nat)       // its command is in the log at `place`

  datatype Worker =
    | Waiting
    | Holding(item: Item, place: nat)
    | Writing(rows: Rows, next: Option<nat>)   // storage has the rows; then complete a command, if any
    | Completing(place: nat)
    | Exited

  /** What was popped from the queue, by the worker or by an evicting producer. */
  datatype Popped = Popped(item: Item, evicted: bool)

  /** `log`: units put, in order; `handed`: batches storage has answered for; `lost`: events
      evicted or refused, whatever the drop counter says. */
  datatype System = System(shared: Shared, now: nat, threads: seq<Thread>, worker: Worker,
                           log: seq<Item>, popped: seq<Popped>, handed: seq<Rows>, lost: nat)

  datatype Action =
    | Enqueue(thread: nat, item: Item)
    | Flush(thread: nat)
    | Proceed(thread: nat)
    | GiveUp(thread: nat)            // a flush times out
    | Work(later: nat, ok: bool)     // the worker's clock reading comes `later` ms after it buffered
    | WorkerExit
    | Stop
    | Tick(ms: nat)

  function Init(threads: nat): System {
    System(Shared([], EMPTY, 0, 0, 0, 0, {}, false), 0, seq(threads, _ => Idle), Waiting, [], [], [], 0)
  }

  function RowCount(row: seq<Event>): nat { |row| }

  predicate HasRoom(cfg: Config, sh: Shared) { |sh.queue| < cfg.queueMax }

  ghost predicate Can(cfg: Config, s: System, a: Action) {
    match a
    case Enqueue(t, item) => t < |s.threads| && s.threads[t].Idle? && !item.FlushCommand? && Size(item) > 0
    case Flush(t) => t < |s.threads| && s.threads[t].Idle? && !s.worker.Exited?
    case Proceed(t) =>
      t < |s.threads| && !s.threads[t].Idle?
      && (s.threads[t].Flushing? ==> HasRoom(cfg, s.shared))
      && (s.threads[t].Awaiting? ==> s.threads[t].place in s.shared.completed)
    case GiveUp(t) => t < |s.threads| && (s.threads[t].Flushing? || s.threads[t].Awaiting?)
    case Work(_, _) => !s.worker.Exited?
    case WorkerExit => s.worker.Waiting? && s.shared.stop && s.shared.queue == [] && s.shared.buffers.rows == map[]
    case Stop => true
    case Tick(_) => true
  }

  /** One step of enqueue, enqueue_many, _handle_overflow or flush; and the events it loses. */
  function ThreadTurn(cfg: Config, sh: Shared, popped: nat, pc: Thread): (Op, Thread, nat)
    requires !pc.Idle?
  {
    match pc
    case Counted(item) => if HasRoom(cfg, sh) then (Put(item), Idle, 0) else (Nothing, Overflowing(item), 0)
    case Overflowing(item) =>
      if !cfg.policy.DropOldest? then (Nothing, Charging(item), Size(item))
      else if sh.queue == [] then (Nothing, Evicting(item), 0)
      else (Evict(popped), Evicting(item), Size(sh.queue[0]))
    case Evicting(item) => if HasRoom(cfg, sh) then (Put(item), Charging(item), 0)
                           else (Nothing, Charging(item), Size(item))
    case Charging(item) => (Charge(Size(item)), Idle, 0)
    case Flushing => (Put(FlushCommand), Awaiting(popped + |sh.queue|), 0)
    case Awaiting(_) => (Nothing, Idle, 0)
  }

  /** Buffer the events, then flush what is due. */
  function Pass(cfg: Config, b: Buffers, events: seq<Event>, now: nat, later: nat, force: bool): (Buffers, Rows) {
    var filled := AddAll(b, events, now);
    var due := Due(cfg, filled, now + later, force);
    (Kept(filled, due), Handed(filled, due))
  }

  /** A round of `_run` that reaches `_flush_due`: an item in hand, or an empty queue at the timeout. */
  predicate Passes(s: System) { s.worker.Holding? || (s.worker.Waiting? && s.shared.queue == []) }

  function PassOf(cfg: Config, s: System, later: nat): (Buffers, Rows)
    requires Passes(s)
  {
    var b := s.shared.buffers;
    if s.worker.Waiting? then Pass(cfg, b, [], s.now, 0, false)
    else if s.worker.item.FlushCommand? then Pass(cfg, b, [], s.now, later, true)
    else
      var events := EventsOf(s.worker.item);
      Pass(cfg, b, events, s.now, later, Urgent(events) || SizeDue(cfg, b, events, s.now))
  }

  function AfterWrite(next: Option<nat>): Worker { if next.Some? then Completing(next.value) else Waiting }

  /** Write the due rows if there are any, then complete the command in hand if it is one. */
  function WriteThen(rows: Rows, w: Worker): Worker {
    var next := if w.Holding? && w.item.FlushCommand? then Some(w.place) else None;
    if rows != map[] then Writing(rows, next) else AfterWrite(next)
  }

  /** One step of `_run`. */
  ghost function WorkerTurn(cfg: Config, s: System, later: nat, ok: bool): (Op, Worker)
    requires !s.worker.Exited?
  {
    if Passes(s) then
      var (kept, rows) := PassOf(cfg, s, later);
      (Rebuffer(kept), WriteThen(rows, s.worker))
    else
      match s.worker
      case Waiting => (Take, Holding(s.shared.queue[0], |s.popped|))
      case Writing(rows, next) =>
        (Settle(Total(rows, RowCount), ok), AfterWrite(next))
      case Completing(place) => (Complete(place), Waiting)
  }

  ghost function Apply(cfg: Config, s: System, a: Action): System
    requires Can(cfg, s, a)
  {
    match a
    case Enqueue(t, item) => s.(shared := Perform(s.shared, Receive(Size(item))),
                                threads := s.threads[t := Counted(item)])
    case Flush(t) => s.(threads := s.threads[t := Flushing])
    case Proceed(t) =>
      var (op, pc, loss) := ThreadTurn(cfg, s.shared, |s.popped|, s.threads[t]);
      s.(shared := Perform(s.shared, op), threads := s.threads[t := pc], lost := s.lost + loss,
         log := if op.Put? then s.log + [op.item] else s.log,
         popped := if op.Evict? then s.popped + [Popped(s.shared.queue[0], true)] else s.popped)
    case GiveUp(t) => s.(threads := s.threads[t := Idle])
    case Work(later, ok) =>
      var (op, w) := WorkerTurn(cfg, s, later, ok);
      s.(shared := Perform(s.shared, op), worker := w, now := s.now + if s.worker.Holding? then later else 0,
         popped := if op.Take? then s.popped + [Popped(s.shared.queue[0], false)] else s.popped,
         handed := if op.Settle? then s.handed + [s.worker.rows] else s.handed)
    case WorkerExit => s.(worker := Exited)
    case Stop => s.(shared := Perform(s.shared, SetStop))
    case Tick(ms) => s.(now := s.now + ms)
  }

  ghost predicate Legal(cfg: Config, s: System, run: seq<Action>)
    decreases |run|
  {
    run == [] || (Can(cfg, s, run[0]) && Legal(cfg, Apply(cfg, s, run[0]), run[1..]))
  }

  ghost function After(cfg: Config, s: System, run: seq<Action>): System
    requires Legal(cfg, s, run)
    decreases |run|
  {
    if run == [] then s else After(cfg, Apply(cfg, s, run[0]), run[1..])
  }

  ghost predicate Reachable(cfg: Config, s: System) {
    exists threads: nat, run :: Legal(cfg, Init(threads), run) && After(cfg, Init(threads), run) == s
  }

  // ----- the vocabulary of the results -----

  function OfKind(kind: string): Event -> bool { (e: Event) => e.kind == kind }

  function Items(popped: seq<Popped>): seq<Item> {
    if popped == [] then [] else Items(popped[..|popped| - 1]) + [popped[|popped| - 1].item]
  }

  /** The events the worker has taken off the queue, evicted units left out. */
  function TakenEvents(popped: seq<Popped>): seq<Event> {
    if popped == [] then []
    else
      var last := popped[|popped| - 1];
      TakenEvents(popped[..|popped| - 1]) + if last.evicted then [] else EventsOf(last.item)
  }

  /** What storage has answered for, of one type, in order. */
  function SettledOf(handed: seq<Rows>, kind: string): seq<Event> {
    if handed == [] then [] else SettledOf(handed[..|handed| - 1], kind) + RowsOf(handed[|handed| - 1], kind)
  }

  function InFlight(w: Worker): Rows { if w.Writing? then w.rows else map[] }

  function HeldEvents(w: Worker): seq<Event> { if w.Holding? then EventsOf(w.item) else [] }
}
