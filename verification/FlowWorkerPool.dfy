/** backend/app/services/flow_worker_pool.py: bounded FIFO lanes, one worker per
    lane, and the shutdown handshake.

    `Shared` is the state behind the pool's lock and the lanes' queue locks, and
    `Perform` is one atomic section on it; the class `Pool` does the same in
    place. A `System` adds the program counters of the submitting
    threads, the workers and the closing thread, and two histories. An `Action`
    is one step of one thread, so a legal run is an arbitrary interleaving. */
module FlowWorkerPool {
  import opened Sequences

  datatype Policy = DropOldest | DropNewest | RejectNew | BlockShort

  /** `route` stands for SHA-256 of the key modulo the worker count. */
  datatype Config = Config(policy: Policy, enabled: bool, capacity: seq<nat>, route: string -> nat)

  ghost predicate WellFormed(c: Config) {
    && |c.capacity| > 0
    && (forall l :: 0 <= l < |c.capacity| ==> c.capacity[l] >= 1)
    && (forall key :: c.route(key) < |c.capacity|)
  }

  /** `id` stands for the uuid of the job; it is the submission's ticket. */
  datatype Job = Job(id: nat, key: string)

  datatype Lane = Lane(queue: seq<Job>, unfinished: int, processed: nat, failed: nat, dropped: nat)

  datatype Shared = Shared(accepting: bool, stop: bool, received: nat, processed: nat, failed: nat,
                           dropped: nat, rejected: nat, unknown: nat, lanes: seq<Lane>)

  // ----- atomic sections -----

  datatype Op =
    | Nothing
    | Receive
    | NoteUnknown
    | Reject
    | Settle(ok: bool)               // a disabled pool processed the packet itself
    | Drop(lane: nat)
    | Complete(lane: nat, ok: bool)
    | Put(lane: nat, job: Job)
    | Pop(lane: nat)
    | Done(lane: nat)                // queue.task_done
    | StopAccepting
    | SetStop

  predicate Applicable(sh: Shared, op: Op) {
    match op
    case Drop(l) => l < |sh.lanes|
    case Complete(l, _) => l < |sh.lanes|
    case Put(l, _) => l < |sh.lanes|
    case Pop(l) => l < |sh.lanes| && sh.lanes[l].queue != []
    case Done(l) => l < |sh.lanes|
    case _ => true
  }

  function PerformOnLane(lane: Lane, op: Op): Lane
    requires op.Pop? ==> lane.queue != []
  {
    match op
    case Drop(_) => lane.(dropped := lane.dropped + 1)
    case Complete(_, ok) => if ok then lane.(processed := lane.processed + 1) else lane.(failed := lane.failed + 1)
    case Put(_, job) => lane.(queue := lane.queue + [job], unfinished := lane.unfinished + 1)
    case Pop(_) => lane.(queue := lane.queue[1..])
    case Done(_) => lane.(unfinished := lane.unfinished - 1)
    case _ => lane
  }

  function PerformOnCounters(sh: Shared, op: Op): Shared {
    match op
    case Receive => sh.(received := sh.received + 1)
    case NoteUnknown => sh.(unknown := sh.unknown + 1)
    case Reject => sh.(rejected := sh.rejected + 1)
    case Settle(ok) => if ok then sh.(processed := sh.processed + 1) else sh.(failed := sh.failed + 1)
    case Complete(_, ok) => if ok then sh.(processed := sh.processed + 1) else sh.(failed := sh.failed + 1)
    case Drop(_) => sh.(dropped := sh.dropped + 1)
    case StopAccepting => sh.(accepting := false)
    case SetStop => sh.(stop := true)
    case _ => sh
  }

  predicate OnLanes(op: Op) { op.Drop? || op.Complete? || op.Put? || op.Pop? || op.Done? }

  function Perform(sh: Shared, op: Op): Shared
    requires Applicable(sh, op)
  {
    var counted := PerformOnCounters(sh, op);
    if OnLanes(op) then counted.(lanes := sh.lanes[op.lane := PerformOnLane(sh.lanes[op.lane], op)]) else counted
  }

  /** `n` lanes of `base` places, one more for each of the first `extra`. */
  function Shares(base: nat, extra: nat, n: nat): (caps: seq<nat>) {
    seq(n, l requires 0 <= l < n => base + if l < extra then 1 else 0)
  }

  /** divmod(queue_max_total, worker_count), the remainder spread over the first lanes. */
  function LaneCapacities(total: nat, workers: nat): (caps: seq<nat>)
    requires workers > 0
  {
    Shares(total / workers, total % workers, workers)
  }

  function EmptyPool(lanes: nat): Shared {
    Shared(true, false, 0, 0, 0, 0, 0, 0, seq(lanes, _ => Lane([], 0, 0, 0, 0)))
  }

  function HasRoom(c: Config, sh: Shared, l: nat): bool
    requires l < |sh.lanes| && l < |c.capacity|
  {
    |sh.lanes[l].queue| < c.capacity[l]
  }

  // ----- threads -----

  /** What a submitting thread has done so far; `job` is always its own job. */
  datatype Submitter =
    | Idle
    | Received(job: Job, complete: bool, accepting: bool)
    | Routing(job: Job)
    | Inline(job: Job)                  // disabled pool: about to process the packet itself
    | Putting(job: Job)                 // about to try the lane
    | Full(job: Job)                    // the first put found the lane full
    | Evicted(job: Job)                 // popped the head, task_done still to come
    | Uncounted(job: Job)               // task_done called, the drop not yet counted
    | Retrying(job: Job)                // about to put a second time
    | Discarding(job: Job)              // the second put found the lane full too

  datatype Worker = Top | Checking | Getting | Busy(job: Job) | Counted(job: Job) | Exited

  datatype Closer = Open | Scanning(lane: nat) | Stopping(drained: bool) | Closed(drained: bool)

  /** One step of `submit` and `_enqueue` after the first lock section. */
  ghost function SubmitterTurn(c: Config, sh: Shared, pc: Submitter, ok: bool): (Op, Submitter)
    requires WellFormed(c) && |sh.lanes| == |c.capacity| && !pc.Idle?
  {
    var l := c.route(pc.job.key);
    match pc
    case Received(job, complete, accepting) =>
      if !accepting then (Reject, Idle)
      else (if complete then Nothing else NoteUnknown, Routing(job))
    case Routing(job) => (Nothing, if c.enabled then Putting(job) else Inline(job))
    case Inline(job) => (Settle(ok), Idle)
    case Putting(job) => if HasRoom(c, sh, l) then (Put(l, job), Idle) else (Nothing, Full(job))
    case Full(job) =>
      (match c.policy
       case DropOldest => if sh.lanes[l].queue == [] then (Nothing, Retrying(job)) else (Pop(l), Evicted(job))
       case DropNewest => (Drop(l), Idle)
       case RejectNew => (Reject, Idle)
       case BlockShort => (Reject, Idle))
    case Evicted(job) => (Done(l), Uncounted(job))
    case Uncounted(job) => (Drop(l), Retrying(job))
    case Retrying(job) => if HasRoom(c, sh, l) then (Put(l, job), Idle) else (Nothing, Discarding(job))
    case Discarding(job) => (Drop(l), Idle)
  }

  /** One step of `_worker_loop`. */
  function WorkerTurn(sh: Shared, l: nat, w: Worker, ok: bool): (Op, Worker)
    requires l < |sh.lanes| && !w.Exited?
  {
    var q := sh.lanes[l].queue;
    match w
    case Top => (Nothing, if sh.stop then Checking else Getting)
    case Checking => (Nothing, if q == [] then Exited else Getting)
    case Getting => if q == [] then (Nothing, Top) else (Pop(l), Busy(q[0]))
    case Busy(job) => (Complete(l, ok), Counted(job))
    case Counted(_) => (Done(l), Top)
  }

  /** One step of `close`: `wait_until_drained` reads one lane at a time. */
  function CloserTurn(sh: Shared, closer: Closer, giveUp: bool): (Op, Closer)
    requires closer.Scanning? ==> closer.lane < |sh.lanes|
    requires !closer.Closed?
  {
    match closer
    case Open => (StopAccepting, Scanning(0))
    case Scanning(l) =>
      (Nothing,
       if sh.lanes[l].unfinished != 0 then (if giveUp then Stopping(false) else Scanning(0))
       else if l + 1 == |sh.lanes| then Stopping(true)
       else Scanning(l + 1))
    case Stopping(drained) => (SetStop, Closed(drained))
  }

  // ----- the system -----

  /** `quiet` records whether no submit was in flight when close began; `enqueued`
      and `started` are the histories of successful puts and of worker gets. */
  datatype System = System(shared: Shared, subs: seq<Submitter>, workers: seq<Worker>, closer: Closer,
                           quiet: bool, enqueued: seq<Job>, started: seq<Job>)

  datatype Action =
    | Submit(thread: nat, key: string, complete: bool)
    | Proceed(thread: nat, ok: bool)
    | Work(lane: nat, ok: bool)
    | Close(giveUp: bool)

  function Init(c: Config, threads: nat): System {
    System(EmptyPool(|c.capacity|), seq(threads, _ => Idle),
           seq(|c.capacity|, _ => if c.enabled then Top else Exited), Open, true, [], [])
  }

  ghost predicate Shape(c: Config, s: System) {
    && WellFormed(c)
    && |s.shared.lanes| == |s.workers| == |c.capacity|
    && (s.closer.Scanning? ==> s.closer.lane < |c.capacity|)
  }

  ghost predicate Can(c: Config, s: System, a: Action) {
    && Shape(c, s)
    && match a
       case Submit(t, _, _) => t < |s.subs| && s.subs[t].Idle?
       case Proceed(t, _) => t < |s.subs| && !s.subs[t].Idle?
       case Work(l, _) => l < |s.workers| && !s.workers[l].Exited?
       case Close(_) => !s.closer.Closed?
  }

  ghost function OpOf(c: Config, s: System, a: Action): (op: Op)
    requires Can(c, s, a)
    ensures Applicable(s.shared, op)
  {
    match a
    case Submit(_, _, _) => Receive
    case Proceed(t, ok) => SubmitterTurn(c, s.shared, s.subs[t], ok).0
    case Work(l, ok) => WorkerTurn(s.shared, l, s.workers[l], ok).0
    case Close(giveUp) => CloserTurn(s.shared, s.closer, giveUp).0
  }

  function PutsOf(op: Op): seq<Job> { if op.Put? then [op.job] else [] }

  ghost predicate NobodyInside(s: System) { forall t :: 0 <= t < |s.subs| ==> s.subs[t].Idle? }

  ghost function Apply(c: Config, s: System, a: Action): System
    requires Can(c, s, a)
  {
    var op := OpOf(c, s, a);
    var shared := Perform(s.shared, op);
    match a
    case Submit(t, key, complete) =>
      s.(shared := shared,
         subs := s.subs[t := Received(Job(s.shared.received, key), complete, s.shared.accepting)])
    case Proceed(t, ok) =>
      s.(shared := shared, subs := s.subs[t := SubmitterTurn(c, s.shared, s.subs[t], ok).1],
         enqueued := s.enqueued + PutsOf(op))
    case Work(l, ok) =>
      s.(shared := shared, workers := s.workers[l := WorkerTurn(s.shared, l, s.workers[l], ok).1],
         started := s.started + if op.Pop? then [s.shared.lanes[l].queue[0]] else [])
    case Close(giveUp) =>
      s.(shared := shared, closer := CloserTurn(s.shared, s.closer, giveUp).1,
         quiet := if s.closer.Open? then NobodyInside(s) else s.quiet)
  }

  ghost predicate Legal(c: Config, s: System, run: seq<Action>)
    decreases |run|
  {
    run == [] || (Can(c, s, run[0]) && Legal(c, Apply(c, s, run[0]), run[1..]))
  }

  ghost function After(c: Config, s: System, run: seq<Action>): System
    requires Legal(c, s, run)
    decreases |run|
  {
    if run == [] then s else After(c, Apply(c, s, run[0]), run[1..])
  }

  /** Some number of threads can bring the pool into state `s`. */
  ghost predicate Reachable(c: Config, s: System) {
    WellFormed(c) && exists threads: nat, run :: Legal(c, Init(c, threads), run) && After(c, Init(c, threads), run) == s
  }

  // ----- what the books are about -----

  function QueueLength(lane: Lane): nat { |lane.queue| }

  function LaneProcessed(lane: Lane): nat { lane.processed }

  function LaneFailed(lane: Lane): nat { lane.failed }

  function LaneDropped(lane: Lane): nat { lane.dropped }

  function InHand(w: Worker): nat { if w.Busy? then 1 else 0 }

  /** A worker owes its lane a task_done. */
  function Holding(w: Worker): nat { if w.Busy? || w.Counted? then 1 else 0 }

  /** Jobs a submitting thread still answers for: its own, and a victim not yet counted. */
  function InProgress(pc: Submitter): nat {
    if pc.Idle? then 0 else if pc.Evicted? || pc.Uncounted? then 2 else 1
  }

  function OwesTaskDone(c: Config, l: nat): Submitter -> nat {
    (pc: Submitter) => if pc.Evicted? && c.route(pc.job.key) == l then 1 else 0
  }

  function OnLane(c: Config, l: nat): Job -> bool { (job: Job) => c.route(job.key) == l }

  function OfKey(key: string): Job -> bool { (job: Job) => job.key == key }

  function Settled(sh: Shared): nat { sh.processed + sh.failed + sh.dropped + sh.rejected }

  function Depth(sh: Shared): nat { SumBy(sh.lanes, QueueLength) }
}
