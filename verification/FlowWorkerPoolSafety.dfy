/** Every interleaving of submitters, workers and close keeps the pool's books,
    its bounds and the order of each flow. */
module FlowWorkerPoolSafety {
  import opened Sequences
  import opened FlowWorkerPool

  // ----- conservation -----

  ghost predicate Conserved(s: System) {
    s.shared.received ==
    Settled(s.shared) + Depth(s.shared) + SumBy(s.workers, InHand) + SumBy(s.subs, InProgress)
  }

  /** How much a section moves out of the hands of threads. */
  function Released(op: Op): int {
    match op
    case Reject => 1
    case Settle(_) => 1
    case Drop(_) => 1
    case Complete(_, _) => 1
    case Put(_, _) => 1
    case Pop(_) => -1
    case Receive => -1
    case _ => 0
  }

  lemma PerformReleases(sh: Shared, op: Op)
    requires Applicable(sh, op)
    ensures var sh' := Perform(sh, op);
            Settled(sh') + Depth(sh') - sh'.received == Settled(sh) + Depth(sh) - sh.received + Released(op)
  {
    if OnLanes(op) {
      SumByUpdate(sh.lanes, QueueLength, op.lane, PerformOnLane(sh.lanes[op.lane], op));
    }
  }

  lemma SubmitterTurnBalances(c: Config, sh: Shared, pc: Submitter, ok: bool)
    requires WellFormed(c) && |sh.lanes| == |c.capacity| && !pc.Idle?
    ensures var (op, pc') := SubmitterTurn(c, sh, pc, ok); InProgress(pc') == InProgress(pc) - Released(op)
  {
  }

  lemma StepConserves(c: Config, s: System, a: Action)
    requires Can(c, s, a) && Conserved(s)
    ensures Conserved(Apply(c, s, a))
  {
    hide SumBy;
    PerformReleases(s.shared, OpOf(c, s, a));
    match a
    case Submit(t, _, _) => SumByUpdate(s.subs, InProgress, t, Apply(c, s, a).subs[t]);
    case Proceed(t, ok) =>
      SubmitterTurnBalances(c, s.shared, s.subs[t], ok);
      SumByUpdate(s.subs, InProgress, t, Apply(c, s, a).subs[t]);
    case Work(l, _) => SumByUpdate(s.workers, InHand, l, Apply(c, s, a).workers[l]);
    case Close(_) =>
  }

  // ----- the lanes' own counters -----

  ghost predicate LaneTotals(c: Config, sh: Shared) {
    && sh.dropped == SumBy(sh.lanes, LaneDropped)
    && (c.enabled ==> sh.processed == SumBy(sh.lanes, LaneProcessed) && sh.failed == SumBy(sh.lanes, LaneFailed))
  }

  lemma PerformKeepsLaneTotals(c: Config, sh: Shared, op: Op)
    requires Applicable(sh, op) && LaneTotals(c, sh) && (op.Settle? ==> !c.enabled)
    ensures LaneTotals(c, Perform(sh, op))
  {
    if OnLanes(op) {
      var lane := PerformOnLane(sh.lanes[op.lane], op);
      SumByUpdate(sh.lanes, LaneDropped, op.lane, lane);
      SumByUpdate(sh.lanes, LaneProcessed, op.lane, lane);
      SumByUpdate(sh.lanes, LaneFailed, op.lane, lane);
    }
  }

  // ----- bounds -----

  ghost predicate Bounded(c: Config, sh: Shared)
    requires |sh.lanes| == |c.capacity|
  {
    forall l :: 0 <= l < |sh.lanes| ==> |sh.lanes[l].queue| <= c.capacity[l]
  }

  lemma StepKeepsBounded(c: Config, s: System, a: Action)
    requires Can(c, s, a) && Bounded(c, s.shared)
    ensures Shape(c, Apply(c, s, a)) && Bounded(c, Apply(c, s, a).shared)
  {
    var op := OpOf(c, s, a);
    assert op.Put? ==> HasRoom(c, s.shared, op.lane);
  }

  // ----- a disabled pool -----

  /** A disabled pool has no workers and never touches a lane; an enabled one never works inline. */
  ghost predicate Mode(c: Config, s: System) {
    if c.enabled then forall t :: 0 <= t < |s.subs| ==> !s.subs[t].Inline?
    else
      && s.enqueued == []
      && (forall t :: 0 <= t < |s.subs| ==>
            s.subs[t].Idle? || s.subs[t].Received? || s.subs[t].Routing? || s.subs[t].Inline?)
      && (forall l :: 0 <= l < |s.workers| ==> s.workers[l].Exited?)
      && (forall l :: 0 <= l < |s.shared.lanes| ==> s.shared.lanes[l].queue == [])
  }

  lemma StepKeepsMode(c: Config, s: System, a: Action)
    requires Can(c, s, a) && Mode(c, s)
    ensures Mode(c, Apply(c, s, a)) && (OpOf(c, s, a).Settle? ==> !c.enabled)
  {
  }

  // ----- unfinished tasks -----

  ghost predicate UnfinishedAt(c: Config, s: System, l: nat)
    requires Shape(c, s) && l < |s.workers|
  {
    s.shared.lanes[l].unfinished ==
    |s.shared.lanes[l].queue| + Holding(s.workers[l]) + SumBy(s.subs, OwesTaskDone(c, l))
  }

  /** Tasks a section adds to lane `l` without queueing them, or takes off its books. */
  function Owed(op: Op, l: nat): int {
    if op.Pop? && op.lane == l then 1 else if op.Done? && op.lane == l then -1 else 0
  }

  lemma PerformUnfinished(sh: Shared, op: Op, l: nat)
    requires Applicable(sh, op) && l < |sh.lanes|
    ensures var lane, lane' := sh.lanes[l], Perform(sh, op).lanes[l];
            lane'.unfinished - |lane'.queue| == lane.unfinished - |lane.queue| + Owed(op, l)
  {
  }

  lemma SubmitterTurnOwes(c: Config, sh: Shared, pc: Submitter, ok: bool, l: nat)
    requires WellFormed(c) && |sh.lanes| == |c.capacity| && !pc.Idle?
    ensures var (op, pc') := SubmitterTurn(c, sh, pc, ok);
            OwesTaskDone(c, l)(pc') == OwesTaskDone(c, l)(pc) + Owed(op, l)
  {
  }

  lemma StepKeepsUnfinishedAt(c: Config, s: System, a: Action, l: nat)
    requires Can(c, s, a) && l < |s.workers| && UnfinishedAt(c, s, l)
    ensures Shape(c, Apply(c, s, a)) && UnfinishedAt(c, Apply(c, s, a), l)
  {
    hide SumBy;
    PerformUnfinished(s.shared, OpOf(c, s, a), l);
    match a
    case Submit(t, _, _) => SumByUpdate(s.subs, OwesTaskDone(c, l), t, Apply(c, s, a).subs[t]);
    case Proceed(t, ok) =>
      SubmitterTurnOwes(c, s.shared, s.subs[t], ok, l);
      SumByUpdate(s.subs, OwesTaskDone(c, l), t, Apply(c, s, a).subs[t]);
    case _ =>
  }

  // ----- every job is on its own lane -----

  ghost predicate RoutedAt(c: Config, s: System, l: nat)
    requires Shape(c, s) && l < |s.workers|
  {
    && (forall i :: 0 <= i < |s.shared.lanes[l].queue| ==> c.route(s.shared.lanes[l].queue[i].key) == l)
    && (Holding(s.workers[l]) == 1 ==> c.route(s.workers[l].job.key) == l)
  }

  lemma StepKeepsRoutedAt(c: Config, s: System, a: Action, l: nat)
    requires Can(c, s, a) && l < |s.workers| && RoutedAt(c, s, l)
    ensures Shape(c, Apply(c, s, a)) && RoutedAt(c, Apply(c, s, a), l)
  {
    var op := OpOf(c, s, a);
    PerformOnQueue(s.shared, op, l);
    assert op.Put? ==> c.route(op.job.key) == op.lane;
    hide Perform;
  }

  // ----- order -----

  /** Started jobs, then queued ones, are the lane's enqueue log with some jobs deleted. */
  ghost predicate LaneOrder(c: Config, l: nat, started: seq<Job>, queue: seq<Job>, enqueued: seq<Job>) {
    Subseq(Filter(started, OnLane(c, l)) + queue, Filter(enqueued, OnLane(c, l)))
  }

  ghost predicate OrderedAt(c: Config, s: System, l: nat)
    requires Shape(c, s) && l < |s.workers|
  {
    LaneOrder(c, l, s.started, s.shared.lanes[l].queue, s.enqueued)
  }

  lemma PutKeepsLaneOrder(c: Config, l: nat, started: seq<Job>, queue: seq<Job>, enqueued: seq<Job>, job: Job)
    requires LaneOrder(c, l, started, queue, enqueued)
    ensures LaneOrder(c, l, started, if c.route(job.key) == l then queue + [job] else queue, enqueued + [job])
  {
    FilterSnoc(enqueued, job, OnLane(c, l));
    if c.route(job.key) == l {
      var done := Filter(started, OnLane(c, l));
      SubseqSnoc(done + queue, Filter(enqueued, OnLane(c, l)), job);
      assert done + (queue + [job]) == (done + queue) + [job];
    }
  }

  lemma TakeKeepsLaneOrder(c: Config, l: nat, started: seq<Job>, queue: seq<Job>, enqueued: seq<Job>, job: Job)
    requires LaneOrder(c, l, started, queue, enqueued)
    requires c.route(job.key) == l ==> queue != [] && job == queue[0]
    ensures LaneOrder(c, l, started + [job], if c.route(job.key) == l then queue[1..] else queue, enqueued)
  {
    FilterSnoc(started, job, OnLane(c, l));
    if c.route(job.key) == l {
      var done := Filter(started, OnLane(c, l));
      assert (done + [job]) + queue[1..] == done + queue;
    }
  }

  lemma EvictKeepsLaneOrder(c: Config, l: nat, started: seq<Job>, queue: seq<Job>, enqueued: seq<Job>)
    requires LaneOrder(c, l, started, queue, enqueued) && queue != []
    ensures LaneOrder(c, l, started, queue[1..], enqueued)
  {
    var done := Filter(started, OnLane(c, l));
    assert done + queue == done + [queue[0]] + queue[1..];
    SubseqDrop(done, queue[0], queue[1..], Filter(enqueued, OnLane(c, l)));
  }

  lemma PerformOnQueue(sh: Shared, op: Op, l: nat)
    requires Applicable(sh, op) && l < |sh.lanes|
    ensures var q, q' := sh.lanes[l].queue, Perform(sh, op).lanes[l].queue;
            if op.Put? && op.lane == l then q' == q + [op.job]
            else if op.Pop? && op.lane == l then q != [] && q' == q[1..]
            else q' == q
  {
  }

  lemma SubmitterKeepsOrderedAt(c: Config, s: System, a: Action, l: nat)
    requires Can(c, s, a) && a.Proceed? && l < |s.workers| && OrderedAt(c, s, l)
    ensures Shape(c, Apply(c, s, a)) && OrderedAt(c, Apply(c, s, a), l)
  {
    var op := OpOf(c, s, a);
    var queue := s.shared.lanes[l].queue;
    PerformOnQueue(s.shared, op, l);
    if op.Put? {
      assert c.route(op.job.key) == op.lane;
      PutKeepsLaneOrder(c, l, s.started, queue, s.enqueued, op.job);
    } else {
      assert s.enqueued + PutsOf(op) == s.enqueued;
      if op.Pop? && op.lane == l { EvictKeepsLaneOrder(c, l, s.started, queue, s.enqueued); }
    }
  }

  lemma WorkerKeepsOrderedAt(c: Config, s: System, a: Action, l: nat)
    requires Can(c, s, a) && a.Work? && l < |s.workers| && OrderedAt(c, s, l) && RoutedAt(c, s, a.lane)
    ensures Shape(c, Apply(c, s, a)) && OrderedAt(c, Apply(c, s, a), l)
  {
    var op := OpOf(c, s, a);
    PerformOnQueue(s.shared, op, l);
    if op.Pop? {
      var job := s.shared.lanes[a.lane].queue[0];
      assert c.route(job.key) == a.lane;
      TakeKeepsLaneOrder(c, l, s.started, s.shared.lanes[l].queue, s.enqueued, job);
    } else {
      assert s.started + [] == s.started;
    }
  }

  lemma OthersKeepOrderedAt(c: Config, s: System, a: Action, l: nat)
    requires Can(c, s, a) && (a.Submit? || a.Close?) && l < |s.workers| && OrderedAt(c, s, l)
    ensures Shape(c, Apply(c, s, a)) && OrderedAt(c, Apply(c, s, a), l)
  {
    PerformOnQueue(s.shared, OpOf(c, s, a), l);
    var s' := Apply(c, s, a);
    assert s'.started == s.started && s'.enqueued == s.enqueued;
    assert s'.shared.lanes[l].queue == s.shared.lanes[l].queue;
  }

  // ----- tickets -----

  ghost predicate TicketsOfThreads(s: System) {
    && (forall t :: 0 <= t < |s.subs| && !s.subs[t].Idle? ==> s.subs[t].job.id < s.shared.received)
    && (forall t, u :: 0 <= t < u < |s.subs| && !s.subs[t].Idle? && !s.subs[u].Idle? ==>
          s.subs[t].job.id != s.subs[u].job.id)
  }

  ghost predicate TicketsOfJobs(s: System) {
    && (forall i :: 0 <= i < |s.enqueued| ==> s.enqueued[i].id < s.shared.received)
    && (forall t, i :: 0 <= t < |s.subs| && 0 <= i < |s.enqueued| && !s.subs[t].Idle? ==>
          s.subs[t].job.id != s.enqueued[i].id)
  }

  /** A thread keeps its job, or gives it away. */
  lemma ThreadKeepsItsJob(c: Config, s: System, a: Action)
    requires Can(c, s, a) && a.Proceed?
    ensures var pc, pc' := s.subs[a.thread], Apply(c, s, a).subs[a.thread];
            && (pc'.Idle? || pc'.job == pc.job)
            && (OpOf(c, s, a).Put? ==> pc'.Idle? && OpOf(c, s, a).job == pc.job)
            && Apply(c, s, a).shared.received == s.shared.received
  {
  }

  lemma StepKeepsTicketsOfThreads(c: Config, s: System, a: Action)
    requires Can(c, s, a) && TicketsOfThreads(s)
    ensures TicketsOfThreads(Apply(c, s, a))
  {
    if a.Proceed? { ThreadKeepsItsJob(c, s, a); }
  }

  lemma StepKeepsTicketsOfJobs(c: Config, s: System, a: Action)
    requires Can(c, s, a) && TicketsOfThreads(s) && TicketsOfJobs(s) && Distinct(s.enqueued)
    ensures TicketsOfJobs(Apply(c, s, a)) && Distinct(Apply(c, s, a).enqueued)
  {
    if a.Proceed? { ThreadKeepsItsJob(c, s, a); }
  }

  // ----- shutdown -----

  ghost predicate Drained(s: System) {
    forall l :: 0 <= l < |s.shared.lanes| ==> s.shared.lanes[l].unfinished == 0
  }

  ghost predicate Gate(s: System) {
    && s.shared.accepting == s.closer.Open?
    && s.shared.stop == s.closer.Closed?
    && (!s.closer.Open? && s.quiet ==>
          forall t :: 0 <= t < |s.subs| ==> s.subs[t].Idle? || (s.subs[t].Received? && !s.subs[t].accepting))
  }

  /** What closing guarantees when nobody was inside submit as it began. */
  ghost predicate Shutdown(c: Config, s: System)
    requires Shape(c, s)
  {
    && Gate(s)
    && (s.closer.Scanning? && s.quiet ==>
          forall l :: 0 <= l < s.closer.lane ==> s.shared.lanes[l].unfinished == 0)
    && ((s.closer.Stopping? || s.closer.Closed?) && s.closer.drained && s.quiet ==> Drained(s))
  }

  lemma StepKeepsGate(c: Config, s: System, a: Action)
    requires Can(c, s, a) && Gate(s)
    ensures Gate(Apply(c, s, a))
  {
  }

  ghost predicate Unfinished(c: Config, s: System)
    requires Shape(c, s)
  {
    forall l :: 0 <= l < |s.workers| ==> UnfinishedAt(c, s, l)
  }

  lemma StepKeepsShutdown(c: Config, s: System, a: Action)
    requires Can(c, s, a) && Shutdown(c, s) && Unfinished(c, s)
    ensures Shape(c, Apply(c, s, a)) && Shutdown(c, Apply(c, s, a))
  {
    StepKeepsGate(c, s, a);
    if a.Work? {
      assert UnfinishedAt(c, s, a.lane);
    }
  }

  ghost predicate ExitedEmpty(c: Config, s: System)
    requires Shape(c, s)
  {
    && (c.enabled ==>
          forall l :: 0 <= l < |s.workers| && (s.workers[l].Exited? || s.workers[l].Checking?) ==> s.shared.stop)
    && (s.quiet ==> forall l :: 0 <= l < |s.workers| && s.workers[l].Exited? ==> s.shared.lanes[l].queue == [])
  }

  lemma StepKeepsExitedEmpty(c: Config, s: System, a: Action)
    requires Can(c, s, a) && ExitedEmpty(c, s) && Shutdown(c, s) && Mode(c, s)
    ensures Shape(c, Apply(c, s, a)) && ExitedEmpty(c, Apply(c, s, a))
  {
  }

  // ----- the invariant over every run -----

  ghost predicate Books(c: Config, s: System) {
    && Shape(c, s) && Mode(c, s)
    && Conserved(s) && LaneTotals(c, s.shared) && Bounded(c, s.shared)
    && TicketsOfThreads(s) && TicketsOfJobs(s) && Distinct(s.enqueued)
  }

  ghost predicate Lanes(c: Config, s: System)
    requires Shape(c, s)
  {
    && (forall l :: 0 <= l < |s.workers| ==> UnfinishedAt(c, s, l))
    && (forall l :: 0 <= l < |s.workers| ==> RoutedAt(c, s, l))
    && (forall l :: 0 <= l < |s.workers| ==> OrderedAt(c, s, l))
  }

  ghost predicate Inv(c: Config, s: System) {
    Books(c, s) && Lanes(c, s) && Shutdown(c, s) && ExitedEmpty(c, s)
  }

  lemma StepKeepsBooks(c: Config, s: System, a: Action)
    requires Books(c, s) && Can(c, s, a)
    ensures Books(c, Apply(c, s, a))
  {
    StepKeepsMode(c, s, a);
    StepConserves(c, s, a);
    PerformKeepsLaneTotals(c, s.shared, OpOf(c, s, a));
    StepKeepsBounded(c, s, a);
    StepKeepsTicketsOfThreads(c, s, a);
    StepKeepsTicketsOfJobs(c, s, a);
  }

  lemma StepKeepsLanes(c: Config, s: System, a: Action)
    requires Shape(c, s) && Lanes(c, s) && Can(c, s, a)
    ensures Shape(c, Apply(c, s, a)) && Lanes(c, Apply(c, s, a))
  {
    var s' := Apply(c, s, a);
    assert |s'.workers| == |s.workers|;
    forall l | 0 <= l < |s'.workers|
      ensures Shape(c, s') && UnfinishedAt(c, s', l) && RoutedAt(c, s', l) && OrderedAt(c, s', l)
    {
      StepKeepsUnfinishedAt(c, s, a, l);
      StepKeepsRoutedAt(c, s, a, l);
      match a
      case Proceed(_, _) => SubmitterKeepsOrderedAt(c, s, a, l);
      case Work(_, _) => WorkerKeepsOrderedAt(c, s, a, l);
      case _ => OthersKeepOrderedAt(c, s, a, l);
    }
  }

  lemma {:induction false} RunKeepsInv(c: Config, s: System, run: seq<Action>)
    requires Inv(c, s) && Legal(c, s, run)
    ensures Inv(c, After(c, s, run))
    decreases |run|
  {
    if run != [] {
      StepKeepsBooks(c, s, run[0]);
      StepKeepsLanes(c, s, run[0]);
      StepKeepsShutdown(c, s, run[0]);
      StepKeepsExitedEmpty(c, s, run[0]);
      RunKeepsInv(c, Apply(c, s, run[0]), run[1..]);
    }
  }

  lemma InitInv(c: Config, threads: nat)
    requires WellFormed(c)
    ensures Inv(c, Init(c, threads))
  {
    var s := Init(c, threads);
    SumByZero(s.shared.lanes, QueueLength);
    SumByZero(s.shared.lanes, LaneDropped);
    SumByZero(s.shared.lanes, LaneProcessed);
    SumByZero(s.shared.lanes, LaneFailed);
    SumByZero(s.workers, InHand);
    SumByZero(s.subs, InProgress);
    forall l | 0 <= l < |s.workers| ensures UnfinishedAt(c, s, l) {
      SumByZero(s.subs, OwesTaskDone(c, l));
    }
  }

  lemma ReachableInv(c: Config, s: System)
    requires Reachable(c, s)
    ensures Inv(c, s)
  {
    var threads: nat, run :| Legal(c, Init(c, threads), run) && After(c, Init(c, threads), run) == s;
    InitInv(c, threads);
    RunKeepsInv(c, Init(c, threads), run);
  }

  // ----- main results -----

  /** Job conservation, at every moment of every interleaving. */
  lemma JobsAreConserved(c: Config, s: System)
    requires Reachable(c, s)
    ensures s.shared.received ==
            s.shared.processed + s.shared.failed + s.shared.dropped + s.shared.rejected
            + SumBy(s.shared.lanes, QueueLength) + SumBy(s.workers, InHand) + SumBy(s.subs, InProgress)
    ensures s.shared.dropped == SumBy(s.shared.lanes, LaneDropped)
    ensures c.enabled ==> s.shared.processed == SumBy(s.shared.lanes, LaneProcessed)
                          && s.shared.failed == SumBy(s.shared.lanes, LaneFailed)
  {
    ReachableInv(c, s);
  }

  /** The jobs of one flow start in their enqueue order, and each at most once. */
  lemma FlowsStayOrdered(c: Config, s: System, key: string)
    requires Reachable(c, s)
    ensures Subseq(Filter(s.started, OfKey(key)), Filter(s.enqueued, OfKey(key)))
    ensures Distinct(s.enqueued) && Distinct(Filter(s.started, OfKey(key)))
  {
    ReachableInv(c, s);
    var lane := OnLane(c, c.route(key));
    var started, enqueued := Filter(s.started, lane), Filter(s.enqueued, lane);
    assert OrderedAt(c, s, c.route(key));
    SubseqPrefix(started, s.shared.lanes[c.route(key)].queue, enqueued);
    SubseqFilter(started, enqueued, OfKey(key));
    LaneThenKey(c, s.started, key);
    LaneThenKey(c, s.enqueued, key);
    FilterIsSubseq(s.enqueued, OfKey(key));
    SubseqDistinct(Filter(s.enqueued, OfKey(key)), s.enqueued);
    SubseqDistinct(Filter(s.started, OfKey(key)), Filter(s.enqueued, OfKey(key)));
  }

  /** Two workers never hold jobs of the same flow. */
  lemma OneWorkerPerFlow(c: Config, s: System, l: nat, m: nat)
    requires Reachable(c, s) && l < m < |s.workers|
    requires (s.workers[l].Busy? || s.workers[l].Counted?) && (s.workers[m].Busy? || s.workers[m].Counted?)
    ensures s.workers[l].job.key != s.workers[m].job.key
  {
    ReachableInv(c, s);
    assert RoutedAt(c, s, l) && RoutedAt(c, s, m);
  }

  /** Per lane: started, then queued, is what was enqueued with the evicted jobs deleted. */
  lemma LanesStayOrdered(c: Config, s: System, l: nat)
    requires Reachable(c, s) && l < |s.shared.lanes|
    ensures Subseq(Filter(s.started, OnLane(c, l)) + s.shared.lanes[l].queue, Filter(s.enqueued, OnLane(c, l)))
    ensures forall i :: 0 <= i < |s.shared.lanes[l].queue| ==> c.route(s.shared.lanes[l].queue[i].key) == l
  {
    ReachableInv(c, s);
    assert OrderedAt(c, s, l) && RoutedAt(c, s, l);
  }

  lemma {:induction false} LaneThenKey(c: Config, s: seq<Job>, key: string)
    ensures Filter(Filter(s, OnLane(c, c.route(key))), OfKey(key)) == Filter(s, OfKey(key))
  {
    if s != [] {
      var s', x := s[..|s| - 1], s[|s| - 1];
      assert s == s' + [x];
      LaneThenKey(c, s', key);
      FilterSnoc(s', x, OnLane(c, c.route(key)));
      FilterSnoc(s', x, OfKey(key));
      FilterSnoc(Filter(s', OnLane(c, c.route(key))), x, OfKey(key));
    }
  }

  lemma {:induction false} FilterIsSubseq<T>(s: seq<T>, keep: T -> bool)
    ensures Subseq(Filter(s, keep), s)
  {
    if s != [] {
      var s', x := s[..|s| - 1], s[|s| - 1];
      assert s == s' + [x];
      FilterIsSubseq(s', keep);
      FilterSnoc(s', x, keep);
      SubseqSnoc(Filter(s', keep), s', x);
    }
  }

  function Itself(n: nat): nat { n }

  lemma {:induction false} DepthWithin(lanes: seq<Lane>, capacity: seq<nat>)
    requires |lanes| == |capacity|
    requires forall l :: 0 <= l < |lanes| ==> |lanes[l].queue| <= capacity[l]
    ensures SumBy(lanes, QueueLength) <= SumBy(capacity, Itself)
  {
    if lanes != [] { DepthWithin(lanes[..|lanes| - 1], capacity[..|capacity| - 1]); }
  }

  lemma {:induction false} ShareOut(base: nat, extra: nat, n: nat)
    ensures SumBy(Shares(base, extra, n), Itself) == n * base + if n < extra then n else extra
  {
    if n > 0 {
      ShareOut(base, extra, n - 1);
      assert Shares(base, extra, n)[..n - 1] == Shares(base, extra, n - 1);
      assert (n - 1) * base + base == n * base;
    }
  }

  /** Lane capacities are each at least one and share out the configured total exactly. */
  lemma CapacitiesShareTheTotal(total: nat, workers: nat)
    requires 1 <= workers <= total
    ensures |LaneCapacities(total, workers)| == workers
    ensures forall l :: 0 <= l < workers ==> LaneCapacities(total, workers)[l] >= 1
    ensures SumBy(LaneCapacities(total, workers), Itself) == total
  {
    ShareOut(total / workers, total % workers, workers);
    assert total / workers >= 1;
  }

  /** So the queue depth over all lanes never exceeds `queue_max_total`. */
  lemma DepthNeverExceedsTotal(c: Config, s: System, total: nat, workers: nat)
    requires Reachable(c, s) && 1 <= workers <= total && c.capacity == LaneCapacities(total, workers)
    ensures SumBy(s.shared.lanes, QueueLength) <= total
  {
    ReachableInv(c, s);
    DepthWithin(s.shared.lanes, c.capacity);
    CapacitiesShareTheTotal(total, workers);
  }

  /** When no submit was in flight as close began, a true answer means the pool is empty,
      every accepted job is accounted for, and it stays so in every later state. */
  lemma CloseTrueMeansDone(c: Config, s: System)
    requires Reachable(c, s) && s.quiet
    requires (s.closer.Stopping? || s.closer.Closed?) && s.closer.drained
    ensures forall l :: 0 <= l < |s.shared.lanes| ==> s.shared.lanes[l].queue == []
    ensures forall l :: 0 <= l < |s.workers| ==> !s.workers[l].Busy?
    ensures forall t :: 0 <= t < |s.subs| ==> s.subs[t].Idle? || (s.subs[t].Received? && !s.subs[t].accepting)
    ensures s.shared.received == s.shared.processed + s.shared.failed + s.shared.dropped + s.shared.rejected
                                 + SumBy(s.subs, InProgress)
  {
    ReachableInv(c, s);
    assert Drained(s);
    forall l | 0 <= l < |s.workers|
      ensures s.shared.lanes[l].queue == [] && !s.workers[l].Busy?
    {
      assert UnfinishedAt(c, s, l);
    }
    SumByZero(s.shared.lanes, QueueLength);
    SumByZero(s.workers, InHand);
  }

  /** Nor is a job left in the lane of a worker that has gone. */
  lemma NoJobOutlivesItsWorker(c: Config, s: System, l: nat)
    requires Reachable(c, s) && s.quiet && l < |s.workers| && s.workers[l].Exited?
    ensures l < |s.shared.lanes|
    ensures s.shared.lanes[l].queue == []
  {
    ReachableInv(c, s);
  }
}
