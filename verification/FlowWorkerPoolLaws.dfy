/** What one undisturbed submit, and one job processed by its worker, leave in the pool of the step system. */
module FlowWorkerPoolLaws {
  import opened FlowWorkerPool
  import opened FlowWorkerPoolClose

  /** The whole pool after a submit that nobody disturbs. */
  function Submitted(c: Config, sh: Shared, l: nat, job: Job, complete: bool, ok: bool): Shared
    requires l < |sh.lanes| && l < |c.capacity| && c.capacity[l] >= 1
  {
    var lane, received := sh.lanes[l], sh.(received := sh.received + 1);
    if !sh.accepting then received.(rejected := sh.rejected + 1)
    else
      var noted := received.(unknown := sh.unknown + if complete then 0 else 1);
      if !c.enabled then
        if ok then noted.(processed := sh.processed + 1) else noted.(failed := sh.failed + 1)
      else if |lane.queue| < c.capacity[l] then
        noted.(lanes := sh.lanes[l := lane.(queue := lane.queue + [job], unfinished := lane.unfinished + 1)])
      else
        match c.policy
        case DropOldest =>
          noted.(dropped := sh.dropped + 1,
                 lanes := sh.lanes[l := lane.(queue := lane.queue[1..] + [job], dropped := lane.dropped + 1)])
        case DropNewest =>
          noted.(dropped := sh.dropped + 1, lanes := sh.lanes[l := lane.(dropped := lane.dropped + 1)])
        case RejectNew => noted.(rejected := sh.rejected + 1)
        case BlockShort => noted.(rejected := sh.rejected + 1)
  }

  /** The run leads from `s` to thread `t` being idle with this pool, and leaves everybody else alone. */
  ghost predicate Leads(c: Config, s: System, run: seq<Action>, t: nat, shared: Shared) {
    && Legal(c, s, run)
    && var s' := After(c, s, run);
       && t < |s.subs| && s'.shared == shared && s'.subs == s.subs[t := Idle]
       && s'.workers == s.workers && s'.closer == s.closer && s'.started == s.started
  }

  lemma StepAlone(c: Config, s: System, t: nat, ok: bool, run: seq<Action>, shared: Shared)
    requires Can(c, s, Proceed(t, ok)) && Leads(c, Apply(c, s, Proceed(t, ok)), run, t, shared)
    ensures Leads(c, s, [Proceed(t, ok)] + run, t, shared)
  {
    Prepend(c, s, Proceed(t, ok), run);
    assert Apply(c, s, Proceed(t, ok)).subs[t := Idle] == s.subs[t := Idle];
  }

  lemma Arrived(c: Config, s: System, t: nat)
    requires t < |s.subs| && s.subs[t] == Idle
    ensures Leads(c, s, [], t, s.shared)
  {
    assert s.subs[t := Idle] == s.subs;
  }

  // ----- one step at a time -----

  /** One step of thread `t` has led from `s` to `s'`. */
  ghost predicate Moves(c: Config, s: System, s': System, t: nat, pc: Submitter, shared: Shared) {
    && Shape(c, s') && t < |s.subs| && s'.subs == s.subs[t := pc] && s'.shared == shared
    && s'.workers == s.workers && s'.closer == s.closer && s'.started == s.started
  }

  lemma MovesThenLeads(c: Config, s: System, s': System, t: nat, ok: bool, pc: Submitter, shared: Shared,
                       run: seq<Action>, end: Shared)
    requires Can(c, s, Proceed(t, ok)) && s' == Apply(c, s, Proceed(t, ok))
    requires Moves(c, s, s', t, pc, shared) && Leads(c, s', run, t, end)
    ensures Leads(c, s, [Proceed(t, ok)] + run, t, end)
  {
    hide Apply, Legal, After;
    StepAlone(c, s, t, ok, run, end);
  }

  lemma GateTurn(c: Config, s: System, t: nat, ok: bool) returns (s': System)
    requires Shape(c, s) && t < |s.subs| && s.subs[t].Received?
    ensures Can(c, s, Proceed(t, ok)) && s' == Apply(c, s, Proceed(t, ok))
    ensures var pc := s.subs[t];
            if pc.accepting
            then Moves(c, s, s', t, Routing(pc.job),
                       s.shared.(unknown := s.shared.unknown + if pc.complete then 0 else 1))
            else Moves(c, s, s', t, Idle, s.shared.(rejected := s.shared.rejected + 1))
  {
    s' := Apply(c, s, Proceed(t, ok));
  }

  lemma RouteTurn(c: Config, s: System, t: nat, ok: bool) returns (s': System)
    requires Shape(c, s) && t < |s.subs| && s.subs[t].Routing?
    ensures Can(c, s, Proceed(t, ok)) && s' == Apply(c, s, Proceed(t, ok))
    ensures Moves(c, s, s', t, if c.enabled then Putting(s.subs[t].job) else Inline(s.subs[t].job), s.shared)
  {
    s' := Apply(c, s, Proceed(t, ok));
  }

  lemma InlineTurn(c: Config, s: System, t: nat, ok: bool) returns (s': System)
    requires Shape(c, s) && t < |s.subs| && s.subs[t].Inline?
    ensures Can(c, s, Proceed(t, ok)) && s' == Apply(c, s, Proceed(t, ok))
    ensures Moves(c, s, s', t, Idle, if ok then s.shared.(processed := s.shared.processed + 1)
                                     else s.shared.(failed := s.shared.failed + 1))
  {
    s' := Apply(c, s, Proceed(t, ok));
  }

  /** A put, the first or the second one. */
  lemma PutTurn(c: Config, s: System, t: nat, ok: bool) returns (s': System)
    requires Shape(c, s) && t < |s.subs| && (s.subs[t].Putting? || s.subs[t].Retrying?)
    ensures Can(c, s, Proceed(t, ok)) && s' == Apply(c, s, Proceed(t, ok))
    ensures var pc, l := s.subs[t], c.route(s.subs[t].job.key);
            var lane := s.shared.lanes[l];
            if |lane.queue| < c.capacity[l]
            then Moves(c, s, s', t, Idle, s.shared.(lanes := s.shared.lanes[l := lane.(queue := lane.queue + [pc.job],
                                                                                       unfinished := lane.unfinished
                                                                                             + 1)]))
            else Moves(c, s, s', t, if pc.Putting? then Full(pc.job) else Discarding(pc.job), s.shared)
  {
    s' := Apply(c, s, Proceed(t, ok));
  }

  lemma FullTurn(c: Config, s: System, t: nat, ok: bool) returns (s': System)
    requires Shape(c, s) && t < |s.subs| && s.subs[t].Full?
    ensures Can(c, s, Proceed(t, ok)) && s' == Apply(c, s, Proceed(t, ok))
    ensures var job, l := s.subs[t].job, c.route(s.subs[t].job.key);
            var lane := s.shared.lanes[l];
            match c.policy
            case DropOldest =>
              lane.queue != [] ==>
                Moves(c, s, s', t, Evicted(job),
                      s.shared.(lanes := s.shared.lanes[l := lane.(queue := lane.queue[1..])]))
            case DropNewest =>
              Moves(c, s, s', t, Idle, s.shared.(dropped := s.shared.dropped + 1,
                                                 lanes := s.shared.lanes[l := lane.(dropped := lane.dropped + 1)]))
            case _ => Moves(c, s, s', t, Idle, s.shared.(rejected := s.shared.rejected + 1))
  {
    s' := Apply(c, s, Proceed(t, ok));
  }

  lemma EvictedTurn(c: Config, s: System, t: nat, ok: bool) returns (s': System)
    requires Shape(c, s) && t < |s.subs| && s.subs[t].Evicted?
    ensures Can(c, s, Proceed(t, ok)) && s' == Apply(c, s, Proceed(t, ok))
    ensures var job, l := s.subs[t].job, c.route(s.subs[t].job.key);
            var lane := s.shared.lanes[l];
            Moves(c, s, s', t, Uncounted(job),
                  s.shared.(lanes := s.shared.lanes[l := lane.(unfinished := lane.unfinished - 1)]))
  {
    s' := Apply(c, s, Proceed(t, ok));
  }

  lemma UncountedTurn(c: Config, s: System, t: nat, ok: bool) returns (s': System)
    requires Shape(c, s) && t < |s.subs| && s.subs[t].Uncounted?
    ensures Can(c, s, Proceed(t, ok)) && s' == Apply(c, s, Proceed(t, ok))
    ensures var job, l := s.subs[t].job, c.route(s.subs[t].job.key);
            var lane := s.shared.lanes[l];
            Moves(c, s, s', t, Retrying(job), s.shared.(dropped := s.shared.dropped + 1,
                                                        lanes := s.shared.lanes[l := lane.(dropped := lane.dropped
                                                              + 1)]))
  {
    s' := Apply(c, s, Proceed(t, ok));
  }

  // ----- whole submits -----

  /** What overflow leaves of the pool. */
  function Overflowed(c: Config, sh: Shared, l: nat, job: Job): Shared
    requires l < |sh.lanes| && sh.lanes[l].queue != []
  {
    var lane := sh.lanes[l];
    match c.policy
    case DropOldest =>
      sh.(dropped := sh.dropped + 1,
          lanes := sh.lanes[l := lane.(queue := lane.queue[1..] + [job], dropped := lane.dropped + 1)])
    case DropNewest => sh.(dropped := sh.dropped + 1, lanes := sh.lanes[l := lane.(dropped := lane.dropped + 1)])
    case _ => sh.(rejected := sh.rejected + 1)
  }

  /** The lane is full: the overflow policy, step by step. */
  lemma OverflowAlone(c: Config, s: System, t: nat, ok: bool) returns (run: seq<Action>)
    requires Shape(c, s) && t < |s.subs| && s.subs[t].Full?
    requires var l := c.route(s.subs[t].job.key); |s.shared.lanes[l].queue| == c.capacity[l]
    ensures Leads(c, s, run, t, Overflowed(c, s.shared, c.route(s.subs[t].job.key), s.subs[t].job))
  {
    hide Apply, Leads;
    var l, job, a := c.route(s.subs[t].job.key), s.subs[t].job, Proceed(t, ok);
    var s1 := FullTurn(c, s, t, ok);
    if c.policy.DropOldest? {
      var s2 := EvictedTurn(c, s1, t, ok);
      var s3 := UncountedTurn(c, s2, t, ok);
      var s4 := PutTurn(c, s3, t, ok);
      var end := s4.shared;
      assert end.lanes[l] == Overflowed(c, s.shared, l, job).lanes[l];
      assert end == Overflowed(c, s.shared, l, job);
      Arrived(c, s4, t);
      MovesThenLeads(c, s3, s4, t, ok, Idle, end, [], end);
      MovesThenLeads(c, s2, s3, t, ok, Retrying(job), s3.shared, [a] + [], end);
      MovesThenLeads(c, s1, s2, t, ok, Uncounted(job), s2.shared, [a] + ([a] + []), end);
      MovesThenLeads(c, s, s1, t, ok, Evicted(job), s1.shared, [a] + ([a] + ([a] + [])), end);
      run := [a] + ([a] + ([a] + ([a] + [])));
    } else {
      Arrived(c, s1, t);
      MovesThenLeads(c, s, s1, t, ok, Idle, s1.shared, [], s1.shared);
      run := [a] + [];
    }
  }

  /** From the first put on. */
  lemma PutAlone(c: Config, s: System, t: nat, ok: bool) returns (run: seq<Action>)
    requires Shape(c, s) && t < |s.subs| && s.subs[t].Putting?
    requires var l := c.route(s.subs[t].job.key); |s.shared.lanes[l].queue| <= c.capacity[l]
    ensures var l, job := c.route(s.subs[t].job.key), s.subs[t].job;
            var lane := s.shared.lanes[l];
            Leads(c, s, run, t,
                  if |lane.queue| == c.capacity[l] then Overflowed(c, s.shared, l, job)
                  else s.shared.(lanes := s.shared.lanes[l := lane.(queue := lane.queue + [job],
                                                                    unfinished := lane.unfinished + 1)]))
  {
    hide Apply, Leads;
    var l, job, a := c.route(s.subs[t].job.key), s.subs[t].job, Proceed(t, ok);
    var s1 := PutTurn(c, s, t, ok);
    if |s.shared.lanes[l].queue| == c.capacity[l] {
      run := OverflowAlone(c, s1, t, ok);
      MovesThenLeads(c, s, s1, t, ok, Full(job), s1.shared, run, Overflowed(c, s.shared, l, job));
      run := [a] + run;
    } else {
      Arrived(c, s1, t);
      MovesThenLeads(c, s, s1, t, ok, Idle, s1.shared, [], s1.shared);
      run := [a] + [];
    }
  }

  /** From the gate on; `before` is the pool before the submit was counted. */
  lemma CountedAlone(c: Config, s: System, t: nat, ok: bool, before: Shared) returns (run: seq<Action>)
    requires Shape(c, s) && t < |s.subs| && s.subs[t].Received? && s.subs[t].accepting == before.accepting
    requires s.shared == before.(received := before.received + 1)
    requires var l := c.route(s.subs[t].job.key); |s.shared.lanes[l].queue| <= c.capacity[l]
    ensures Leads(c, s, run, t, Submitted(c, before, c.route(s.subs[t].job.key), s.subs[t].job, s.subs[t].complete, ok))
  {
    hide Apply, Leads;
    var l, job, a := c.route(s.subs[t].job.key), s.subs[t].job, Proceed(t, ok);
    var s1 := GateTurn(c, s, t, ok);
    if !before.accepting {
      Arrived(c, s1, t);
      MovesThenLeads(c, s, s1, t, ok, Idle, s1.shared, [], s1.shared);
      run := [a] + [];
    } else {
      var end := Submitted(c, before, l, job, s.subs[t].complete, ok);
      var s2 := RouteTurn(c, s1, t, ok);
      if c.enabled {
        run := PutAlone(c, s2, t, ok);
      } else {
        var s3 := InlineTurn(c, s2, t, ok);
        Arrived(c, s3, t);
        MovesThenLeads(c, s2, s3, t, ok, Idle, s3.shared, [], s3.shared);
        run := [a] + [];
      }
      MovesThenLeads(c, s1, s2, t, ok, if c.enabled then Putting(job) else Inline(job), s2.shared, run, end);
      MovesThenLeads(c, s, s1, t, ok, Routing(job), s1.shared, [a] + run, end);
      run := [a] + ([a] + run);
    }
  }

  lemma FirstSection(c: Config, s: System, t: nat, key: string, complete: bool) returns (s': System)
    requires Can(c, s, Submit(t, key, complete))
    ensures s' == Apply(c, s, Submit(t, key, complete))
    ensures Moves(c, s, s', t, Received(Job(s.shared.received, key), complete, s.shared.accepting),
                  s.shared.(received := s.shared.received + 1))
  {
    s' := Apply(c, s, Submit(t, key, complete));
  }

  lemma SubmitFirst(c: Config, s: System, t: nat, key: string, complete: bool, run: seq<Action>, shared: Shared)
    requires Can(c, s, Submit(t, key, complete)) && Leads(c, Apply(c, s, Submit(t, key, complete)), run, t, shared)
    ensures Leads(c, s, [Submit(t, key, complete)] + run, t, shared)
  {
    Prepend(c, s, Submit(t, key, complete), run);
    assert Apply(c, s, Submit(t, key, complete)).subs[t := Idle] == s.subs[t := Idle];
  }

  /** From its first lock section to its end, a submit that nobody disturbs leaves exactly this pool. */
  lemma SubmitAlone(c: Config, s: System, t: nat, key: string, complete: bool, ok: bool) returns (run: seq<Action>)
    requires Can(c, s, Submit(t, key, complete))
    requires |s.shared.lanes[c.route(key)].queue| <= c.capacity[c.route(key)]
    ensures Leads(c, s, run, t, Submitted(c, s.shared, c.route(key), Job(s.shared.received, key), complete, ok))
  {
    hide Apply, Leads, Submitted;
    var s1 := FirstSection(c, s, t, key, complete);
    run := CountedAlone(c, s1, t, ok, s.shared);
    SubmitFirst(c, s, t, key, complete, run,
                Submitted(c, s.shared, c.route(key), Job(s.shared.received, key), complete, ok));
    run := [Submit(t, key, complete)] + run;
  }

  /** A worker that comes for the next job takes the head of its lane, counts it once, as processed or as failed,
      in the lane and in the pool, and marks it done. */
  lemma WorkAlone(c: Config, s: System, l: nat, ok: bool)
    requires Shape(c, s) && l < |s.workers| && s.workers[l] == Getting && s.shared.lanes[l].queue != []
    ensures var a, lane := Work(l, ok), s.shared.lanes[l];
            && Can(c, s, a) && Can(c, Apply(c, s, a), a) && Can(c, Apply(c, Apply(c, s, a), a), a)
            && var s' := Apply(c, Apply(c, Apply(c, s, a), a), a);
               && s'.workers == s.workers[l := Top] && s'.subs == s.subs && s'.enqueued == s.enqueued
               && s'.started == s.started + [lane.queue[0]]
               && s'.shared == s.shared.(processed := s.shared.processed + (if ok then 1 else 0),
                                         failed := s.shared.failed + (if ok then 0 else 1),
                                         lanes := s.shared.lanes[l := lane.(queue := lane.queue[1..],
                                                                            unfinished := lane.unfinished - 1,
                                                                            processed := lane.processed
                                                                              + (if ok then 1 else 0),
                                                                            failed := lane.failed
                                                                              + (if ok then 0 else 1))])
  {
    var a, lane := Work(l, ok), s.shared.lanes[l];
    var s1 := Apply(c, s, a);
    assert s1.workers[l] == Busy(lane.queue[0]) && s1.shared.lanes[l] == lane.(queue := lane.queue[1..]);
    var s2 := Apply(c, s1, a);
    assert s2.workers[l] == Counted(lane.queue[0]) && s2.started + [] == s2.started;
  }
}
