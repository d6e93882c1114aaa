/** When close leaves a job behind: its worker gone, the job still in its lane. */
module FlowWorkerPoolClose {
  import opened Sequences
  import opened FlowWorkerPool
  import opened FlowWorkerPoolSafety

  /** Some continuation of this submit can still put its job into a lane. */
  predicate MayPut(c: Config, pc: Submitter) {
    match pc
    case Received(_, _, accepting) => accepting
    case Routing(_) => true
    case Putting(_) => true
    case Full(_) => c.policy.DropOldest?
    case Evicted(_) => true
    case Uncounted(_) => true
    case Retrying(_) => true
    case _ => false
  }

  ghost predicate SomeoneMayPut(c: Config, s: System) { exists t :: 0 <= t < |s.subs| && MayPut(c, s.subs[t]) }

  /** The worker of lane `l` has exited and a job waits there. */
  predicate StrandedAt(s: System, l: int) {
    0 <= l < |s.workers| && l < |s.shared.lanes| && s.workers[l].Exited? && s.shared.lanes[l].queue != []
  }

  ghost predicate Stranded(s: System) { exists l :: StrandedAt(s, l) }

  /** Close has its answer: it has set the stop flag, or does so next. */
  predicate Answered(s: System) { s.closer.Stopping? || s.closer.Closed? }

  // ----- nobody who may put: nothing is left behind -----

  ghost predicate Clear(c: Config, s: System) {
    !s.shared.accepting && Answered(s) && !SomeoneMayPut(c, s) && !Stranded(s)
  }

  /** A turn of a submit that may not put neither puts nor comes to where it may. */
  lemma HarmlessTurn(c: Config, sh: Shared, pc: Submitter, ok: bool)
    requires WellFormed(c) && |sh.lanes| == |c.capacity| && !pc.Idle? && !MayPut(c, pc)
    ensures var (op, pc') := SubmitterTurn(c, sh, pc, ok); !op.Put? && !MayPut(c, pc')
  {
  }

  lemma StepKeepsNobodyMayPut(c: Config, s: System, a: Action)
    requires Can(c, s, a) && !s.shared.accepting && !SomeoneMayPut(c, s)
    ensures !SomeoneMayPut(c, Apply(c, s, a)) && !OpOf(c, s, a).Put?
  {
    hide SubmitterTurn, Perform;
    var s' := Apply(c, s, a);
    if a.Proceed? {
      assert !MayPut(c, s.subs[a.thread]);
      HarmlessTurn(c, s.shared, s.subs[a.thread], a.ok);
    }
    forall t | 0 <= t < |s'.subs| ensures !MayPut(c, s'.subs[t]) {
      assert !MayPut(c, s.subs[t]);
    }
  }

  lemma StepKeepsClear(c: Config, s: System, a: Action)
    requires Can(c, s, a) && Clear(c, s)
    ensures Shape(c, Apply(c, s, a)) && Clear(c, Apply(c, s, a))
  {
    StepKeepsNobodyMayPut(c, s, a);
    hide SomeoneMayPut;
    var s' := Apply(c, s, a);
    forall l | 0 <= l < |s'.workers| ensures !StrandedAt(s', l) {
      PerformOnQueue(s.shared, OpOf(c, s, a), l);
      assert !StrandedAt(s, l);
    }
  }

  lemma {:induction false} RunKeepsClear(c: Config, s: System, run: seq<Action>)
    requires Legal(c, s, run) && Clear(c, s)
    ensures Clear(c, After(c, s, run))
    decreases |run|
  {
    hide Clear;
    if run != [] {
      StepKeepsClear(c, s, run[0]);
      RunKeepsClear(c, Apply(c, s, run[0]), run[1..]);
    }
  }

  // ----- somebody who may put: run its worker out, then let it put -----

  lemma Prepend(c: Config, s: System, a: Action, run: seq<Action>)
    requires Can(c, s, a) && Legal(c, Apply(c, s, a), run)
    ensures Legal(c, s, [a] + run) && After(c, s, [a] + run) == After(c, Apply(c, s, a), run)
  {
    assert ([a] + run)[0] == a && ([a] + run)[1..] == run;
  }

  /** How far a worker that sees the stop flag is from its exit. */
  function Remaining(queue: seq<Job>, w: Worker): nat {
    7 * |queue| + match w
                  case Busy(_) => 6
                  case Counted(_) => 5
                  case Getting => if queue == [] then 4 else 1
                  case Top => 3
                  case Checking => 2
                  case Exited => 0
  }

  lemma WorkerNearsItsExit(c: Config, s: System, l: nat)
    requires Can(c, s, Work(l, true)) && s.shared.stop
    ensures var s' := Apply(c, s, Work(l, true));
            && Shape(c, s') && s'.shared.stop && s'.subs == s.subs && s'.closer == s.closer
            && Remaining(s'.shared.lanes[l].queue, s'.workers[l]) < Remaining(s.shared.lanes[l].queue, s.workers[l])
            && (s'.workers[l].Exited? ==> s'.shared.lanes[l].queue == [])
  {
  }

  /** Once the stop flag is set, a worker on its own empties its lane and exits. */
  lemma RunOut(c: Config, s: System, l: nat) returns (run: seq<Action>)
    requires Shape(c, s) && s.shared.stop && l < |s.workers| && !StrandedAt(s, l)
    ensures Legal(c, s, run)
    ensures var s' := After(c, s, run);
            && Shape(c, s') && s'.workers[l].Exited? && s'.shared.lanes[l].queue == []
            && s'.subs == s.subs && s'.closer == s.closer
    decreases Remaining(s.shared.lanes[l].queue, s.workers[l])
  {
    if s.workers[l].Exited? {
      run := [];
    } else {
      WorkerNearsItsExit(c, s, l);
      hide Apply;
      run := RunOut(c, Apply(c, s, Work(l, true)), l);
      Prepend(c, s, Work(l, true), run);
      run := [Work(l, true)] + run;
    }
  }

  /** Turns a submit is away from its put, the lane being empty. */
  function TurnsToPut(pc: Submitter): nat {
    match pc
    case Evicted(_) => 4
    case Received(_, _, _) => 3
    case Uncounted(_) => 3
    case Routing(_) => 2
    case Full(_) => 2
    case Putting(_) => 1
    case Retrying(_) => 1
    case _ => 0
  }

  lemma SubmitNearsItsPut(c: Config, s: System, t: nat, l: nat)
    requires Shape(c, s) && c.enabled && t < |s.subs| && MayPut(c, s.subs[t]) && c.route(s.subs[t].job.key) == l
    requires s.workers[l].Exited? && s.shared.lanes[l].queue == []
    ensures Can(c, s, Proceed(t, true))
    ensures var s' := Apply(c, s, Proceed(t, true));
            && Shape(c, s') && s'.workers == s.workers && s'.closer == s.closer
            && (TurnsToPut(s.subs[t]) == 1 ==> StrandedAt(s', l))
            && (TurnsToPut(s.subs[t]) > 1 ==>
                  && s'.shared.lanes[l].queue == []
                  && MayPut(c, s'.subs[t]) && s'.subs[t].job == s.subs[t].job
                  && TurnsToPut(s'.subs[t]) < TurnsToPut(s.subs[t]))
  {
  }

  lemma PutLast(c: Config, s: System, t: nat, l: nat) returns (run: seq<Action>)
    requires Shape(c, s) && c.enabled && t < |s.subs| && MayPut(c, s.subs[t]) && c.route(s.subs[t].job.key) == l
    requires s.workers[l].Exited? && s.shared.lanes[l].queue == []
    ensures Legal(c, s, run) && StrandedAt(After(c, s, run), l) && After(c, s, run).closer == s.closer
    decreases TurnsToPut(s.subs[t])
  {
    var a := Proceed(t, true);
    SubmitNearsItsPut(c, s, t, l);
    var s' := Apply(c, s, a);
    if TurnsToPut(s.subs[t]) == 1 {
      run := [];
    } else {
      run := PutLast(c, s', t, l);
    }
    Prepend(c, s, a, run);
    run := [a] + run;
  }

  lemma {:induction false} Continue(c: Config, s: System, run: seq<Action>, more: seq<Action>)
    requires Legal(c, s, run) && Legal(c, After(c, s, run), more)
    ensures Legal(c, s, run + more) && After(c, s, run + more) == After(c, After(c, s, run), more)
    decreases |run|
  {
    hide Apply;
    if run == [] {
      assert run + more == more;
    } else {
      Continue(c, Apply(c, s, run[0]), run[1..], more);
      assert (run + more)[0] == run[0] && (run + more)[1..] == run[1..] + more;
    }
  }

  // ----- main results -----

  lemma AnsweredShape(c: Config, s: System)
    requires Reachable(c, s) && Answered(s)
    ensures Shape(c, s) && !s.shared.accepting && (s.closer.Closed? ==> s.shared.stop)
    ensures c.enabled && s.closer.Stopping? ==> !Stranded(s)
  {
    ReachableInv(c, s);
  }

  lemma SetTheFlag(c: Config, s: System) returns (run: seq<Action>)
    requires Reachable(c, s) && c.enabled && Answered(s)
    ensures Legal(c, s, run)
    ensures var s' := After(c, s, run);
            && Shape(c, s') && s'.shared.stop && s'.closer == Closed(s.closer.drained)
            && s'.subs == s.subs && s'.workers == s.workers && s'.shared.lanes == s.shared.lanes
  {
    AnsweredShape(c, s);
    if s.closer.Stopping? {
      run := [Close(false)];
      Prepend(c, s, Close(false), []);
      assert [Close(false)] + [] == [Close(false)];
    } else {
      run := [];
    }
  }

  /** Whoever may still put once close has its answer can be too late: with the stop flag set, the worker
      of its lane runs out and exits, and the job is put behind it. The answer stays what it was. */
  lemma LateSubmitIsStranded(c: Config, s: System, t: nat) returns (run: seq<Action>)
    requires Reachable(c, s) && c.enabled && Answered(s)
    requires t < |s.subs| && MayPut(c, s.subs[t])
    ensures Legal(c, s, run)
    ensures var s' := After(c, s, run);
            StrandedAt(s', c.route(s.subs[t].job.key)) && s'.closer == Closed(s.closer.drained)
  {
    hide Reachable, Apply, Legal, After;
    var l := c.route(s.subs[t].job.key);
    run := SetTheFlag(c, s);
    var s1 := After(c, s, run);
    if !StrandedAt(s1, l) {
      var out := RunOut(c, s1, l);
      var s2 := After(c, s1, out);
      var put := PutLast(c, s2, t, l);
      Continue(c, s1, out, put);
      Continue(c, s, run, out + put);
      run := run + (out + put);
    }
  }

  lemma ReachableRun(c: Config, s: System, run: seq<Action>)
    requires Reachable(c, s) && Legal(c, s, run)
    ensures Reachable(c, After(c, s, run))
  {
    hide Apply;
    var threads: nat, before :| Legal(c, Init(c, threads), before) && After(c, Init(c, threads), before) == s;
    Continue(c, Init(c, threads), before, run);
  }

  /** With every worker gone and nothing stranded, the books are closed. */
  lemma AllGoneAllSettled(c: Config, s: System)
    requires Reachable(c, s) && !Stranded(s) && forall l :: 0 <= l < |s.workers| ==> s.workers[l].Exited?
    ensures s.shared.received == Settled(s.shared) + SumBy(s.subs, InProgress)
  {
    hide Reachable, SumBy;
    JobsAreConserved(c, s);
    ReachableShape(c, s);
    forall l | 0 <= l < |s.shared.lanes| ensures QueueLength(s.shared.lanes[l]) == 0 { assert !StrandedAt(s, l); }
    SumByZero(s.shared.lanes, QueueLength);
    SumByZero(s.workers, InHand);
  }

  lemma ReachableShape(c: Config, s: System)
    requires Reachable(c, s)
    ensures Shape(c, s)
  {
    ReachableInv(c, s);
  }

  /** Where nobody may put and nothing is stranded, nothing ever will be; and once the workers have gone,
      every job is processed, failed, dropped or rejected, or still with its submitter. */
  lemma OnlyLateSubmitsStrand(c: Config, s: System, run: seq<Action>)
    requires Reachable(c, s) && Answered(s) && Legal(c, s, run)
    requires !SomeoneMayPut(c, s) && !Stranded(s)
    ensures var s' := After(c, s, run);
            && !Stranded(s') && !SomeoneMayPut(c, s')
            && ((forall l :: 0 <= l < |s'.workers| ==> s'.workers[l].Exited?) ==>
                  s'.shared.received == Settled(s'.shared) + SumBy(s'.subs, InProgress))
  {
    hide Reachable, Legal, After, SumBy, SomeoneMayPut, Stranded;
    AnsweredShape(c, s);
    RunKeepsClear(c, s, run);
    ReachableRun(c, s, run);
    var s' := After(c, s, run);
    if forall l :: 0 <= l < |s'.workers| ==> s'.workers[l].Exited? { AllGoneAllSettled(c, s'); }
  }

  /** When close has its answer, true or false, the pool can still lose a job behind an exited worker
      if and only if some submit may still put; before the stop flag is set none is lost yet. */
  lemma CloseLosesAJobIff(c: Config, s: System)
    requires Reachable(c, s) && c.enabled && Answered(s)
    ensures (exists run :: Legal(c, s, run) && Stranded(After(c, s, run))) <==> SomeoneMayPut(c, s) || Stranded(s)
    ensures s.closer.Stopping? ==> !Stranded(s)
  {
    AnsweredShape(c, s);
    if SomeoneMayPut(c, s) {
      var t :| 0 <= t < |s.subs| && MayPut(c, s.subs[t]);
      var run := LateSubmitIsStranded(c, s, t);
      assert Stranded(After(c, s, run));
    } else if Stranded(s) {
      var run: seq<Action> := [];
      assert Legal(c, s, run) && After(c, s, run) == s;
      assert exists run :: Legal(c, s, run) && Stranded(After(c, s, run));
    } else if run :| Legal(c, s, run) && Stranded(After(c, s, run)) {
      OnlyLateSubmitsStrand(c, s, run);
    }
  }

  // ----- such a submit exists -----

  lemma ReachableStep(c: Config, s: System, a: Action) returns (s': System)
    requires Reachable(c, s) && Can(c, s, a)
    ensures Reachable(c, s') && s' == Apply(c, s, a)
  {
    var threads: nat, run :| Legal(c, Init(c, threads), run) && After(c, Init(c, threads), run) == s;
    Prepend(c, s, a, []);
    Continue(c, Init(c, threads), run, [a] + []);
    s' := Apply(c, s, a);
  }

  lemma ReachableInit(c: Config, threads: nat)
    requires WellFormed(c)
    ensures Reachable(c, Init(c, threads))
  {
    assert Legal(c, Init(c, threads), []) && After(c, Init(c, threads), []) == Init(c, threads);
  }

  /** One step of the closing thread leaves lanes, workers and submitters alone. */
  lemma CloseStep(c: Config, s: System) returns (s': System)
    requires Reachable(c, s) && Can(c, s, Close(false))
    ensures Reachable(c, s') && Shape(c, s')
    ensures s'.shared.lanes == s.shared.lanes && s'.subs == s.subs && s'.workers == s.workers
    ensures s'.closer == CloserTurn(s.shared, s.closer, false).1
  {
    s' := ReachableStep(c, s, Close(false));
  }

  /** One thread has passed the gate and is about to put its job. */
  lemma PastTheGate() returns (c: Config, s: System)
    ensures Reachable(c, s) && WellFormed(c) && c.enabled && |c.capacity| == 1
    ensures Shape(c, s) && s.shared.lanes == [Lane([], 0, 0, 0, 0)] && s.subs == [Putting(Job(0, "k"))]
    ensures s.closer == Open
  {
    hide Reachable;
    c := Config(DropOldest, true, [1], _ => 0);
    s := Init(c, 1);
    ReachableInit(c, 1);
    assert s.subs == [Idle] && s.workers == [Top] && s.shared.lanes == [Lane([], 0, 0, 0, 0)];
    s := ReachableStep(c, s, Submit(0, "k", true));
    assert s.subs == [Received(Job(0, "k"), true, true)];
    s := ReachableStep(c, s, Proceed(0, true));
    assert s.subs == [Routing(Job(0, "k"))];
    s := ReachableStep(c, s, Proceed(0, true));
  }

  /** Close can answer true while a submit may still put. */
  lemma TrueAnswerBeforeAPut() returns (c: Config, s: System)
    ensures Reachable(c, s) && c.enabled && s.closer == Stopping(true) && SomeoneMayPut(c, s)
  {
    hide Reachable;
    c, s := PastTheGate();
    s := CloseStep(c, s);
    s := CloseStep(c, s);
    assert MayPut(c, s.subs[0]);
  }
}
