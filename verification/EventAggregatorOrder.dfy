/** Emission happens outside the aggregator's lock: when it keeps the order in which the batches of a
    category were taken, and when it cannot. */
module EventAggregatorOrder {
  import opened Sequences
  import opened EventAggregator
  import opened EventAggregatorSafety

  function OfCategory(c: Category): Batch -> bool { (b: Batch) => b.category == c }

  function Of(batches: seq<Batch>, c: Category): seq<Batch> { Filter(batches, OfCategory(c)) }

  /** Thread `t` has taken a batch of category `c` and not emitted it yet. */
  predicate Holds(s: System, t: int, c: Category) {
    0 <= t < |s.threads| && s.threads[t].Emitting? && s.threads[t].batch.category == c
  }

  /** What has been emitted is a beginning of what was taken. */
  predicate EmittedInOrder(s: System, c: Category) { Of(s.emitted, c) <= Of(s.taken, c) }

  // ----- one batch at a time -----

  /** The step does not take a batch of `c` while another is held. */
  ghost predicate SerialStep(cfg: Config, s: System, a: Action, c: Category)
    requires Can(s, a)
  {
    OpOf(cfg, s, a) == Take(c) && s.shared.pending[c] != [] ==> forall t :: !Holds(s, t, c)
  }

  ghost predicate Serial(cfg: Config, s: System, run: seq<Action>, c: Category)
    requires Legal(cfg, s, run)
    decreases |run|
  {
    run == [] || (SerialStep(cfg, s, run[0], c) && Serial(cfg, Apply(cfg, s, run[0]), run[1..], c))
  }

  /** At most one thread holds a batch, and emitted then held is taken. */
  ghost predicate InStep(s: System, c: Category) {
    && (forall t, u :: Holds(s, t, c) && Holds(s, u, c) ==> t == u)
    && (forall t :: Holds(s, t, c) ==> Of(s.emitted, c) + [s.threads[t].batch] == Of(s.taken, c))
    && ((forall t :: !Holds(s, t, c)) ==> Of(s.emitted, c) == Of(s.taken, c))
  }

  /** The histories and the holders after one step. */
  lemma StepHistories(cfg: Config, s: System, a: Action, c: Category)
    requires Can(s, a)
    ensures var s', op := Apply(cfg, s, a), OpOf(cfg, s, a);
            && Of(s'.taken, c) == Of(s.taken, c)
                                  + (if op == Take(c) && s.shared.pending[c] != [] then [Batch(c, s.shared.pending[c])]
                                     else [])
            && Of(s'.emitted, c) == Of(s.emitted, c) + (if op.Emit? && op.batch.category == c then [op.batch] else [])
  {
    hide Filter, Perform, ThreadTurn, AppendedBy;
    var op := OpOf(cfg, s, a);
    if op.Take? && s.shared.pending[op.category] != [] {
      FilterSnoc(s.taken, Batch(op.category, s.shared.pending[op.category]), OfCategory(c));
    } else {
      assert s.taken + [] == s.taken;
    }
    if op.Emit? { FilterSnoc(s.emitted, op.batch, OfCategory(c)); }
    assert Of(s.taken, c) + [] == Of(s.taken, c) && Of(s.emitted, c) + [] == Of(s.emitted, c);
  }

  ghost predicate Takes(cfg: Config, s: System, a: Action, c: Category)
    requires Can(s, a)
  {
    OpOf(cfg, s, a) == Take(c) && s.shared.pending[c] != []
  }

  ghost predicate Emits(cfg: Config, s: System, a: Action, c: Category)
    requires Can(s, a)
  {
    OpOf(cfg, s, a).Emit? && OpOf(cfg, s, a).batch.category == c
  }

  /** Nobody but `t` held or holds a batch of `c`, in the one state or the other. */
  ghost predicate OnlyHolder(s: System, s': System, t: int, c: Category) {
    forall u :: u != t ==> (Holds(s', u, c) <==> Holds(s, u, c)) && (Holds(s, u, c) ==> s'.threads[u] == s.threads[u])
  }

  /** The thread that moves becomes a holder by taking, and stops being one by emitting. */
  lemma TurnHolders(cfg: Config, sh: Shared, pc: Thread, c: Category)
    requires (forall d: Category :: d in sh.pending) && !pc.Idle? && (pc.Flushing? ==> pc.categories != [])
    ensures var (op, pc') := ThreadTurn(cfg, sh, pc);
            && (op == Take(c) && sh.pending[c] != [] <==> pc'.Emitting? && pc'.batch.category == c)
            && (op == Take(c) && sh.pending[c] != [] ==> pc'.batch == Batch(c, sh.pending[c]) && !pc.Emitting?)
            && (op.Emit? <==> pc.Emitting?) && (op.Emit? ==> op.batch == pc.batch)
  {
  }

  lemma OneThreadMoves(s: System, s': System, t: nat, pc: Thread, c: Category)
    requires t < |s.threads| && s'.threads == s.threads[t := pc]
    ensures OnlyHolder(s, s', t, c)
    ensures !Holds(s, t, c) && !Holds(s', t, c) ==> OnlyHolder(s, s', -1, c)
  {
  }

  lemma OneThreadJoins(s: System, s': System, pc: Thread, c: Category)
    requires s'.threads == s.threads + [pc] && !pc.Emitting?
    ensures OnlyHolder(s, s', -1, c)
  {
  }

  /** A step makes its own thread a holder or ends its holding, and leaves the others as they are. */
  lemma StepHolders(cfg: Config, s: System, a: Action, c: Category)
    requires Can(s, a)
    ensures var s' := Apply(cfg, s, a);
            && (Takes(cfg, s, a, c) || Emits(cfg, s, a, c) ==> a.Proceed?)
            && (Takes(cfg, s, a, c) ==>
                  !Holds(s, a.thread, c) && Holds(s', a.thread, c)
                    && s'.threads[a.thread].batch == Batch(c, s.shared.pending[c]))
            && (Emits(cfg, s, a, c) ==>
                  Holds(s, a.thread, c) && !Holds(s', a.thread, c)
                    && s.threads[a.thread].batch == OpOf(cfg, s, a).batch)
            && OnlyHolder(s, s', if Takes(cfg, s, a, c) || Emits(cfg, s, a, c) then a.thread else -1, c)
  {
    hide ThreadTurn, Perform, TakenBy, AppendedBy, OnlyHolder;
    if a.Fire? {
      OneThreadJoins(s, Apply(cfg, s, a), Flushing([s.shared.timers[a.timer].category]), c);
    } else {
      OneThreadMoves(s, Apply(cfg, s, a), a.thread, NextThread(cfg, s, a), c);
      if a.Proceed? { TurnHolders(cfg, s.shared, s.threads[a.thread], c); }
    }
  }

  lemma TakingKeepsInStep(s: System, s': System, t: int, batch: Batch, c: Category)
    requires InStep(s, c) && OnlyHolder(s, s', t, c) && forall u :: !Holds(s, u, c)
    requires Holds(s', t, c) && s'.threads[t].batch == batch
    requires Of(s'.taken, c) == Of(s.taken, c) + [batch] && Of(s'.emitted, c) == Of(s.emitted, c)
    ensures InStep(s', c)
  {
    hide Of, Holds;
    assert forall u :: Holds(s', u, c) ==> u == t;
  }

  lemma EmittingKeepsInStep(s: System, s': System, t: int, c: Category)
    requires InStep(s, c) && OnlyHolder(s, s', t, c) && Holds(s, t, c) && !Holds(s', t, c)
    requires Of(s'.taken, c) == Of(s.taken, c) && Of(s'.emitted, c) == Of(s.emitted, c) + [s.threads[t].batch]
    ensures InStep(s', c)
  {
    hide Of, Holds;
    assert forall u :: !Holds(s', u, c);
  }

  lemma StayingKeepsInStep(s: System, s': System, c: Category)
    requires InStep(s, c) && OnlyHolder(s, s', -1, c)
    requires Of(s'.taken, c) == Of(s.taken, c) && Of(s'.emitted, c) == Of(s.emitted, c)
    ensures InStep(s', c)
  {
    hide Of;
    assert forall u :: Holds(s', u, c) <==> Holds(s, u, c);
  }

  lemma SerialStepKeepsInStep(cfg: Config, s: System, a: Action, c: Category)
    requires Can(s, a) && SerialStep(cfg, s, a, c) && InStep(s, c)
    ensures InStep(Apply(cfg, s, a), c)
  {
    hide Of, Apply, OpOf, Holds, InStep;
    StepHistories(cfg, s, a, c);
    StepHolders(cfg, s, a, c);
    var s' := Apply(cfg, s, a);
    assert Of(s.taken, c) + [] == Of(s.taken, c) && Of(s.emitted, c) + [] == Of(s.emitted, c);
    if Takes(cfg, s, a, c) {
      TakingKeepsInStep(s, s', a.thread, Batch(c, s.shared.pending[c]), c);
    } else if Emits(cfg, s, a, c) {
      EmittingKeepsInStep(s, s', a.thread, c);
    } else {
      StayingKeepsInStep(s, s', c);
    }
  }

  lemma {:induction false} SerialRunKeepsInStep(cfg: Config, s: System, run: seq<Action>, c: Category)
    requires Legal(cfg, s, run) && Serial(cfg, s, run, c) && InStep(s, c)
    ensures InStep(After(cfg, s, run), c)
    decreases |run|
  {
    hide InStep;
    if run != [] {
      SerialStepKeepsInStep(cfg, s, run[0], c);
      SerialRunKeepsInStep(cfg, Apply(cfg, s, run[0]), run[1..], c);
    }
  }

  /** If no thread ever takes a batch of a category while another still holds one, then at every moment
      the batches emitted, followed by the one that may be held, are the batches taken. */
  lemma SerialRunsEmitInOrder(cfg: Config, threads: nat, run: seq<Action>, c: Category)
    requires Legal(cfg, Init(threads), run) && Serial(cfg, Init(threads), run, c)
    ensures var s := After(cfg, Init(threads), run);
            && EmittedInOrder(s, c)
            && (forall t :: Holds(s, t, c) ==> Of(s.emitted, c) + [s.threads[t].batch] == Of(s.taken, c))
            && ((forall t :: !Holds(s, t, c)) ==> Of(s.emitted, c) == Of(s.taken, c))
  {
    hide Legal, After, Serial;
    var s := After(cfg, Init(threads), run);
    assert InStep(Init(threads), c) by { assert forall t :: !Holds(Init(threads), t, c); }
    SerialRunKeepsInStep(cfg, Init(threads), run, c);
    if t :| Holds(s, t, c) {
      assert Of(s.emitted, c) + [s.threads[t].batch] == Of(s.taken, c);
    }
  }

  // ----- several batches at a time -----

  lemma {:induction false} FilterCounts<T>(s: seq<T>, keep: T -> bool, x: T)
    ensures multiset(Filter(s, keep))[x] == if keep(x) then multiset(s)[x] else 0
  {
    if s != [] {
      var init, last := s[..|s| - 1], s[|s| - 1];
      FilterCounts(init, keep, x);
      assert s == init + [last];
      FilterSnoc(init, last, keep);
    }
  }

  lemma {:induction false} InFlightIsHeld(threads: seq<Thread>, b: Batch)
    ensures InFlight(threads)[b] > 0
            <==> exists t :: 0 <= t < |threads| && threads[t].Emitting? && threads[t].batch == b
  {
    if threads != [] {
      var n := |threads| - 1;
      InFlightIsHeld(threads[..n], b);
      assert forall t :: 0 <= t < n ==> threads[..n][t] == threads[t];
      if threads[n].Emitting? && threads[n].batch == b { assert InFlight(threads)[b] > 0; }
    }
  }

  /** As long as the order was kept, the next batch taken but not emitted is one that is held. */
  lemma NextIsHeld(cfg: Config, s: System, c: Category, t: int)
    requires Reachable(cfg, s) && EmittedInOrder(s, c) && Holds(s, t, c)
    ensures |Of(s.emitted, c)| < |Of(s.taken, c)|
    ensures exists u :: Holds(s, u, c) && s.threads[u].batch == Of(s.taken, c)[|Of(s.emitted, c)|]
  {
    hide Reachable, Shape, Filter, InFlight;
    EventsAreConserved(cfg, s);
    var emitted, taken, b := Of(s.emitted, c), Of(s.taken, c), s.threads[t].batch;
    assert taken == emitted + taken[|emitted|..];
    var rest := taken[|emitted|..];
    forall x: Batch ensures multiset(rest)[x] == if x.category == c then InFlight(s.threads)[x] else 0 {
      FilterCounts(s.taken, OfCategory(c), x);
      FilterCounts(s.emitted, OfCategory(c), x);
      assert multiset(taken)[x] == multiset(emitted)[x] + multiset(rest)[x];
    }
    InFlightIsHeld(s.threads, b);
    assert b in rest;
    assert rest[0] in rest;
    InFlightIsHeld(s.threads, rest[0]);
    var u :| 0 <= u < |s.threads| && s.threads[u].Emitting? && s.threads[u].batch == rest[0];
    assert Holds(s, u, c);
  }

  /** The next step of a holder emits its batch and takes nothing. */
  lemma HolderEmits(cfg: Config, s: System, t: nat, c: Category)
    requires Can(s, Proceed(t)) && Holds(s, t, c)
    ensures var s' := Apply(cfg, s, Proceed(t));
            Of(s'.emitted, c) == Of(s.emitted, c) + [s.threads[t].batch] && Of(s'.taken, c) == Of(s.taken, c)
  {
    StepHistories(cfg, s, Proceed(t), c);
    assert Of(s.taken, c) + [] == Of(s.taken, c);
  }

  lemma HolderKeepsOrderIff(cfg: Config, s: System, t: nat, c: Category)
    requires Can(s, Proceed(t)) && Holds(s, t, c)
    ensures EmittedInOrder(Apply(cfg, s, Proceed(t)), c)
            <==> Of(s.emitted, c) + [s.threads[t].batch] <= Of(s.taken, c)
  {
    HolderEmits(cfg, s, t, c);
  }

  lemma OneSuccessor<T>(done: seq<T>, x: T, y: T, all: seq<T>)
    requires done + [x] <= all
    ensures done + [y] <= all <==> x == y
  {
    assert all[|done|] == x;
    if x != y { assert (done + [y])[|done|] != all[|done|]; }
  }

  lemma ReachableShape(cfg: Config, s: System)
    requires Reachable(cfg, s)
    ensures Shape(s)
  {
    EventsAreConserved(cfg, s);
  }

  /** When some batch of a category is held, every holder can emit next without breaking the order if
      and only if the order was kept so far and all held batches of the category are equal. */
  lemma NextEmissionKeepsOrderIff(cfg: Config, s: System, c: Category, t: nat)
    requires Reachable(cfg, s) && Holds(s, t, c)
    ensures Shape(s)
    ensures (forall u: nat :: Holds(s, u, c) ==> EmittedInOrder(Apply(cfg, s, Proceed(u)), c))
            <==> EmittedInOrder(s, c) && forall u: nat :: Holds(s, u, c) ==> s.threads[u].batch == s.threads[t].batch
  {
    hide Reachable, Shape, Of, Apply;
    ReachableShape(cfg, s);
    var emitted, taken, b := Of(s.emitted, c), Of(s.taken, c), s.threads[t].batch;
    if EmittedInOrder(s, c) { NextIsHeld(cfg, s, c, t); }
    HolderKeepsOrderIff(cfg, s, t, c);
    forall u: nat | Holds(s, u, c)
      ensures EmittedInOrder(Apply(cfg, s, Proceed(u)), c) <==> emitted + [s.threads[u].batch] <= taken
      ensures emitted + [b] <= taken ==> (emitted + [s.threads[u].batch] <= taken <==> b == s.threads[u].batch)
    {
      HolderKeepsOrderIff(cfg, s, u, c);
      if emitted + [b] <= taken { OneSuccessor(emitted, b, s.threads[u].batch, taken); }
    }
  }

  /** So two threads that hold different batches of a category can break its order with their next step. */
  lemma TwoHoldersCanOvertake(cfg: Config, s: System, c: Category, t: nat, u: nat)
    requires Reachable(cfg, s) && Holds(s, t, c) && Holds(s, u, c) && s.threads[t].batch != s.threads[u].batch
    ensures Shape(s)
    ensures !EmittedInOrder(Apply(cfg, s, Proceed(t)), c) || !EmittedInOrder(Apply(cfg, s, Proceed(u)), c)
  {
    hide Reachable, Shape, Of, Apply;
    ReachableShape(cfg, s);
    HolderKeepsOrderIff(cfg, s, t, c);
    HolderKeepsOrderIff(cfg, s, u, c);
    if Of(s.emitted, c) + [s.threads[t].batch] <= Of(s.taken, c) {
      OneSuccessor(Of(s.emitted, c), s.threads[t].batch, s.threads[u].batch, Of(s.taken, c));
    }
  }
}
