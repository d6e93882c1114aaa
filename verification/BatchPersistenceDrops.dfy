/** What the drop counter says and what is really lost, under any interleaving. */
module BatchPersistenceDrops {
  import opened Sequences
  import opened BatchPersistence
  import opened BatchPersistenceSafety

  function EvictedSize(p: Popped): nat { if p.evicted then Size(p.item) else 0 }

  /** Events this step puts into the queue after an overflow; they will be counted as dropped. */
  ghost function PutLate(cfg: Config, s: System, a: Action): nat
    requires Can(cfg, s, a)
  {
    if a.Proceed? && s.threads[a.thread].Evicting? && HasRoom(cfg, s.shared) then Size(s.threads[a.thread].item) else 0
  }

  ghost function AllPutLate(cfg: Config, s: System, run: seq<Action>): nat
    requires Legal(cfg, s, run)
    decreases |run|
  {
    if run == [] then 0 else PutLate(cfg, s, run[0]) + AllPutLate(cfg, Apply(cfg, s, run[0]), run[1..])
  }

  // ----- one overflow -----

  /** What one step loses, and what it counts as dropped. */
  ghost function LostBy(cfg: Config, s: System, a: Action): int
    requires Can(cfg, s, a)
  {
    Apply(cfg, s, a).lost - s.lost
  }

  ghost function ChargedBy(cfg: Config, s: System, a: Action): int
    requires Can(cfg, s, a)
  {
    Apply(cfg, s, a).shared.dropped - s.shared.dropped
  }

  lemma {:induction false} OthersLeaveThread(cfg: Config, s: System, run: seq<Action>, t: nat)
    requires Legal(cfg, s, run) && Proceed(t) !in run
    requires t < |s.threads| && (s.threads[t].Evicting? || s.threads[t].Charging?)
    ensures var s' := After(cfg, s, run); t < |s'.threads| && s'.threads[t] == s.threads[t]
    decreases |run|
  {
    if run != [] {
      assert run[0] != Proceed(t);
      OthersLeaveThread(cfg, Apply(cfg, s, run[0]), run[1..], t);
    }
  }

  /** One overflow under drop_oldest, with anything the other threads and the worker do in between: it
      loses the unit it evicts, if any, and the incoming one if there is still no room, and it counts
      the incoming one whatever happened. */
  lemma OneOverflowAmongOthers(cfg: Config, s: System, t: nat, first: seq<Action>, second: seq<Action>)
    requires cfg.policy.DropOldest? && t < |s.threads| && s.threads[t].Overflowing?
    requires Legal(cfg, Apply(cfg, s, Proceed(t)), first) && Proceed(t) !in first
    requires var s1 := After(cfg, Apply(cfg, s, Proceed(t)), first);
             && Can(cfg, s1, Proceed(t)) && Legal(cfg, Apply(cfg, s1, Proceed(t)), second) && Proceed(t) !in second
    ensures var a, item := Proceed(t), s.threads[t].item;
            var s1 := After(cfg, Apply(cfg, s, a), first);
            var s2 := After(cfg, Apply(cfg, s1, a), second);
            var evicted := if s.shared.queue == [] then 0 else Size(s.shared.queue[0]);
            && Can(cfg, s2, a) && Apply(cfg, s2, a).threads[t].Idle?
            && LostBy(cfg, s, a) + LostBy(cfg, s1, a) + LostBy(cfg, s2, a)
               == evicted + (if HasRoom(cfg, s1.shared) then 0 else Size(item))
            && ChargedBy(cfg, s, a) + ChargedBy(cfg, s1, a) + ChargedBy(cfg, s2, a) == Size(item)
  {
    var a := Proceed(t);
    var s0' := Apply(cfg, s, a);
    OthersLeaveThread(cfg, s0', first, t);
    var s1' := Apply(cfg, After(cfg, s0', first), a);
    OthersLeaveThread(cfg, s1', second, t);
  }

  // ----- all of them -----

  /** Losses the counter knows of, or is about to be told of. */
  ghost function ToldOf(s: System): nat { s.shared.dropped + SumBy(s.threads, Uncharged) }

  lemma TurnCounts(cfg: Config, sh: Shared, popped: nat, pc: Thread)
    requires !pc.Idle?
    ensures var (op, pc', loss) := ThreadTurn(cfg, sh, popped, pc);
            loss + Uncharged(pc) + sh.dropped
            + (if pc.Evicting? && HasRoom(cfg, sh) then Size(pc.item) else 0)
            == Uncharged(pc') + Perform(sh, op).dropped + if op.Evict? then Size(sh.queue[0]) else 0
  {
  }

  lemma StepCounts(cfg: Config, s: System, a: Action)
    requires Can(cfg, s, a)
    ensures var s' := Apply(cfg, s, a);
            s'.lost - s.lost + PutLate(cfg, s, a)
            == ToldOf(s') - ToldOf(s) + SumBy(s'.popped, EvictedSize) - SumBy(s.popped, EvictedSize)
  {
    hide SumBy;
    var s' := Apply(cfg, s, a);
    match a
    case Proceed(t) =>
      TurnCounts(cfg, s.shared, |s.popped|, s.threads[t]);
      SumByUpdate(s.threads, Uncharged, t, s'.threads[t]);
      if |s'.popped| > |s.popped| { SumBySnoc(s.popped, Popped(s.shared.queue[0], true), EvictedSize); }
    case Enqueue(t, _) => SumByUpdate(s.threads, Uncharged, t, s'.threads[t]);
    case Flush(t) => SumByUpdate(s.threads, Uncharged, t, s'.threads[t]);
    case GiveUp(t) => SumByUpdate(s.threads, Uncharged, t, s'.threads[t]);
    case Work(later, ok) =>
      if Passes(s) { PassStep(cfg, s, later, ok); }
      else if s.worker.Waiting? {
        TakeStep(cfg, s, later, ok);
        SumBySnoc(s.popped, Popped(s.shared.queue[0], false), EvictedSize);
      }
      else if s.worker.Writing? { WriteStep(cfg, s, later, ok); }
      else { CompleteStep(cfg, s, later, ok); }
    case _ =>
  }

  lemma {:induction false} RunCounts(cfg: Config, s: System, run: seq<Action>)
    requires Legal(cfg, s, run)
    ensures var s' := After(cfg, s, run);
            s'.lost - s.lost + AllPutLate(cfg, s, run)
            == ToldOf(s') - ToldOf(s) + SumBy(s'.popped, EvictedSize) - SumBy(s.popped, EvictedSize)
    decreases |run|
  {
    if run != [] {
      StepCounts(cfg, s, run[0]);
      RunCounts(cfg, Apply(cfg, s, run[0]), run[1..]);
    }
  }

  /** The drop counter is off by exactly this much, over every run and under every policy: it misses what
      was evicted, and it counts what was put after all. Between overflows it is right if and only if
      the two are equally large. */
  lemma DropCounterLaw(cfg: Config, threads: nat, run: seq<Action>)
    requires Legal(cfg, Init(threads), run)
    ensures var s, late := After(cfg, Init(threads), run), AllPutLate(cfg, Init(threads), run);
            && s.lost + late == s.shared.dropped + SumBy(s.threads, Uncharged) + SumBy(s.popped, EvictedSize)
            && ((forall t :: 0 <= t < |s.threads| ==> !s.threads[t].Charging?) ==>
                  (s.lost == s.shared.dropped <==> SumBy(s.popped, EvictedSize) == late))
  {
    hide SumBy;
    var s := After(cfg, Init(threads), run);
    RunCounts(cfg, Init(threads), run);
    SumByZero(Init(threads).threads, Uncharged);
    SumByZero(Init(threads).popped, EvictedSize);
    if forall t :: 0 <= t < |s.threads| ==> !s.threads[t].Charging? { SumByZero(s.threads, Uncharged); }
  }
}
