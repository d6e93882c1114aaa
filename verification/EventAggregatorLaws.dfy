/** The size flush of each category, in terms of the three configured sizes. */
module EventAggregatorLaws {
  import opened Sequences
  import opened EventAggregator
  import opened EventAggregatorSafety

  /** Packets have a size of their own, alerts and incidents one, flows and agents one. */
  ghost predicate FillsAt(cfg: Config, c: Category, n: nat) {
    match c
    case Packet => n >= cfg.packetMax
    case Alert => n >= cfg.alertMax
    case Incident => n >= cfg.alertMax
    case Flow => n >= cfg.flowMax
    case Agent => n >= cfg.flowMax
    case Dashboard => false
    case Ops => false
  }

  /** A thread that appends flushes its category at once exactly when the buffer has reached its size, and
      otherwise goes to schedule it; a summary replaces the one that waits and is always scheduled. */
  lemma AppendFlushesAtSize(cfg: Config, s: System, t: nat)
    requires Can(s, Proceed(t)) && s.threads[t].Received?
    ensures Shape(Apply(cfg, s, Proceed(t)))
    ensures var c, m, s' := s.threads[t].category, s.threads[t].message, Apply(cfg, s, Proceed(t));
            && s'.shared.pending
               == s.shared.pending[c := if c == Dashboard || c == Ops then [m] else s.shared.pending[c] + [m]]
            && s'.threads[t] == (if FillsAt(cfg, c, |s.shared.pending[c]| + 1) then Flushing([c]) else Scheduling(c))
  {
    StepKeepsShape(cfg, s, Proceed(t));
  }

  /** So a buffer holds fewer events than its size, and at most one more per thread committed to flush it. */
  lemma BuffersStayBelowSize(cfg: Config, s: System)
    requires Reachable(cfg, s)
    ensures Shape(s)
    ensures cfg.packetMax >= 1 ==> |s.shared.pending[Packet]| < cfg.packetMax + SumBy(s.threads, FlushDuty(Packet))
    ensures cfg.alertMax >= 1 ==> |s.shared.pending[Alert]| < cfg.alertMax + SumBy(s.threads, FlushDuty(Alert))
    ensures cfg.alertMax >= 1 ==> |s.shared.pending[Incident]| < cfg.alertMax + SumBy(s.threads, FlushDuty(Incident))
    ensures cfg.flowMax >= 1 ==> |s.shared.pending[Flow]| < cfg.flowMax + SumBy(s.threads, FlushDuty(Flow))
    ensures cfg.flowMax >= 1 ==> |s.shared.pending[Agent]| < cfg.flowMax + SumBy(s.threads, FlushDuty(Agent))
    ensures |s.shared.pending[Dashboard]| <= 1 && |s.shared.pending[Ops]| <= 1
  {
    hide Reachable, SumBy, FlushDuty;
    EventsAreConserved(cfg, s);
    ReachableInv(cfg, s);
    if cfg.packetMax >= 1 { BuffersStaySmall(cfg, s, Packet); }
    if cfg.alertMax >= 1 {
      BuffersStaySmall(cfg, s, Alert);
      BuffersStaySmall(cfg, s, Incident);
    }
    if cfg.flowMax >= 1 {
      BuffersStaySmall(cfg, s, Flow);
      BuffersStaySmall(cfg, s, Agent);
    }
  }
}
