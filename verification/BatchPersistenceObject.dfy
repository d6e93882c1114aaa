/** The batch writer object, updated in place: the atomic steps of the producers, the loops of
    the worker, and the retrying write, each proved against the step functions. */
module BatchPersistenceObject {
  import opened Maps
  import opened Values
  import opened BatchPersistence

  function Pow2(n: nat): nat { if n == 0 then 1 else 2 * Pow2(n - 1) }

  lemma {:induction false} Pow2Grows(a: nat, b: nat)
    requires a <= b
    ensures 1 <= Pow2(a) <= Pow2(b)
    decreases b
  {
    if a < b { Pow2Grows(a, b - 1); } else if a > 0 { Pow2Grows(a - 1, b - 1); }
  }

  // ----- retrying a write -----

  /** What the outside world answers to the k-th attempt of one write: does storage accept it, is
      stop seen after its failure, is the wait after it cut short by stop. */
  datatype World = World(accepts: nat -> bool, stopped: nat -> bool, woken: nat -> bool)

  /** Attempts 0..k all fail and are all followed by a full wait. */
  ghost predicate Waited(w: World, k: nat) {
    forall j :: 0 <= j < k ==> !w.accepts(j) && !w.stopped(j) && !w.woken(j)
  }

  ghost predicate GivesUp(w: World, retryMax: nat, k: nat) {
    !w.accepts(k) && (k >= retryMax || w.stopped(k) || w.woken(k))
  }

  lemma CollectOne(b: Buffers, done: set<string>, kind: string)
    requires kind !in done
    ensures Handed(b, done + {kind})
            == if kind in b.rows then Handed(b, done)[kind := b.rows[kind]] else Handed(b, done)
    ensures Kept(b, done + {kind}) == Buffers(Kept(b, done).rows - {kind}, Kept(b, done).first - {kind})
    ensures kind in b.rows ==> kind in Kept(b, done).rows && Kept(b, done).rows[kind] == b.rows[kind]
  {
  }

  lemma UrgentSnoc(events: seq<Event>, e: Event)
    ensures Urgent(events + [e]) <==> Urgent(events) || e.priority.High? || e.priority.Critical?
  {
    assert (events + [e])[|events|] == e;
    assert forall k :: 0 <= k < |events| ==> (events + [e])[k] == events[k];
  }

  lemma BufferSnoc(cfg: Config, b: Buffers, events: seq<Event>, e: Event, now: nat)
    ensures var b' := AddEvent(AddAll(b, events, now), e, now);
            && AddAll(b, events + [e], now) == b'
            && (SizeDue(cfg, b, events + [e], now)
                <==> SizeDue(cfg, b, events, now) || |RowsOf(b'.rows, e.kind)| >= BatchSize(cfg, e.kind))
  {
    hide BatchSize, AddEvent;
    assert (events + [e])[..|events|] == events && (events + [e])[|events|] == e;
  }

  lemma BufferNone(cfg: Config, b: Buffers, now: nat)
    ensures AddAll(b, [], now) == b && !SizeDue(cfg, b, [], now) && !Urgent([])
  {
  }

  lemma NoRows()
    ensures var none: Rows := map[]; Total(none, RowCount) == 0
  {
  }

  class Writer {
    const cfg: Config
    const retryMax: nat
    const backoffMs: nat
    var queue: seq<Item>
    var rows: Rows
    var first: map<string, nat>
    var received: nat
    var written: nat
    var failed: nat
    var dropped: nat
    var retries: nat
    var completed: set<nat>
    var stop: bool
    /** Places already popped, by which flush commands are told apart. */
    var popped: nat

    function View(): Shared
      reads this
    {
      Shared(queue, Buffers(rows, first), received, written, failed, dropped, completed, stop)
    }

    constructor (cfg: Config, retryMax: nat, backoffMs: nat)
      ensures this.cfg == cfg && this.retryMax == retryMax && this.backoffMs == backoffMs
      ensures View() == Init(0).shared && popped == 0 && retries == 0
    {
      this.cfg, this.retryMax, this.backoffMs := cfg, retryMax, backoffMs;
      queue, rows, first := [], map[], map[];
      received, written, failed, dropped, retries, popped := 0, 0, 0, 0, 0, 0;
      completed, stop := {}, false;
    }

    method PutNowait(item: Item) returns (ok: bool)
      modifies this`queue
      ensures ok == HasRoom(cfg, old(View()))
      ensures View() == Perform(old(View()), if ok then Put(item) else Nothing)
    {
      ok := |queue| < cfg.queueMax;
      if ok { queue := queue + [item]; }
    }

    method GetNowait() returns (head: Option<Item>)
      modifies this`queue, this`popped
      ensures old(queue) == [] ==> head == None && View() == old(View()) && popped == old(popped)
      ensures old(queue) != []
              ==> head == Some(old(queue)[0]) && View() == Perform(old(View()), Take) && popped == old(popped) + 1
    {
      if queue == [] { return None; }
      head := Some(queue[0]);
      queue := queue[1..];
      popped := popped + 1;
    }

    /** The overflow of one producer that nobody disturbs: what is refused, evicted and counted. */
    method HandleOverflow(item: Item) returns (accepted: bool)
      requires cfg.queueMax >= 1 && |queue| == cfg.queueMax
      modifies this`queue, this`popped, this`completed, this`dropped
      ensures accepted == cfg.policy.DropOldest?
      ensures View() == var charged := Perform(old(View()), Charge(Size(item)));
                        if accepted then Perform(Perform(charged, Evict(old(popped))), Put(item)) else charged
      ensures popped == old(popped) + if accepted then 1 else 0
    {
      accepted := false;
      if cfg.policy.DropOldest? {
        var head := GetNowait();
        if head.Some? && head.value.FlushCommand? { completed := completed + {popped - 1}; }
        accepted := PutNowait(item);
      }
      dropped := dropped + Size(item);
    }

    /** A unit is received and queued, or, if the queue is full, handled by the overflow policy. */
    method Enqueue(item: Item) returns (accepted: bool)
      requires cfg.queueMax >= 1 && |queue| <= cfg.queueMax
      modifies this`received, this`queue, this`popped, this`completed, this`dropped
      ensures |queue| <= cfg.queueMax
      ensures accepted <==> HasRoom(cfg, old(View())) || cfg.policy.DropOldest?
      ensures received == old(received) + Size(item)
      ensures dropped == old(dropped) + if HasRoom(cfg, old(View())) then 0 else Size(item)
      ensures HasRoom(cfg, old(View())) ==>
                queue == old(queue) + [item] && completed == old(completed) && popped == old(popped)
      ensures !HasRoom(cfg, old(View())) && accepted ==>
                && queue == old(queue)[1..] + [item] && popped == old(popped) + 1
                && completed == old(completed) + if old(queue)[0].FlushCommand? then {old(popped)} else {}
      ensures !accepted ==> queue == old(queue) && completed == old(completed) && popped == old(popped)
    {
      received := received + Size(item);
      accepted := PutNowait(item);
      if !accepted { accepted := HandleOverflow(item); }
    }

    /** The worker's inner loop: buffer a unit's events and see whether they call for a flush. */
    method BufferEvents(events: seq<Event>, now: nat) returns (force: bool)
      modifies this`rows, this`first
      ensures View() == Perform(old(View()), Rebuffer(AddAll(old(View()).buffers, events, now)))
      ensures force == (Urgent(events) || SizeDue(cfg, old(View()).buffers, events, now))
    {
      hide AddAll, SizeDue, Urgent, BatchSize;
      ghost var before := View().buffers;
      BufferNone(cfg, before, now);
      var urgent, sizeDue := false, false;
      var i := 0;
      while i < |events|
        invariant 0 <= i <= |events|
        invariant Buffers(rows, first) == AddAll(before, events[..i], now)
        invariant urgent == Urgent(events[..i])
        invariant sizeDue == SizeDue(cfg, before, events[..i], now)
      {
        var e := events[i];
        BufferSnoc(cfg, before, events[..i], e, now);
        UrgentSnoc(events[..i], e);
        assert events[..i + 1] == events[..i] + [e];
        rows := rows[e.kind := RowsOf(rows, e.kind) + [e]];
        if e.kind !in first { first := first[e.kind := now]; }
        urgent := urgent || e.priority.High? || e.priority.Critical?;
        sizeDue := sizeDue || |rows[e.kind]| >= BatchSize(cfg, e.kind);
        i := i + 1;
      }
      assert events[..i] == events;
      force := urgent || sizeDue;
    }

    /** The rows of every due type leave the buffers for storage. */
    method CollectDue(now: int, force: bool) returns (grouped: Rows)
      modifies this`rows, this`first
      ensures var b := old(View()).buffers;
              var due := Due(cfg, b, now, force);
              grouped == Handed(b, due) && View() == Perform(old(View()), Rebuffer(Kept(b, due)))
    {
      ghost var b := View().buffers;
      var due := set kind | kind in first && (force || now - first[kind] >= Interval(cfg, kind));
      grouped := map[];
      var left := due;
      while left != {}
        invariant left <= due == Due(cfg, b, now, force)
        invariant grouped == Handed(b, due - left)
        invariant Buffers(rows, first) == Kept(b, due - left)
        decreases |left|
      {
        var kind :| kind in left;
        CollectOne(b, due - left, kind);
        assert due - (left - {kind}) == due - left + {kind};
        if kind in rows { grouped := grouped[kind := rows[kind]]; }
        rows, first := rows - {kind}, first - {kind};
        left := left - {kind};
      }
      assert due - {} == due;
    }

    /** One batch: at most retryMax + 1 attempts, waits of backoff, 2 backoff, 4 backoff, ...; it
        succeeds exactly when some attempt within that budget is accepted and every earlier one
        failed and waited undisturbed. */
    method WriteWithRetry(w: World) returns (ok: bool, attempts: nat, waitedMs: nat)
      modifies this`retries
      ensures 1 <= attempts <= retryMax + 1
      ensures waitedMs <= backoffMs * (Pow2(retryMax) - 1)
      ensures Waited(w, attempts - 1)
      ensures if ok then w.accepts(attempts - 1) else GivesUp(w, retryMax, attempts - 1)
      ensures ok <==> exists k: nat :: k <= retryMax && w.accepts(k) && Waited(w, k)
      ensures ok ==> waitedMs == backoffMs * (Pow2(attempts - 1) - 1) && retries == old(retries) + attempts - 1
    {
      var tried := 0;
      waitedMs := 0;
      while true
        invariant tried <= retryMax && Waited(w, tried)
        invariant waitedMs == backoffMs * (Pow2(tried) - 1) && retries == old(retries) + tried
        decreases retryMax - tried
      {
        Pow2Grows(tried, retryMax);
        Scaled(backoffMs, Pow2(tried) - 1, Pow2(retryMax) - 1);
        if w.accepts(tried) { return true, tried + 1, waitedMs; }
        if tried >= retryMax || w.stopped(tried) {
          return false, tried + 1, waitedMs;
        }
        waitedMs := waitedMs + backoffMs * Pow2(tried);
        retries := retries + 1;
        assert waitedMs == backoffMs * (Pow2(tried + 1) - 1) by { Doubled(backoffMs, Pow2(tried)); }
        if w.woken(tried) {
          Pow2Grows(tried + 1, retryMax);
          Scaled(backoffMs, Pow2(tried + 1) - 1, Pow2(retryMax) - 1);
          return false, tried + 1, waitedMs;
        }
        tried := tried + 1;
      }
    }

    /** Flush what is due: the rows leave the buffers and are then counted once, written or failed. */
    method FlushDue(now: int, force: bool, w: World) returns (grouped: Rows, ok: bool)
      modifies this`rows, this`first, this`written, this`failed, this`retries
      ensures var b := old(View()).buffers;
              var due := Due(cfg, b, now, force);
              var kept := Perform(old(View()), Rebuffer(Kept(b, due)));
              && grouped == Handed(b, due)
              && (grouped == map[] ==> View() == kept)
              && (grouped != map[] ==> View() == Perform(kept, Settle(Total(grouped, RowCount), ok)))
      ensures grouped != map[] ==> (ok <==> exists k: nat :: k <= retryMax && w.accepts(k) && Waited(w, k))
    {
      ok := true;
      grouped := CollectDue(now, force);
      if grouped == map[] { return; }
      var events := CountRows(grouped);
      var attempts, waitedMs;
      ok, attempts, waitedMs := WriteWithRetry(w);
      if ok { written := written + events; } else { failed := failed + events; }
    }

    /** One round of the worker: a unit or a flush command off the queue, or nothing at the timeout;
        then what is due is flushed, and the command is signalled after its flush. */
    method Round(now: nat, later: nat, w: World) returns (handed: Rows, ok: bool)
      modifies this`queue, this`popped, this`rows, this`first, this`written, this`failed, this`retries, this`completed
      ensures var b, waiting := old(View()).buffers, old(queue);
              if waiting == [] then
                (View().buffers, handed) == Pass(cfg, b, [], now, 0, false) && queue == []
                  && completed == old(completed)
              else
                var item := waiting[0];
                var events := EventsOf(item);
                && (View().buffers, handed)
                   == Pass(cfg, b, events, now, later,
                           item.FlushCommand? || Urgent(events) || SizeDue(cfg, b, events, now))
                && queue == waiting[1..] && popped == old(popped) + 1
                && completed == (if item.FlushCommand? then old(completed) + {old(popped)} else old(completed))
      ensures written + failed == old(written) + old(failed) + Total(handed, RowCount)
    {
      hide Total, Urgent, SizeDue, Due, Handed, Kept;
      var head := GetNowait();
      if head.None? {
        BufferNone(cfg, View().buffers, now);
        handed, ok := FlushDue(now, false, w);
      } else if head.value.FlushCommand? {
        BufferNone(cfg, View().buffers, now);
        handed, ok := FlushDue(now + later, true, w);
        completed := completed + {popped - 1};
      } else {
        var force := BufferEvents(EventsOf(head.value), now);
        handed, ok := FlushDue(now + later, force, w);
      }
      NoRows();
    }

    /** Persistence without the worker: a unit is written at once and counted, written or failed. */
    method WriteSynchronously(events: seq<Event>, w: World) returns (ok: bool)
      modifies this`received, this`written, this`failed, this`retries
      ensures View() == Perform(Perform(old(View()), Receive(|events|)), Settle(|events|, ok))
      ensures ok <==> exists k: nat :: k <= retryMax && w.accepts(k) && Waited(w, k)
    {
      received := received + |events|;
      var attempts, waitedMs;
      ok, attempts, waitedMs := WriteWithRetry(w);
      if ok { written := written + |events|; } else { failed := failed + |events|; }
    }

    /** How long the worker may sleep: at most 100 ms, and past no deadline by more than the
        1 ms it always sleeps. */
    method NextTimeout(now: nat) returns (ms: int)
      ensures 1 <= ms <= 100
      ensures rows != map[]
              ==> forall kind :: kind in first ==> now + ms <= first[kind] + Interval(cfg, kind) || ms == 1
      ensures ms == 1 || ms == 100 || exists kind :: kind in first && now + ms == first[kind] + Interval(cfg, kind)
    {
      if rows == map[] { return 100; }
      var least := 100;
      var left := first.Keys;
      while left != {}
        invariant left <= first.Keys && least <= 100
        invariant forall kind :: kind in first && kind !in left ==> now + least <= first[kind] + Interval(cfg, kind)
        invariant least == 100 || exists kind :: kind in first && now + least == first[kind] + Interval(cfg, kind)
        decreases |left|
      {
        var kind :| kind in left;
        var due := first[kind] + Interval(cfg, kind) - now;
        if due < least { least := due; }
        left := left - {kind};
      }
      ms := if least < 1 then 1 else least;
    }
  }

  method CountRows(rows: Rows) returns (n: nat)
    ensures n == Total(rows, RowCount)
  {
    n := 0;
    var left := rows;
    while left != map[]
      invariant n + Total(left, RowCount) == Total(rows, RowCount)
      decreases |left|
    {
      var kind :| kind in left;
      TotalRemove(left, RowCount, kind);
      n := n + |left[kind]|;
      left := left - {kind};
    }
  }

  lemma Scaled(a: nat, b: nat, c: nat)
    requires b <= c
    ensures a * b <= a * c
  {
  }

  lemma Doubled(a: nat, p: nat)
    requires p >= 1
    ensures a * (p - 1) + a * p == a * (2 * p - 1)
  {
  }
}
