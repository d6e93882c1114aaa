/** `enforce_rate_limit` of backend/app/security.py: a sliding window of accepted requests per
    client and scope, with stale keys evicted when there are too many. */
module RateLimiter {
  import opened Sequences

  datatype Key = Key(client: string, scope: string)

  /** One call, and whether it was let through. */
  datatype Attempt = Attempt(key: Key, now: real, limit: nat, allowed: bool)

  const MAX_KEYS := 4096

  /** Seconds since an accepted request fewer than the window. */
  function Within(now: real, window: real): real -> bool { (ts: real) => now - ts < window }

  function Recent(history: seq<real>, now: real, window: real): seq<real> { Filter(history, Within(now, window)) }

  function AtLeastOneSecond(window: real): real { if window < 1.0 then 1.0 else window }

  /** not history or max(history) < cutoff */
  predicate Stale(history: seq<real>, now: real, window: real) {
    forall i :: 0 <= i < |history| ==> history[i] < now - AtLeastOneSecond(window)
  }

  /** The keys left when, from the oldest on, up to `excess` stale ones are forgotten. */
  function Spared(order: seq<Key>, histories: map<Key, seq<real>>, now: real, window: real, excess: nat): seq<Key> {
    if order == [] then []
    else if excess > 0 && Stale(HistoryOf(histories, order[0]), now, window)
    then Spared(order[1..], histories, now, window, excess - 1)
    else [order[0]] + Spared(order[1..], histories, now, window, excess)
  }

  lemma SparedNone(histories: map<Key, seq<real>>, now: real, window: real, excess: nat)
    ensures Spared([], histories, now, window, excess) == []
  {
  }

  lemma SparedFirst(order: seq<Key>, histories: map<Key, seq<real>>, now: real, window: real, excess: nat)
    requires order != []
    ensures Spared(order, histories, now, window, excess)
            == if excess > 0 && Stale(HistoryOf(histories, order[0]), now, window)
               then Spared(order[1..], histories, now, window, excess - 1)
               else [order[0]] + Spared(order[1..], histories, now, window, excess)
  {
  }

  /** Either no stale key is left, or exactly `excess` keys are gone. */
  lemma {:induction false} SparedAre(order: seq<Key>, histories: map<Key, seq<real>>, now: real, window: real,
                                     excess: nat)
    ensures var kept := Spared(order, histories, now, window, excess);
            && |order| - excess <= |kept| <= |order|
            && (|kept| == |order| - excess
                || forall i :: 0 <= i < |kept| ==> !Stale(HistoryOf(histories, kept[i]), now, window))
  {
    hide Stale;
    if order != [] {
      if excess > 0 && Stale(HistoryOf(histories, order[0]), now, window) {
        SparedAre(order[1..], histories, now, window, excess - 1);
      } else {
        SparedAre(order[1..], histories, now, window, excess);
      }
    }
  }

  function HistoryOf(histories: map<Key, seq<real>>, key: Key): seq<real> {
    if key in histories then histories[key] else []
  }

  function AcceptedTimes(log: seq<Attempt>, key: Key): seq<real> {
    if log == [] then []
    else
      var a := log[|log| - 1];
      if a.key == key && a.allowed then AcceptedTimes(log[..|log| - 1], key) + [a.now]
      else AcceptedTimes(log[..|log| - 1], key)
  }

  // ----- what the verdicts must be -----

  /** The clock never goes back, and a request is refused exactly when `limit` requests of its client
      and scope were accepted within the window before it. */
  ghost predicate Honest(log: seq<Attempt>, window: real) {
    && (forall i, j :: 0 <= i < j < |log| ==> log[i].now <= log[j].now)
    && (forall i :: 0 <= i < |log| ==>
          (log[i].allowed <==> |Recent(AcceptedTimes(log[..i], log[i].key), log[i].now, window)| < log[i].limit))
  }

  function Inside(from: real, window: real): real -> bool { (ts: real) => from <= ts < from + window }

  lemma {:induction false} FilterShorter<T>(s: seq<T>, strong: T -> bool, weak: T -> bool)
    requires forall i :: 0 <= i < |s| && strong(s[i]) ==> weak(s[i])
    ensures |Filter(s, strong)| <= |Filter(s, weak)|
  {
    if s != [] { FilterShorter(s[..|s| - 1], strong, weak); }
  }

  lemma HonestInit(log: seq<Attempt>, window: real)
    requires Honest(log, window) && log != []
    ensures var init, a := log[..|log| - 1], log[|log| - 1];
            Honest(init, window) && (a.allowed <==> |Recent(AcceptedTimes(init, a.key), a.now, window)| < a.limit)
  {
    hide Recent, AcceptedTimes;
    var n := |log| - 1;
    assert forall i :: 0 <= i < n ==> log[..n][i] == log[i] && log[..n][..i] == log[..i];
  }

  /** Any half-open window, wherever it starts, holds at most `limit` accepted requests of one client
      and scope. */
  lemma {:induction false} WindowNeverExceedsLimit(log: seq<Attempt>, window: real, key: Key, limit: nat, from: real)
    requires Honest(log, window)
    requires forall i :: 0 <= i < |log| && log[i].key == key ==> log[i].limit == limit
    ensures |Filter(AcceptedTimes(log, key), Inside(from, window))| <= limit
  {
    hide Honest;
    if log != [] {
      var init, a := log[..|log| - 1], log[|log| - 1];
      HonestInit(log, window);
      WindowNeverExceedsLimit(init, window, key, limit, from);
      if a.key == key && a.allowed {
        OneMoreInside(AcceptedTimes(init, key), a.now, window, limit, from);
      }
    }
  }

  lemma OneMoreInside(times: seq<real>, now: real, window: real, limit: nat, from: real)
    requires |Filter(times, Inside(from, window))| <= limit && |Recent(times, now, window)| < limit
    ensures |Filter(times + [now], Inside(from, window))| <= limit
  {
    FilterSnoc(times, now, Inside(from, window));
    if Inside(from, window)(now) {
      FilterShorter(times, Inside(from, window), Within(now, window));
    }
  }

  // ----- forgetting -----

  /** With one window for all calls a stale history has nothing left that counts. */
  lemma {:induction false} StaleCountsForNothing(history: seq<real>, now: real, window: real, later: real)
    requires Stale(history, now, window) && now <= later
    ensures Recent(history, later, window) == []
  {
    FilterNone(history, Within(later, window));
  }

  /** Evicting on behalf of a call with window `w` is harmless for a window `v` exactly when `v` is no
      longer than `w` and than one second: with mixed windows it would lift a limit. */
  lemma EvictionNeedsACommonWindow(now: real, w: real, v: real)
    ensures (forall history :: Stale(history, now, w) ==> Recent(history, now, v) == []) <==> v <= AtLeastOneSecond(w)
  {
    if v <= AtLeastOneSecond(w) {
      forall history | Stale(history, now, w) ensures Recent(history, now, v) == [] {
        FilterNone(history, Within(now, v));
      }
    } else {
      var m := AtLeastOneSecond(w);
      var ts := now - (m + v) / 2.0;
      FilterAll([ts], Within(now, v));
      assert Stale([ts], now, w) && Recent([ts], now, v) == [ts];
    }
  }

  /** From `clock` on, what the dictionary remembers of a key counts as much as its whole history. */
  ghost predicate Faithful(histories: map<Key, seq<real>>, log: seq<Attempt>, window: real, clock: real) {
    forall key, t :: t >= clock
      ==> Recent(HistoryOf(histories, key), t, window) == Recent(AcceptedTimes(log, key), t, window)
  }

  lemma EvictionIsFaithful(before: map<Key, seq<real>>, after: map<Key, seq<real>>, log: seq<Attempt>, window: real,
                           clock: real, now: real)
    requires clock <= now && Faithful(before, log, window, clock)
    requires forall key :: HistoryOf(after, key) == HistoryOf(before, key)
                           || (HistoryOf(after, key) == [] && Stale(HistoryOf(before, key), now, window))
    ensures Faithful(after, log, window, now)
  {
    hide Recent, HistoryOf, Stale, AcceptedTimes;
    forall key, t | t >= now
      ensures Recent(HistoryOf(after, key), t, window) == Recent(AcceptedTimes(log, key), t, window) {
      if HistoryOf(after, key) != HistoryOf(before, key) {
        StaleCountsForNothing(HistoryOf(before, key), now, window, t);
        RecentOfNone(t, window);
      }
    }
  }

  lemma RecentOfNone(now: real, window: real)
    ensures Recent([], now, window) == []
  {
  }

  /** Pruning the history of the key and appending an accepted time loses nothing that still counts. */
  lemma AttemptIsFaithful(before: map<Key, seq<real>>, log: seq<Attempt>, window: real, a: Attempt)
    requires Faithful(before, log, window, a.now)
    ensures Faithful(if a.allowed then before[a.key := Recent(HistoryOf(before, a.key), a.now, window) + [a.now]]
                     else before,
                     log + [a], window, a.now)
  {
    var pruned := Recent(HistoryOf(before, a.key), a.now, window);
    var after := if a.allowed then before[a.key := pruned + [a.now]] else before;
    forall key, t | t >= a.now
      ensures Recent(HistoryOf(after, key), t, window) == Recent(AcceptedTimes(log + [a], key), t, window) {
      assert Recent(HistoryOf(before, key), t, window) == Recent(AcceptedTimes(log, key), t, window);
      AcceptedSnoc(log, a, key);
      if key == a.key && a.allowed {
        FilterTwice(HistoryOf(before, key), Within(a.now, window), Within(t, window));
        FilterSnoc(pruned, a.now, Within(t, window));
        FilterSnoc(AcceptedTimes(log, key), a.now, Within(t, window));
      }
    }
  }

  lemma AcceptedSnoc(log: seq<Attempt>, a: Attempt, key: Key)
    ensures AcceptedTimes(log + [a], key)
            == if a.key == key && a.allowed then AcceptedTimes(log, key) + [a.now] else AcceptedTimes(log, key)
  {
    assert (log + [a])[..|log|] == log;
  }

  lemma HonestGrows(log: seq<Attempt>, window: real, a: Attempt)
    requires Honest(log, window) && forall i :: 0 <= i < |log| ==> log[i].now <= a.now
    requires a.allowed <==> |Recent(AcceptedTimes(log, a.key), a.now, window)| < a.limit
    ensures Honest(log + [a], window)
  {
    hide Recent, AcceptedTimes;
    var longer := log + [a];
    assert longer[..|log|] == log;
    forall i | 0 <= i < |log| ensures longer[i] == log[i] && longer[..i] == log[..i] {}
  }

  // ----- the limiter -----

  /** The first `i` keys are seen: some stale ones are gone, the others kept, in order. */
  ghost predicate Seen(order: seq<Key>, i: nat, before: map<Key, seq<real>>, after: map<Key, seq<real>>, gone: set<Key>,
                       kept: seq<Key>, now: real, window: real) {
    && i <= |order| && after == before - gone && Distinct(kept)
    && (forall key :: key in gone ==> key in order[..i] && Stale(HistoryOf(before, key), now, window))
    && (forall key :: key in kept <==> key in order[..i] && key !in gone)
  }

  lemma SeenNone(order: seq<Key>, histories: map<Key, seq<real>>, now: real, window: real)
    ensures Seen(order, 0, histories, histories, {}, [], now, window)
  {
  }

  lemma SeeOne(order: seq<Key>, i: nat, before: map<Key, seq<real>>, after: map<Key, seq<real>>, gone: set<Key>,
               kept: seq<Key>, now: real, window: real)
    requires Seen(order, i, before, after, gone, kept, now, window) && i < |order|
    requires Distinct(order) && forall key :: key in before <==> key in order
    ensures var key := order[i];
            && key in after && after[key] == HistoryOf(before, key)
            && (Stale(after[key], now, window) ==>
                  Seen(order, i + 1, before, after - {key}, gone + {key}, kept, now, window))
            && Seen(order, i + 1, before, after, gone, kept + [key], now, window)
  {
    hide Stale;
    var key := order[i];
    assert order[..i + 1] == order[..i] + [key];
    assert key !in order[..i];
    assert key !in kept && key !in gone;
  }

  lemma SeenAll(order: seq<Key>, before: map<Key, seq<real>>, after: map<Key, seq<real>>, gone: set<Key>,
                kept: seq<Key>,
                now: real, window: real)
    requires Seen(order, |order|, before, after, gone, kept, now, window)
             && forall key :: key in before <==> key in order
    ensures Distinct(kept) && forall key :: key in after <==> key in kept
    ensures forall key :: HistoryOf(after, key) == HistoryOf(before, key)
                          || (HistoryOf(after, key) == [] && Stale(HistoryOf(before, key), now, window))
  {
    hide Stale;
    assert order[..|order|] == order;
  }

  class Limiter {
    /** The dictionary and its insertion order. */
    var histories: map<Key, seq<real>>
    var order: seq<Key>
    ghost const window: real
    ghost var log: seq<Attempt>
    ghost var clock: real

    ghost predicate Valid()
      reads this
    {
      && Distinct(order) && (forall key :: key in histories <==> key in order)
      && (forall i :: 0 <= i < |log| ==> log[i].now <= clock)
      && Honest(log, window) && Faithful(histories, log, window, clock)
    }

    constructor (window: real)
      ensures Valid() && log == [] && this.window == window
    {
      histories, order := map[], [];
      this.window := window;
      log, clock := [], 0.0;
    }

    /** At most `excess` stale keys, oldest first, are forgotten. */
    method EvictStale(now: real, windowSec: real, excess: nat)
      requires Distinct(order) && forall key :: key in histories <==> key in order
      modifies this`histories, this`order
      ensures Distinct(order) && forall key :: key in histories <==> key in order
      ensures forall key :: HistoryOf(histories, key) == HistoryOf(old(histories), key)
                            || (HistoryOf(histories, key) == []
                                && Stale(HistoryOf(old(histories), key), now, windowSec))
      ensures order == Spared(old(order), old(histories), now, windowSec, excess)
    {
      hide Stale, Spared, HistoryOf, Seen, Distinct;
      ghost var before, gone, all := histories, {}, Spared(order, histories, now, windowSec, excess);
      var kept: seq<Key>, i, evicted := [], 0, 0;
      SeenNone(order, histories, now, windowSec);
      assert order[0..] == order && [] + all == all;
      while i < |order|
        invariant i <= |order| && order == old(order) && evicted <= excess
        invariant Seen(order, i, before, histories, gone, kept, now, windowSec)
        invariant kept + Spared(order[i..], before, now, windowSec, excess - evicted) == all
      {
        var key := order[i];
        SeeOne(order, i, before, histories, gone, kept, now, windowSec);
        SparedFirst(order[i..], before, now, windowSec, excess - evicted);
        assert order[i..][1..] == order[i + 1..] && order[i..][0] == key;
        if evicted < excess && Stale(histories[key], now, windowSec) {
          histories := histories - {key};
          evicted := evicted + 1;
          gone := gone + {key};
        } else {
          assert kept + ([key] + Spared(order[i + 1..], before, now, windowSec, excess - evicted)) == all;
          kept := kept + [key];
        }
        i := i + 1;
      }
      SparedNone(before, now, windowSec, excess - evicted);
      assert order[i..] == [] && kept + [] == kept;
      SeenAll(order, before, histories, gone, kept, now, windowSec);
      order := kept;
    }

    /** One call. It is let through exactly when fewer than `limit` requests of its client and scope
        were accepted within the window; evictions make no difference. */
    method Enforce(key: Key, limit: nat, windowSec: real, now: real) returns (allowed: bool)
      requires Valid() && clock <= now && windowSec == window
      modifies this
      ensures Valid() && clock == now && log == old(log) + [Attempt(key, now, limit, allowed)]
      ensures allowed <==> |Recent(AcceptedTimes(old(log), key), now, window)| < limit
      ensures var spared := if |old(order)| <= 4096 then old(order)
                            else Spared(old(order), old(histories), now, windowSec, |old(order)| - 4096);
              order == if allowed && key !in spared then spared + [key] else spared
    {
      hide Honest, Recent, AcceptedTimes, Stale, Spared;
      if |order| > MAX_KEYS { EvictStale(now, windowSec, |order| - MAX_KEYS); }
      EvictionIsFaithful(old(histories), histories, log, window, clock, now);
      var history := Recent(HistoryOf(histories, key), now, windowSec);
      allowed := |history| < limit;
      ghost var before := histories;
      if allowed {
        if key !in histories { order := order + [key]; }
        histories := histories[key := history + [now]];
      }
      AttemptIsFaithful(before, log, window, Attempt(key, now, limit, allowed));
      HonestGrows(log, window, Attempt(key, now, limit, allowed));
      log, clock := log + [Attempt(key, now, limit, allowed)], now;
    }
  }
}
