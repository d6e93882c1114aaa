/** When a request is let through, counted over the log of calls. */
module RateLimiterLaws {
  import opened Sequences
  import opened RateLimiter

  /** An accepted call of this client and scope less than `window` seconds ago. */
  function AcceptedLately(key: Key, now: real, window: real): Attempt -> bool {
    (a: Attempt) => a.key == key && a.allowed && now < a.now + window
  }

  lemma {:induction false} RecentAreCounted(log: seq<Attempt>, key: Key, now: real, window: real)
    ensures |Recent(AcceptedTimes(log, key), now, window)| == |Filter(log, AcceptedLately(key, now, window))|
  {
    if log != [] {
      hide Filter;
      var init, a := log[..|log| - 1], log[|log| - 1];
      assert log == init + [a];
      RecentAreCounted(init, key, now, window);
      FilterSnoc(init, a, AcceptedLately(key, now, window));
      FilterSnoc(AcceptedTimes(init, key), a.now, Within(now, window));
    } else {
      FilterNone([], Within(now, window));
      FilterNone([], AcceptedLately(key, now, window));
    }
  }

  /** Every call of an honest log was let through exactly when fewer than its limit were accepted before it, of the
      same client and scope, within the window. */
  lemma VerdictsAre(log: seq<Attempt>, window: real, i: nat)
    requires Honest(log, window) && i < |log|
    ensures log[i].allowed <==> |Filter(log[..i], AcceptedLately(log[i].key, log[i].now, window))| < log[i].limit
  {
    RecentAreCounted(log[..i], log[i].key, log[i].now, window);
  }

  /** A history is stale when every request in it is older than the window, and than one second. */
  lemma StaleMeansOld(history: seq<real>, now: real, window: real)
    ensures Stale(history, now, window)
            <==> forall ts :: ts in history ==> now - ts > window && now - ts > 1.0
  {
    if forall ts :: ts in history ==> now - ts > window && now - ts > 1.0 {
      assert forall i :: 0 <= i < |history| ==> history[i] in history;
    }
  }
}
