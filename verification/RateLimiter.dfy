/** The rate limiter over time: `rate_check` in
    `apps/persistence/lib/persistence/cache.ex` and its caller
    `apps/gateway/lib/gateway/rate_limiter.ex`, for any interleaving of the
    calls of any users. */
module RateLimiter {
  import opened Base
  import opened Cache

  datatype Call = Call(who: CacheKey, now: nat)

  /** The counters after the calls, in order. */
  function After(calls: seq<Call>): Counters {
    if calls == [] then map[]
    else
      var n := |calls| - 1;
      Counted(After(calls[..n]), calls[n].who, calls[n].now)
  }

  /** The answer that call `i` got. */
  predicate Allowed(calls: seq<Call>, i: nat, limit: nat)
    requires i < |calls|
  {
    Hits(After(calls[..i]), calls[i].who, calls[i].now) <= limit
  }

  /** The clock of the cache does not go backwards. */
  predicate InOrder(calls: seq<Call>) {
    forall i, j | 0 <= i < j < |calls| :: calls[i].now <= calls[j].now
  }

  function CallsOf(calls: seq<Call>, who: CacheKey, from: nat, end: nat): set<nat>
    requires end <= |calls|
  {
    set i: nat | from <= i < end && calls[i].who == who
  }

  function AllowedOf(calls: seq<Call>, who: CacheKey, from: nat, end: nat, limit: nat): set<nat>
    requires end <= |calls|
  {
    set i: nat | from <= i < end && calls[i].who == who && Allowed(calls, i, limit)
  }

  lemma AfterStep(calls: seq<Call>, n: nat)
    requires n < |calls|
    ensures After(calls[..n + 1]) == Counted(After(calls[..n]), calls[n].who, calls[n].now)
  {
    assert calls[..n + 1][..n] == calls[..n];
  }

  lemma OneMoreCall(calls: seq<Call>, who: CacheKey, from: nat, n: nat, limit: nat)
    requires from <= n < |calls|
    ensures
      CallsOf(calls, who, from, n + 1)
      == CallsOf(calls, who, from, n) + if calls[n].who == who then {n} else {}
    ensures
      AllowedOf(calls, who, from, n + 1, limit)
      == AllowedOf(calls, who, from, n, limit) + if calls[n].who == who && Allowed(calls, n, limit) then {n} else {}
  {
  }

  // ---- Windows ----

  /** `n` allowed calls in a window that began at `start`. */
  predicate Counts(m: Counters, who: CacheKey, start: nat, n: nat, limit: nat) {
    n == 0 || (who in m && m[who].expiresAt >= start + RATE_WINDOW_MS && n <= Min(m[who].count, limit))
  }

  lemma CountsStep(m: Counters, who: CacheKey, start: nat, n: nat, limit: nat, call: Call)
    requires Counts(m, who, start, n, limit) && start <= call.now < start + RATE_WINDOW_MS
    ensures
      var more := call.who == who && Hits(m, who, call.now) <= limit;
      Counts(Counted(m, call.who, call.now), who, start, if more then n + 1 else n, limit)
  {
  }

  lemma {:induction false} WindowCounts(calls: seq<Call>, who: CacheKey, from: nat, end: nat, limit: nat)
    requires InOrder(calls) && from < end <= |calls|
    requires calls[end - 1].now < calls[from].now + RATE_WINDOW_MS
    ensures Counts(After(calls[..end]), who, calls[from].now, |AllowedOf(calls, who, from, end, limit)|, limit)
    decreases end
  {
    var n := end - 1;
    AfterStep(calls, n);
    OneMoreCall(calls, who, from, n, limit);
    if from < n {
      WindowCounts(calls, who, from, n, limit);
    } else {
      assert AllowedOf(calls, who, from, n, limit) == {};
    }
    CountsStep(After(calls[..n]), who, calls[from].now, |AllowedOf(calls, who, from, n, limit)|, limit, calls[n]);
  }

  /** No window shorter than a second holds more than `limit` allowed calls of a
      user, wherever it starts. */
  lemma WindowBound(calls: seq<Call>, who: CacheKey, from: nat, end: nat, limit: nat)
    requires InOrder(calls) && from < end <= |calls|
    requires calls[end - 1].now < calls[from].now + RATE_WINDOW_MS
    ensures |AllowedOf(calls, who, from, end, limit)| <= limit
  {
    WindowCounts(calls, who, from, end, limit);
  }

  // ---- Busy periods ----

  /** Calls of a user that follow a quiet second and each other within one. */
  predicate BusyPeriod(calls: seq<Call>, who: CacheKey, from: nat, end: nat) {
    && from < end <= |calls|
    && calls[from].who == who
    && (forall j | 0 <= j < from && calls[j].who == who :: calls[j].now + RATE_WINDOW_MS <= calls[from].now)
    && (forall i | from < i < end && calls[i].who == who ::
          exists j :: from <= j < i && calls[j].who == who && calls[i].now < calls[j].now + RATE_WINDOW_MS)
  }

  lemma {:induction false} ExpiryFollowsLastCall(calls: seq<Call>, who: CacheKey, n: nat)
    requires InOrder(calls) && n <= |calls|
    ensures
      var m := After(calls[..n]);
      && (who in m ==>
            exists j :: 0 <= j < n && calls[j].who == who && m[who].expiresAt == calls[j].now + RATE_WINDOW_MS)
      && (forall j | 0 <= j < n && calls[j].who == who :: who in m && m[who].expiresAt >= calls[j].now + RATE_WINDOW_MS)
  {
    if n > 0 {
      ExpiryFollowsLastCall(calls, who, n - 1);
      AfterStep(calls, n - 1);
    }
  }

  lemma {:induction false} BusyCounts(calls: seq<Call>, who: CacheKey, from: nat, end: nat, n: nat)
    requires InOrder(calls) && BusyPeriod(calls, who, from, end) && from < n <= end
    ensures
      var m := After(calls[..n]);
      who in m && m[who].count == |CallsOf(calls, who, from, n)|
  {
    var i := n - 1;
    AfterStep(calls, i);
    OneMoreCall(calls, who, from, i, 0);
    ExpiryFollowsLastCall(calls, who, i);
    if from < i {
      BusyCounts(calls, who, from, end, i);
    } else {
      assert CallsOf(calls, who, from, i) == {};
    }
  }

  /** The allowed calls of a busy period are exactly its first `limit`: a denied
      user who keeps calling stays denied. */
  lemma BusyPeriodAllowsFirst(calls: seq<Call>, who: CacheKey, from: nat, end: nat, i: nat, limit: nat)
    requires InOrder(calls) && BusyPeriod(calls, who, from, end)
    requires from <= i < end && calls[i].who == who
    ensures Allowed(calls, i, limit) <==> |CallsOf(calls, who, from, i + 1)| <= limit
  {
    AfterStep(calls, i);
    BusyCounts(calls, who, from, end, i + 1);
  }
}
