/**
 * The rate limiter in front of the upstream card API: per `ip:endpoint` sliding
 * 60-second windows with burst and per-minute limits, exponential backoff after
 * failures, and one global window and backoff that apply to external traffic.
 * A second class spaces dispatches of upstream requests.
 *
 * Both Python clocks (`time.time()` and `datetime.now()`) are one explicit `now`,
 * in seconds.
 */
module RateLimiting {
  import opened Common
  import opened Text
  import opened Tally

  /** Length of every sliding window, in seconds. */
  const Window: real := 60.0
  /** Requests per window the upstream API tolerates across all clients. */
  const GlobalLimit: nat := 20
  /** Retry-after returned when the burst limit is hit. */
  const BurstRetryAfter: real := 60.0

  /** The key the limiter files a client under. */
  function ClientKey(clientIp: string, endpoint: string): (key: string)
    ensures |key| == |clientIp| + 1 + |endpoint|
    ensures key[..|clientIp|] == clientIp && key[|clientIp|] == ':' && key[|clientIp| + 1..] == endpoint
  {
    clientIp + ":" + endpoint
  }

  /** Distinct clients get distinct keys, as long as endpoint names hold no colon. */
  lemma ClientKeyInjective(ip1: string, ep1: string, ip2: string, ep2: string)
    requires ':' !in ep1 && ':' !in ep2
    requires ClientKey(ip1, ep1) == ClientKey(ip2, ep2)
    ensures ip1 == ip2 && ep1 == ep2
  {
    var k := ClientKey(ip1, ep1);
    if |ip1| != |ip2| {
      assert false;
    }
    assert ip1 == k[..|ip1|];
  }

  predicate Sorted(s: seq<real>) {
    forall i, j :: 0 <= i < j < |s| ==> s[i] <= s[j]
  }

  /** What remains of a window once the timestamps older than `cutoff` are popped from its front. */
  function DropBefore(times: seq<real>, cutoff: real): (r: seq<real>)
    ensures |r| <= |times|
    ensures forall i :: 0 <= i < |times| - |r| ==> times[i] < cutoff
    ensures r == [] || r[0] >= cutoff
  {
    if times != [] && times[0] < cutoff then DropBefore(times[1..], cutoff) else times
  }

  /** What `DropBefore` keeps is a suffix of the window. */
  lemma {:induction false} DropBeforeIsSuffix(times: seq<real>, cutoff: real)
    ensures DropBefore(times, cutoff) == times[|times| - |DropBefore(times, cutoff)|..]
    decreases |times|
  {
    if times != [] && times[0] < cutoff {
      DropBeforeIsSuffix(times[1..], cutoff);
      assert times[1..][|times| - 1 - |DropBefore(times[1..], cutoff)|..] == times[|times| - |DropBefore(times, cutoff)|..];
    }
  }

  /** A sorted window stays sorted, and then every timestamp left is at or after the cutoff. */
  lemma DropBeforeSorted(times: seq<real>, cutoff: real)
    requires Sorted(times)
    ensures Sorted(DropBefore(times, cutoff))
    ensures forall i :: 0 <= i < |DropBefore(times, cutoff)| ==> DropBefore(times, cutoff)[i] >= cutoff
  {
    var r := DropBefore(times, cutoff);
    DropBeforeIsSuffix(times, cutoff);
    forall i | 0 <= i < |r| ensures r[i] >= cutoff {
      assert r[i] == times[|times| - |r| + i];
      assert r[0] == times[|times| - |r|];
    }
  }

  /** A timestamp at or after the cutoff that joins the back of a window survives the next clean. */
  lemma {:induction false} DropBeforeAppend(times: seq<real>, x: real, cutoff: real)
    requires x >= cutoff
    ensures DropBefore(times + [x], cutoff) == DropBefore(times, cutoff) + [x]
  {
    if times != [] && times[0] < cutoff {
      assert (times + [x])[1..] == times[1..] + [x];
      DropBeforeAppend(times[1..], x, cutoff);
    }
  }

  /** `_clean_old_requests`: pops timestamps older than `cutoff` from the front of the window. */
  method CleanOld(times: seq<real>, cutoff: real) returns (r: seq<real>)
    ensures r == DropBefore(times, cutoff)
  {
    r := times;
    while r != [] && r[0] < cutoff
      invariant |r| <= |times| && r == times[|times| - |r|..]
      invariant DropBefore(r, cutoff) == DropBefore(times, cutoff)
      decreases |r|
    {
      r := r[1..];
    }
  }

  /**
   * The outcome of `check_rate_limit`: `(True, None)`, `(False, retry_after)`, or the
   * IndexError raised when the per-minute branch reads the front of an empty window
   * (possible only with `requests_per_minute <= 0`).
   */
  datatype Decision = Allowed | Denied(retryAfter: real) | IndexError

  /** The window checks of `check_rate_limit`, in their order: burst, per minute, global. */
  function WindowDecision(window: seq<real>, global: seq<real>, external: bool, now: real,
                          burstLimit: int, requestsPerMinute: int): (d: Decision)
    ensures d == Allowed <==> |window| < burstLimit && |window| < requestsPerMinute && (!external || |global| < GlobalLimit)
    ensures d.IndexError? <==> |window| == 0 && burstLimit > 0 && requestsPerMinute <= 0
    ensures d.Denied? ==> d.retryAfter >= 1.0
    ensures d.Denied? && |window| >= burstLimit ==> d.retryAfter == BurstRetryAfter
  {
    if |window| >= burstLimit then Denied(BurstRetryAfter)
    else if |window| >= requestsPerMinute then
      if window == [] then IndexError else Denied(MaxReal(Window - (now - window[0]), 1.0))
    else if external && |global| >= GlobalLimit then Denied(MaxReal(Window - (now - global[0]), 1.0))
    else Allowed
  }

  /**
   * With a burst limit no larger than the per-minute limit (the defaults are 10 and 60)
   * the per-minute branch is never the one that denies.
   */
  lemma PerMinuteUnreachable(window: seq<real>, global: seq<real>, external: bool, now: real,
                             burstLimit: int, requestsPerMinute: int)
    requires burstLimit <= requestsPerMinute
    ensures WindowDecision(window, global, external, now, burstLimit, requestsPerMinute) ==
      if |window| >= burstLimit then Denied(BurstRetryAfter)
      else if external && |global| >= GlobalLimit then Denied(MaxReal(Window - (now - global[0]), 1.0))
      else Allowed
  {
  }

  /** The limiter's configuration. */
  datatype Limits = Limits(requestsPerMinute: int, burstLimit: int, backoffFactor: real, maxBackoff: real)

  /** Everything the limiter remembers. */
  datatype LimiterState = LimiterState(
    history: map<string, seq<real>>,
    failures: map<string, nat>,
    backoffUntil: map<string, real>,
    globalTimes: seq<real>,
    globalFailures: nat,
    globalBackoffUntil: Option<real>)

  function EmptyState(): LimiterState {
    LimiterState(map[], map[], map[], [], 0, None)
  }

  /** A `defaultdict(deque)` read: a missing key reads as an empty window. */
  function Window_(m: map<string, seq<real>>, key: string): seq<real> {
    if key in m then m[key] else []
  }

  /** A `defaultdict(int)` read. */
  function Count_(m: map<string, nat>, key: string): nat {
    if key in m then m[key] else 0
  }

  /** Whether the global backoff blocks this check. */
  predicate GlobalBlocks(st: LimiterState, external: bool, now: real) {
    external && st.globalBackoffUntil.Some? && now < st.globalBackoffUntil.value
  }

  /** `check_rate_limit` as a function of the state: the new state and the decision. */
  function Check(lim: Limits, st: LimiterState, key: string, external: bool, now: real): (r: (LimiterState, Decision))
    ensures r.1.Denied? ==> r.1.retryAfter > 0.0
    ensures GlobalBlocks(st, external, now) ==> r == (st, Denied(st.globalBackoffUntil.value - now))
    ensures r.1 == Allowed ==> !GlobalBlocks(st, external, now) && !(key in st.backoffUntil && now < st.backoffUntil[key])
    ensures !external ==> r.0.globalTimes == st.globalTimes && r.0.globalBackoffUntil == st.globalBackoffUntil
  {
    if GlobalBlocks(st, external, now) then
      (st, Denied(st.globalBackoffUntil.value - now))
    else
      CheckClient(lim, ClearGlobal(st, external), key, external, now)
  }

  /** An expired global backoff is cleared, together with the global failure count, by external checks. */
  function ClearGlobal(st: LimiterState, external: bool): LimiterState {
    if external && st.globalBackoffUntil.Some? then st.(globalBackoffUntil := None, globalFailures := 0) else st
  }

  /** The client-backoff step of `check_rate_limit`. */
  function CheckClient(lim: Limits, st: LimiterState, key: string, external: bool, now: real): (LimiterState, Decision) {
    if key in st.backoffUntil && now < st.backoffUntil[key] then
      (st, Denied(st.backoffUntil[key] - now))
    else
      CheckWindows(lim, ExpireBackoff(st, key), key, external, now)
  }

  /** An expired client deadline is deleted and the client's failure count reset to 0. */
  function ExpireBackoff(st: LimiterState, key: string): LimiterState {
    if key in st.backoffUntil then st.(backoffUntil := st.backoffUntil - {key}, failures := st.failures[key := 0])
    else st
  }

  /** The cleaning and window steps of `check_rate_limit`. */
  function CheckWindows(lim: Limits, st: LimiterState, key: string, external: bool, now: real): (LimiterState, Decision) {
    var window := DropBefore(Window_(st.history, key), now - Window);
    var global := if external then DropBefore(st.globalTimes, now - Window) else st.globalTimes;
    (st.(history := st.history[key := window], globalTimes := global),
     WindowDecision(window, global, external, now, lim.burstLimit, lim.requestsPerMinute))
  }

  /** `record_request` as a function of the state. */
  function Record(st: LimiterState, key: string, external: bool, now: real): (r: LimiterState)
    ensures key in r.history && |r.history[key]| == |Window_(st.history, key)| + 1 && r.history[key][|r.history[key]| - 1] == now
    ensures forall k :: k != key ==> Window_(r.history, k) == Window_(st.history, k)
    ensures |r.globalTimes| == |st.globalTimes| + (if external then 1 else 0)
    ensures r.failures == st.failures && r.backoffUntil == st.backoffUntil
    ensures r.globalFailures == st.globalFailures && r.globalBackoffUntil == st.globalBackoffUntil
  {
    st.(history := st.history[key := Window_(st.history, key) + [now]],
        globalTimes := if external then st.globalTimes + [now] else st.globalTimes)
  }

  /** The capped exponential backoff after `count` failures. */
  function BackoffSeconds(lim: Limits, count: nat): (b: real)
    ensures b <= lim.maxBackoff
    ensures b == lim.maxBackoff || b == Pow(lim.backoffFactor, count)
  {
    MinReal(Pow(lim.backoffFactor, count), lim.maxBackoff)
  }

  /** With a factor of at least one, more failures never mean a shorter backoff. */
  lemma BackoffMonotone(lim: Limits, m: nat, n: nat)
    requires lim.backoffFactor >= 1.0 && m <= n
    ensures BackoffSeconds(lim, m) <= BackoffSeconds(lim, n)
  {
    PowMonotone(lim.backoffFactor, m, n);
  }

  /** `record_failure` as a function of the state. */
  function Fail(lim: Limits, st: LimiterState, key: string, external: bool, now: real): (r: LimiterState)
    ensures Count_(r.failures, key) == Count_(st.failures, key) + 1
    ensures key in r.backoffUntil && r.backoffUntil[key] <= now + lim.maxBackoff
    ensures r.globalFailures == st.globalFailures + (if external then 1 else 0)
    ensures r.globalBackoffUntil != st.globalBackoffUntil ==> external && r.globalFailures >= 3
    ensures r.history == st.history && r.globalTimes == st.globalTimes
  {
    var count := Count_(st.failures, key) + 1;
    var globalCount := if external then st.globalFailures + 1 else st.globalFailures;
    var st1 := st.(failures := st.failures[key := count],
                   globalFailures := globalCount,
                   backoffUntil := st.backoffUntil[key := now + BackoffSeconds(lim, count)]);
    if external && globalCount >= 3 then st1.(globalBackoffUntil := Some(now + BackoffSeconds(lim, globalCount)))
    else st1
  }

  /** A limiter that has seen nothing allows the first check and sets no retry-after. */
  lemma FreshLimiterAllows(lim: Limits, key: string, external: bool, now: real)
    requires lim.burstLimit >= 1 && lim.requestsPerMinute >= 1
    ensures Check(lim, EmptyState(), key, external, now).1 == Allowed
  {
  }

  /** One recorded request on a fresh limiter still leaves room for the next, for limits of at least two. */
  lemma RecordThenCheckAllows(lim: Limits, key: string, external: bool, t: real, now: real)
    requires lim.burstLimit >= 2 && lim.requestsPerMinute >= 2
    requires t <= now <= t + Window
    ensures Check(lim, Record(EmptyState(), key, external, t), key, external, now).1 == Allowed
  {
    var st := Record(EmptyState(), key, external, t);
    assert Window_(st.history, key) == [t];
    assert DropBefore([t], now - Window) == [t];
  }

  /** `a` is what remains of `b` after popping from its front. */
  predicate IsSuffix(a: seq<real>, b: seq<real>) {
    |a| <= |b| && a == b[|b| - |a|..]
  }

  /** The cleaning step only pops from windows, and files the checked key. */
  lemma CheckWindowsShrinks(lim: Limits, st: LimiterState, key: string, external: bool, now: real)
    ensures var st' := CheckWindows(lim, st, key, external, now).0;
      && st'.history.Keys == st.history.Keys + {key}
      && (forall k :: k in st'.history ==> IsSuffix(st'.history[k], Window_(st.history, k)))
      && IsSuffix(st'.globalTimes, st.globalTimes)
  {
    DropBeforeIsSuffix(Window_(st.history, key), now - Window);
    DropBeforeIsSuffix(st.globalTimes, now - Window);
  }

  /**
   * `check_rate_limit` never adds a timestamp: every window afterwards is a suffix of
   * what it was, and only the checked key can join the history (as an empty window).
   */
  lemma CheckOnlyShrinksWindows(lim: Limits, st: LimiterState, key: string, external: bool, now: real)
    ensures var st' := Check(lim, st, key, external, now).0;
      && st'.history.Keys <= st.history.Keys + {key}
      && (forall k :: k in st'.history ==> IsSuffix(st'.history[k], Window_(st.history, k)))
      && IsSuffix(st'.globalTimes, st.globalTimes)
  {
    if !GlobalBlocks(st, external, now) {
      var st1 := ClearGlobal(st, external);
      if !(key in st1.backoffUntil && now < st1.backoffUntil[key]) {
        var st2 := ExpireBackoff(st1, key);
        assert st2.history == st.history && st2.globalTimes == st.globalTimes;
        CheckWindowsShrinks(lim, st2, key, external, now);
      }
    }
  }

  /** A recorded request joins the back of its key's window, and of the global one only for external traffic. */
  lemma RecordAppends(st: LimiterState, key: string, external: bool, now: real)
    ensures var st' := Record(st, key, external, now);
      && Window_(st'.history, key) == Window_(st.history, key) + [now]
      && (forall k :: k != key ==> Window_(st'.history, k) == Window_(st.history, k))
      && st'.globalTimes == (if external then st.globalTimes + [now] else st.globalTimes)
      && st'.failures == st.failures && st'.backoffUntil == st.backoffUntil
      && st'.globalFailures == st.globalFailures && st'.globalBackoffUntil == st.globalBackoffUntil
  {
  }

  /** A request recorded now is in the window the next check at the same moment counts. */
  lemma RecordedRequestCounts(lim: Limits, st: LimiterState, key: string, external: bool, now: real)
    requires !GlobalBlocks(st, external, now)
    requires key !in st.backoffUntil
    ensures var after := Check(lim, Record(st, key, external, now), key, external, now).0;
            var before := Check(lim, st, key, external, now).0;
      after.history[key] == before.history[key] + [now]
  {
    DropBeforeAppend(Window_(st.history, key), now, now - Window);
  }

  /** While a key is backing off, its checks are denied with the positive time left, and nothing changes. */
  lemma BackoffDenies(lim: Limits, st: LimiterState, key: string, external: bool, now: real)
    requires !(external && st.globalBackoffUntil.Some?)
    requires key in st.backoffUntil && now < st.backoffUntil[key]
    ensures Check(lim, st, key, external, now) == (st, Denied(st.backoffUntil[key] - now))
    ensures st.backoffUntil[key] - now > 0.0
  {
  }

  /**
   * The first check at or after a key's deadline deletes the deadline, resets the key's
   * failure count to 0 and then judges the cleaned window.
   */
  lemma BackoffExpires(lim: Limits, st: LimiterState, key: string, external: bool, now: real)
    requires !GlobalBlocks(st, external, now)
    requires key in st.backoffUntil && now >= st.backoffUntil[key]
    ensures var (st', d) := Check(lim, st, key, external, now);
      && key !in st'.backoffUntil
      && st'.failures[key] == 0
      && st'.backoffUntil == st.backoffUntil - {key}
      && d == WindowDecision(DropBefore(Window_(st.history, key), now - Window), st'.globalTimes, external, now,
                             lim.burstLimit, lim.requestsPerMinute)
  {
  }

  /** An active global backoff denies every external check, with the positive time left, and changes nothing. */
  lemma GlobalBackoffDenies(lim: Limits, st: LimiterState, key: string, now: real)
    requires st.globalBackoffUntil.Some? && now < st.globalBackoffUntil.value
    ensures Check(lim, st, key, true, now) == (st, Denied(st.globalBackoffUntil.value - now))
    ensures st.globalBackoffUntil.value - now > 0.0
  {
  }

  /** The first external check after the global deadline clears it together with the global failure count. */
  lemma GlobalBackoffExpires(lim: Limits, st: LimiterState, key: string, now: real)
    requires st.globalBackoffUntil.Some? && now >= st.globalBackoffUntil.value
    ensures Check(lim, st, key, true, now).0.globalBackoffUntil == None
    ensures Check(lim, st, key, true, now).0.globalFailures == 0
  {
  }

  /** Internal traffic neither reads nor touches the global window, counter or backoff. */
  lemma InternalIgnoresGlobal(lim: Limits, st: LimiterState, key: string, now: real,
                              times: seq<real>, count: nat, until: Option<real>)
    ensures var g := st.(globalTimes := times, globalFailures := count, globalBackoffUntil := until);
      Check(lim, g, key, false, now).1 == Check(lim, st, key, false, now).1
    ensures var st' := Check(lim, st, key, false, now).0;
      st'.globalTimes == st.globalTimes && st'.globalFailures == st.globalFailures
      && st'.globalBackoffUntil == st.globalBackoffUntil
  {
  }

  /**
   * `record_failure` adds exactly one to the key's count and sets its deadline from the
   * capped formula; the global count grows only for external failures, and the global
   * deadline is set only once that count reaches three.
   */
  lemma FailureBookkeeping(lim: Limits, st: LimiterState, key: string, external: bool, now: real)
    ensures var st' := Fail(lim, st, key, external, now);
      && st'.failures[key] == Count_(st.failures, key) + 1
      && key in st'.backoffUntil
      && st'.backoffUntil[key] == now + BackoffSeconds(lim, st'.failures[key])
      && st'.backoffUntil[key] <= now + lim.maxBackoff
      && st'.globalFailures == (if external then st.globalFailures + 1 else st.globalFailures)
      && (st'.globalBackoffUntil != st.globalBackoffUntil ==> external && st'.globalFailures >= 3)
      && (external && st'.globalFailures >= 3 ==>
            st'.globalBackoffUntil == Some(now + BackoffSeconds(lim, st'.globalFailures)))
      && (forall k :: k != key ==> Count_(st'.failures, k) == Count_(st.failures, k))
      && st'.history == st.history && st'.globalTimes == st.globalTimes
  {
  }

  /** A failure is followed by denials until its backoff has run out. */
  lemma FailThenCheckDenies(lim: Limits, st: LimiterState, key: string, external: bool, now: real, later: real)
    requires now <= later < now + BackoffSeconds(lim, Count_(st.failures, key) + 1)
    ensures Check(lim, Fail(lim, st, key, external, now), key, external, later).1.Denied?
  {
    var st' := Fail(lim, st, key, external, now);
    assert st'.backoffUntil[key] > later;
    if !GlobalBlocks(st', external, later) {
      var st1 := ClearGlobal(st', external);
      assert st1.backoffUntil == st'.backoffUntil;
      assert CheckClient(lim, st1, key, external, later).1 == Denied(st'.backoffUntil[key] - later);
    }
  }

  /** Numbers reported by `get_stats`. */
  datatype Stats = Stats(
    requestsPerMinuteLimit: int,
    burstLimit: int,
    activeClients: nat,
    activeBackoffs: nat,
    recentRequests: nat,
    globalRequests: nat,
    globalFailureCount: nat,
    globalBackoffActive: bool,
    globalBackoffUntil: Option<real>)

  /** How many timestamps of a window are strictly after `cutoff`. */
  function CountAfter(times: seq<real>, cutoff: real): (n: nat)
    ensures n <= |times|
  {
    if times == [] then 0 else CountAfter(times[..|times| - 1], cutoff) + (if times[|times| - 1] > cutoff then 1 else 0)
  }

  /** Counts a deadline that lies after `now`. */
  function ActiveCounter(now: real): real -> nat {
    t => if t > now then 1 else 0
  }

  /** Counts the timestamps of a window after `cutoff`. */
  function RecentCounter(cutoff: real): seq<real> -> nat {
    w => CountAfter(w, cutoff)
  }

  /** What `get_stats` reports for a state. */
  ghost function StatsOf(lim: Limits, st: LimiterState, now: real): Stats {
    Stats(lim.requestsPerMinute, lim.burstLimit, |st.history|,
          SumMap(st.backoffUntil, ActiveCounter(now)),
          SumMap(st.history, RecentCounter(now - Window)),
          CountAfter(st.globalTimes, now - Window),
          st.globalFailures, st.globalBackoffUntil.Some?, st.globalBackoffUntil)
  }

  /** Active backoffs never outnumber the keys that have a deadline. */
  lemma {:induction false} ActiveBackoffsBounded(m: map<string, real>, keys: set<string>, now: real)
    requires keys <= m.Keys
    ensures SumKeys(m, keys, ActiveCounter(now)) <= |keys|
    decreases keys
  {
    if keys != {} {
      var k :| k in keys && SumKeys(m, keys, ActiveCounter(now)) == ActiveCounter(now)(m[k]) + SumKeys(m, keys - {k}, ActiveCounter(now));
      ActiveBackoffsBounded(m, keys - {k}, now);
    }
  }

  /** A request recorded now raises both recent-request figures of `get_stats` by one (global only if external). */
  lemma RecordRaisesStats(lim: Limits, st: LimiterState, key: string, external: bool, now: real)
    ensures StatsOf(lim, Record(st, key, external, now), now).recentRequests == StatsOf(lim, st, now).recentRequests + 1
    ensures StatsOf(lim, Record(st, key, external, now), now).globalRequests ==
            StatsOf(lim, st, now).globalRequests + (if external then 1 else 0)
  {
    var w := Window_(st.history, key);
    var f := RecentCounter(now - Window);
    SumMapUpdate(st.history, key, w + [now], f);
    assert (w + [now])[..|w + [now]| - 1] == w;
    assert f(w + [now]) == f(w) + 1;
    if key in st.history {
      SumMapAtLeastEntry(st.history, key, f);
    }
    if external {
      assert (st.globalTimes + [now])[..|st.globalTimes + [now]| - 1] == st.globalTimes;
    }
  }

  /** The limiter of `rate_limiter.py`; `State()` is everything it remembers. */
  class RateLimiter {
    const requestsPerMinute: int
    const burstLimit: int
    const backoffFactor: real
    const maxBackoff: real

    var requestHistory: map<string, seq<real>>
    var failureCounts: map<string, nat>
    var backoffUntil: map<string, real>
    var globalRequestTimes: seq<real>
    var globalFailureCount: nat
    var globalBackoffUntil: Option<real>

    function Config(): Limits {
      Limits(requestsPerMinute, burstLimit, backoffFactor, maxBackoff)
    }

    function State(): LimiterState
      reads this
    {
      LimiterState(requestHistory, failureCounts, backoffUntil, globalRequestTimes, globalFailureCount, globalBackoffUntil)
    }

    constructor(requestsPerMinute: int, burstLimit: int, backoffFactor: real, maxBackoff: real)
      ensures Config() == Limits(requestsPerMinute, burstLimit, backoffFactor, maxBackoff)
      ensures State() == EmptyState()
    {
      this.requestsPerMinute := requestsPerMinute;
      this.burstLimit := burstLimit;
      this.backoffFactor := backoffFactor;
      this.maxBackoff := maxBackoff;
      requestHistory := map[];
      failureCounts := map[];
      backoffUntil := map[];
      globalRequestTimes := [];
      globalFailureCount := 0;
      globalBackoffUntil := None;
    }

    /** `check_rate_limit` */
    method CheckRateLimit(clientIp: string, endpoint: string, external: bool, now: real) returns (d: Decision)
      modifies this
      ensures (State(), d) == Check(Config(), old(State()), ClientKey(clientIp, endpoint), external, now)
    {
      var key := ClientKey(clientIp, endpoint);
      if external && globalBackoffUntil.Some? {
        if now < globalBackoffUntil.value {
          return Denied(globalBackoffUntil.value - now);
        }
        globalBackoffUntil := None;
        globalFailureCount := 0;
      }
      ghost var cleared := State();
      assert cleared == ClearGlobal(old(State()), external);
      if key in backoffUntil {
        if now < backoffUntil[key] {
          return Denied(backoffUntil[key] - now);
        }
        backoffUntil := backoffUntil - {key};
        failureCounts := failureCounts[key := 0];
      }
      ghost var expired := State();
      assert expired == ExpireBackoff(cleared, key);
      var window := CleanOld(Window_(requestHistory, key), now - Window);
      requestHistory := requestHistory[key := window];
      if external {
        globalRequestTimes := CleanOld(globalRequestTimes, now - Window);
      }
      d := WindowDecision(window, globalRequestTimes, external, now, burstLimit, requestsPerMinute);
      assert (State(), d) == CheckWindows(Config(), expired, key, external, now);
    }

    /** `record_request` */
    method RecordRequest(clientIp: string, endpoint: string, external: bool, now: real)
      modifies this
      ensures State() == Record(old(State()), ClientKey(clientIp, endpoint), external, now)
    {
      var key := ClientKey(clientIp, endpoint);
      requestHistory := requestHistory[key := Window_(requestHistory, key) + [now]];
      if external {
        globalRequestTimes := globalRequestTimes + [now];
      }
    }

    /** `record_failure` */
    method RecordFailure(clientIp: string, endpoint: string, external: bool, now: real)
      modifies this
      ensures State() == Fail(Config(), old(State()), ClientKey(clientIp, endpoint), external, now)
    {
      var key := ClientKey(clientIp, endpoint);
      var count := Count_(failureCounts, key) + 1;
      failureCounts := failureCounts[key := count];
      if external {
        globalFailureCount := globalFailureCount + 1;
      }
      var backoff := MinReal(Pow(backoffFactor, count), maxBackoff);
      backoffUntil := backoffUntil[key := now + backoff];
      if external && globalFailureCount >= 3 {
        var globalBackoff := MinReal(Pow(backoffFactor, globalFailureCount), maxBackoff);
        globalBackoffUntil := Some(now + globalBackoff);
      }
    }

    /** `get_stats` */
    method GetStats(now: real) returns (s: Stats)
      ensures s == StatsOf(Config(), State(), now)
    {
      var active := 0;
      var keys := backoffUntil.Keys;
      while keys != {}
        invariant keys <= backoffUntil.Keys
        invariant active + SumKeys(backoffUntil, keys, ActiveCounter(now)) == SumMap(backoffUntil, ActiveCounter(now))
        decreases keys
      {
        var k :| k in keys;
        SumKeysRemove(backoffUntil, keys, k, ActiveCounter(now));
        active := active + (if backoffUntil[k] > now then 1 else 0);
        keys := keys - {k};
      }
      var cutoff := now - Window;
      var recent := 0;
      var clients := requestHistory.Keys;
      while clients != {}
        invariant clients <= requestHistory.Keys
        invariant recent + SumKeys(requestHistory, clients, RecentCounter(cutoff)) == SumMap(requestHistory, RecentCounter(cutoff))
        decreases clients
      {
        var k :| k in clients;
        SumKeysRemove(requestHistory, clients, k, RecentCounter(cutoff));
        recent := recent + CountAfter(requestHistory[k], cutoff);
        clients := clients - {k};
      }
      s := Stats(requestsPerMinute, burstLimit, |requestHistory|, active, recent,
                 CountAfter(globalRequestTimes, cutoff), globalFailureCount,
                 globalBackoffUntil.Some?, globalBackoffUntil);
    }
  }

  /** How long a dispatch waits so that it starts at least `delay` after the previous call ended. */
  function SpacingWait(delay: real, last: real, now: real): (w: real)
    ensures w >= 0.0
    ensures now + w >= last + delay
    ensures w == 0.0 || now + w == last + delay
  {
    if now - last < delay then delay - (now - last) else 0.0
  }

  /** The sequential spacing rule of `RequestQueue`; the semaphore is not modelled. */
  class RequestQueue {
    const maxConcurrent: int
    const requestDelay: real
    var lastRequestTime: real

    constructor(maxConcurrent: int, requestDelay: real)
      ensures this.maxConcurrent == maxConcurrent && this.requestDelay == requestDelay
      ensures lastRequestTime == 0.0
    {
      this.maxConcurrent := maxConcurrent;
      this.requestDelay := requestDelay;
      lastRequestTime := 0.0;
    }

    /**
     * `execute_request` for a call that arrives at `now` and runs for `duration` seconds
     * with `outcome` (a value or a raised error): the call waits the spacing delay, its
     * outcome is passed on unchanged, and either way the end of the call becomes the new
     * `last_request_time`.
     */
    method ExecuteRequest<T>(now: real, duration: real, outcome: T) returns (wait: real, result: T)
      modifies this
      ensures wait == SpacingWait(requestDelay, old(lastRequestTime), now)
      ensures result == outcome
      ensures lastRequestTime == now + wait + duration
    {
      var sinceLast := now - lastRequestTime;
      wait := 0.0;
      if sinceLast < requestDelay {
        wait := requestDelay - sinceLast;
      }
      result := outcome;
      lastRequestTime := now + wait + duration;
    }
  }

  /** Consecutive calls through the queue start at least `delay` apart when calls take no negative time. */
  lemma DispatchSpacing(delay: real, last: real, now1: real, duration: real, now2: real)
    requires duration >= 0.0
    ensures var start1 := now1 + SpacingWait(delay, last, now1);
            var start2 := now2 + SpacingWait(delay, start1 + duration, now2);
      start2 >= start1 + delay
  {
  }

  /** `get_client_ip`: header names are the lower-case keys of `headers`; `clientHost` is `request.client.host`. */
  function GetClientIp(headers: map<string, string>, clientHost: Option<string>): (ip: string)
    ensures (|| ("x-forwarded-for" in headers && headers["x-forwarded-for"] != "")
             || ("x-real-ip" in headers && headers["x-real-ip"] != "")) ==> IsTrimmed(ip)
  {
    if "x-forwarded-for" in headers && headers["x-forwarded-for"] != "" then
      TrimIsTrimmed(Split(headers["x-forwarded-for"], ',')[0]);
      Trim(Split(headers["x-forwarded-for"], ',')[0])
    else if "x-real-ip" in headers && headers["x-real-ip"] != "" then
      TrimIsTrimmed(headers["x-real-ip"]);
      Trim(headers["x-real-ip"])
    else
      clientHost.GetOr("unknown")
  }

  /**
   * A forwarded-for header wins: the result is its first comma-separated element, trimmed, so it holds no comma,
   * and X-Real-IP is not read.
   */
  lemma ForwardedForWins(headers: map<string, string>, clientHost: Option<string>, realIp: string)
    requires "x-forwarded-for" in headers && headers["x-forwarded-for"] != ""
    ensures var h := headers["x-forwarded-for"]; GetClientIp(headers, clientHost) == Trim(h[..IndexOf(h, ',')])
    ensures var ip := GetClientIp(headers, clientHost);
      && IsTrimmed(ip) && ',' !in ip && |ip| <= |headers["x-forwarded-for"]|
      && ip == GetClientIp(headers["x-real-ip" := realIp], None)
  {
    var first := Split(headers["x-forwarded-for"], ',')[0];
    SplitFirst(headers["x-forwarded-for"], ',');
    TrimIsTrimmed(first);
    var lo, hi := TrimIsSlice(first);
    var h' := headers["x-real-ip" := realIp];
    assert h'["x-forwarded-for"] == headers["x-forwarded-for"];
  }

  /** Without a forwarded-for header, a non-empty X-Real-IP is used trimmed. */
  lemma RealIpNext(headers: map<string, string>, clientHost: Option<string>)
    requires !("x-forwarded-for" in headers && headers["x-forwarded-for"] != "")
    requires "x-real-ip" in headers && headers["x-real-ip"] != ""
    ensures GetClientIp(headers, clientHost) == Trim(headers["x-real-ip"])
    ensures IsTrimmed(GetClientIp(headers, clientHost))
  {
    TrimIsTrimmed(headers["x-real-ip"]);
  }

  /**
   * With neither header present and non-empty, the client host is used, or "unknown" when there is no client.
   * An empty header counts as absent.
   */
  lemma ClientHostLast(headers: map<string, string>, clientHost: Option<string>)
    requires !("x-forwarded-for" in headers && headers["x-forwarded-for"] != "")
    requires !("x-real-ip" in headers && headers["x-real-ip"] != "")
    ensures GetClientIp(headers, clientHost) == if clientHost.Some? then clientHost.value else "unknown"
  {
  }
}
