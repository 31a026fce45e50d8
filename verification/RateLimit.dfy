/** The in-memory fixed-window limiter and its lazy eviction. */
module RateLimit {
  import opened Wrappers

  const GC_THRESHOLD := 1024

  /** An open window of one key. */
  datatype Window = Window(resetAt: int, count: int)

  type Hits = map<string, Window>

  /** The limiter's settings: `limit` requests per `window`. Either may be any integer. */
  datatype Config = Config(limit: int, window: int)

  /** The number of requests one window admits: the first is admitted whatever the limit. */
  function Quota(c: Config): int {
    if c.limit < 1 then 1 else c.limit
  }

  predicate Expired(w: Window, now: int) {
    now > w.resetAt
  }

  function Lookup(hits: Hits, key: string): Option<Window> {
    if key in hits then Some(hits[key]) else None
  }

  // ---- one key ----

  /** Whether a request is admitted, given the key's window, and the window afterwards. */
  function Admit(c: Config, entry: Option<Window>, now: int): (bool, Option<Window>) {
    if entry.None? || Expired(entry.value, now) then (true, Some(Window(now + c.window, 1)))
    else if entry.value.count >= c.limit then (false, entry)
    else (true, Some(entry.value.(count := entry.value.count + 1)))
  }

  /** The answers one key gets for requests at these times. */
  function Answers(c: Config, entry: Option<Window>, times: seq<int>): (answers: seq<bool>)
    ensures |answers| == |times|
    decreases |times|
  {
    if times == [] then []
    else
      var (ok, next) := Admit(c, entry, times[0]);
      [ok] + Answers(c, next, times[1..])
  }

  // ---- the whole limiter ----

  function Evicted(hits: Hits, now: int): Hits {
    map key | key in hits && !Expired(hits[key], now) :: hits[key]
  }

  /** `gc`: nothing below the threshold, every expired entry otherwise. */
  function Collected(hits: Hits, now: int): Hits {
    if |hits| < GC_THRESHOLD then hits else Evicted(hits, now)
  }

  function Allowed(c: Config, hits: Hits, key: string, now: int): (bool, Hits) {
    var entry := Lookup(hits, key);
    var (ok, next) := Admit(c, entry, now);
    if entry.None? || Expired(entry.value, now) then (ok, Collected(hits[key := next.value], now))
    else (ok, hits[key := next.value])
  }

  datatype Request = Request(key: string, at: int)

  /** The answers of the limiter to a sequence of requests. */
  function Responses(c: Config, hits: Hits, trace: seq<Request>): (answers: seq<bool>)
    ensures |answers| == |trace|
    decreases |trace|
  {
    if trace == [] then []
    else
      var (ok, next) := Allowed(c, hits, trace[0].key, trace[0].at);
      [ok] + Responses(c, next, trace[1..])
  }

  /** The same limiter without eviction. */
  function HoardingResponses(c: Config, hits: Hits, trace: seq<Request>): (answers: seq<bool>)
    ensures |answers| == |trace|
    decreases |trace|
  {
    if trace == [] then []
    else
      var (ok, next) := Admit(c, Lookup(hits, trace[0].key), trace[0].at);
      [ok] + HoardingResponses(c, hits[trace[0].key := next.value], trace[1..])
  }

  // ---- time ----

  /** The clock does not go back, and starts no earlier than `from`. */
  predicate ClockFrom(times: seq<int>, from: int) {
    && (forall i :: 0 <= i < |times| ==> from <= times[i])
    && (forall i, j :: 0 <= i < j < |times| ==> times[i] <= times[j])
  }

  function TimesOf(trace: seq<Request>): (times: seq<int>)
    ensures |times| == |trace|
    ensures forall i :: 0 <= i < |trace| ==> times[i] == trace[i].at
  {
    seq(|trace|, i requires 0 <= i < |trace| => trace[i].at)
  }

  // ---- eviction is invisible ----

  /** Two tables that every request from `now` on finds the same: they differ only in entries
      that have expired. */
  ghost predicate SameFrom(hits: Hits, full: Hits, now: int) {
    forall key ::
      Lookup(hits, key) == Lookup(full, key)
      || (key !in hits && key in full && Expired(full[key], now))
  }

  /** For every trace with a clock that does not go back, evicting changes no answer. */
  lemma {:induction false} EvictionInvisible(c: Config, hits: Hits, full: Hits, trace: seq<Request>, now: int)
    requires SameFrom(hits, full, now) && ClockFrom(TimesOf(trace), now)
    ensures Responses(c, hits, trace) == HoardingResponses(c, full, trace)
    decreases |trace|
  {
    if trace != [] {
      var key, at := trace[0].key, trace[0].at;
      assert TimesOf(trace)[0] == at;
      var (ok, next) := Allowed(c, hits, key, at);
      var (ok', entry') := Admit(c, Lookup(full, key), at);
      assert Lookup(hits, key) == Lookup(full, key)
             || (key !in hits && key in full && Expired(full[key], now));
      assert ok == ok';
      var full' := full[key := entry'.value];
      forall other
        ensures Lookup(next, other) == Lookup(full', other)
                || (other !in next && other in full' && Expired(full'[other], at))
      {
        assert Lookup(hits, other) == Lookup(full, other)
               || (other !in hits && other in full && Expired(full[other], now));
      }
      assert TimesOf(trace[1..]) == TimesOf(trace)[1..];
      EvictionInvisible(c, next, full', trace[1..], at);
    }
  }

  // ---- keys do not influence each other ----

  function CountOf(trace: seq<Request>, key: string): nat {
    if trace == [] then 0 else (if trace[0].key == key then 1 else 0) + CountOf(trace[1..], key)
  }

  /** The values that stand at this key's positions of the trace. */
  function Select<T>(trace: seq<Request>, values: seq<T>, key: string): (chosen: seq<T>)
    requires |trace| == |values|
    ensures |chosen| == CountOf(trace, key)
  {
    if trace == [] then []
    else if trace[0].key == key then [values[0]] + Select(trace[1..], values[1..], key)
    else Select(trace[1..], values[1..], key)
  }

  lemma {:induction false} HoardingPerKey(c: Config, hits: Hits, trace: seq<Request>, key: string)
    ensures Select(trace, HoardingResponses(c, hits, trace), key)
            == Answers(c, Lookup(hits, key), Select(trace, TimesOf(trace), key))
    decreases |trace|
  {
    if trace != [] {
      var (ok, next) := Admit(c, Lookup(hits, trace[0].key), trace[0].at);
      var hits' := hits[trace[0].key := next.value];
      HoardingPerKey(c, hits', trace[1..], key);
      assert TimesOf(trace)[1..] == TimesOf(trace[1..]);
      assert HoardingResponses(c, hits, trace)[1..] == HoardingResponses(c, hits', trace[1..]);
      assert Lookup(hits', trace[0].key) == next;
    }
  }

  /** The answers a key gets from a fresh limiter are those it would get if it were the only key. */
  lemma KeysIsolated(c: Config, trace: seq<Request>, key: string, from: int)
    requires ClockFrom(TimesOf(trace), from)
    ensures Select(trace, Responses(c, map[], trace), key) == Answers(c, None, Select(trace, TimesOf(trace), key))
  {
    EvictionInvisible(c, map[], map[], trace, from);
    HoardingPerKey(c, map[], trace, key);
  }

  // ---- exactly which requests are denied ----

  /** The request that opened the latest window before the n-th one, from the times alone: the first
      request opens one, and so does each request later than the end of the window open until then. */
  function Opening(c: Config, times: seq<int>, n: nat): (k: Option<nat>)
    requires n <= |times|
    ensures k.None? <==> n == 0
    ensures k.Some? ==> k.value < n
  {
    if n == 0 then None
    else
      var k := Opening(c, times, n - 1);
      if k.None? || times[n - 1] > times[k.value] + c.window then Some(n - 1) else k
  }

  /** The requests from the k-th on that were admitted before the n-th. */
  function AdmittedFrom(answers: seq<bool>, k: nat, n: nat): nat
    requires k <= n <= |answers|
    decreases n
  {
    if n == k then 0 else AdmittedFrom(answers, k, n - 1) + (if answers[n - 1] then 1 else 0)
  }

  /** The key's window after these requests. */
  function WindowAfter(c: Config, entry: Option<Window>, times: seq<int>): Option<Window>
    decreases |times|
  {
    if times == [] then entry else WindowAfter(c, Admit(c, entry, times[0]).1, times[1..])
  }

  lemma {:induction false} WindowAfterNext(c: Config, entry: Option<Window>, times: seq<int>, n: nat)
    requires n < |times|
    ensures Answers(c, entry, times)[n] == Admit(c, WindowAfter(c, entry, times[..n]), times[n]).0
    ensures WindowAfter(c, entry, times[..n + 1]) == Admit(c, WindowAfter(c, entry, times[..n]), times[n]).1
    decreases n
  {
    var next := Admit(c, entry, times[0]).1;
    if n == 0 {
      assert times[..1][1..] == [] && times[..1][0] == times[0];
    } else {
      WindowAfterNext(c, next, times[1..], n - 1);
      assert times[..n][1..] == times[1..][..n - 1] && times[..n + 1][1..] == times[1..][..n];
    }
  }

  /** The window is the one the latest opening began, and it counts the requests admitted since. */
  lemma {:induction false} WindowIsOpenings(c: Config, times: seq<int>, n: nat)
    requires n <= |times|
    ensures n > 0 ==>
              var k := Opening(c, times, n).value;
              WindowAfter(c, None, times[..n])
              == Some(Window(times[k] + c.window, AdmittedFrom(Answers(c, None, times), k, n)))
    ensures n > 0 ==> AdmittedFrom(Answers(c, None, times), Opening(c, times, n).value, n) >= 1
  {
    if n > 0 {
      WindowIsOpenings(c, times, n - 1);
      WindowAfterNext(c, None, times, n - 1);
      assert AdmittedFrom(Answers(c, None, times), n - 1, n - 1) == 0;
    }
  }

  /** A request of a key is denied exactly when it comes no later than the end of the window that the
      latest opening began, and max(limit, 1) requests have been admitted since that opening. */
  lemma DeniedIff(c: Config, trace: seq<Request>, key: string, from: int, n: nat)
    requires ClockFrom(TimesOf(trace), from) && n < CountOf(trace, key)
    ensures var times := Select(trace, TimesOf(trace), key);
            var answers := Select(trace, Responses(c, map[], trace), key);
            var k := Opening(c, times, n);
            !answers[n] <==> k.Some? && times[n] <= times[k.value] + c.window
                             && AdmittedFrom(answers, k.value, n) >= (if c.limit < 1 then 1 else c.limit)
  {
    var times := Select(trace, TimesOf(trace), key);
    KeysIsolated(c, trace, key, from);
    WindowIsOpenings(c, times, n);
    WindowAfterNext(c, None, times, n);
    assert n == 0 ==> times[..n] == [];
  }

  /** What is left of a sequence without the marked positions. */
  function Kept<T>(all: seq<T>, dropped: seq<bool>): seq<T>
    requires |all| == |dropped|
  {
    if all == [] then []
    else (if dropped[0] then [] else [all[0]]) + Kept(all[1..], dropped[1..])
  }

  /** Denied requests leave no trace: deleting any of them changes no other answer. */
  lemma {:induction false} DenialsLeaveNoTrace(c: Config, hits: Hits, trace: seq<Request>, dropped: seq<bool>)
    requires |dropped| == |trace|
    requires forall i :: 0 <= i < |trace| && dropped[i] ==> !Responses(c, hits, trace)[i]
    ensures |Kept(trace, dropped)| == |Kept(Responses(c, hits, trace), dropped)|
    ensures Responses(c, hits, Kept(trace, dropped)) == Kept(Responses(c, hits, trace), dropped)
    decreases |trace|
  {
    if trace != [] {
      var (ok, next) := Allowed(c, hits, trace[0].key, trace[0].at);
      var answers := Responses(c, hits, trace);
      assert answers[1..] == Responses(c, next, trace[1..]);
      assert forall i :: 0 <= i < |trace| - 1 ==>
          dropped[1..][i] == dropped[i + 1] && answers[1..][i] == answers[i + 1];
      DenialsLeaveNoTrace(c, next, trace[1..], dropped[1..]);
      if dropped[0] {
        assert !ok;
        assert next == hits;
        assert Kept(trace, dropped) == Kept(trace[1..], dropped[1..]);
      } else {
        var rest := Kept(trace[1..], dropped[1..]);
        assert Kept(trace, dropped) == [trace[0]] + rest;
        assert ([trace[0]] + rest)[1..] == rest;
      }
    }
  }

  // ---- how many requests an interval can admit ----

  /** Admitted requests with a time in the closed interval [a, b]. */
  function AdmittedWithin(times: seq<int>, answers: seq<bool>, a: int, b: int): nat
    requires |times| == |answers|
  {
    if times == [] then 0
    else (if answers[0] && a <= times[0] <= b then 1 else 0) + AdmittedWithin(times[1..], answers[1..], a, b)
  }

  lemma {:induction false} NoneAdmittedLate(times: seq<int>, answers: seq<bool>, a: int, b: int)
    requires |times| == |answers|
    requires forall i :: 0 <= i < |times| ==> b < times[i]
    ensures AdmittedWithin(times, answers, a, b) == 0
  {
    if times != [] {
      NoneAdmittedLate(times[1..], answers[1..], a, b);
    }
  }

  /** The most requests of one key that a closed interval as long as the window can admit. */
  function MaxPerInterval(c: Config): int {
    if c.window >= 1 then 2 * Quota(c) - 1 else if c.window == 0 then Quota(c) else 0
  }

  /** What an interval [a, a + window] can still admit, given the key's window. The window opened
      at `resetAt - window`, so the first two cases are: it opened inside the interval or later;
      it opened before the interval but reaches into it. */
  function Budget(c: Config, entry: Option<Window>, a: int): int {
    if entry.None? then MaxPerInterval(c)
    else if entry.value.resetAt >= a + c.window then Quota(c) - entry.value.count
    else if entry.value.resetAt >= a then 2 * Quota(c) - entry.value.count
    else MaxPerInterval(c)
  }

  predicate EntrySound(c: Config, entry: Option<Window>) {
    entry.Some? ==> 1 <= entry.value.count <= Quota(c)
  }

  lemma {:induction false} WithinBudget(c: Config, entry: Option<Window>, times: seq<int>, from: int, a: int)
    requires EntrySound(c, entry) && ClockFrom(times, from) && c.window >= 0
    requires entry.Some? ==> entry.value.resetAt - c.window <= from
    ensures AdmittedWithin(times, Answers(c, entry, times), a, a + c.window) <= Budget(c, entry, a)
    decreases |times|
  {
    if times != [] {
      var at := times[0];
      var (ok, next) := Admit(c, entry, at);
      var answers := Answers(c, entry, times);
      assert answers[1..] == Answers(c, next, times[1..]);
      if at > a + c.window {
        NoneAdmittedLate(times, answers, a, a + c.window);
      } else {
        WithinBudget(c, next, times[1..], at, a);
      }
    }
  }

  /** The requests of this key that a fresh limiter admits in the closed interval [a, a + window]. */
  function Admitted(c: Config, trace: seq<Request>, key: string, a: int): nat {
    AdmittedWithin(Select(trace, TimesOf(trace), key), Select(trace, Responses(c, map[], trace), key), a, a + c.window)
  }

  lemma {:induction false} EmptyInterval(times: seq<int>, answers: seq<bool>, a: int, b: int)
    requires |times| == |answers| && b < a
    ensures AdmittedWithin(times, answers, a, b) == 0
  {
    if times != [] {
      EmptyInterval(times[1..], answers[1..], a, b);
    }
  }

  lemma {:induction false} SelectKeepsClock(trace: seq<Request>, times: seq<int>, key: string, from: int)
    requires |trace| == |times| && ClockFrom(times, from)
    ensures ClockFrom(Select(trace, times, key), from)
    decreases |trace|
  {
    if trace != [] {
      if trace[0].key == key {
        SelectKeepsClock(trace[1..], times[1..], key, times[0]);
      } else {
        SelectKeepsClock(trace[1..], times[1..], key, from);
      }
    }
  }

  /** For any limiter and any trace whose clock does not go back, a closed interval as long as the
      window admits at most 2 * max(limit, 1) - 1 requests of one key; if the window is zero or
      negative, at most max(limit, 1) or none. */
  lemma IntervalBound(c: Config, trace: seq<Request>, key: string, a: int, from: int)
    requires ClockFrom(TimesOf(trace), from)
    ensures Admitted(c, trace, key, a) <= MaxPerInterval(c)
  {
    var times := Select(trace, TimesOf(trace), key);
    KeysIsolated(c, trace, key, from);
    if c.window >= 0 {
      SelectKeepsClock(trace, TimesOf(trace), key, from);
      WithinBudget(c, None, times, from, a);
    } else {
      EmptyInterval(times, Answers(c, None, times), a, a + c.window);
    }
  }

  // ---- the bound is reached ----

  function Repeat(at: int, count: nat): (times: seq<int>)
    ensures |times| == count
    ensures forall i :: 0 <= i < count ==> times[i] == at
  {
    seq(count, i => at)
  }

  /** While the quota lasts, requests at one moment inside the window are admitted. */
  lemma {:induction false} BurstAdmitted(c: Config, w: Window, at: int, count: nat, rest: seq<int>, a: int, b: int)
    requires a <= at <= b && at <= w.resetAt && (count == 0 || w.count + count <= c.limit)
    ensures AdmittedWithin(Repeat(at, count) + rest, Answers(c, Some(w), Repeat(at, count) + rest), a, b)
            == count + AdmittedWithin(rest, Answers(c, Some(w.(count := w.count + count)), rest), a, b)
    decreases count
  {
    var times := Repeat(at, count) + rest;
    if count == 0 {
      assert times == rest;
    } else {
      assert times[1..] == Repeat(at, count - 1) + rest;
      var w' := w.(count := w.count + 1);
      assert Answers(c, Some(w), times)[1..] == Answers(c, Some(w'), times[1..]);
      BurstAdmitted(c, w', at, count - 1, rest, a, b);
    }
  }

  /** The request at `at` opens a window, and the rest of a full quota follows at once. */
  lemma FullQuota(c: Config, entry: Option<Window>, at: int, a: int, b: int)
    requires c.window >= 0 && a <= at <= b
    requires entry.Some? ==> Expired(entry.value, at)
    ensures var times := [at] + Repeat(at, Quota(c) - 1);
            AdmittedWithin(times, Answers(c, entry, times), a, b) == Quota(c)
  {
    var rest := Repeat(at, Quota(c) - 1);
    var times := [at] + rest;
    var start := Window(at + c.window, 1);
    assert times[1..] == rest && rest + [] == rest;
    assert Answers(c, entry, times)[1..] == Answers(c, Some(start), rest);
    BurstAdmitted(c, start, at, Quota(c) - 1, [], a, b);
  }

  /** A key's first request, before the interval, opens its window. */
  lemma OpeningRequest(c: Config, at: int, later: seq<int>, a: int, b: int)
    requires at < a
    ensures AdmittedWithin([at] + later, Answers(c, None, [at] + later), a, b)
            == AdmittedWithin(later, Answers(c, Some(Window(at + c.window, 1)), later), a, b)
  {
    var times := [at] + later;
    assert times[1..] == later;
    assert Answers(c, None, times)[1..] == Answers(c, Some(Window(at + c.window, 1)), later);
  }

  /** A key's requests: one at time 0, the rest of the quota at the end of that window, and a whole
      quota just after it. If the window is zero long, a whole quota at time 1. */
  function BurstTimes(c: Config): seq<int> {
    if c.window < 0 then []
    else if c.window == 0 then [1] + Repeat(1, Quota(c) - 1)
    else [0] + (Repeat(c.window, Quota(c) - 1) + ([c.window + 1] + Repeat(c.window + 1, Quota(c) - 1)))
  }

  lemma BurstClock(c: Config)
    ensures ClockFrom(BurstTimes(c), 0)
  {
    if c.window >= 1 {
      var first, last := Repeat(c.window, Quota(c) - 1), Repeat(c.window + 1, Quota(c) - 1);
      assert BurstTimes(c) == [0] + first + [c.window + 1] + last;
    }
  }

  lemma BurstAnswers(c: Config)
    requires c.window >= 0
    ensures AdmittedWithin(BurstTimes(c), Answers(c, None, BurstTimes(c)), 1, 1 + c.window) == MaxPerInterval(c)
  {
    if c.window == 0 {
      FullQuota(c, None, 1, 1, 1);
    } else {
      var tail := [c.window + 1] + Repeat(c.window + 1, Quota(c) - 1);
      var first := Window(c.window, 1);
      OpeningRequest(c, 0, Repeat(c.window, Quota(c) - 1) + tail, 1, 1 + c.window);
      BurstAdmitted(c, first, c.window, Quota(c) - 1, tail, 1, 1 + c.window);
      FullQuota(c, Some(first.(count := Quota(c))), c.window + 1, 1, 1 + c.window);
    }
  }

  function Burst(c: Config, key: string): seq<Request> {
    var times := BurstTimes(c);
    seq(|times|, i requires 0 <= i < |times| => Request(key, times[i]))
  }

  lemma {:induction false} SelectOnlyKey<T>(trace: seq<Request>, values: seq<T>, key: string)
    requires |trace| == |values|
    requires forall i :: 0 <= i < |trace| ==> trace[i].key == key
    ensures Select(trace, values, key) == values
  {
    if trace != [] {
      SelectOnlyKey(trace[1..], values[1..], key);
    }
  }

  /** For every limiter and every key some legal trace attains the bound. */
  lemma BoundIsReached(c: Config, key: string) returns (trace: seq<Request>, a: int)
    ensures ClockFrom(TimesOf(trace), 0)
    ensures Admitted(c, trace, key, a) == MaxPerInterval(c)
  {
    trace, a := Burst(c, key), 1;
    BurstClock(c);
    assert TimesOf(trace) == BurstTimes(c);
    KeysIsolated(c, trace, key, 0);
    SelectOnlyKey(trace, TimesOf(trace), key);
    if c.window >= 0 {
      BurstAnswers(c);
    } else {
      IntervalBound(c, trace, key, a, 0);
    }
  }

  /** The advertised rate, `limit` requests per `window`, holds of every interval of every legal
      trace exactly for these settings. A limit below one still admits a request, and a larger one
      can be exceeded as soon as the window is not zero long. */
  predicate RateHolds(c: Config) {
    if c.window < 0 then c.limit >= 0
    else if c.window == 0 then c.limit >= 1
    else c.limit == 1
  }

  lemma AdvertisedRateIff(c: Config)
    ensures (forall trace, key, a, from :: ClockFrom(TimesOf(trace), from) ==> Admitted(c, trace, key, a) <= c.limit)
            <==> RateHolds(c)
  {
    if RateHolds(c) {
      forall trace, key, a, from | ClockFrom(TimesOf(trace), from)
        ensures Admitted(c, trace, key, a) <= c.limit
      {
        IntervalBound(c, trace, key, a, from);
      }
    } else {
      var trace, a := BoundIsReached(c, "");
      assert ClockFrom(TimesOf(trace), 0) && Admitted(c, trace, "", a) > c.limit;
    }
  }

  // ---- the table does not fill up with expired entries ----

  /** After a request that opens a window, the table has fewer than 1024 entries or only
      unexpired ones; and eviction never removes an unexpired entry. */
  lemma TableStaysClean(c: Config, hits: Hits, key: string, now: int)
    requires key !in hits || Expired(hits[key], now)
    ensures var hits' := Allowed(c, hits, key, now).1;
            && (|hits'| < 1024 || forall other :: other in hits' ==> !Expired(hits'[other], now))
            && (c.window >= 0 ==> key in hits' && hits'[key] == Window(now + c.window, 1))
            && (forall other :: other in hits && !Expired(hits[other], now) ==>
                  other in hits' && hits'[other] == hits[other])
  {
  }

  // ---- the limiter object ----

  class Limiter {
    const config: Config
    var hits: Hits

    constructor (limit: int, window: int)
      ensures config == Config(limit, window) && hits == map[]
    {
      config := Config(limit, window);
      hits := map[];
    }

    method Allow(key: string, now: int) returns (ok: bool)
      modifies this
      ensures (ok, hits) == Allowed(config, old(hits), key, now)
    {
      if key !in hits || now > hits[key].resetAt {
        hits := hits[key := Window(now + config.window, 1)];
        Gc(now);
        return true;
      }
      var w := hits[key];
      if w.count >= config.limit {
        assert hits == hits[key := w];
        return false;
      }
      hits := hits[key := w.(count := w.count + 1)];
      return true;
    }

    method Gc(now: int)
      modifies this
      ensures hits == Collected(old(hits), now)
    {
      if |hits| < GC_THRESHOLD {
        return;
      }
      var pending := hits.Keys;
      while pending != {}
        invariant pending <= hits.Keys <= old(hits).Keys
        invariant forall key :: key in hits ==> hits[key] == old(hits)[key]
        invariant forall key :: key in old(hits) && key !in pending ==>
                    (key in hits <==> !Expired(old(hits)[key], now))
        decreases |pending|
      {
        var key :| key in pending;
        pending := pending - {key};
        if now > hits[key].resetAt {
          hits := hits - {key};
        }
      }
    }
  }
}
