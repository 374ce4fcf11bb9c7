/** Fixed-window rate limiting over a shared counter table, with its sweep. */
module RateLimit {
  import opened Arithmetic

  type Time = int

  datatype Key = Key(bucket: string, windowStart: Time)

  type Counters = map<Key, nat>

  datatype Verdict = Verdict(allowed: bool, limit: nat, remaining: nat, resetAt: Time)

  /** Limit of each bucket and length of its window, in units of the finest clock. */
  datatype Policy = Policy(limit: string -> nat, window: string -> nat)

  ghost predicate Sound(p: Policy) { forall b :: p.window(b) > 0 }

  /** `Math.floor(now / windowMs) * windowMs` */
  function WindowStart(now: Time, windowMs: nat): Time
    requires windowMs > 0
  {
    now / windowMs * windowMs
  }

  lemma WindowHolds(now: Time, windowMs: nat, start: Time, k: int)
    requires windowMs > 0 && start == k * windowMs
    ensures WindowStart(now, windowMs) == start <==> start <= now < start + windowMs
    ensures WindowStart(now, windowMs) <= now < WindowStart(now, windowMs) + windowMs
  {
    var q := now / windowMs;
    Quotient(now, windowMs);
    if q < k { MultiplesApart(q, k, windowMs); } else if q > k { MultiplesApart(k, q, windowMs); }
  }

  function Hits(c: Counters, k: Key): nat { if k in c then c[k] else 0 }

  function Swept(c: Counters, before: Time): Counters { map k | k in c && k.windowStart >= before :: c[k] }

  class CounterTable {
    var rows: Counters

    constructor ()
      ensures rows == map[]
    {
      rows := map[];
    }

    /** The upsert and the verdict on the count it returns. */
    method CheckRateLimit(bucket: string, limit: nat, windowMs: nat, now: Time) returns (v: Verdict)
      requires windowMs > 0
      modifies this
      ensures rows == After(old(rows), bucket, windowMs, now)
      ensures v.limit == limit && v.resetAt == WindowStart(now, windowMs) + windowMs
      ensures v.resetAt - windowMs <= now < v.resetAt
      ensures var hits := Hits(rows, Key(bucket, v.resetAt - windowMs));
              (v.allowed <==> hits <= limit) && v.remaining == if hits < limit then limit - hits else 0
    {
      var start := now / windowMs * windowMs;
      WindowHolds(now, windowMs, start, now / windowMs);
      var k := Key(bucket, start);
      var hits := if k in rows then rows[k] + 1 else 1;
      rows := rows[k := hits];
      v := Verdict(hits <= limit, limit, if limit > hits then limit - hits else 0, start + windowMs);
    }

    /** What is kept is exactly the windows that began no earlier than the horizon, with their
        counts; the number reported is that of the windows that went. */
    method PruneRateLimitCounters(now: Time, horizonMs: nat) returns (deleted: nat)
      modifies this
      ensures forall k :: k in rows <==> k in old(rows) && k.windowStart >= now - horizonMs
      ensures forall k :: k in rows ==> rows[k] == old(rows)[k]
      ensures deleted == |set k | k in old(rows) && k.windowStart < now - horizonMs|
      ensures rows == Swept(old(rows), now - horizonMs)
    {
      var gone := set k | k in rows && k.windowStart < now - horizonMs;
      deleted := |gone|;
      rows := rows - gone;
    }
  }

  /* ---- whole runs ---- */

  datatype Event = Request(bucket: string, now: Time) | Prune(now: Time)

  function After(c: Counters, bucket: string, windowMs: nat, now: Time): Counters
    requires windowMs > 0
  {
    var k := Key(bucket, WindowStart(now, windowMs));
    c[k := Hits(c, k) + 1]
  }

  function Table(p: Policy, horizon: nat, es: seq<Event>): Counters
    requires Sound(p)
  {
    if es == [] then map[]
    else
      var c := Table(p, horizon, es[..|es| - 1]);
      match es[|es| - 1]
      case Request(b, now) => After(c, b, p.window(b), now)
      case Prune(now) => Swept(c, now - horizon)
  }

  predicate InWindow(p: Policy, e: Event, k: Key)
    requires Sound(p)
  {
    e.Request? && k == Key(e.bucket, WindowStart(e.now, p.window(e.bucket)))
  }

  /** The requests of one bucket and window. */
  function Picks(p: Policy, k: Key): Event -> bool
    requires Sound(p)
  {
    (e: Event) => InWindow(p, e, k)
  }

  /** Whether the last request of a run is let through: the count after it is within the limit. */
  predicate LastAllowed(p: Policy, horizon: nat, es: seq<Event>)
    requires Sound(p) && es != [] && es[|es| - 1].Request?
  {
    var e := es[|es| - 1];
    Hits(Table(p, horizon, es), Key(e.bucket, WindowStart(e.now, p.window(e.bucket)))) <= p.limit(e.bucket)
  }

  function Requests(p: Policy, es: seq<Event>, k: Key): nat
    requires Sound(p)
  {
    if es == [] then 0
    else Requests(p, es[..|es| - 1], k) + if InWindow(p, es[|es| - 1], k) then 1 else 0
  }

  /** The requests let through whose bucket and time `which` picks. */
  function Allowed(p: Policy, horizon: nat, es: seq<Event>, which: Event -> bool): nat
    requires Sound(p)
  {
    if es == [] then 0
    else
      Allowed(p, horizon, es[..|es| - 1], which)
      + if es[|es| - 1].Request? && which(es[|es| - 1]) && LastAllowed(p, horizon, es) then 1 else 0
  }

  /** Requests are dated in steps of `grain`, and a sweep may be dated up to `lag` later than a
      request that comes after it: because time passes between the reading of the request's date
      and its upsert, because that date is rounded down, or because the two read different
      clocks. */
  datatype Clock = Clock(grain: nat, lag: nat)

  ghost predicate Dated(es: seq<Event>, clock: Clock)
    requires clock.grain > 0
  {
    && (forall i :: 0 <= i < |es| && es[i].Request? ==> es[i].now % clock.grain == 0)
    && (forall i, j :: 0 <= i < j < |es| && es[i].Prune? && es[j].Request? ==> es[i].now <= es[j].now + clock.lag)
  }

  /** No sweep so far reached the window. */
  ghost predicate Unswept(es: seq<Event>, horizon: nat, k: Key) {
    forall i :: 0 <= i < |es| && es[i].Prune? ==> es[i].now - horizon <= k.windowStart
  }

  lemma {:induction false} CountIsExact(p: Policy, horizon: nat, es: seq<Event>, k: Key)
    requires Sound(p) && Unswept(es, horizon, k)
    ensures Hits(Table(p, horizon, es), k) == Requests(p, es, k)
    decreases |es|
  {
    if es != [] {
      CountIsExact(p, horizon, es[..|es| - 1], k);
    }
  }

  lemma StepsApart(a: int, b: int, grain: nat)
    requires grain > 0 && a % grain == 0 && b % grain == 0 && a < b
    ensures a + grain <= b
  {
    Remainder(a, grain);
    Remainder(b, grain);
    if a / grain < b / grain {
      MultiplesApart(a / grain, b / grain, grain);
    } else if a / grain > b / grain {
      MultiplesApart(b / grain, a / grain, grain);
    }
  }

  lemma WindowEnds(window: nat, grain: nat, q: int, m: nat)
    requires grain > 0 && window == m * grain
    ensures (q * window + window) % grain == 0
  {
    assert q * window + window == (q * m + m) * grain;
    UniqueRest(q * window + window, grain, q * m + m, 0);
  }

  /** The last moment a request can be dated in a window. */
  lemma LastMoment(window: nat, grain: nat, now: Time)
    requires grain > 0 && window > 0 && window % grain == 0 && now % grain == 0
    ensures WindowStart(now, window) <= now <= WindowStart(now, window) + window - grain
  {
    var q := now / window;
    Quotient(now, window);
    Remainder(window, grain);
    WindowEnds(window, grain, q, window / grain);
    StepsApart(now, q * window + window, grain);
  }

  ghost predicate Fine(p: Policy, clock: Clock) {
    Sound(p) && clock.grain > 0 && forall b :: p.window(b) % clock.grain == 0
  }

  lemma WindowUnswept(p: Policy, horizon: nat, es: seq<Event>, k: Key, clock: Clock)
    requires Fine(p, clock) && Dated(es, clock) && es != [] && InWindow(p, es[|es| - 1], k)
    requires p.window(k.bucket) + clock.lag <= horizon + clock.grain
    ensures Unswept(es, horizon, k)
  {
    var e := es[|es| - 1];
    LastMoment(p.window(k.bucket), clock.grain, e.now);
    forall i | 0 <= i < |es| && es[i].Prune? ensures es[i].now - horizon <= k.windowStart {
      assert es[i].now <= e.now + clock.lag;
    }
  }

  /** What a sweep takes can never be read again: every request that may follow it finds the
      count it would have found without the sweep. */
  lemma SweepIsUnseen(p: Policy, horizon: nat, c: Counters, b: string, sweep: Time, now: Time, clock: Clock)
    requires Fine(p, clock) && p.window(b) + clock.lag <= horizon + clock.grain
    requires now % clock.grain == 0 && sweep <= now + clock.lag
    ensures var k := Key(b, WindowStart(now, p.window(b))); Hits(Swept(c, sweep - horizon), k) == Hits(c, k)
  {
    LastMoment(p.window(b), clock.grain, now);
  }

  /** Of the requests of one bucket and window, exactly the first `limit` are let through. */
  lemma {:induction false} ExactlyTheLimit(p: Policy, horizon: nat, es: seq<Event>, k: Key, clock: Clock)
    requires Fine(p, clock) && Dated(es, clock) && p.window(k.bucket) + clock.lag <= horizon + clock.grain
    ensures Allowed(p, horizon, es, Picks(p, k)) == Min(p.limit(k.bucket), Requests(p, es, k))
    decreases |es|
  {
    if es != [] {
      ExactlyTheLimit(p, horizon, es[..|es| - 1], k, clock);
      if InWindow(p, es[|es| - 1], k) {
        WindowUnswept(p, horizon, es, k, clock);
        CountIsExact(p, horizon, es, k);
      }
    }
  }

  predicate Between(e: Event, bucket: string, from: Time, to: Time) {
    e.Request? && e.bucket == bucket && from <= e.now < to
  }

  /** Any stretch as long as a window touches two windows. */
  lemma {:induction false} TwoWindows(p: Policy, horizon: nat, es: seq<Event>, b: string, from: Time, k1: Key, k2: Key)
    requires Sound(p) && k1 == Key(b, WindowStart(from, p.window(b)))
    requires k2 == Key(b, k1.windowStart + p.window(b))
    ensures Allowed(p, horizon, es, e => Between(e, b, from, from + p.window(b)))
         <= Allowed(p, horizon, es, Picks(p, k1)) + Allowed(p, horizon, es, Picks(p, k2))
    decreases |es|
  {
    if es != [] {
      TwoWindows(p, horizon, es[..|es| - 1], b, from, k1, k2);
      var e := es[|es| - 1];
      if Between(e, b, from, from + p.window(b)) { OneOfTwo(p, e, b, from); }
    }
  }

  lemma OneOfTwo(p: Policy, e: Event, b: string, from: Time)
    requires Sound(p) && Between(e, b, from, from + p.window(b))
    ensures var s := WindowStart(from, p.window(b));
            InWindow(p, e, Key(b, s)) || InWindow(p, e, Key(b, s + p.window(b)))
  {
    var w := p.window(b);
    var q := from / w;
    assert (q + 1) * w == q * w + w;
    WindowHolds(from, w, q * w, q);
    WindowHolds(e.now, w, q * w, q);
    WindowHolds(e.now, w, (q + 1) * w, q + 1);
  }

  /** Never more than twice the limit in any stretch as long as the window. */
  lemma AtMostTwiceTheLimit(p: Policy, horizon: nat, es: seq<Event>, b: string, from: Time, clock: Clock)
    requires Fine(p, clock) && Dated(es, clock) && p.window(b) + clock.lag <= horizon + clock.grain
    ensures Allowed(p, horizon, es, e => Between(e, b, from, from + p.window(b))) <= 2 * p.limit(b)
  {
    var k1 := Key(b, WindowStart(from, p.window(b)));
    var k2 := Key(b, k1.windowStart + p.window(b));
    TwoWindows(p, horizon, es, b, from, k1, k2);
    ExactlyTheLimit(p, horizon, es, k1, clock);
    ExactlyTheLimit(p, horizon, es, k2, clock);
  }

  /* ---- the bounds are reached ---- */

  function Burst(b: string, at: Time, n: nat): seq<Event> { seq(n, _ => Request(b, at)) }

  /** Up to the limit, a burst in a window nobody has counted in yet is let through. */
  lemma {:induction false} BurstAllowed(p: Policy, horizon: nat, before: seq<Event>, b: string, at: Time, n: nat,
                                        which: Event -> bool)
    requires Sound(p) && n <= p.limit(b) && which(Request(b, at))
    requires Hits(Table(p, horizon, before), Key(b, WindowStart(at, p.window(b)))) == 0
    ensures var es := before + Burst(b, at, n);
            && Allowed(p, horizon, es, which) == Allowed(p, horizon, before, which) + n
            && Hits(Table(p, horizon, es), Key(b, WindowStart(at, p.window(b)))) == n
    decreases n
  {
    var es := before + Burst(b, at, n);
    if n == 0 {
      assert es == before;
    } else {
      BurstAllowed(p, horizon, before, b, at, n - 1, which);
      assert es == before + Burst(b, at, n - 1) + [Request(b, at)];
      OneMoreRequest(p, horizon, before + Burst(b, at, n - 1), b, at, which);
    }
  }

  lemma OneMoreRequest(p: Policy, horizon: nat, es: seq<Event>, b: string, at: Time, which: Event -> bool)
    requires Sound(p) && which(Request(b, at))
    requires Hits(Table(p, horizon, es), Key(b, WindowStart(at, p.window(b)))) < p.limit(b)
    ensures var more := es + [Request(b, at)]; var k := Key(b, WindowStart(at, p.window(b)));
            && Allowed(p, horizon, more, which) == Allowed(p, horizon, es, which) + 1
            && Hits(Table(p, horizon, more), k) == Hits(Table(p, horizon, es), k) + 1
  {
    assert (es + [Request(b, at)])[..|es|] == es;
  }

  lemma {:induction false} BurstRequests(p: Policy, before: seq<Event>, b: string, at: Time, n: nat, k: Key)
    requires Sound(p)
    ensures Requests(p, before + Burst(b, at, n), k)
         == Requests(p, before, k) + if k == Key(b, WindowStart(at, p.window(b))) then n else 0
    decreases n
  {
    var es := before + Burst(b, at, n);
    if n == 0 {
      assert es == before;
    } else {
      BurstRequests(p, before, b, at, n - 1, k);
      assert es[..|es| - 1] == before + Burst(b, at, n - 1);
    }
  }

  /** Without requests in a window its counter is zero. */
  lemma {:induction false} Untouched(p: Policy, horizon: nat, es: seq<Event>, k: Key)
    requires Sound(p) && Requests(p, es, k) == 0
    ensures Hits(Table(p, horizon, es), k) == 0
    decreases |es|
  {
    if es != [] { Untouched(p, horizon, es[..|es| - 1], k); }
  }

  lemma TwoBursts(p: Policy, horizon: nat, b: string, s: Time, t: Time, n: nat, which: Event -> bool)
    requires Sound(p) && n <= p.limit(b) && which(Request(b, s)) && which(Request(b, t))
    requires WindowStart(s, p.window(b)) != WindowStart(t, p.window(b))
    ensures Allowed(p, horizon, Burst(b, s, n) + Burst(b, t, n), which) == 2 * n
  {
    var first, k := Burst(b, s, n), Key(b, WindowStart(t, p.window(b)));
    assert [] + first == first;
    BurstAllowed(p, horizon, [], b, s, n, which);
    BurstRequests(p, [], b, s, n, k);
    Untouched(p, horizon, first, k);
    BurstAllowed(p, horizon, first, b, t, n, which);
  }

  /** Twice the limit does get through in one window length: a burst at the end of a window,
      another at the start of the next. */
  lemma TwiceIsReached(p: Policy, horizon: nat, b: string, clock: Clock)
    requires Fine(p, clock) && p.window(b) > clock.grain
    ensures var w := p.window(b); var last := w - clock.grain;
            var es := Burst(b, last, p.limit(b)) + Burst(b, w, p.limit(b));
            Dated(es, clock) && Allowed(p, horizon, es, e => Between(e, b, last, last + w)) == 2 * p.limit(b)
  {
    var w := p.window(b);
    var last := w - clock.grain;
    LastStep(w, clock.grain);
    WindowHolds(last, w, 0, 0);
    WindowHolds(w, w, w, 1);
    TwoBursts(p, horizon, b, last, w, p.limit(b), e => Between(e, b, last, last + w));
  }

  lemma LastStep(window: nat, grain: nat)
    requires grain > 0 && window % grain == 0
    ensures (window - grain) % grain == 0
  {
    Remainder(window, grain);
    assert window - grain == (window / grain - 1) * grain;
    UniqueRest(window - grain, grain, window / grain - 1, 0);
  }

  lemma AfterSweep(p: Policy, horizon: nat, es: seq<Event>, b: string, at: Time, sweep: Time, k: Key,
                   which: Event -> bool)
    requires Sound(p) && p.limit(b) > 0 && which(Request(b, at))
    requires k == Key(b, WindowStart(at, p.window(b))) && k.windowStart < sweep - horizon
    ensures var more := es + [Prune(sweep)] + [Request(b, at)];
            && Allowed(p, horizon, more, which) == Allowed(p, horizon, es, which) + 1
            && Requests(p, more, k) == Requests(p, es, k) + 1
  {
    var swept := es + [Prune(sweep)];
    assert swept[..|es|] == es && (swept + [Request(b, at)])[..|swept|] == swept;
    OneMoreRequest(p, horizon, swept, b, at, which);
  }

  /** A burst up to the limit at the start of a window, a sweep as late as may be, and one
      request more at the window's last moment. */
  function Overrun(p: Policy, b: string, clock: Clock): seq<Event> {
    var last := p.window(b) - clock.grain;
    Burst(b, 0, p.limit(b)) + [Prune(last + clock.lag)] + [Request(b, last)]
  }

  lemma OverrunSucceeds(p: Policy, horizon: nat, b: string, k: Key, clock: Clock)
    requires Fine(p, clock) && k == Key(b, 0)
    requires p.window(b) + clock.lag > horizon + clock.grain && p.limit(b) > 0
    ensures var es := Overrun(p, b, clock);
            && Dated(es, clock)
            && Allowed(p, horizon, es, Picks(p, k)) == Requests(p, es, k) == p.limit(b) + 1
  {
    var w := p.window(b);
    var last := w - clock.grain;
    StepsApart(0, w, clock.grain);
    LastStep(w, clock.grain);
    WindowHolds(0, w, 0, 0);
    WindowHolds(last, w, 0, 0);
    OverrunCounts(p, horizon, b, last, last + clock.lag, k);
    OverrunIsDated(p, b, clock);
  }

  lemma OverrunCounts(p: Policy, horizon: nat, b: string, last: Time, sweep: Time, k: Key)
    requires Sound(p) && p.limit(b) > 0 && k.windowStart < sweep - horizon
    requires k == Key(b, WindowStart(0, p.window(b))) == Key(b, WindowStart(last, p.window(b)))
    ensures var es := Burst(b, 0, p.limit(b)) + [Prune(sweep)] + [Request(b, last)];
            Allowed(p, horizon, es, Picks(p, k)) == Requests(p, es, k) == p.limit(b) + 1
  {
    FirstBurst(p, horizon, b, k);
    AfterSweep(p, horizon, Burst(b, 0, p.limit(b)), b, last, sweep, k, Picks(p, k));
  }

  lemma FirstBurst(p: Policy, horizon: nat, b: string, k: Key)
    requires Sound(p) && k == Key(b, WindowStart(0, p.window(b)))
    ensures var burst := Burst(b, 0, p.limit(b));
            Allowed(p, horizon, burst, Picks(p, k)) == Requests(p, burst, k) == p.limit(b)
  {
    var n := p.limit(b);
    assert [] + Burst(b, 0, n) == Burst(b, 0, n);
    BurstAllowed(p, horizon, [], b, 0, n, Picks(p, k));
    BurstRequests(p, [], b, 0, n, k);
  }

  lemma OverrunIsDated(p: Policy, b: string, clock: Clock)
    requires clock.grain > 0 && (p.window(b) - clock.grain) % clock.grain == 0
    ensures Dated(Overrun(p, b, clock), clock)
  {
  }

  ghost predicate LimitHolds(p: Policy, horizon: nat, b: string, clock: Clock)
    requires Fine(p, clock)
  {
    forall es, k: Key {:trigger Requests(p, es, k)} :: Dated(es, clock) && k.bucket == b ==>
      Allowed(p, horizon, es, Picks(p, k)) == Min(p.limit(b), Requests(p, es, k))
  }

  lemma {:induction false} NothingUnderZero(p: Policy, horizon: nat, es: seq<Event>, k: Key)
    requires Sound(p) && p.limit(k.bucket) == 0
    ensures Allowed(p, horizon, es, Picks(p, k)) == 0
    decreases |es|
  {
    if es != [] { NothingUnderZero(p, horizon, es[..|es| - 1], k); }
  }

  /** The limit is exact in every run, whatever is swept when, if and only if the window and
      the lag together are no longer than the horizon and one step of the clock (or nothing is
      let through at all). */
  lemma LimitHoldsIff(p: Policy, horizon: nat, b: string, clock: Clock)
    requires Fine(p, clock)
    ensures LimitHolds(p, horizon, b, clock)
       <==> p.window(b) + clock.lag <= horizon + clock.grain || p.limit(b) == 0
  {
    if p.window(b) + clock.lag <= horizon + clock.grain {
      forall es, k: Key {:trigger Requests(p, es, k)} | Dated(es, clock) && k.bucket == b
        ensures Allowed(p, horizon, es, Picks(p, k)) == Min(p.limit(b), Requests(p, es, k))
      {
        ExactlyTheLimit(p, horizon, es, k, clock);
      }
    } else if p.limit(b) == 0 {
      forall es, k: Key {:trigger Requests(p, es, k)} | k.bucket == b
        ensures Allowed(p, horizon, es, Picks(p, k)) == Min(p.limit(b), Requests(p, es, k))
      {
        NothingUnderZero(p, horizon, es, k);
      }
    } else {
      OverrunSucceeds(p, horizon, b, Key(b, 0), clock);
    }
  }

  /** Requests and sweeps dated by the application in milliseconds; up to `delay` of them pass
      between the reading of a request's date and its upsert. */
  function Application(delay: nat): Clock { Clock(1, delay) }

  /** Sweeps dated by the database in microseconds, requests in milliseconds rounded down;
      `delay` in microseconds. */
  function Database(delay: nat): Clock { Clock(1000, 999 + delay) }

  lemma LimitHoldsByApplication(p: Policy, horizonMs: nat, b: string, delay: nat)
    requires Fine(p, Application(delay))
    ensures LimitHolds(p, horizonMs, b, Application(delay))
       <==> p.window(b) + delay <= horizonMs + 1 || p.limit(b) == 0
  {
    LimitHoldsIff(p, horizonMs, b, Application(delay));
  }

  lemma LimitHoldsByDatabase(p: Policy, horizonMs: nat, b: string, windowMs: nat, delay: nat)
    requires Fine(p, Database(delay)) && p.window(b) == 1000 * windowMs
    ensures LimitHolds(p, 1000 * horizonMs, b, Database(delay))
       <==> 1000 * windowMs + delay <= 1000 * horizonMs + 1 || p.limit(b) == 0
  {
    LimitHoldsIff(p, 1000 * horizonMs, b, Database(delay));
  }

  const DAY := 86_400_000

  /** A window of one day, which is the sweep's horizon: one request too many gets through as
      soon as upserts can be two milliseconds late.  The request is dated in the window's last
      millisecond, the sweep before its upsert two milliseconds later. */
  lemma DayWindowOverruns(p: Policy, b: string, delay: nat)
    requires Fine(p, Application(delay)) && p.window(b) == DAY && p.limit(b) > 0
    ensures LimitHolds(p, DAY, b, Application(delay)) <==> delay <= 1
    ensures delay >= 2 ==>
      var es := Burst(b, 0, p.limit(b)) + [Prune(DAY + 1)] + [Request(b, DAY - 1)];
      var k := Key(b, 0);
      && Dated(es, Application(delay))
      && Allowed(p, DAY, es, Picks(p, k)) == Requests(p, es, k) == p.limit(b) + 1
  {
    LimitHoldsByApplication(p, DAY, b, delay);
    if delay >= 2 { OverrunSucceeds(p, DAY, b, Key(b, 0), Application(2)); }
  }
}
