/** The in-memory rate limiter: per-key token buckets with an idle-eviction
    janitor, in integer nanoseconds. One event costs window/limit; a bucket holds
    at most limit events' worth. */
module RateLimits {

  const IDLE_TTL: int := 600_000_000_000

  datatype Rate = Rate(limit: int, window: int)

  predicate Configured(r: Rate) { r.limit > 0 && r.window > 0 }

  // window/time.Duration(limit): both are positive, so truncation is division.
  function Interval(r: Rate): (i: int)
    requires Configured(r)
    ensures i >= 0
  {
    r.window / r.limit
  }

  datatype Limiter = Limiter(interval: int, burst: int, credit: int, last: int)

  function Cap(l: Limiter): int { l.burst * l.interval }

  function NewLimiter(r: Rate, now: int): Limiter
    requires Configured(r)
  {
    Limiter(Interval(r), r.limit, r.limit * Interval(r), now)
  }

  function Elapsed(l: Limiter, now: int): int { if now < l.last then 0 else now - l.last }

  function CreditAt(l: Limiter, now: int): int
  {
    if l.credit + Elapsed(l, now) > Cap(l) then Cap(l) else l.credit + Elapsed(l, now)
  }

  predicate CanTake(l: Limiter, now: int) { CreditAt(l, now) >= l.interval }

  // A denied event leaves the limiter alone.
  function Take(l: Limiter, now: int): Limiter
  {
    if CanTake(l, now) then l.(credit := CreditAt(l, now) - l.interval, last := now) else l
  }

  datatype BucketState = BucketState(lim: Limiter, lastSeen: int)

  type Buckets = map<string, BucketState>

  // One Allow call as a function of the table.
  function Touched(m: Buckets, key: string, r: Rate, now: int): Limiter
    requires Configured(r)
  {
    if key in m then m[key].lim else NewLimiter(r, now)
  }

  function AllowAnswer(m: Buckets, key: string, r: Rate, now: int): bool
  {
    Configured(r) ==> CanTake(Touched(m, key, r, now), now)
  }

  function AllowTable(m: Buckets, key: string, r: Rate, now: int): Buckets
  {
    if !Configured(r) then m else m[key := BucketState(Take(Touched(m, key, r, now), now), now)]
  }

  predicate Idle(b: BucketState, now: int) { now - b.lastSeen > IDLE_TTL }

  function Swept(m: Buckets, now: int): Buckets
  {
    map k | k in m && !Idle(m[k], now) :: m[k]
  }

  class Bucket {
    var lim: Limiter
    var lastSeen: int

    constructor (lim: Limiter)
      ensures this.lim == lim
    {
      this.lim := lim;
      lastSeen := 0;
    }
  }

  class Memory {
    var buckets: map<string, Bucket>

    // Distinct keys have distinct buckets.
    ghost predicate Valid()
      reads this
    {
      forall j, k :: j in buckets && k in buckets && j != k ==> buckets[j] != buckets[k]
    }

    ghost function View(): Buckets
      reads this, buckets.Values
    {
      map k | k in buckets :: BucketState(buckets[k].lim, buckets[k].lastSeen)
    }

    constructor ()
      ensures Valid() && View() == map[]
    {
      buckets := map[];
    }

    method Allow(key: string, limit: int, window: int, now: int) returns (ok: bool)
      requires Valid()
      modifies this, buckets.Values
      ensures Valid()
      ensures fresh(buckets.Values - old(buckets.Values))
      ensures ok == AllowAnswer(old(View()), key, Rate(limit, window), now)
      ensures View() == AllowTable(old(View()), key, Rate(limit, window), now)
    {
      hide CanTake, Take, NewLimiter;
      if limit <= 0 || window <= 0 {
        return true;
      }
      if key !in buckets {
        var b := new Bucket(NewLimiter(Rate(limit, window), now));
        buckets := buckets[key := b];
      }
      var b := buckets[key];
      b.lastSeen := now;
      ok := CanTake(b.lim, now);
      b.lim := Take(b.lim, now);
    }

    // One pass of the janitor, for a tick stamped `now`.
    method Sweep(now: int)
      requires Valid()
      modifies this
      ensures Valid() && buckets.Values <= old(buckets.Values)
      ensures View() == Swept(old(View()), now)
    {
      var todo := buckets.Keys;
      while todo != {}
        invariant todo <= buckets.Keys <= old(buckets.Keys)
        invariant forall k :: k in buckets ==> buckets[k] == old(buckets[k])
        invariant forall k :: k in old(buckets) && k !in buckets ==> Idle(old(View())[k], now)
        invariant forall k :: k in buckets && k !in todo ==> !Idle(old(View())[k], now)
        decreases todo
      {
        var k :| k in todo;
        if now - buckets[k].lastSeen > IDLE_TTL {
          buckets := buckets - {k};
        }
        todo := todo - {k};
      }
      forall b | b in buckets.Values ensures b in old(buckets.Values) {
        var k :| k in buckets && buckets[k] == b;
      }
    }
  }

  // ------------------------------------------------------------------- runs

  // Each key always comes with the same rate, as the server's scope prefixes do.
  type Policy = string -> Rate

  datatype Event = Call(key: string, now: int) | Tick(now: int)

  // Calls happen in clock order. A tick may be handled late, with a stamp from
  // the past, but never ahead of the clock of later calls.
  predicate Ordered(clock: int, evs: seq<Event>)
    decreases |evs|
  {
    evs == [] ||
    match evs[0]
    case Call(_, now) => clock <= now && Ordered(now, evs[1..])
    case Tick(now) => Ordered(if clock < now then now else clock, evs[1..])
  }

  function Next(p: Policy, evict: bool, m: Buckets, e: Event): Buckets
  {
    match e
    case Call(k, now) => AllowTable(m, k, p(k), now)
    case Tick(now) => if evict then Swept(m, now) else m
  }

  // The answers of a limiter that evicts, or of one that never forgets.
  function Answers(p: Policy, evict: bool, m: Buckets, evs: seq<Event>): seq<bool>
    decreases |evs|
  {
    if evs == [] then []
    else
      (if evs[0].Call? then [AllowAnswer(m, evs[0].key, p(evs[0].key), evs[0].now)] else [])
      + Answers(p, evict, Next(p, evict, m, evs[0]), evs[1..])
  }

  predicate LimiterOk(l: Limiter, r: Rate, clock: int)
  {
    && Configured(r) && l.interval == Interval(r) && l.burst == r.limit
    && 0 <= l.credit <= Cap(l) && l.last <= clock
  }

  predicate TableOk(p: Policy, m: Buckets, clock: int)
  {
    forall k :: k in m ==> LimiterOk(m[k].lim, p(k), clock) && m[k].lim.last <= m[k].lastSeen <= clock
  }

  // A bucket refills within the ten minutes it is kept idle.
  predicate Refills(r: Rate)
  {
    r.limit > 0 && r.window > 0 ==> r.limit * (r.window / r.limit) <= 600_000_000_000 + 1
  }

  // For the keys whose rate refills in time, eviction may differ only in having
  // forgotten buckets that are full by now.
  predicate Forgot(p: Policy, m: Buckets, full: Buckets, clock: int)
  {
    && (forall k :: k in m && Refills(p(k)) ==> k in full && m[k] == full[k])
    && (forall k :: k in full && k !in m && Refills(p(k)) ==>
        full[k].lim.credit + (clock - full[k].lim.last) >= Cap(full[k].lim))
  }

  lemma FreshIsFull(r: Rate, l: Limiter, clock: int, now: int)
    requires LimiterOk(l, r, clock) && clock <= now
    requires l.credit + (clock - l.last) >= Cap(l)
    ensures CanTake(l, now) && CanTake(NewLimiter(r, now), now)
    ensures Take(l, now) == Take(NewLimiter(r, now), now)
  {
    assert Cap(l) >= l.interval by {
      var i := l.interval;
      assert l.burst >= 1 && i >= 0;
      assert l.burst * i >= 1 * i by { MulMonotone(1, l.burst, i); }
    }
  }

  lemma MulMonotone(a: int, b: int, c: int)
    requires a <= b && c >= 0
    ensures a * c <= b * c
  {
  }

  lemma NewLimiterOk(r: Rate, now: int)
    requires Configured(r)
    ensures LimiterOk(NewLimiter(r, now), r, now)
  {
    MulMonotone(0, r.limit, Interval(r));
  }

  lemma TakeOk(l: Limiter, r: Rate, clock: int, now: int)
    requires LimiterOk(l, r, clock) && clock <= now
    ensures LimiterOk(Take(l, now), r, now)
  {
  }

  lemma CallKeepsTable(p: Policy, m: Buckets, clock: int, k: string, now: int)
    requires TableOk(p, m, clock) && clock <= now
    ensures TableOk(p, AllowTable(m, k, p(k), now), now)
  {
    if Configured(p(k)) {
      if k !in m { NewLimiterOk(p(k), now); }
      TakeOk(Touched(m, k, p(k), now), p(k), now, now);
    }
  }

  // One step of both limiters keeps them related and gives one answer.
  lemma StepUnobservable(p: Policy, m: Buckets, full: Buckets, clock: int, e: Event)
    requires TableOk(p, full, clock) && Forgot(p, m, full, clock)
    requires e.Call? ==> clock <= e.now
    ensures TableOk(p, Next(p, false, full, e), Later(clock, e))
    ensures Forgot(p, Next(p, true, m, e), Next(p, false, full, e), Later(clock, e))
    ensures e.Call? && Refills(p(e.key)) ==>
              AllowAnswer(m, e.key, p(e.key), e.now) == AllowAnswer(full, e.key, p(e.key), e.now)
  {
    match e
    case Call(k, now) =>
      CallKeepsTable(p, full, clock, k, now);
      if Configured(p(k)) && k in full && k !in m && Refills(p(k)) {
        FreshIsFull(p(k), full[k].lim, clock, now);
      }
    case Tick(now) => SweepUnobservable(p, m, full, clock, now);
  }

  lemma SweepUnobservable(p: Policy, m: Buckets, full: Buckets, clock: int, now: int)
    requires TableOk(p, full, clock) && Forgot(p, m, full, clock)
    ensures TableOk(p, full, Later(clock, Tick(now)))
    ensures Forgot(p, Swept(m, now), full, Later(clock, Tick(now)))
  {
    forall k | k in full && k !in Swept(m, now) && Refills(p(k))
      ensures full[k].lim.credit + (Later(clock, Tick(now)) - full[k].lim.last) >= Cap(full[k].lim)
    {
      if k in m {
        assert Idle(full[k], now);
      }
    }
  }

  function Later(clock: int, e: Event): int { if clock < e.now then e.now else clock }

  lemma {:induction false} RunUnobservable(p: Policy, m: Buckets, full: Buckets, clock: int, evs: seq<Event>)
    requires TableOk(p, full, clock) && Forgot(p, m, full, clock)
    requires forall i :: 0 <= i < |evs| && evs[i].Call? ==> Refills(p(evs[i].key))
    requires Ordered(clock, evs)
    ensures Answers(p, true, m, evs) == Answers(p, false, full, evs)
    decreases |evs|
  {
    if evs != [] {
      StepUnobservable(p, m, full, clock, evs[0]);
      RunUnobservable(p, Next(p, true, m, evs[0]), Next(p, false, full, evs[0]), Later(clock, evs[0]), evs[1..]);
    }
  }

  // -------------------------------------------------------- admission bounds

  function One(b: bool): nat { if b then 1 else 0 }

  // How many events of key k are admitted, and how often k's bucket is evicted.
  function Admitted(p: Policy, evict: bool, m: Buckets, evs: seq<Event>, k: string): nat
    decreases |evs|
  {
    if evs == [] then 0
    else
      One(evs[0].Call? && evs[0].key == k && AllowAnswer(m, k, p(k), evs[0].now))
      + Admitted(p, evict, Next(p, evict, m, evs[0]), evs[1..], k)
  }

  function Evictions(p: Policy, evict: bool, m: Buckets, evs: seq<Event>, k: string): nat
    decreases |evs|
  {
    if evs == [] then 0
    else
      One(k in m && k !in Next(p, evict, m, evs[0]))
      + Evictions(p, evict, Next(p, evict, m, evs[0]), evs[1..], k)
  }

  function After(p: Policy, evict: bool, m: Buckets, evs: seq<Event>): Buckets
    decreases |evs|
  {
    if evs == [] then m else After(p, evict, Next(p, evict, m, evs[0]), evs[1..])
  }

  function ClockAfter(clock: int, evs: seq<Event>): int
    decreases |evs|
  {
    if evs == [] then clock else ClockAfter(Later(clock, evs[0]), evs[1..])
  }

  predicate EndsBy(evs: seq<Event>, t: int) { forall i :: 0 <= i < |evs| ==> evs[i].now <= t }

  function FullCredit(r: Rate): int
    requires Configured(r)
  {
    r.limit * Interval(r)
  }

  // The credit key k can draw on at time t.
  function Potential(p: Policy, m: Buckets, k: string, t: int): int
    requires Configured(p(k))
  {
    if k in m then CreditAt(m[k].lim, t) else FullCredit(p(k))
  }

  lemma StepPotential(p: Policy, evict: bool, m: Buckets, clock: int, e: Event, k: string)
    requires TableOk(p, m, clock) && Configured(p(k))
    requires e.Call? ==> clock <= e.now
    ensures TableOk(p, Next(p, evict, m, e), Later(clock, e))
    ensures Interval(p(k)) * One(e.Call? && e.key == k && AllowAnswer(m, k, p(k), e.now))
              + Potential(p, Next(p, evict, m, e), k, Later(clock, e))
            <= Potential(p, m, k, clock) + (Later(clock, e) - clock)
               + FullCredit(p(k)) * One(k in m && k !in Next(p, evict, m, e))
    ensures Potential(p, m, k, clock) >= 0
  {
    NewLimiterOk(p(k), clock);
    if e.Call? {
      CallKeepsTable(p, m, clock, e.key, e.now);
      if e.key == k && k !in m { NewLimiterOk(p(k), e.now); }
    }
  }

  // Admitted events are paid for by the starting credit, elapsed time, and one
  // full bucket for each eviction.
  lemma {:induction false} AdmissionPotential(p: Policy, evict: bool, m: Buckets, t0: int, t1: int, evs: seq<Event>,
      k: string)
    requires TableOk(p, m, t0) && Configured(p(k))
    requires Ordered(t0, evs) && EndsBy(evs, t1) && t0 <= t1
    ensures Interval(p(k)) * Admitted(p, evict, m, evs, k)
            <= Potential(p, m, k, t0) + (t1 - t0) + FullCredit(p(k)) * Evictions(p, evict, m, evs, k)
    decreases |evs|
  {
    hide NewLimiter, Take, CanTake, CreditAt, Swept, LimiterOk;
    var i, f := Interval(p(k)), FullCredit(p(k));
    if evs == [] {
      StepPotential(p, evict, m, t0, Tick(t0), k);
      assert i * 0 == 0 && f * 0 == 0;
    } else {
      var e, rest, m' := evs[0], evs[1..], Next(p, evict, m, evs[0]);
      var a := One(e.Call? && e.key == k && AllowAnswer(m, k, p(k), e.now));
      var g := One(k in m && k !in m');
      var b, h := Admitted(p, evict, m', rest, k), Evictions(p, evict, m', rest, k);
      StepPotential(p, evict, m, t0, e, k);
      AdmissionPotential(p, evict, m', Later(t0, e), t1, rest, k);
      assert i * (a + b) == i * a + i * b;
      assert f * (g + h) == f * g + f * h;
    }
  }

  lemma DivBound(i: int, n: int, full: int, t: int)
    requires i > 0 && i * n <= full * i + t
    ensures n <= full + t / i
  {
    assert i * (t / i + 1) > t;
    assert i * (n - full) == i * n - i * full;
    if n - full >= t / i + 1 { MulMonotone(t / i + 1, n - full, i); }
  }

  lemma {:induction false} RunKeepsTable(p: Policy, m: Buckets, full: Buckets, clock: int, evs: seq<Event>)
    requires TableOk(p, m, clock) && TableOk(p, full, clock) && Forgot(p, m, full, clock) && Ordered(clock, evs)
    ensures TableOk(p, After(p, true, m, evs), ClockAfter(clock, evs))
    ensures TableOk(p, After(p, false, full, evs), ClockAfter(clock, evs))
    ensures Forgot(p, After(p, true, m, evs), After(p, false, full, evs), ClockAfter(clock, evs))
    decreases |evs|
  {
    if evs != [] {
      StepUnobservable(p, m, full, clock, evs[0]);
      if evs[0].Call? { CallKeepsTable(p, m, clock, evs[0].key, evs[0].now); }
      RunKeepsTable(p, Next(p, true, m, evs[0]), Next(p, false, full, evs[0]), Later(clock, evs[0]), evs[1..]);
    }
  }

  lemma {:induction false} SameAdmitted(p: Policy, m: Buckets, full: Buckets, clock: int, evs: seq<Event>, k: string)
    requires TableOk(p, full, clock) && Forgot(p, m, full, clock) && Ordered(clock, evs)
    requires Refills(p(k))
    ensures Admitted(p, true, m, evs, k) == Admitted(p, false, full, evs, k)
    ensures Evictions(p, false, full, evs, k) == 0
    decreases |evs|
  {
    if evs != [] {
      StepUnobservable(p, m, full, clock, evs[0]);
      SameAdmitted(p, Next(p, true, m, evs[0]), Next(p, false, full, evs[0]), Later(clock, evs[0]), evs[1..], k);
    }
  }

  lemma Regroup(l: int, i: int, e: int)
    ensures l * i + (l * i) * e == (l * (1 + e)) * i
  {
  }

  lemma BoundFrom(p: Policy, evict: bool, m: Buckets, t0: int, t1: int, evs: seq<Event>, k: string)
    requires TableOk(p, m, t0) && Ordered(t0, evs) && EndsBy(evs, t1) && t0 <= t1
    requires Configured(p(k)) && Interval(p(k)) > 0
    ensures Admitted(p, evict, m, evs, k)
            <= p(k).limit * (1 + Evictions(p, evict, m, evs, k)) + (t1 - t0) / Interval(p(k))
  {
    AdmissionPotential(p, evict, m, t0, t1, evs, k);
    Regroup(p(k).limit, Interval(p(k)), Evictions(p, evict, m, evs, k));
    DivBound(Interval(p(k)), Admitted(p, evict, m, evs, k), p(k).limit * (1 + Evictions(p, evict, m, evs, k)), t1 - t0);
  }

  // Over any stretch of any run, from t0 to t1: a key admits at most
  // limit*(1+E) + (t1-t0)/I events, E counting its evictions in the stretch; and
  // at most limit + (t1-t0)/I when its bucket refills within the idle time.
  lemma {:induction false} AdmissionBound(p: Policy, clock: int, before: seq<Event>, stretch: seq<Event>,
                                               t0: int, t1: int, k: string)
    requires Ordered(clock, before) && ClockAfter(clock, before) <= t0
    requires Ordered(t0, stretch) && EndsBy(stretch, t1) && t0 <= t1
    requires Configured(p(k)) && Interval(p(k)) > 0
    ensures var m := After(p, true, map[], before);
            Admitted(p, true, m, stretch, k)
            <= p(k).limit * (1 + Evictions(p, true, m, stretch, k)) + (t1 - t0) / Interval(p(k))
    ensures Refills(p(k)) ==>
            Admitted(p, true, After(p, true, map[], before), stretch, k) <= p(k).limit + (t1 - t0) / Interval(p(k))
  {
    var m, full := After(p, true, map[], before), After(p, false, map[], before);
    RunKeepsTable(p, map[], map[], clock, before);
    BoundFrom(p, true, m, t0, t1, stretch, k);
    if Refills(p(k)) {
      SameAdmitted(p, m, full, t0, stretch, k);
      BoundFrom(p, false, full, t0, t1, stretch, k);
      assert p(k).limit * (1 + 0) == p(k).limit;
    }
  }

  // ------------------------------------------------------------- no starvation

  function Calls(evs: seq<Event>, k: string): nat
    decreases |evs|
  {
    if evs == [] then 0 else One(evs[0].Call? && evs[0].key == k) + Calls(evs[1..], k)
  }

  // From time `ready` on, the calls of k are at least one interval apart.
  predicate Spaced(k: string, i: int, ready: int, evs: seq<Event>)
    decreases |evs|
  {
    evs == [] ||
    if evs[0].Call? && evs[0].key == k then ready <= evs[0].now && Spaced(k, i, evs[0].now + i, evs[1..])
    else Spaced(k, i, ready, evs[1..])
  }

  lemma TakeLeavesNext(l: Limiter, r: Rate, clock: int, now: int)
    requires LimiterOk(l, r, clock) && clock <= now && CanTake(l, now)
    ensures CanTake(Take(l, now), now + l.interval)
  {
    MulMonotone(1, l.burst, l.interval);
  }

  // A fresh bucket can serve at once, and one that can serve at `ready` still can
  // later.
  lemma TouchedCanTake(p: Policy, m: Buckets, clock: int, ready: int, now: int, k: string)
    requires TableOk(p, m, clock) && Configured(p(k)) && ready <= now
    requires k in m ==> CanTake(m[k].lim, ready)
    ensures CanTake(Touched(m, k, p(k), now), now)
  {
    if k !in m {
      NewLimiterOk(p(k), now);
      MulMonotone(1, p(k).limit, Interval(p(k)));
    }
  }

  lemma {:induction false} SpacedCallsAdmitted(p: Policy, evict: bool, m: Buckets, clock: int, ready: int,
      evs: seq<Event>, k: string)
    requires TableOk(p, m, clock) && Ordered(clock, evs) && Configured(p(k))
    requires k in m ==> CanTake(m[k].lim, ready)
    requires Spaced(k, Interval(p(k)), ready, evs)
    ensures Admitted(p, evict, m, evs, k) == Calls(evs, k)
    decreases |evs|
  {
    hide Take, NewLimiter, CanTake, CreditAt;
    if evs != [] {
      var e, m' := evs[0], Next(p, evict, m, evs[0]);
      StepPotential(p, evict, m, clock, e, k);
      if e.Call? && e.key == k {
        var l := Touched(m, k, p(k), e.now);
        TouchedCanTake(p, m, clock, ready, e.now, k);
        if k !in m { NewLimiterOk(p(k), e.now); }
        TakeLeavesNext(l, p(k), e.now, e.now);
        SpacedCallsAdmitted(p, evict, m', e.now, e.now + Interval(p(k)), evs[1..], k);
      } else {
        SpacedCallsAdmitted(p, evict, m', Later(clock, e), ready, evs[1..], k);
      }
    }
  }

  // The limiter never starves: a key whose events come at least one interval
  // apart is admitted every time, with or without eviction, whatever other keys
  // do; and a key not seen before is admitted `limit` times at once (FreshBurst).
  lemma SpacedNeverDenied(p: Policy, evict: bool, clock: int, evs: seq<Event>, k: string)
    requires Ordered(clock, evs) && Configured(p(k)) && Spaced(k, Interval(p(k)), clock, evs)
    ensures Admitted(p, evict, map[], evs, k) == Calls(evs, k)
  {
    SpacedCallsAdmitted(p, evict, map[], clock, clock, evs, k);
  }

  // The first `limit` calls of a key are admitted, however they are spread; so
  // are `left` calls of a bucket that holds as much credit.
  lemma {:induction false} FirstCallsAdmitted(p: Policy, evict: bool, m: Buckets, clock: int, evs: seq<Event>,
      k: string, left: int)
    requires TableOk(p, m, clock) && Ordered(clock, evs) && Configured(p(k))
    requires k in m ==> CreditAt(m[k].lim, clock) >= left * Interval(p(k))
    requires Calls(evs, k) <= left <= p(k).limit
    ensures Admitted(p, evict, m, evs, k) == Calls(evs, k)
    decreases |evs|
  {
    hide NewLimiter, LimiterOk;
    if evs != [] {
      var e, m' := evs[0], Next(p, evict, m, evs[0]);
      StepPotential(p, evict, m, clock, e, k);
      if e.Call? && e.key == k {
        CallLeavesCredit(p, m, clock, k, e.now, left);
        FirstCallsAdmitted(p, evict, m', e.now, evs[1..], k, left - 1);
      } else {
        hide Take, CanTake;
        FirstCallsAdmitted(p, evict, m', Later(clock, e), evs[1..], k, left);
      }
    }
  }

  lemma CallLeavesCredit(p: Policy, m: Buckets, clock: int, k: string, now: int, left: int)
    requires TableOk(p, m, clock) && clock <= now && Configured(p(k)) && 1 <= left <= p(k).limit
    requires k in m ==> CreditAt(m[k].lim, clock) >= left * Interval(p(k))
    ensures AllowAnswer(m, k, p(k), now)
    ensures CreditAt(AllowTable(m, k, p(k), now)[k].lim, now) >= (left - 1) * Interval(p(k))
  {
    var i := Interval(p(k));
    MulMonotone(1, left, i);
    MulMonotone(left, p(k).limit, i);
    assert (left - 1) * i == left * i - i;
    if k !in m { NewLimiterOk(p(k), now); }
  }

  // An unconfigured rate limits nothing and keeps no bucket.
  lemma UnconfiguredUnlimited(m: Buckets, k: string, r: Rate, now: int)
    requires r.limit <= 0 || r.window <= 0
    ensures AllowAnswer(m, k, r, now) && AllowTable(m, k, r, now) == m
  {
  }

  // ----------------------------------------------- when eviction is observable

  function Burst(k: string, t: int, n: nat): seq<Event> { seq(n, _ => Call(k, t)) }

  lemma {:induction false} AdmittedConcat(p: Policy, evict: bool, m: Buckets, xs: seq<Event>, ys: seq<Event>, k: string)
    ensures Admitted(p, evict, m, xs + ys, k) ==
        Admitted(p, evict, m, xs, k) + Admitted(p, evict, After(p, evict, m, xs), ys, k)
    ensures After(p, evict, m, xs + ys) == After(p, evict, After(p, evict, m, xs), ys)
    decreases |xs|
  {
    if xs == [] {
      assert xs + ys == ys;
    } else {
      assert (xs + ys)[1..] == xs[1..] + ys;
      AdmittedConcat(p, evict, Next(p, evict, m, xs[0]), xs[1..], ys, k);
    }
  }

  // n events at one moment are all admitted by a bucket that holds n.
  lemma {:induction false} BurstAdmitted(p: Policy, m: Buckets, k: string, t: int, n: nat, left: int)
    requires Configured(p(k)) && n <= left <= p(k).limit
    requires k in m && m[k].lim == Limiter(Interval(p(k)), p(k).limit, left * Interval(p(k)), t)
    ensures Admitted(p, true, m, Burst(k, t, n), k) == n
    ensures k in After(p, true, m, Burst(k, t, n))
    ensures n > 0 || m[k].lastSeen == t ==> After(p, true, m, Burst(k, t, n))[k].lastSeen == t
    ensures After(p, true, m, Burst(k, t, n)).Keys == m.Keys
    decreases n
  {
    if n > 0 {
      var i := Interval(p(k));
      MulMonotone(1, left, i);
      MulMonotone(left, p(k).limit, i);
      assert (left - 1) * i == left * i - i;
      assert Burst(k, t, n)[0] == Call(k, t);
      assert Burst(k, t, n)[1..] == Burst(k, t, n - 1);
      BurstAdmitted(p, Next(p, true, m, Call(k, t)), k, t, n - 1, left - 1);
    }
  }

  lemma {:induction false} FreshBurst(p: Policy, m: Buckets, k: string, t: int)
    requires Configured(p(k)) && k !in m
    ensures Admitted(p, true, m, Burst(k, t, p(k).limit), k) == p(k).limit
    ensures var m' := After(p, true, m, Burst(k, t, p(k).limit));
            m'.Keys == m.Keys + {k} && m'[k].lastSeen == t
  {
    var n, i := p(k).limit, Interval(p(k));
    MulMonotone(1, n, i);
    assert (n - 1) * i == n * i - i;
    assert Burst(k, t, n)[0] == Call(k, t) && Burst(k, t, n)[1..] == Burst(k, t, n - 1);
    BurstAdmitted(p, Next(p, true, m, Call(k, t)), k, t, n - 1, n - 1);
  }

  lemma {:induction false} BurstOrdered(k: string, t: int, n: nat, clock: int, rest: seq<Event>)
    requires clock <= t && Ordered(t, rest)
    ensures Ordered(clock, Burst(k, t, n) + rest) || n == 0
    decreases n
  {
    if n > 0 {
      assert (Burst(k, t, n) + rest)[0] == Call(k, t);
      assert (Burst(k, t, n) + rest)[1..] == Burst(k, t, n - 1) + rest;
      if n == 1 { assert Burst(k, t, 0) + rest == rest; }
      BurstOrdered(k, t, n - 1, t, rest);
    }
  }

  function Trues(answers: seq<bool>): nat
  {
    if answers == [] then 0 else One(answers[0]) + Trues(answers[1..])
  }

  lemma {:induction false} TruesAreAdmitted(p: Policy, evict: bool, m: Buckets, evs: seq<Event>, k: string)
    requires forall i :: 0 <= i < |evs| && evs[i].Call? ==> evs[i].key == k
    ensures Trues(Answers(p, evict, m, evs)) == Admitted(p, evict, m, evs, k)
    decreases |evs|
  {
    if evs != [] {
      TruesAreAdmitted(p, evict, Next(p, evict, m, evs[0]), evs[1..], k);
      var rest := Answers(p, evict, Next(p, evict, m, evs[0]), evs[1..]);
      if evs[0].Call? {
        assert ([AllowAnswer(m, k, p(k), evs[0].now)] + rest)[1..] == rest;
      } else {
        assert [] + rest == rest;
      }
    }
  }

  // Spend a full bucket, idle for just over the time-to-live, spend again.
  function Witness(p: Policy, k: string): seq<Event>
    requires Configured(p(k))
  {
    Burst(k, 0, p(k).limit) + ([Tick(IDLE_TTL + 1)] + Burst(k, IDLE_TTL + 1, p(k).limit))
  }

  lemma {:induction false} SameAdmittedNoEvictions(p: Policy, m: Buckets, evs: seq<Event>, k: string)
    ensures Evictions(p, false, m, evs, k) == 0
    decreases |evs|
  {
    if evs != [] {
      SameAdmittedNoEvictions(p, Next(p, false, m, evs[0]), evs[1..], k);
    }
  }

  lemma WitnessOrdered(p: Policy, k: string)
    requires Configured(p(k))
    ensures Ordered(0, Witness(p, k)) && EndsBy(Witness(p, k), IDLE_TTL + 1)
    ensures forall i :: 0 <= i < |Witness(p, k)| && Witness(p, k)[i].Call? ==> Witness(p, k)[i].key == k
  {
    var n, late := p(k).limit, IDLE_TTL + 1;
    var second := Burst(k, late, n);
    var tail := [Tick(late)] + second;
    assert second + [] == second;
    BurstOrdered(k, late, n, late, []);
    assert tail[1..] == second;
    BurstOrdered(k, 0, n, 0, tail);
  }

  lemma WitnessEvicting(p: Policy, k: string)
    requires Configured(p(k))
    ensures Admitted(p, true, map[], Witness(p, k), k) == 2 * p(k).limit
  {
    var n, late := p(k).limit, IDLE_TTL + 1;
    var second := Burst(k, late, n);
    var tail := [Tick(late)] + second;
    AdmittedConcat(p, true, map[], Burst(k, 0, n), tail, k);
    FreshBurst(p, map[], k, 0);
    var m := After(p, true, map[], Burst(k, 0, n));
    assert Swept(m, late) == map[];
    assert tail[0] == Tick(late) && tail[1..] == second;
    FreshBurst(p, map[], k, late);
  }

  lemma WitnessForever(p: Policy, k: string)
    requires !Refills(p(k))
    ensures Admitted(p, false, map[], Witness(p, k), k) < 2 * p(k).limit
  {
    var n, i, evs := p(k).limit, Interval(p(k)), Witness(p, k);
    var count := Admitted(p, false, map[], evs, k);
    WitnessOrdered(p, k);
    AdmissionPotential(p, false, map[], 0, IDLE_TTL + 1, evs, k);
    SameAdmittedNoEvictions(p, map[], evs, k);
    assert FullCredit(p(k)) * 0 == 0;
    TooMany(i, n, count, IDLE_TTL + 1);
  }

  lemma TooMany(i: int, n: int, count: int, t: int)
    requires i >= 0 && i * count <= n * i + t && t < n * i
    ensures count < 2 * n
  {
    assert (2 * n) * i == n * i + n * i;
    if count >= 2 * n { MulMonotone(2 * n, count, i); }
  }

  lemma WitnessDiffers(p: Policy, k: string)
    requires !Refills(p(k))
    ensures Ordered(0, Witness(p, k))
    ensures Answers(p, true, map[], Witness(p, k)) != Answers(p, false, map[], Witness(p, k))
  {
    WitnessOrdered(p, k);
    WitnessEvicting(p, k);
    WitnessForever(p, k);
    TruesAreAdmitted(p, true, map[], Witness(p, k), k);
    TruesAreAdmitted(p, false, map[], Witness(p, k), k);
  }

  ghost predicate Unobservable(p: Policy)
  {
    forall clock: int, evs: seq<Event> :: Ordered(clock, evs) ==>
      Answers(p, true, map[], evs) == Answers(p, false, map[], evs)
  }

  lemma RefillsUnobservable(p: Policy)
    requires forall k :: Refills(p(k))
    ensures Unobservable(p)
  {
    forall clock: int, evs: seq<Event> | Ordered(clock, evs)
      ensures Answers(p, true, map[], evs) == Answers(p, false, map[], evs)
    {
      RunUnobservable(p, map[], map[], clock, evs);
    }
  }

  lemma NoRefillObservable(p: Policy, k: string)
    requires !Refills(p(k))
    ensures !Unobservable(p)
  {
    WitnessDiffers(p, k);
    var evs := Witness(p, k);
    assert Ordered(0, evs);
  }

  // Eviction is unobservable, over every run of calls and janitor ticks, exactly
  // when every configured rate refills a bucket within the idle time-to-live
  // (plus the one nanosecond that the janitor's strict comparison grants).
  lemma EvictionUnobservableExactly(p: Policy)
    ensures Unobservable(p) <==> forall k :: Refills(p(k))
  {
    if forall k :: Refills(p(k)) {
      RefillsUnobservable(p);
    } else {
      var k :| !Refills(p(k));
      NoRefillObservable(p, k);
    }
  }

  const MINUTE: int := 60_000_000_000
  const HOUR: int := 3600_000_000_000

  // The windows a configuration can name: seconds and minutes always refill in
  // time, an hour never does (short of 10^12 events an hour).
  lemma ConfiguredWindows(limit: int)
    requires limit > 0
    ensures Refills(Rate(limit, 1_000_000_000)) && Refills(Rate(limit, MINUTE))
    ensures limit <= 1_000_000_000_000 ==> !Refills(Rate(limit, HOUR))
  {
    assert limit * (1_000_000_000 / limit) <= 1_000_000_000;
    assert limit * (MINUTE / limit) <= MINUTE;
    assert limit * (HOUR / limit) > HOUR - limit;
  }
}
