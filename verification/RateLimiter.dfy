/**
 The bursty token-bucket rate limiter, over real numbers. Times are nanoseconds of the steady
 clock; the waits and refills are whole milliseconds, as the source casts them. The clock is a
 parameter.
 */
module RateLimiter {

  const NANOS: int := 1_000_000

  // The limiter's fields: permits, milliseconds between two of them, and the time of the next grant.
  datatype Limiter = Limiter(stored: real, max: real, interval: real, nextFree: int, burst: real) {
    ghost predicate Valid() {
      && 0.0 <= stored <= max
      && max > 0.0 && interval > 0.0 && burst > 0.0
      && interval * max == 1000.0 * burst
    }
  }

  function Min(a: real, b: real): real { if b < a then b else a }

  function Max(a: int, b: int): int { if a < b then b else a }

  // What a refill leaves of the stored permits after so many milliseconds. Before the first rate
  // is set the interval is 0 and the quotient infinite or not a number: the maximum is taken.
  function Refilled(l: Limiter, now: int): real {
    if now <= l.nextFree then l.stored
    else if l.interval == 0.0 then l.max
    else Min(l.max, l.stored + ((now - l.nextFree) / NANOS) as real / l.interval)
  }

  function Resynced(l: Limiter, now: int): Limiter {
    l.(stored := Refilled(l, now), nextFree := Max(l.nextFree, now))
  }

  function Scaled(x: real, to: real, from: real): real
    requires from != 0.0
  {
    x * to / from
  }

  function Rated(l: Limiter, rate: real, now: int): Limiter
    requires rate > 0.0
  {
    var r := Resynced(l, now);
    r.(interval := 1000.0 / rate,
       max := r.burst * rate,
       stored := if r.max == 0.0 then 0.0 else Scaled(r.stored, r.burst * rate, r.max))
  }

  // How much of a request the stored permits pay for.
  function Spent(l: Limiter, permits: int): real { Min(permits as real, l.stored) }

  // The cast to a 64-bit integer cuts off towards 0.
  function Truncated(x: real): int { if x < 0.0 then -((-x).Floor) else x.Floor }

  function Cost(permits: real, interval: real): int { Truncated(permits * interval) }

  function Wait(l: Limiter, permits: int): int { Cost(permits as real - Spent(l, permits), l.interval) }

  // The state after a request; it is granted at Resynced(l, now).nextFree.
  function Reserved(l: Limiter, permits: int, now: int): Limiter {
    var r := Resynced(l, now);
    r.(nextFree := r.nextFree + Wait(r, permits) * NANOS, stored := r.stored - Spent(r, permits))
  }

  // ------------------------------------------------------------------ one call

  lemma {:induction false} RefillKeepsValid(l: Limiter, now: int)
    requires l.Valid()
    ensures Resynced(l, now).Valid() && Refilled(l, now) >= l.stored
    ensures Refilled(l, now) - l.stored <= (Resynced(l, now).nextFree - l.nextFree) as real / NANOS as real / l.interval
  {
    if now > l.nextFree {
      var ms := (now - l.nextFree) / NANOS;
      var elapsed := (now - l.nextFree) as real / NANOS as real;
      assert ms as real <= elapsed by {
        assert ms * NANOS <= now - l.nextFree;
      }
      QuotientMonotone(0.0, ms as real, l.interval);
      QuotientMonotone(ms as real, elapsed, l.interval);
    }
  }

  lemma {:induction false} QuotientMonotone(x: real, y: real, d: real)
    requires x <= y && d > 0.0
    ensures x / d <= y / d
  {
    var p, q := x / d, y / d;
    assert p * d == x && q * d == y;
    assert p > q ==> (p - q) * d > 0.0;
  }

  lemma {:induction false} TimesOver(x: real, d: real)
    requires d != 0.0
    ensures x * d / d == x
  {
    var q := x * d / d;
    assert q * d == x * d;
    assert (q - x) * d == 0.0;
  }

  lemma {:induction false} ScaledBelow(stored: real, max: real, newMax: real)
    requires 0.0 <= stored <= max && max > 0.0 && newMax > 0.0
    ensures 0.0 <= stored * newMax / max <= newMax
  {
    assert 0.0 * newMax <= stored * newMax <= max * newMax;
    QuotientMonotone(0.0, stored * newMax, max);
    QuotientMonotone(stored * newMax, newMax * max, max);
    TimesOver(newMax, max);
  }

  lemma TimesBack(x: real, d: real)
    requires d != 0.0
    ensures x / d * d == x
  {
  }

  // A change of rate keeps the stored permits' share of the maximum.
  lemma {:induction false} RateKeepsValid(l: Limiter, rate: real, now: int)
    requires rate > 0.0 && l.Valid()
    ensures Rated(l, rate, now).Valid()
    ensures Rated(l, rate, now).stored * l.max == Refilled(l, now) * Rated(l, rate, now).max
    ensures Rated(l, rate, now).interval * rate == 1000.0 && Rated(l, rate, now).max == l.burst * rate
  {
    RefillKeepsValid(l, now);
    var r, m := Resynced(l, now), l.burst * rate;
    assert m > 0.0;
    ScaledBelow(r.stored, r.max, m);
    TimesBack(r.stored * m, r.max);
    RateFixesInterval(rate, l.burst);
  }

  lemma RateFixesInterval(rate: real, burst: real)
    requires rate > 0.0
    ensures 1000.0 / rate > 0.0 && 1000.0 / rate * (burst * rate) == 1000.0 * burst
  {
    var i := 1000.0 / rate;
    assert i * rate == 1000.0;
    assert i > 0.0 by {
      assert i <= 0.0 ==> i * rate <= 0.0;
    }
    assert i * (burst * rate) == (i * rate) * burst;
  }

  // The first rate: nothing is stored yet.
  lemma {:induction false} FirstRate(l: Limiter, rate: real, now: int)
    requires l.stored == 0.0 && l.max == 0.0 && l.interval == 0.0 && l.burst > 0.0 && rate > 0.0
    ensures Rated(l, rate, now).Valid() && Rated(l, rate, now).stored == 0.0
  {
    RateFixesInterval(rate, l.burst);
    assert l.burst * rate > 0.0;
  }

  // A request never waits longer than its fresh permits cost, and less than a millisecond shorter.
  lemma {:induction false} WaitBounds(l: Limiter, permits: int)
    requires l.Valid() && permits >= 0
    ensures Wait(l, permits) >= 0
    ensures 0.0 <= Spent(l, permits) <= l.stored
    ensures (permits as real - Spent(l, permits)) * l.interval - 1.0 < Wait(l, permits) as real
            <= (permits as real - Spent(l, permits)) * l.interval
  {
    var anew := permits as real - Spent(l, permits);
    assert anew >= 0.0;
    assert anew * l.interval >= 0.0 * l.interval;
  }

  // A request that is not negative keeps the bounds.
  lemma {:induction false} ReserveKeepsValid(l: Limiter, permits: int, now: int)
    requires l.Valid() && permits >= 0
    ensures Reserved(l, permits, now).Valid()
  {
    RefillKeepsValid(l, now);
  }

  // The fields before the first rate is set.
  const UNSET: Limiter := Limiter(0.0, 0.0, 0.0, 0, 1.0)

  // One permit a second, set up at time 0: after a second without requests it is full, and then
  // any negative request fills it beyond its maximum.
  lemma {:induction false} NegativeRequestOverflows(permits: int)
    requires permits < 0
    ensures var l := Reserved(Rated(UNSET, 1.0, 0), 0, 1000 * NANOS);
            l.Valid() && !Reserved(l, permits, 1000 * NANOS).Valid()
  {
    assert Rated(UNSET, 1.0, 0) == Limiter(0.0, 1.0, 1000.0, 0, 1.0);
    assert Reserved(Rated(UNSET, 1.0, 0), 0, 1000 * NANOS) == Limiter(1.0, 1.0, 1000.0, 1000 * NANOS, 1.0);
  }

  // So a request is safe whatever the limiter has been through if and only if it is not negative.
  lemma {:induction false} SafeRequests(permits: int)
    ensures (forall l: Limiter, now :: l.Valid() ==> Reserved(l, permits, now).Valid()) <==> permits >= 0
  {
    if permits >= 0 {
      forall l: Limiter, now | l.Valid()
        ensures Reserved(l, permits, now).Valid()
      {
        ReserveKeepsValid(l, permits, now);
      }
    } else {
      NegativeRequestOverflows(permits);
    }
  }

  lemma {:induction false} GrantIsMonotone(l: Limiter, permits: int, now: int)
    requires l.Valid() && permits >= 0
    ensures Reserved(l, permits, now).nextFree >= Resynced(l, now).nextFree >= l.nextFree
  {
    RefillKeepsValid(l, now);
    WaitBounds(Resynced(l, now), permits);
  }

  // The permits of one request, paid for from the store, by the time that passed, and by the
  // truncation.
  lemma {:induction false} PermitsOfOne(l: Limiter, permits: int, now: int)
    requires l.Valid() && permits >= 0
    ensures var l' := Reserved(l, permits, now);
            permits as real <= l.stored - l'.stored + ((l'.nextFree - l.nextFree) as real / NANOS as real + 1.0) / l.interval
  {
    RefillKeepsValid(l, now);
    var r := Resynced(l, now);
    WaitBounds(r, permits);
    var anew, wait := permits as real - Spent(r, permits), Wait(r, permits) as real;
    var advance := (r.nextFree - l.nextFree) as real / NANOS as real;
    PaidByWaiting(anew, wait, l.interval);
    assert (Reserved(l, permits, now).nextFree - l.nextFree) as real / NANOS as real == advance + wait;
    SumOfQuotients(advance, wait + 1.0, l.interval);
  }

  lemma {:induction false} PaidByWaiting(permits: real, wait: real, interval: real)
    requires interval > 0.0 && permits * interval - 1.0 < wait
    ensures permits <= (wait + 1.0) / interval
  {
    QuotientMonotone(permits * interval, wait + 1.0, interval);
    TimesOver(permits, interval);
  }

  lemma SumOfQuotients(x: real, y: real, d: real)
    requires d > 0.0
    ensures x / d + y / d == (x + y) / d
  {
    assert (x / d + y / d) * d == x + y;
  }

  // ------------------------------------------------------------------ runs

  // What a limiter goes through: requests and changes of its rate.
  datatype Event = Acquire(permits: nat, now: int) | ChangeRate(rate: real, now: int)

  predicate Allowed(e: Event) { e.ChangeRate? ==> e.rate > 0.0 }

  predicate AllAllowed(events: seq<Event>) { forall i :: 0 <= i < |events| ==> Allowed(events[i]) }

  function Next(l: Limiter, e: Event): Limiter
    requires Allowed(e)
  {
    match e
    case Acquire(permits, now) => Reserved(l, permits, now)
    case ChangeRate(rate, now) => Rated(l, rate, now)
  }

  function After(l: Limiter, events: seq<Event>): Limiter
    requires AllAllowed(events)
  {
    if events == [] then l
    else
      var last := |events| - 1;
      assert Allowed(events[last]);
      Next(After(l, events[..last]), events[last])
  }

  // The stored permits in milliseconds of waiting that they save, and the time between two events.
  function Credit(l: Limiter): real { l.stored * l.interval }

  function Advance(l: Limiter, l': Limiter): real { (l'.nextFree - l.nextFree) as real / NANOS as real }

  // What an event costs in milliseconds: every permit the interval then in force.
  function Price(l: Limiter, e: Event): real { if e.Acquire? then Times(e.permits, l.interval) else 0.0 }

  function Times(permits: nat, interval: real): real { permits as real * interval }

  function Prices(l: Limiter, events: seq<Event>): real
    requires AllAllowed(events)
  {
    if events == [] then 0.0
    else
      var last := |events| - 1;
      Prices(l, events[..last]) + Price(After(l, events[..last]), events[last])
  }

  function Requests(events: seq<Event>): nat {
    if events == [] then 0
    else Requests(events[..|events| - 1]) + if events[|events| - 1].Acquire? then 1 else 0
  }

  function Permits(events: seq<Event>): nat {
    if events == [] then 0
    else Permits(events[..|events| - 1]) + if events[|events| - 1].Acquire? then events[|events| - 1].permits else 0
  }

  lemma TimesOrder(x: real, y: real, d: real)
    requires x <= y && d >= 0.0
    ensures x * d <= y * d
  {
  }

  lemma {:induction false} CreditOfRequest(l: Limiter, permits: nat, now: int)
    requires l.Valid()
    ensures var l' := Reserved(l, permits, now);
            Times(permits, l.interval) <= Credit(l) - Credit(l') + Advance(l, l') + 1.0
  {
    PermitsOfOne(l, permits, now);
    CreditOfPermits(l, Reserved(l, permits, now), permits);
  }

  lemma {:induction false} CreditOfPermits(l: Limiter, l': Limiter, permits: nat)
    requires l.interval > 0.0 && l'.interval == l.interval
    requires permits as real <= l.stored - l'.stored + (Advance(l, l') + 1.0) / l.interval
    ensures Times(permits, l.interval) <= Credit(l) - Credit(l') + Advance(l, l') + 1.0
  {
    InMilliseconds(permits as real, l.stored, l'.stored, Advance(l, l') + 1.0, l.interval);
  }

  lemma {:induction false} InMilliseconds(permits: real, before: real, after: real, time: real, interval: real)
    requires interval > 0.0 && permits <= before - after + time / interval
    ensures permits * interval <= before * interval - after * interval + time
  {
    var earned := time / interval;
    assert earned * interval == time;
    TimesOrder(permits, before - after + earned, interval);
    Distribute(before - after, earned, interval);
    Distribute(before, -after, interval);
  }

  lemma Distribute(x: real, y: real, d: real)
    ensures (x + y) * d == x * d + y * d
  {
  }

  lemma {:induction false} Cancel(x: real, y: real, d: real)
    requires d > 0.0 && x * d == y * d
    ensures x == y
  {
    assert (x - y) * d == 0.0;
  }

  // A change of rate keeps the credit as it was after the refill.
  lemma {:induction false} CreditOfRate(l: Limiter, rate: real, now: int)
    requires l.Valid() && rate > 0.0
    ensures var l' := Rated(l, rate, now);
            Credit(l') == Refilled(l, now) * l.interval && Credit(l') <= Credit(l) + Advance(l, l')
  {
    RateKeepsValid(l, rate, now);
    RefillKeepsValid(l, now);
    var l', r := Rated(l, rate, now), Refilled(l, now);
    SameCredit(l'.stored, l'.interval, l'.max, r, l.interval, l.max);
    RefillCredit(l.stored, r, Advance(l, l'), l.interval);
  }

  // Permits that are the same share of their maximum are worth the same time.
  lemma {:induction false} SameCredit(stored': real, interval': real, max': real, stored: real, interval: real, max: real)
    requires stored' * max == stored * max' && interval' * max' == interval * max && max > 0.0
    ensures stored' * interval' == stored * interval
  {
    Regroup(stored', interval', max, stored, max', interval, stored * max', interval * max);
    Cancel(stored' * interval', stored * interval, max);
  }

  lemma Regroup(a: real, b: real, c: real, d: real, e: real, f: real, de: real, fc: real)
    requires a * c == de && de == d * e && b * e == fc && fc == f * c
    ensures (a * b) * c == (d * f) * c
  {
    assert (a * b) * c == de * b;
    assert de * b == d * fc;
  }

  lemma {:induction false} RefillCredit(before: real, after: real, time: real, interval: real)
    requires interval > 0.0 && after - before <= time / interval
    ensures after * interval <= before * interval + time
  {
    var earned := time / interval;
    assert earned * interval == time;
    TimesOrder(after - before, earned, interval);
    Distribute(after, -before, interval);
  }

  lemma {:induction false} NextKeepsValid(l: Limiter, e: Event)
    requires l.Valid() && Allowed(e)
    ensures Next(l, e).Valid() && Next(l, e).nextFree >= l.nextFree
    ensures Price(l, e) <= Credit(l) - Credit(Next(l, e)) + Advance(l, Next(l, e)) + if e.Acquire? then 1.0 else 0.0
  {
    match e
    case Acquire(permits, now) =>
      ReserveKeepsValid(l, permits, now);
      GrantIsMonotone(l, permits, now);
      CreditOfRequest(l, permits, now);
    case ChangeRate(rate, now) =>
      RateKeepsValid(l, rate, now);
      CreditOfRate(l, rate, now);
  }

  // On every run of requests and changes of rate the bounds are kept, the next grant never goes
  // back, and what was handed out, at the interval in force each time, is paid for by the credit
  // that was used up, by the time the next grant moved on, and by a millisecond a request.
  lemma {:induction false} EveryRunIsPaidFor(l: Limiter, events: seq<Event>)
    requires l.Valid() && AllAllowed(events)
    ensures var l' := After(l, events);
            && l'.Valid() && l'.nextFree >= l.nextFree
            && Prices(l, events) <= Credit(l) - Credit(l') + Advance(l, l') + Requests(events) as real
  {
    if events != [] {
      var last := |events| - 1;
      EveryRunIsPaidFor(l, events[..last]);
      assert Allowed(events[last]);
      var m := After(l, events[..last]);
      NextKeepsValid(m, events[last]);
      AdvanceSum(l, m, After(l, events));
    }
  }

  lemma AdvanceSum(l: Limiter, m: Limiter, l': Limiter)
    ensures Advance(l, m) + Advance(m, l') == Advance(l, l')
  {
  }

  predicate AllRequests(events: seq<Event>) { forall i :: 0 <= i < |events| ==> IsRequest(events[i]) }

  predicate IsRequest(e: Event) { e.Acquire? }

  lemma {:induction false} RequestsAreAllowed(events: seq<Event>)
    requires AllRequests(events)
    ensures AllAllowed(events)
  {
    forall i | 0 <= i < |events|
      ensures Allowed(events[i])
    {
      assert IsRequest(events[i]);
    }
  }

  lemma {:induction false} IntervalStays(l: Limiter, events: seq<Event>)
    requires AllRequests(events) && AllAllowed(events)
    ensures After(l, events).interval == l.interval
  {
    if events != [] {
      var last := |events| - 1;
      assert IsRequest(events[last]);
      IntervalStays(l, events[..last]);
    }
  }

  lemma {:induction false} OnePriceMore(m: Limiter, e: Event, interval: real, permits: nat, prices: real)
    requires m.interval == interval && e.Acquire? && prices == Times(permits, interval)
    ensures prices + Price(m, e) == Times(permits + e.permits, interval)
  {
    Distribute(permits as real, e.permits as real, interval);
  }

  lemma {:induction false} RequestsAreCounted(events: seq<Event>)
    requires AllRequests(events)
    ensures Requests(events) == |events|
  {
    if events != [] {
      assert IsRequest(events[|events| - 1]);
      RequestsAreCounted(events[..|events| - 1]);
    }
  }

  lemma {:induction false} PricesAtOneRate(l: Limiter, events: seq<Event>)
    requires AllRequests(events) && AllAllowed(events)
    ensures Prices(l, events) == Times(Permits(events), l.interval)
  {
    if events != [] {
      var last := |events| - 1;
      var before, e := events[..last], events[last];
      assert IsRequest(e);
      IntervalStays(l, before);
      PricesAtOneRate(l, before);
      OnePriceMore(After(l, before), e, l.interval, Permits(before), Prices(l, before));
    }
  }

  // All the permits granted by a run of requests at a fixed rate, bounded by what was stored, by
  // how far the next grant has moved, and by one millisecond of truncation a request.
  lemma {:induction false} PermitsOfRun(l: Limiter, events: seq<Event>)
    requires l.Valid() && AllRequests(events)
    ensures AllAllowed(events)
    ensures var l' := After(l, events);
            Permits(events) as real <= l.stored - l'.stored + (Advance(l, l') + |events| as real) / l.interval
  {
    RequestsAreAllowed(events);
    EveryRunIsPaidFor(l, events);
    PricesAtOneRate(l, events);
    RequestsAreCounted(events);
    IntervalStays(l, events);
    InPermits(l, After(l, events), Permits(events), Prices(l, events), |events|);
  }

  lemma {:induction false} InPermits(l: Limiter, l': Limiter, permits: nat, prices: real, requests: nat)
    requires l.interval > 0.0 && l'.interval == l.interval && prices == Times(permits, l.interval)
    requires prices <= Credit(l) - Credit(l') + Advance(l, l') + requests as real
    ensures permits as real <= l.stored - l'.stored + (Advance(l, l') + requests as real) / l.interval
  {
    PerInterval(permits as real, l.stored, l'.stored, Advance(l, l') + requests as real, l.interval);
  }

  lemma {:induction false} PerInterval(permits: real, before: real, after: real, time: real, interval: real)
    requires interval > 0.0 && permits * interval <= before * interval - after * interval + time
    ensures permits <= before - after + time / interval
  {
    Distribute(before, -after, interval);
    QuotientMonotone(permits * interval, (before - after) * interval + time, interval);
    TimesOver(permits, interval);
    TimesOver(before - after, interval);
    SumOfQuotients((before - after) * interval, time, interval);
  }

  // So a burst is bounded by the maximum and the time it takes.
  lemma {:induction false} BurstIsBounded(l: Limiter, events: seq<Event>)
    requires l.Valid() && AllRequests(events)
    ensures AllAllowed(events)
    ensures Permits(events) as real <= l.max + (Advance(l, After(l, events)) + |events| as real) / l.interval
  {
    PermitsOfRun(l, events);
    EveryRunIsPaidFor(l, events);
  }

  // ------------------------------------------------------------------ what is due

  // A refill fills the limiter, or adds what the time earns, less than a millisecond short.
  lemma {:induction false} RefillGains(l: Limiter, now: int)
    requires l.Valid()
    ensures Refilled(l, now) == l.max || Refilled(l, now) - l.stored > (Advance(l, Resynced(l, now)) - 1.0) / l.interval
  {
    var time := Advance(l, Resynced(l, now));
    if now > l.nextFree {
      var ms := (now - l.nextFree) / NANOS;
      assert time - 1.0 < ms as real by {
        assert now - l.nextFree < ms * NANOS + NANOS;
      }
      QuotientIncreases(time - 1.0, ms as real, l.interval);
    } else {
      assert time == 0.0;
      QuotientIncreases(-1.0, 0.0, l.interval);
    }
  }

  lemma {:induction false} QuotientIncreases(x: real, y: real, d: real)
    requires x < y && d > 0.0
    ensures x / d < y / d
  {
    var p, q := x / d, y / d;
    assert p * d == x && q * d == y;
    assert p >= q ==> (p - q) * d >= 0.0;
  }

  // After its burst time and a millisecond without requests a limiter is full.
  lemma {:induction false} IdleFills(l: Limiter, now: int)
    requires l.Valid() && (now - l.nextFree) as real / NANOS as real >= 1000.0 * l.burst + 1.0
    ensures Refilled(l, now) == l.max
  {
    RefillKeepsValid(l, now);
    RefillGains(l, now);
    var time := Advance(l, Resynced(l, now));
    QuotientMonotone(l.max * l.interval, time - 1.0, l.interval);
    TimesOver(l.max, l.interval);
  }

  // A request costs no wait and exactly its permits if they are there; otherwise it takes them all,
  // and the rest is paid for by waiting.
  lemma {:induction false} RequestTakes(l: Limiter, permits: nat, now: int)
    requires l.Valid()
    ensures var r, l' := Resynced(l, now), Reserved(l, permits, now);
      if permits as real <= r.stored then l' == r.(stored := r.stored - permits as real)
      else l'.stored == 0.0 &&
           (permits as real - r.stored) * l.interval - 1.0 < Advance(r, l') <= (permits as real - r.stored) * l.interval
  {
    RefillKeepsValid(l, now);
    var r := Resynced(l, now);
    WaitBounds(r, permits);
    if permits as real <= r.stored {
      assert (permits as real - Spent(r, permits)) * l.interval == 0.0;
    } else {
      assert Advance(r, Reserved(l, permits, now)) == Wait(r, permits) as real;
    }
  }

  // The refill of an event is not cut off at the maximum.
  predicate Unfilled(l: Limiter, e: Event) { Refilled(l, e.now) < l.max }

  predicate NeverFull(l: Limiter, events: seq<Event>)
    requires AllAllowed(events)
  {
    events == [] ||
    var last := |events| - 1;
    NeverFull(l, events[..last]) && Unfilled(After(l, events[..last]), events[last])
  }

  lemma {:induction false} CreditGains(l: Limiter, now: int)
    requires l.Valid() && Refilled(l, now) < l.max
    ensures Credit(Resynced(l, now)) >= Credit(l) + Advance(l, Resynced(l, now)) - 1.0
  {
    RefillGains(l, now);
    var time := Advance(l, Resynced(l, now)) - 1.0;
    TimesOrder(time / l.interval, Refilled(l, now) - l.stored, l.interval);
    TimesBack(time, l.interval);
    Distribute(Refilled(l, now), -l.stored, l.interval);
  }

  lemma {:induction false} RequestPays(l: Limiter, permits: nat, now: int)
    requires l.Valid() && Refilled(l, now) < l.max
    ensures var l' := Reserved(l, permits, now);
            Times(permits, l.interval) + Credit(l') - Credit(l) >= Advance(l, l') - 1.0
  {
    var r, l' := Resynced(l, now), Reserved(l, permits, now);
    RefillKeepsValid(l, now);
    CreditGains(l, now);
    WaitBounds(r, permits);
    var spent := Spent(r, permits);
    Distribute(permits as real, -spent, l.interval);
    Distribute(r.stored, -spent, l.interval);
    assert Advance(r, l') == Wait(r, permits) as real;
    AdvanceSum(l, r, l');
  }

  lemma {:induction false} NextPays(l: Limiter, e: Event)
    requires l.Valid() && Allowed(e) && Unfilled(l, e)
    ensures Price(l, e) + Credit(Next(l, e)) - Credit(l) >= Advance(l, Next(l, e)) - 1.0
  {
    match e
    case Acquire(permits, now) => RequestPays(l, permits, now);
    case ChangeRate(rate, now) =>
      CreditOfRate(l, rate, now);
      CreditGains(l, now);
  }

  // The converse of EveryRunIsPaidFor: on every run on which the limiter is never full, the time
  // that passes is handed out or kept in store, all but a millisecond an event.
  lemma {:induction false} NoTimeIsLost(l: Limiter, events: seq<Event>)
    requires l.Valid() && AllAllowed(events) && NeverFull(l, events)
    ensures var l' := After(l, events);
            Prices(l, events) + Credit(l') - Credit(l) >= Advance(l, l') - |events| as real
  {
    if events != [] {
      var last := |events| - 1;
      NoTimeIsLost(l, events[..last]);
      EveryRunIsPaidFor(l, events[..last]);
      assert Allowed(events[last]);
      var m := After(l, events[..last]);
      NextPays(m, events[last]);
      AdvanceSum(l, m, After(l, events));
    }
  }

  // And the converse of PermitsOfRun, at a fixed rate.
  lemma {:induction false} PermitsAreDue(l: Limiter, events: seq<Event>)
    requires l.Valid() && AllRequests(events) && AllAllowed(events) && NeverFull(l, events)
    ensures var l' := After(l, events);
            Permits(events) as real + l'.stored - l.stored >= (Advance(l, l') - |events| as real) / l.interval
  {
    NoTimeIsLost(l, events);
    PricesAtOneRate(l, events);
    IntervalStays(l, events);
    DueInPermits(l, After(l, events), Permits(events), Advance(l, After(l, events)) - |events| as real);
  }

  lemma {:induction false} DueInPermits(l: Limiter, l': Limiter, permits: nat, time: real)
    requires l.interval > 0.0 && l'.interval == l.interval
    requires Times(permits, l.interval) + Credit(l') - Credit(l) >= time
    ensures permits as real + l'.stored - l.stored >= time / l.interval
  {
    var sum := permits as real + l'.stored;
    Distribute(permits as real, l'.stored, l.interval);
    Distribute(sum, -l.stored, l.interval);
    QuotientMonotone(time, (sum - l.stored) * l.interval, l.interval);
    TimesOver(sum - l.stored, l.interval);
  }

  // ------------------------------------------------------------------ the class

  class SmoothBurstyRateLimiter {
    var storedPermits: real
    var maxPermits: real
    var stableInterval: real
    var nextFreeTicket: int
    var maxBurstSeconds: real

    function State(): Limiter
      reads this
    {
      Limiter(storedPermits, maxPermits, stableInterval, nextFreeTicket, maxBurstSeconds)
    }

    constructor (permitsPerSecond: real, now: int)
      requires permitsPerSecond > 0.0
      ensures State().Valid() && storedPermits == 0.0
      ensures maxPermits == permitsPerSecond && stableInterval == 1000.0 / permitsPerSecond
    {
      storedPermits, maxPermits, stableInterval, nextFreeTicket := 0.0, 0.0, 0.0, 0;
      maxBurstSeconds := 1.0;
      new;
      FirstRate(State(), permitsPerSecond, now);
      SetRate(permitsPerSecond, now);
    }

    method Resync(now: int)
      modifies this
      ensures State() == Resynced(old(State()), now)
      ensures old(State()).Valid() && storedPermits < maxPermits ==>
        storedPermits - old(storedPermits) > (Advance(old(State()), State()) - 1.0) / stableInterval
    {
      if State().Valid() {
        RefillGains(State(), now);
        RefillKeepsValid(State(), now);
      }
      if now > nextFreeTicket {
        var diff := (now - nextFreeTicket) / NANOS;
        if stableInterval == 0.0 {
          storedPermits := maxPermits;
        } else {
          storedPermits := Min(maxPermits, storedPermits + diff as real / stableInterval);
        }
        nextFreeTicket := now;
      }
    }

    method SetRate(permitsPerSecond: real, now: int)
      requires permitsPerSecond > 0.0
      modifies this
      ensures State() == Rated(old(State()), permitsPerSecond, now)
      ensures nextFreeTicket >= old(nextFreeTicket)
      ensures old(State()).Valid() ==> State().Valid()
    {
      if State().Valid() {
        RateKeepsValid(State(), permitsPerSecond, now);
      }
      DoSetRate(permitsPerSecond, now);
    }

    method DoSetRate(permitsPerSecond: real, now: int)
      requires permitsPerSecond > 0.0
      modifies this
      ensures State() == Rated(old(State()), permitsPerSecond, now)
    {
      Resync(now);
      stableInterval := 1000.0 / permitsPerSecond;
      var oldMax := maxPermits;
      maxPermits := maxBurstSeconds * permitsPerSecond;
      storedPermits := if oldMax == 0.0 then 0.0 else Scaled(storedPermits, maxPermits, oldMax);
    }

    method ReserveEarliestAvailable(permits: int, now: int) returns (grant: int)
      requires State().Valid()
      modifies this
      ensures State() == Reserved(old(State()), permits, now)
      ensures grant == Max(old(nextFreeTicket), now)
      ensures permits >= 0 ==> State().Valid() && nextFreeTicket >= grant >= old(nextFreeTicket)
      ensures 0 <= permits && permits as real <= Refilled(old(State()), now) ==>
        nextFreeTicket == grant && storedPermits == Refilled(old(State()), now) - permits as real
    {
      ghost var was := State();
      if permits >= 0 {
        ReserveKeepsValid(was, permits, now);
        GrantIsMonotone(was, permits, now);
        RequestTakes(was, permits, now);
      }
      Resync(now);
      grant := nextFreeTicket;
      var toSpend := Min(permits as real, storedPermits);
      var anew := permits as real - toSpend;
      var wait := Cost(anew, stableInterval);
      nextFreeTicket := nextFreeTicket + wait * NANOS;
      storedPermits := storedPermits - toSpend;
      assert State() == Reserved(was, permits, now);
    }

    // The wait in whole milliseconds that `acquire` then sleeps.
    method ReserveAndGetWaitLength(permits: nat, now: int) returns (wait: nat)
      requires State().Valid()
      modifies this
      ensures State() == Reserved(old(State()), permits, now) && State().Valid()
      ensures var early := old(nextFreeTicket) - now; if early <= 0 then wait == 0 else wait * NANOS <= early < wait * NANOS + NANOS
    {
      var grant := ReserveEarliestAvailable(permits, now);
      wait := (grant - now) / NANOS;
    }
  }
}
