/** The shared token bucket of `src/rate_limiter.rs`, over exact reals. */
module RateModel {

  /** Bytes supplied at `rate` during `time`. */
  function Supply(rate: real, time: real): real {
    time * rate
  }

  /** Time that supplies `needed` bytes. */
  function TimeFor(rate: real, needed: real): real
    requires rate >= 1.0
  {
    needed / rate
  }

  function MinReal(a: real, b: real): real {
    if a <= b then a else b
  }

  /** Delay added by the first `n` wake-ups. */
  function Lateness(late: nat -> real, n: nat): real {
    if n == 0 then 0.0 else Lateness(late, n - 1) + late(n - 1)
  }

  /** The contents of the mutex. */
  datatype Tokens = Tokens(tokens: real, capacity: real, rate: real, lastRefill: real)

  predicate Sound(b: Tokens) {
    0.0 <= b.tokens <= b.capacity && b.capacity == b.rate && 1.0 <= b.rate
  }

  function Refill(b: Tokens, now: real): Tokens {
    b.(tokens := MinReal(b.tokens + Supply(b.rate, now - b.lastRefill), b.capacity), lastRefill := now)
  }

  /** What one critical section hands out to a caller that still wants `remaining`. */
  function Grant(b: Tokens, remaining: real, now: real): real {
    var t := Refill(b, now).tokens;
    if t > 0.0 then MinReal(remaining, t) else 0.0
  }

  function Take(b: Tokens, remaining: real, now: real): Tokens {
    var r := Refill(b, now);
    r.(tokens := r.tokens - Grant(b, remaining, now))
  }

  /** Critical sections of any number of callers, in the order they get the lock. */
  datatype Visit = Visit(now: real, remaining: real)

  ghost predicate Ordered(from: real, visits: seq<Visit>)
    decreases |visits|
  {
    visits == [] || (from <= visits[0].now && visits[0].remaining > 0.0 && Ordered(visits[0].now, visits[1..]))
  }

  function After(b: Tokens, visits: seq<Visit>): Tokens
    decreases |visits|
  {
    if visits == [] then b else After(Take(b, visits[0].remaining, visits[0].now), visits[1..])
  }

  function Granted(b: Tokens, visits: seq<Visit>): real
    decreases |visits|
  {
    if visits == [] then 0.0
    else Grant(b, visits[0].remaining, visits[0].now)
         + Granted(Take(b, visits[0].remaining, visits[0].now), visits[1..])
  }
}

module RateLimiter {
  import opened RateModel

  lemma SupplyLaws(rate: real, a: real, b: real)
    requires rate >= 1.0
    ensures Supply(rate, a) + Supply(rate, b) == Supply(rate, a + b)
    ensures a >= 0.0 ==> Supply(rate, a) >= 0.0
  {
  }

  lemma TimeForExact(rate: real, needed: real)
    requires rate >= 1.0
    ensures Supply(rate, TimeFor(rate, needed)) == needed
    ensures needed >= 0.0 ==> TimeFor(rate, needed) >= 0.0
  {
  }

  lemma TakeSound(b: Tokens, remaining: real, now: real)
    requires Sound(b) && b.lastRefill <= now && remaining >= 0.0
    ensures var b' := Take(b, remaining, now);
            && Sound(b') && b'.capacity == b.capacity && b'.rate == b.rate && b'.lastRefill == now
            && 0.0 <= Grant(b, remaining, now) <= remaining
            && Grant(b, remaining, now) + b'.tokens <= b.tokens + Supply(b.rate, now - b.lastRefill)
            && Grant(b, remaining, now) + b'.tokens <= b.capacity
  {
    hide Supply;
    SupplyLaws(b.rate, now - b.lastRefill, 0.0);
  }

  lemma {:induction false} AfterSound(b: Tokens, visits: seq<Visit>)
    requires Sound(b) && Ordered(b.lastRefill, visits)
    ensures var b' := After(b, visits);
            Sound(b') && b'.capacity == b.capacity && b'.rate == b.rate && b'.lastRefill >= b.lastRefill
    decreases |visits|
  {
    hide Supply, Take, Grant;
    if visits != [] {
      TakeSound(b, visits[0].remaining, visits[0].now);
      AfterSound(Take(b, visits[0].remaining, visits[0].now), visits[1..]);
    }
  }

  lemma {:induction false} GrantedByTokens(b: Tokens, visits: seq<Visit>, end: real)
    requires Sound(b) && Ordered(b.lastRefill, visits) && b.lastRefill <= end
    requires forall i :: 0 <= i < |visits| ==> visits[i].now <= end
    ensures Granted(b, visits) <= b.tokens + Supply(b.rate, end - b.lastRefill)
    decreases |visits|
  {
    hide Supply, Take, Grant;
    if visits == [] {
      SupplyLaws(b.rate, end - b.lastRefill, 0.0);
    } else {
      var v := visits[0];
      TakeSound(b, v.remaining, v.now);
      assert forall i :: 0 <= i < |visits[1..]| ==> visits[1..][i] == visits[i + 1];
      GrantedByTokens(Take(b, v.remaining, v.now), visits[1..], end);
      SupplyLaws(b.rate, v.now - b.lastRefill, end - v.now);
    }
  }

  /** The bound of the limiter: over any interleaving of callers, what is granted within any
      interval is at most one bucket plus the rate times the length of the interval. */
  lemma WindowBound(b: Tokens, before: seq<Visit>, window: seq<Visit>, from: real, to: real)
    requires Sound(b) && Ordered(b.lastRefill, before) && Ordered(After(b, before).lastRefill, window)
    requires from <= to && forall i :: 0 <= i < |window| ==> from <= window[i].now <= to
    ensures Granted(After(b, before), window) <= b.capacity + Supply(b.rate, to - from)
  {
    hide Supply, Take, Grant;
    AfterSound(b, before);
    SupplyLaws(b.rate, to - from, 0.0);
    if window != [] {
      FullBucketBound(After(b, before), window, from, to);
    }
  }

  lemma FullBucketBound(s: Tokens, window: seq<Visit>, from: real, to: real)
    requires Sound(s) && Ordered(s.lastRefill, window) && window != []
    requires from <= to && forall i :: 0 <= i < |window| ==> from <= window[i].now <= to
    ensures Granted(s, window) <= s.capacity + Supply(s.rate, to - from)
  {
    hide Supply, Take, Grant;
    var v := window[0];
    TakeSound(s, v.remaining, v.now);
    assert forall i :: 0 <= i < |window[1..]| ==> window[1..][i] == window[i + 1];
    GrantedByTokens(Take(s, v.remaining, v.now), window[1..], to);
    SupplyLaws(s.rate, v.now - from, to - v.now);
  }

  /** The bound is reached: a bucket left to fill gives a whole bucket at once and then keeps
      up with the rate, here with a second visit `wait` later. */
  lemma BoundIsReached(b: Tokens, from: real, wait: real)
    requires Sound(b) && 0.0 < wait && Supply(b.rate, wait) <= b.capacity
    requires from >= b.lastRefill + 1.0
    ensures var visits := [Visit(from, b.capacity), Visit(from + wait, Supply(b.rate, wait))];
            Granted(b, visits) == b.capacity + Supply(b.rate, wait)
  {
    var v0, v1 := Visit(from, b.capacity), Visit(from + wait, Supply(b.rate, wait));
    SupplyLaws(b.rate, from - b.lastRefill - 1.0, 1.0);
    var b1 := Take(b, v0.remaining, v0.now);
    assert Grant(b, v0.remaining, v0.now) == b.capacity && b1.tokens == 0.0;
    assert Grant(b1, v1.remaining, v1.now) == Supply(b.rate, wait);
    assert [v0, v1][1..] == [v1] && [v1][1..] == [];
    assert Granted(b1, [v1]) == Supply(b.rate, wait) + Granted(Take(b1, v1.remaining, v1.now), []);
    assert Granted(b, [v0, v1]) == b.capacity + Granted(b1, [v1]);
  }

  // ----- a caller on its own

  lemma {:induction false} Punctual(late: nat -> real, n: nat)
    requires forall i :: late(i) == 0.0
    ensures Lateness(late, n) == 0.0
  {
    if n > 0 {
      Punctual(late, n - 1);
    }
  }

  lemma SupplyOfOne(rate: real)
    ensures Supply(rate, 0.0) == 0.0 && Supply(rate, 1.0) == rate
  {
  }

  lemma SupplyOrder(rate: real, time: real, needed: real)
    requires rate >= 1.0 && Supply(rate, time) <= needed
    ensures time <= TimeFor(rate, needed)
  {
    hide Supply, TimeFor;
    var enough := TimeFor(rate, needed);
    TimeForExact(rate, needed);
    SupplyLaws(rate, time - enough, enough);
    if time > enough {
      SupplyPositive(rate, time - enough);
    }
  }

  lemma SupplyPositive(rate: real, time: real)
    requires rate >= 1.0 && time > 0.0
    ensures Supply(rate, time) > 0.0
  {
  }

  /** Sleeping for the tokens still needed makes them available. */
  lemma SleepSuffices(b: Tokens, remaining: real, woken: real)
    requires Sound(b) && remaining > 0.0
    requires woken >= b.lastRefill + TimeFor(b.rate, MinReal(remaining, b.capacity))
    ensures Grant(b, remaining, woken) >= MinReal(remaining, b.capacity)
  {
    hide Supply, TimeFor;
    var sleep := TimeFor(b.rate, MinReal(remaining, b.capacity));
    TimeForExact(b.rate, MinReal(remaining, b.capacity));
    SupplyLaws(b.rate, woken - b.lastRefill - sleep, sleep);
  }

  class Bucket {
    var tokens: real
    var capacity: real
    var rate: real
    var lastRefill: real

    function Contents(): Tokens
      reads this
    {
      Tokens(tokens, capacity, rate, lastRefill)
    }

    ghost predicate Valid()
      reads this
    {
      Sound(Contents())
    }

    constructor (bytesPerSec: nat, now: real)
      requires bytesPerSec >= 1
      ensures Valid() && Contents() == Tokens(bytesPerSec as real, bytesPerSec as real, bytesPerSec as real, now)
    {
      tokens, capacity, rate, lastRefill := bytesPerSec as real, bytesPerSec as real, bytesPerSec as real, now;
    }

    /** One critical section: refill, hand out what there is, and say how long to sleep. */
    method Visit(remaining: real, now: real) returns (left: real, sleep: real)
      requires Valid() && remaining > 0.0 && lastRefill <= now
      modifies this
      ensures Valid() && Contents() == Take(old(Contents()), remaining, now)
      ensures left == remaining - Grant(old(Contents()), remaining, now) && left >= 0.0
      ensures sleep == if left > 0.0 then TimeFor(rate, MinReal(left, capacity)) else 0.0
    {
      hide Supply, TimeFor;
      TakeSound(Contents(), remaining, now);
      left, sleep := remaining, 0.0;
      tokens := MinReal(tokens + Supply(rate, now - lastRefill), capacity);
      lastRefill := now;
      if tokens > 0.0 {
        var consume := MinReal(left, tokens);
        tokens := tokens - consume;
        left := left - consume;
        if left <= 0.0 {
          return;
        }
      }
      sleep := TimeFor(rate, MinReal(left, capacity));
    }

    /** A caller alone on the bucket, woken `late(i)` after its i-th sleep is over, gets all it
        asked for after at most `n / capacity + 2` visits and sleeping no longer than
        `n / rate`, and not before the bucket could have supplied `n` bytes. It finishes when
        its sleeps and their delays are over. */
    method Acquire(n: nat, start: real, late: nat -> real) returns (finish: real, slept: real, visits: nat)
      requires Valid() && lastRefill <= start && forall i :: late(i) >= 0.0
      modifies this
      ensures Valid() && capacity == old(capacity) && rate == old(rate)
      ensures 0.0 <= slept && Supply(rate, slept) <= n as real
      ensures n > 0 ==> visits > 0 && finish == start + slept + Lateness(late, visits - 1)
      ensures (forall i :: late(i) == 0.0) ==> finish == start + slept
      ensures visits as real <= TimeFor(rate, n as real) + 2.0
      ensures n as real + tokens <= old(tokens) + Supply(rate, finish - old(lastRefill))
      ensures n == 0 ==> visits == 0 && finish == start && Contents() == old(Contents())
      ensures n > 0 ==> lastRefill == finish
    {
      hide Supply, TimeFor, Take, Grant;
      SupplyLaws(rate, 0.0, 0.0);
      SupplyLaws(rate, start - lastRefill, 0.0);
      var remaining := n as real;
      var now := start;
      slept := 0.0;
      var sleeps := 0;
      while remaining > 0.0
        invariant Valid() && capacity == old(capacity) && rate == old(rate)
        invariant 0.0 <= remaining <= n as real && lastRefill <= now && 0.0 <= slept
        invariant now == start + slept + Lateness(late, sleeps)
        invariant remaining > 0.0 && sleeps > 0 ==> Supply(rate, (sleeps - 1) as real) <= n as real - remaining
        invariant sleeps > 0 ==> Supply(rate, (sleeps - 1) as real) <= n as real
        invariant n as real - remaining + tokens <= old(tokens) + Supply(rate, lastRefill - old(lastRefill))
        invariant sleeps == 0 ==> slept == 0.0
        invariant n == 0 || (sleeps == 0 && remaining > 0.0) ==> Contents() == old(Contents())
        invariant sleeps > 0 && remaining > 0.0 ==>
                    && now >= lastRefill + TimeFor(rate, MinReal(remaining, capacity))
                    && Supply(rate, slept) <= n as real - remaining + MinReal(remaining, capacity)
        invariant remaining == 0.0 && n > 0 ==> lastRefill == now && Supply(rate, slept) <= n as real
        invariant n == 0 ==> sleeps == 0
        decreases remaining > 0.0, sleeps == 0, remaining
      {
        ghost var before := Contents();
        ghost var asked := remaining;
        TakeSound(before, remaining, now);
        if sleeps > 0 {
          SleepSuffices(before, remaining, now);
        }
        SupplyLaws(rate, before.lastRefill - old(lastRefill), now - before.lastRefill);
        var sleep;
        remaining, sleep := Visit(remaining, now);
        if remaining > 0.0 {
          TimeForExact(rate, MinReal(remaining, capacity));
          SupplyLaws(rate, slept, sleep);
          SupplyLaws(rate, (sleeps - 1) as real, 1.0);
          SupplyOfOne(rate);
          slept := slept + sleep;
          now := now + sleep + late(sleeps);
          sleeps := sleeps + 1;
        }
      }
      finish := now;
      visits := if n > 0 then sleeps + 1 else 0;
      if sleeps > 0 {
        SupplyOrder(rate, (sleeps - 1) as real, n as real);
      }
      if forall i :: late(i) == 0.0 {
        Punctual(late, sleeps);
      }
      TimeForExact(rate, n as real);
    }
  }
}
