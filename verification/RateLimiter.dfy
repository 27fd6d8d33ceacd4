/** The token bucket of the rate-limit interceptor, over real arithmetic; times are in seconds. */
module RateLimiter {

  /** `limited` is false for the unlimited bucket that a rate of zero or less gives. */
  datatype Bucket = Bucket(limited: bool, tokens: real, capacity: real, refill: real, last: real)

  function NewBucket(perSecond: int, now: real): Bucket {
    if perSecond <= 0 then Bucket(false, 0.0, 0.0, 0.0, 0.0)
    else Bucket(true, perSecond as real, perSecond as real, perSecond as real, now)
  }

  /** Tokens that flow in between two moments. */
  function Flow(rate: real, since: real, now: real): real {
    (now - since) * rate
  }

  function Refilled(b: Bucket, now: real): real {
    var t := b.tokens + Flow(b.refill, b.last, now);
    if t <= b.capacity then t else b.capacity
  }

  predicate Allows(b: Bucket, now: real) {
    !b.limited || Refilled(b, now) >= 1.0
  }

  function Called(b: Bucket, now: real): Bucket {
    if !b.limited then b
    else b.(tokens := if Allows(b, now) then Refilled(b, now) - 1.0 else Refilled(b, now), last := now)
  }

  /** The bucket after the first n calls. */
  function State(b: Bucket, calls: seq<real>, n: nat): Bucket
    requires n <= |calls|
  {
    if n == 0 then b else Called(State(b, calls, n - 1), calls[n - 1])
  }

  function Verdict(b: Bucket, calls: seq<real>, n: nat): bool
    requires n < |calls|
  {
    Allows(State(b, calls, n), calls[n])
  }

  /** Calls from..until-1 that were allowed. */
  function Allowed(b: Bucket, calls: seq<real>, from: nat, until: nat): nat
    requires from <= until <= |calls|
  {
    if from == until then 0 else Allowed(b, calls, from, until - 1) + (if Verdict(b, calls, until - 1) then 1 else 0)
  }

  predicate Ordered(start: real, calls: seq<real>) {
    && (forall x :: 0 <= x < |calls| ==> start <= calls[x])
    && (forall x, y :: 0 <= x <= y < |calls| ==> calls[x] <= calls[y])
  }

  predicate InRange(b: Bucket, perSecond: int) {
    && perSecond > 0 && b.limited && b.capacity == perSecond as real && b.refill == perSecond as real
    && 0.0 <= b.tokens <= b.capacity
  }

  lemma RefillInRange(b: Bucket, perSecond: int, now: real)
    requires InRange(b, perSecond) && b.last <= now
    ensures b.tokens <= Refilled(b, now) <= b.capacity
    ensures InRange(Called(b, now), perSecond) && Called(b, now).last == now
  {
    FlowNonNegative(b.refill, b.last, now);
  }

  lemma FlowNonNegative(rate: real, since: real, now: real)
    requires rate >= 0.0 && since <= now
    ensures Flow(rate, since, now) >= 0.0
  {
  }

  lemma {:induction false} StateInRange(perSecond: int, start: real, calls: seq<real>, n: nat)
    requires perSecond > 0 && Ordered(start, calls) && n <= |calls|
    ensures var b := State(NewBucket(perSecond, start), calls, n);
            InRange(b, perSecond) && b.last == if n == 0 then start else calls[n - 1]
  {
    if n > 0 {
      StateInRange(perSecond, start, calls, n - 1);
      RefillInRange(State(NewBucket(perSecond, start), calls, n - 1), perSecond, calls[n - 1]);
    }
  }

  /** A call uses up or leaves what the bucket held plus what flowed in since the last call, and never more than
      a full bucket. */
  lemma CallBudget(b: Bucket, now: real)
    requires b.limited
    ensures var left := Called(b, now).tokens + (if Allows(b, now) then 1.0 else 0.0);
            left <= b.capacity && left <= b.tokens + Flow(b.refill, b.last, now)
  {
  }

  lemma FlowAdds(rate: real, t0: real, t1: real, t2: real)
    ensures Flow(rate, t0, t1) + Flow(rate, t1, t2) == Flow(rate, t0, t2)
  {
  }

  /** After calls a..n-1, tokens plus calls allowed are covered by a full bucket plus what flowed in since a. */
  lemma {:induction false} Budget(perSecond: int, start: real, calls: seq<real>, a: nat, n: nat)
    requires perSecond > 0 && Ordered(start, calls) && a < n <= |calls|
    ensures var b := NewBucket(perSecond, start);
            State(b, calls, n).tokens + Allowed(b, calls, a, n) as real <=
              perSecond as real + Flow(perSecond as real, calls[a], calls[n - 1])
    decreases n - a
  {
    var b, rate, now := NewBucket(perSecond, start), perSecond as real, calls[n - 1];
    var s := State(b, calls, n - 1);
    var used := if Allows(s, now) then 1.0 else 0.0;
    StateInRange(perSecond, start, calls, n - 1);
    CallBudget(s, now);
    assert Allowed(b, calls, a, n) as real == Allowed(b, calls, a, n - 1) as real + used;
    if n - 1 > a {
      var before := calls[n - 2];
      Budget(perSecond, start, calls, a, n - 1);
      FlowAdds(rate, calls[a], before, now);
      BudgetStep(s.tokens, State(b, calls, n).tokens, used, Allowed(b, calls, a, n - 1) as real, rate,
                 Flow(rate, calls[a], before), Flow(rate, before, now));
    } else {
      FlowNonNegative(rate, calls[a], now);
    }
  }

  /** One call's part of the account, with the amounts that flowed in as plain numbers. */
  lemma BudgetStep(held: real, left: real, used: real, allowed: real, full: real, earlier: real, since: real)
    requires held + allowed <= full + earlier && left + used <= held + since
    ensures left + (allowed + used) <= full + (earlier + since)
  {
  }

  lemma FullPlusFlow(rate: real, since: real, now: real)
    ensures rate + Flow(rate, since, now) == rate * (1.0 + (now - since))
  {
  }

  /** Token bucket bound.  In any trace with non-decreasing times, of the calls from call a to call z inclusive at
      most perSecond * (1 + elapsed seconds) are allowed, and the tokens stay between zero and the capacity. */
  lemma TokenBucketBound(perSecond: int, start: real, calls: seq<real>, a: nat, z: nat)
    requires perSecond > 0 && Ordered(start, calls) && a <= z < |calls|
    ensures var b := NewBucket(perSecond, start);
            && Allowed(b, calls, a, z + 1) as real <= perSecond as real * (1.0 + (calls[z] - calls[a]))
            && 0.0 <= State(b, calls, z + 1).tokens <= perSecond as real
  {
    Budget(perSecond, start, calls, a, z + 1);
    StateInRange(perSecond, start, calls, z + 1);
    FullPlusFlow(perSecond as real, calls[a], calls[z]);
  }

  // ----- the exact law -----

  /** After a call the bucket holds what it was refilled to, less the token that an allowed call takes. */
  lemma CallTakes(b: Bucket, now: real)
    requires b.limited
    ensures Called(b, now).tokens == Refilled(b, now) - (if Allows(b, now) then 1.0 else 0.0)
  {
  }

  /** Refilling either fills the bucket or adds exactly what flowed in. */
  lemma RefillIs(b: Bucket, now: real)
    ensures Refilled(b, now) == b.capacity || Refilled(b, now) == b.tokens + Flow(b.refill, b.last, now)
  {
  }

  lemma NoFlow(rate: real, now: real)
    ensures Flow(rate, now, now) == 0.0
  {
  }

  /** Call n finds a full bucket, plus what flowed in since some earlier call, less the calls allowed since: the call
      at which the bucket was last full. */
  lemma {:induction false} LastFull(perSecond: int, start: real, calls: seq<real>, n: nat) returns (a: nat)
    requires perSecond > 0 && Ordered(start, calls) && n < |calls|
    ensures a <= n
    ensures var b, rate := NewBucket(perSecond, start), perSecond as real;
            Refilled(State(b, calls, n), calls[n]) ==
              rate + Flow(rate, calls[a], calls[n]) - Allowed(b, calls, a, n) as real
  {
    var b, rate := NewBucket(perSecond, start), perSecond as real;
    var s := State(b, calls, n);
    StateInRange(perSecond, start, calls, n);
    RefillInRange(s, perSecond, calls[n]);
    if n == 0 || Refilled(s, calls[n]) == s.capacity {
      a := n;
      NoFlow(rate, calls[n]);
    } else {
      a := LastFull(perSecond, start, calls, n - 1);
      var s0 := State(b, calls, n - 1);
      StateInRange(perSecond, start, calls, n - 1);
      CallTakes(s0, calls[n - 1]);
      RefillIs(s, calls[n]);
      FlowAdds(rate, calls[a], calls[n - 1], calls[n]);
      var used := if Allows(s0, calls[n - 1]) then 1.0 else 0.0;
      var earlier, since := Flow(rate, calls[a], calls[n - 1]), Flow(rate, calls[n - 1], calls[n]);
      LastFullStep(Refilled(s0, calls[n - 1]), s.tokens, Refilled(s, calls[n]), used,
                   Allowed(b, calls, a, n - 1) as real, rate, earlier, since);
    }
  }

  lemma LastFullStep(before: real, held: real, now: real, used: real, allowed: real, full: real, earlier: real,
                     since: real)
    requires before == full + earlier - allowed && held == before - used && now == held + since
    ensures now == full + (earlier + since) - (allowed + used)
  {
  }

  /** The exact law of the bucket.  In any trace with non-decreasing times a call is allowed iff, counted back to every
      earlier call, the calls allowed since plus this one stay within perSecond * (1 + elapsed seconds). */
  lemma AllowedIff(perSecond: int, start: real, calls: seq<real>, n: nat)
    requires perSecond > 0 && Ordered(start, calls) && n < |calls|
    ensures var b := NewBucket(perSecond, start);
            Verdict(b, calls, n) <==> forall a :: 0 <= a <= n ==> WithinBudget(b, perSecond, calls, a, n)
  {
    var b, rate := NewBucket(perSecond, start), perSecond as real;
    StateInRange(perSecond, start, calls, n);
    if Verdict(b, calls, n) {
      forall a | 0 <= a <= n ensures WithinBudget(b, perSecond, calls, a, n) {
        TokenBucketBound(perSecond, start, calls, a, n);
        assert Allowed(b, calls, a, n + 1) == Allowed(b, calls, a, n) + 1;
      }
    }
    if forall a :: 0 <= a <= n ==> WithinBudget(b, perSecond, calls, a, n) {
      var a := LastFull(perSecond, start, calls, n);
      assert WithinBudget(b, perSecond, calls, a, n);
      FullPlusFlow(rate, calls[a], calls[n]);
    }
  }

  predicate WithinBudget(b: Bucket, perSecond: int, calls: seq<real>, a: nat, n: nat)
    requires a <= n < |calls|
  {
    Allowed(b, calls, a, n) as real + 1.0 <= perSecond as real * (1.0 + (calls[n] - calls[a]))
  }

  // ----- spaced calls -----

  predicate Spaced(perSecond: int, calls: seq<real>)
    requires perSecond > 0
  {
    forall x :: 0 <= x < |calls| - 1 ==> calls[x + 1] - calls[x] >= 1.0 / perSecond as real
  }

  lemma EnoughFlows(rate: real, since: real, now: real)
    requires rate > 0.0 && now - since >= 1.0 / rate
    ensures Flow(rate, since, now) >= 1.0
  {
    var elapsed, gap := now - since, 1.0 / rate;
    assert gap * rate == 1.0;
    assert (elapsed - gap) * rate >= 0.0;
  }

  lemma AllowsIfEnough(b: Bucket, now: real)
    requires b.limited && b.capacity >= 1.0 && b.tokens + Flow(b.refill, b.last, now) >= 1.0
    ensures Allows(b, now)
  {
  }

  lemma AllowsAfterGap(b: Bucket, perSecond: int, now: real)
    requires InRange(b, perSecond) && now - b.last >= 1.0 / perSecond as real
    ensures Allows(b, now)
  {
    EnoughFlows(perSecond as real, b.last, now);
    AllowsIfEnough(b, now);
  }

  lemma AllowsWhenFull(b: Bucket, perSecond: int, now: real)
    requires InRange(b, perSecond) && b.tokens == b.capacity && b.last <= now
    ensures Allows(b, now)
  {
    RefillInRange(b, perSecond, now);
  }

  /** Calls at least 1/perSecond apart are all allowed. */
  lemma SpacedCallsAllowed(perSecond: int, start: real, calls: seq<real>, n: nat)
    requires perSecond > 0 && Ordered(start, calls) && Spaced(perSecond, calls) && n < |calls|
    ensures Verdict(NewBucket(perSecond, start), calls, n)
  {
    var s := State(NewBucket(perSecond, start), calls, n);
    StateInRange(perSecond, start, calls, n);
    if n == 0 {
      AllowsWhenFull(s, perSecond, calls[0]);
    } else {
      var before := n - 1;
      assert calls[before + 1] - calls[before] >= 1.0 / perSecond as real;
      AllowsAfterGap(s, perSecond, calls[n]);
    }
  }

  /** A rate of zero or less means no limit at all. */
  lemma UnlimitedAllowsAll(perSecond: int, start: real, calls: seq<real>, n: nat)
    requires perSecond <= 0 && n < |calls|
    ensures Verdict(NewBucket(perSecond, start), calls, n)
  {
    StaysUnlimited(NewBucket(perSecond, start), calls, n);
  }

  lemma {:induction false} StaysUnlimited(b: Bucket, calls: seq<real>, n: nat)
    requires n <= |calls| && !b.limited
    ensures State(b, calls, n) == b
  {
    if n > 0 {
      StaysUnlimited(b, calls, n - 1);
    }
  }

  class Limiter {
    const limited: bool
    const capacity: real
    const refill: real
    var tokens: real
    var last: real

    function Contents(): Bucket
      reads this
    {
      Bucket(limited, tokens, capacity, refill, last)
    }

    constructor (perSecond: int, now: real)
      ensures Contents() == NewBucket(perSecond, now)
    {
      if perSecond <= 0 {
        limited, capacity, refill, tokens, last := false, 0.0, 0.0, 0.0, 0.0;
      } else {
        limited, capacity, refill, tokens, last := true, perSecond as real, perSecond as real, perSecond as real, now;
      }
    }

    method Allow(now: real) returns (ok: bool)
      modifies this
      ensures ok == Allows(old(Contents()), now)
      ensures Contents() == Called(old(Contents()), now)
    {
      if !limited {
        return true;
      }
      tokens := Refilled(Contents(), now);
      last := now;
      if tokens >= 1.0 {
        tokens := tokens - 1.0;
        return true;
      }
      return false;
    }
  }
}
