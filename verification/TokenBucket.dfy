/**
 The token bucket of the bandwidth limiter, in 64-bit arithmetic, and the bounds it puts on every run of
 ticks and writes.
 */
module TokenBucket {

  const MAX64: int := 0x7FFF_FFFF_FFFF_FFFF
  const TWO64: int := 0x1_0000_0000_0000_0000

  type int64 = x: int | -MAX64 - 1 <= x <= MAX64

  /** Two's-complement wrap-around. */
  function Wrap(x: int): int64 {
    (x + MAX64 + 1) % TWO64 - MAX64 - 1
  }

  /** Go's division: truncates toward zero. */
  function Quotient(a: int, b: int): int
    requires b > 0
  {
    if a >= 0 then a / b else -((-a) / b)
  }

  // ---------------------------------------------------------------- the bucket

  datatype Params = Params(capacity: int64, refillNumber: int64) {
    predicate Accepted(initial: int64, interval: int64) {
      capacity > 0 && initial >= 0 && refillNumber > 0 && interval > 0 && initial <= capacity
    }

    /** Adding a refill to a bucket that is not full does not leave the 64-bit range. */
    predicate NoWrap() { capacity - 1 + refillNumber <= MAX64 }

    function Produce(tokens: int64): int64 {
      if tokens < capacity
      then var sum := Wrap(tokens + refillNumber); if sum <= capacity then sum else capacity
      else tokens
    }
  }

  class Bucket {
    const params: Params
    const refillInterval: int64
    var tokenCount: int64

    ghost predicate Valid()
      reads this
    {
      params.Accepted(0, refillInterval) && params.NoWrap() && 0 <= tokenCount <= params.capacity
    }

    constructor (params: Params, tokens: int64, interval: int64)
      ensures this.params == params && tokenCount == tokens && refillInterval == interval
    {
      this.params, tokenCount, refillInterval := params, tokens, interval;
    }

    method ProduceTokens()
      modifies this
      ensures tokenCount == params.Produce(old(tokenCount))
    {
      if tokenCount < params.capacity {
        var sum := Wrap(tokenCount + params.refillNumber);
        tokenCount := if sum <= params.capacity then sum else params.capacity;
      }
    }

    method ConsumeTokens(n: int64) returns (ok: bool)
      requires 0 <= n
      modifies this
      ensures ok <==> n <= old(tokenCount)
      ensures tokenCount == if ok then old(tokenCount) - n else old(tokenCount)
    {
      if n <= tokenCount {
        tokenCount := Wrap(tokenCount - n);
        return true;
      }
      return false;
    }
  }

  /** NewBucket: a bucket exactly for parameters in range. */
  method NewBucket(capacity: int64, initialTokenCount: int64, refillNumber: int64, refillInterval: int64)
    returns (b: Bucket?)
    ensures b != null <==> Params(capacity, refillNumber).Accepted(initialTokenCount, refillInterval)
    ensures b != null ==>
              && b.params == Params(capacity, refillNumber) && b.tokenCount == initialTokenCount
              && (b.Valid() <==> b.params.NoWrap())
  {
    if capacity <= 0 || initialTokenCount < 0 || refillNumber <= 0 || refillInterval <= 0
       || capacity < initialTokenCount {
      return null;
    }
    b := new Bucket(Params(capacity, refillNumber), initialTokenCount, refillInterval);
  }

  // ---------------------------------------------------------------- whole runs

  /** A tick, or an attempt to write `n` bytes of which the writer would take `written`. */
  datatype Event = Tick | Attempt(n: int64, written: nat)

  /** The writer takes at most what it is given. */
  predicate Sensible(es: seq<Event>) {
    forall k | 0 <= k < |es| :: es[k].Attempt? ==> es[k].written <= es[k].n
  }

  function Step(p: Params, tokens: int64, e: Event): int64 {
    if e.Tick? then p.Produce(tokens)
    else if 0 <= e.n <= tokens then tokens - e.n else tokens
  }

  function Tokens(p: Params, tokens: int64, es: seq<Event>): int64
    decreases |es|
  {
    if es == [] then tokens else Tokens(p, Step(p, tokens, es[0]), es[1..])
  }

  function Written(p: Params, tokens: int64, es: seq<Event>): nat
    decreases |es|
  {
    if es == [] then 0
    else
      var first := if es[0].Attempt? && 0 <= es[0].n <= tokens then es[0].written else 0;
      first + Written(p, Step(p, tokens, es[0]), es[1..])
  }

  function Ticks(es: seq<Event>): nat {
    if es == [] then 0 else (if es[0].Tick? then 1 else 0) + Ticks(es[1..])
  }

  lemma {:induction false} TokensStayInRange(p: Params, tokens: int64, es: seq<Event>)
    requires p.NoWrap() && p.refillNumber > 0 && 0 <= tokens <= p.capacity
    ensures 0 <= Tokens(p, tokens, es) <= p.capacity
    decreases |es|
  {
    if es != [] { TokensStayInRange(p, Step(p, tokens, es[0]), es[1..]); }
  }

  /** Filling a bucket that would wrap when one token short of full: either it wraps on the way, or it gets full. */
  lemma {:induction false} FillUp(p: Params, tokens: int64) returns (es: seq<Event>)
    requires p.refillNumber > 0 && 0 <= tokens <= p.capacity
    ensures Tokens(p, tokens, es) < 0 || Tokens(p, tokens, es) == p.capacity
    decreases p.capacity - tokens
  {
    if tokens == p.capacity {
      es := [];
    } else {
      var next := p.Produce(tokens);
      if next < 0 || next == p.capacity {
        es := [Tick];
        assert Tokens(p, next, es[1..]) == next;
      } else {
        var rest := FillUp(p, next);
        es := [Tick] + rest;
        assert es[1..] == rest;
      }
    }
  }

  lemma {:induction false} TokensAppend(p: Params, tokens: int64, es: seq<Event>, fs: seq<Event>)
    ensures Tokens(p, tokens, es + fs) == Tokens(p, Tokens(p, tokens, es), fs)
    decreases |es|
  {
    if es == [] {
      assert es + fs == fs;
    } else {
      assert (es + fs)[1..] == es[1..] + fs;
      TokensAppend(p, Step(p, tokens, es[0]), es[1..], fs);
    }
  }

  /** A bucket whose parameters can wrap has a run that drives its count below zero. */
  lemma WrappingBucketGoesNegative(p: Params, tokens: int64) returns (es: seq<Event>)
    requires !p.NoWrap() && p.refillNumber > 0 && p.capacity > 0 && 0 <= tokens <= p.capacity
    ensures Tokens(p, tokens, es) < 0
  {
    es := FillUp(p, tokens);
    if Tokens(p, tokens, es) >= 0 {
      var drain := [Attempt(1, 0), Tick];
      TokensAppend(p, tokens, es, drain);
      assert drain[1..] == [Tick] && drain[1..][1..] == [];
      assert Tokens(p, p.capacity, drain) == p.Produce(p.capacity - 1);
      es := es + drain;
    }
  }

  /**
   Exactly when the token count stays between zero and the capacity in every run of an accepted bucket:
   when one refill on top of an almost full bucket fits in 64 bits.
   */
  lemma TokensInRangeExactlyWhen(p: Params, initial: int64, interval: int64)
    requires p.Accepted(initial, interval)
    ensures (forall es: seq<Event> :: 0 <= Tokens(p, initial, es) <= p.capacity) <==> p.NoWrap()
  {
    if p.NoWrap() {
      forall es: seq<Event>
        ensures 0 <= Tokens(p, initial, es) <= p.capacity
      {
        TokensStayInRange(p, initial, es);
      }
    } else {
      var es := WrappingBucketGoesNegative(p, initial);
      assert Tokens(p, initial, es) < 0;
    }
  }

  lemma ProduceAddsAtMostOneRefill(p: Params, tokens: int64)
    requires p.refillNumber > 0
    ensures p.Produce(tokens) <= tokens + p.refillNumber
  {
    assert Wrap(tokens + p.refillNumber) <= tokens + p.refillNumber;
  }

  lemma OneMoreTick(k: nat, refill: int)
    ensures (k + 1) * refill == refill + k * refill
  {
  }

  lemma RefillsAreNotNegative(k: nat, refill: int)
    requires refill > 0
    ensures k * refill >= 0
  {
  }

  /** What a run writes comes out of the tokens it starts with and the refills it receives. */
  lemma {:induction false} WrittenIsPaidFor(p: Params, tokens: int64, es: seq<Event>)
    requires p.refillNumber > 0 && Sensible(es)
    ensures Written(p, tokens, es) == 0 || Written(p, tokens, es) <= tokens + Ticks(es) * p.refillNumber
    decreases |es|
  {
    if es != [] {
      assert Sensible(es[1..]);
      WrittenIsPaidFor(p, Step(p, tokens, es[0]), es[1..]);
      RefillsAreNotNegative(Ticks(es[1..]), p.refillNumber);
      if es[0].Tick? {
        ProduceAddsAtMostOneRefill(p, tokens);
        OneMoreTick(Ticks(es[1..]), p.refillNumber);
      }
    }
  }

  lemma {:induction false} NeverAboveCapacity(p: Params, tokens: int64, es: seq<Event>)
    requires tokens <= p.capacity
    ensures Tokens(p, tokens, es) <= p.capacity
    decreases |es|
  {
    if es != [] { NeverAboveCapacity(p, Step(p, tokens, es[0]), es[1..]); }
  }

  /**
   The bandwidth bound: between any two points of any run of an accepted bucket, with k ticks between
   them, at most capacity + k * refillNumber bytes are written.  Wrap-around does not break it.
   */
  lemma BandwidthBound(p: Params, initial: int64, interval: int64, before: seq<Event>, between: seq<Event>)
    requires p.Accepted(initial, interval) && Sensible(between)
    ensures Written(p, Tokens(p, initial, before), between) <= p.capacity + Ticks(between) * p.refillNumber
  {
    NeverAboveCapacity(p, initial, before);
    WrittenIsPaidFor(p, Tokens(p, initial, before), between);
    RefillsAreNotNegative(Ticks(between), p.refillNumber);
  }

  // ---------------------------------------------------------------- the streamed response writer

  const DEFAULT_REFILL_INTERVAL_MS := 125

  /** The refill of a streamed writer: one eighth of the rate, computed in 64 bits. */
  function RefillNumber(rate: int64): int64 {
    Quotient(Wrap(rate * DEFAULT_REFILL_INTERVAL_MS), 1000)
  }

  /** Eight refills never exceed the rate, although the product may wrap and the division truncates. */
  lemma EightRefillsPerSecond(rate: int64)
    requires rate > 0
    ensures 8 * RefillNumber(rate) <= rate
    ensures rate * DEFAULT_REFILL_INTERVAL_MS <= MAX64 ==> RefillNumber(rate) == rate / 8
  {
    var product := rate * DEFAULT_REFILL_INTERVAL_MS;
    if product <= MAX64 {
      assert Wrap(product) == product;
      assert product / 1000 == rate / 8;
    }
  }

  predicate StreamAccepted(rate: int64, burst: int64) {
    Params(burst, RefillNumber(rate)).Accepted(burst, DEFAULT_REFILL_INTERVAL_MS)
  }

  /**
   A streamed writer can be made exactly for a positive burst and a product of at least 1000 after
   wrap-around; without wrap-around that is a rate of at least 8 bytes a second.
   */
  lemma StreamedWriterAccepted(rate: int64, burst: int64)
    ensures StreamAccepted(rate, burst) <==> burst > 0 && Wrap(rate * DEFAULT_REFILL_INTERVAL_MS) >= 1000
    ensures -MAX64 <= rate * DEFAULT_REFILL_INTERVAL_MS <= MAX64 ==>
              (StreamAccepted(rate, burst) <==> burst > 0 && rate >= 8)
  {
    var product := rate * DEFAULT_REFILL_INTERVAL_MS;
    if -MAX64 <= product <= MAX64 { assert Wrap(product) == product; }
  }

  /** So some negative rates are accepted. */
  lemma NegativeRateAccepted()
    ensures StreamAccepted(-0x6000_0000_0000_0000, 1)
  {
    assert -0x6000_0000_0000_0000 * DEFAULT_REFILL_INTERVAL_MS == -47 * TWO64 + 0x2000_0000_0000_0000;
    assert Wrap(-0x6000_0000_0000_0000 * DEFAULT_REFILL_INTERVAL_MS) == 0x2000_0000_0000_0000;
  }

  /** In any eight ticks a streamed writer with a positive rate passes at most burst plus rate bytes. */
  lemma StreamedBound(rate: int64, burst: int64, before: seq<Event>, between: seq<Event>)
    requires StreamAccepted(rate, burst) && rate > 0 && Sensible(between) && Ticks(between) == 8
    ensures var p := Params(burst, RefillNumber(rate));
            Written(p, Tokens(p, burst, before), between) <= burst + rate
  {
    BandwidthBound(Params(burst, RefillNumber(rate)), burst, DEFAULT_REFILL_INTERVAL_MS, before, between);
    EightRefillsPerSecond(rate);
  }

  /** The whole burst at once, and then eight ticks. */
  function BurstAndEightTicks(burst: int64): seq<Event>
    requires burst > 0
  {
    [Attempt(burst, burst)] + [Tick, Tick, Tick, Tick, Tick, Tick, Tick, Tick]
  }

  lemma {:induction false} AllTicks(es: seq<Event>)
    requires forall k | 0 <= k < |es| :: es[k].Tick?
    ensures Ticks(es) == |es|
  {
    if es != [] { AllTicks(es[1..]); }
  }

  lemma BurstIsPassed(rate: int64, burst: int64)
    requires StreamAccepted(rate, burst)
    ensures var (p, es) := (Params(burst, RefillNumber(rate)), BurstAndEightTicks(burst));
            Sensible(es) && Ticks(es) == 8 && Written(p, Tokens(p, burst, []), es) >= burst
  {
    var es := BurstAndEightTicks(burst);
    assert es[1..] == [Tick, Tick, Tick, Tick, Tick, Tick, Tick, Tick];
    AllTicks(es[1..]);
  }

  /** Exactly when that bound holds of an accepted writer: when its rate is positive. */
  lemma StreamedBoundExactlyWhen(rate: int64, burst: int64)
    requires StreamAccepted(rate, burst)
    ensures (forall before, between | Sensible(between) && Ticks(between) == 8 ::
               var p := Params(burst, RefillNumber(rate));
               Written(p, Tokens(p, burst, before), between) <= burst + rate)
            <==> rate > 0
  {
    if rate > 0 {
      forall before, between | Sensible(between) && Ticks(between) == 8
        ensures var p := Params(burst, RefillNumber(rate));
                Written(p, Tokens(p, burst, before), between) <= burst + rate
      {
        StreamedBound(rate, burst, before, between);
      }
    } else {
      assert rate != 0;
      BurstIsPassed(rate, burst);
      assert !(Written(Params(burst, RefillNumber(rate)), Tokens(Params(burst, RefillNumber(rate)), burst, []),
                       BurstAndEightTicks(burst)) <= burst + rate);
    }
  }
}
