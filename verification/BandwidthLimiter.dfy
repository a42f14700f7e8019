/**
 The bandwidth limiting writer: the loop that waits for tokens, the chunk iterator, and writing in chunks.

 The ticker is a thread of its own.  Each tick produces tokens and then offers one signal, which is taken
 if the writer is already waiting and dropped otherwise; between producing and offering, the signal is
 `pending`.  How many ticks fall between two actions of the writer is arbitrary.
 */
module BandwidthLimiter {
  import opened Wrappers
  import opened TokenBucket

  // ---------------------------------------------------------------- collaborators

  /** The underlying io.Writer: it takes a prefix, and reports an error whenever that is not everything. */
  class Sink {
    var delivered: seq<byte>
    var pieces: seq<nat>

    constructor ()
      ensures delivered == [] && pieces == []
    {
      delivered, pieces := [], [];
    }

    method Write(p: seq<byte>) returns (written: nat, failed: bool)
      modifies this
      ensures written <= |p| && (written < |p| ==> failed)
      ensures delivered == old(delivered) + p[..written] && pieces == old(pieces) + [|p|]
    {
      var taken: nat :| taken <= |p|;
      written := taken;
      failed := *;
      if written < |p| { failed := true; }
      delivered := delivered + p[..written];
      pieces := pieces + [|p|];
    }
  }

  // ---------------------------------------------------------------- waiting for tokens

  /** The token count after k ticks without a write. */
  function ProduceTimes(p: Params, tokens: int64, k: nat): int64 {
    if k == 0 then tokens else p.Produce(ProduceTimes(p, tokens, k - 1))
  }

  /** The signals received when every tick's signal is received and none is left over from before. */
  function SlowestWait(p: Params, tokens: int64, n: nat): nat
    requires p.NoWrap() && p.refillNumber > 0 && 0 <= tokens <= p.capacity && n <= p.capacity
    decreases n - tokens
  {
    if n <= tokens then 0 else 1 + SlowestWait(p, p.Produce(tokens), n)
  }

  /** One tick on a bucket that cannot wrap, without the 64-bit arithmetic. */
  lemma ProduceIsCappedSum(p: Params, tokens: int64)
    requires p.NoWrap() && p.refillNumber > 0 && 0 <= tokens <= p.capacity
    ensures p.Produce(tokens) == if tokens + p.refillNumber <= p.capacity then tokens + p.refillNumber else p.capacity
  {
  }

  /** That is the missing tokens divided by the refill, rounded up. */
  lemma {:induction false} SlowestWaitIsCeiling(p: Params, tokens: int64, n: nat)
    requires p.NoWrap() && p.refillNumber > 0 && 0 <= tokens < n <= p.capacity
    ensures var w := SlowestWait(p, tokens, n);
            w > 0 && (w - 1) * p.refillNumber < n - tokens <= w * p.refillNumber
    decreases n - tokens
  {
    var next := p.Produce(tokens);
    ProduceIsCappedSum(p, tokens);
    if n <= next {
      assert SlowestWait(p, next, n) == 0;
    } else {
      SlowestWaitIsCeiling(p, next, n);
      var v := SlowestWait(p, next, n);
      OneMoreTick(v - 1, p.refillNumber);
      OneMoreTick(v, p.refillNumber);
    }
  }

  /** More ticks never hurt. */
  lemma {:induction false} TokensGrow(p: Params, tokens: int64, k: nat)
    requires p.NoWrap() && p.refillNumber > 0 && 0 <= tokens <= p.capacity
    ensures tokens <= ProduceTimes(p, tokens, k) <= p.capacity
  {
    if k > 0 {
      TokensGrow(p, tokens, k - 1);
      ProduceIsCappedSum(p, ProduceTimes(p, tokens, k - 1));
    }
  }

  lemma {:induction false} ProduceTimesShift(p: Params, tokens: int64, k: nat)
    ensures ProduceTimes(p, p.Produce(tokens), k) == ProduceTimes(p, tokens, k + 1)
  {
    if k > 0 { ProduceTimesShift(p, tokens, k - 1); }
  }

  /** As long as the tokens do not suffice after k ticks, fewer than the slowest wait have passed. */
  lemma {:induction false} NotEnoughYet(p: Params, tokens: int64, n: nat, k: nat)
    requires p.NoWrap() && p.refillNumber > 0 && 0 <= tokens <= p.capacity && n <= p.capacity
    requires ProduceTimes(p, tokens, k) < n
    ensures k < SlowestWait(p, tokens, n)
    decreases k
  {
    TokensGrow(p, tokens, k);
    ProduceIsCappedSum(p, tokens);
    if k > 0 {
      var next := p.Produce(tokens);
      ProduceTimesShift(p, tokens, k - 1);
      NotEnoughYet(p, next, n, k - 1);
      assert SlowestWait(p, tokens, n) == 1 + SlowestWait(p, next, n);
    } else {
      assert SlowestWait(p, tokens, n) >= 1;
    }
  }

  /** The writer's view of the ticker and its bucket. */
  class Throttler {
    const b: Bucket
    var pending: bool
    var waits: nat           // signals received so far

    constructor (b: Bucket)
      ensures this.b == b && !pending && waits == 0
    {
      this.b, pending, waits := b, false, 0;
    }

    /** One tick of the ticker thread up to the point where it is about to offer its signal. */
    method Tick()
      modifies this`pending, b
      ensures pending && b.tokenCount == b.params.Produce(old(b.tokenCount))
    {
      b.ProduceTokens();
      pending := true;
    }

    /**
     Receiving a signal.  Any number of ticks may pass before, their signals dropped, and one more may
     produce before the writer looks again; `ticks` is how many produced in all.  A signal pending from
     before may be the one received, so that no tick need have produced since.
     */
    method AwaitTick() returns (ghost ticks: nat)
      modifies this, b
      ensures waits == old(waits) + 1
      ensures b.tokenCount == ProduceTimes(b.params, old(b.tokenCount), ticks)
      ensures 1 + One(pending) <= ticks + One(old(pending))
    {
      ticks := 0;
      var missed: nat := *;
      var i := 0;
      while i < missed
        invariant b.tokenCount == ProduceTimes(b.params, old(b.tokenCount), ticks)
        invariant waits == old(waits) && (pending ==> ticks > 0 || old(pending))
        invariant One(pending) <= ticks + One(old(pending))
        decreases missed - i
      {
        Tick();
        ticks := ticks + 1;
        i := i + 1;
      }
      if !pending {
        Tick();
        ticks := ticks + 1;
      }
      pending := false;
      waits := waits + 1;
      if * {
        Tick();
        ticks := ticks + 1;
      }
    }

    /**
     The loop around `consumeTokens`: at most as many signals as refills are missing are received, one more
     if a signal of an earlier tick was still pending, and none if the tokens are there.
     */
    method AwaitTokens(n: nat) returns (ghost ticks: nat)
      requires b.Valid() && n <= b.params.capacity
      modifies this, b
      ensures b.Valid() && b.tokenCount == ProduceTimes(b.params, old(b.tokenCount), ticks) - n
      ensures 0 <= waits - old(waits) <= SlowestWait(b.params, old(b.tokenCount), n) + One(old(pending))
      ensures n <= old(b.tokenCount) ==> waits == old(waits) && ticks == 0
    {
      ghost var params, start, was := b.params, b.tokenCount, waits;
      ghost var slowest := SlowestWait(params, start, n);
      ticks := 0;
      var ok := b.ConsumeTokens(n);
      while !ok
        invariant waits >= was && b.params == params
        invariant Waiting(params, start, n, ticks, waits - was, pending, old(pending))
        invariant ok <==> n <= ProduceTimes(params, start, ticks)
        invariant b.tokenCount == ProduceTimes(params, start, ticks) - (if ok then n else 0)
        decreases slowest + 1 - (waits - was), !ok
      {
        ghost var received, held := waits - was, pending;
        ghost var more := AwaitTick();
        StillWaiting(params, start, n, ticks, more, received, held, pending, old(pending));
        ticks := ticks + more;
        ok := b.ConsumeTokens(n);
      }
      TokensGrow(params, start, ticks);
    }

    /** Ticks that fall while the writer is busy elsewhere. */
    method Drift() returns (ghost ticks: nat)
      modifies this`pending, b
      ensures b.tokenCount == ProduceTimes(b.params, old(b.tokenCount), ticks)
    {
      ticks := 0;
      var passing: nat := *;
      var i := 0;
      while i < passing
        invariant b.tokenCount == ProduceTimes(b.params, old(b.tokenCount), ticks)
        decreases passing - i
      {
        Tick();
        ticks := ticks + 1;
        i := i + 1;
      }
    }

    /** Waits for tokens and writes; `waited` ticks fall during the wait and `during` during the write. */
    method BandwidthLimitingWrite(w: Sink, p: seq<byte>)
      returns (written: nat, err: Option<WriteError>, ghost waited: nat, ghost during: nat)
      requires b.Valid()
      modifies this, b, w
      ensures b.Valid()
      ensures |p| > b.params.capacity ==>
                && written == 0 && err == Some(BufferSizeTooLarge) && waited == during == 0
                && w.delivered == old(w.delivered) && w.pieces == old(w.pieces)
                && waits == old(waits) && b.tokenCount == old(b.tokenCount)
      ensures |p| <= b.params.capacity ==>
                && written <= |p| && (err.None? ==> written == |p|) && err != Some(BufferSizeTooLarge)
                && w.delivered == old(w.delivered) + p[..written] && w.pieces == old(w.pieces) + [|p|]
                && 0 <= waits - old(waits) <= SlowestWait(b.params, old(b.tokenCount), |p|) + One(old(pending))
                && Paid(b.params, old(b.tokenCount), |p|, waited, during, b.tokenCount)
      ensures |p| <= old(b.tokenCount) ==> waits == old(waits) && waited == 0
    {
      if |p| > b.params.capacity {
        return 0, Some(BufferSizeTooLarge), 0, 0;
      }
      waited := AwaitTokens(|p|);
      var failed;
      ghost var start := b.tokenCount;
      written, failed := w.Write(p);
      during := Drift();
      TokensGrow(b.params, start, during);
      err := if failed then Some(WriterFailed) else None;
    }
  }

  /** n tokens are taken after `waited` ticks, and `during` more ticks follow. */
  ghost predicate Paid(p: Params, start: int64, n: nat, waited: nat, during: nat, end: int64) {
    && n <= ProduceTimes(p, start, waited)
    && end == ProduceTimes(p, ProduceTimes(p, start, waited) - n, during)
  }

  lemma {:induction false} RefillsBound(p: Params, start: int64, k: nat)
    requires p.refillNumber > 0
    ensures ProduceTimes(p, start, k) <= start + k * p.refillNumber
  {
    if k > 0 {
      RefillsBound(p, start, k - 1);
      ProduceAddsAtMostOneRefill(p, ProduceTimes(p, start, k - 1));
      OneMoreTick(k - 1, p.refillNumber);
    }
  }

  /** The n bytes written come out of the tokens at the start and the refills of the ticks. */
  lemma PaidByRefills(p: Params, start: int64, n: nat, waited: nat, during: nat, end: int64)
    requires p.refillNumber > 0 && Paid(p, start, n, waited, during, end)
    ensures end + n <= start + (waited + during) * p.refillNumber
  {
    RefillsBound(p, start, waited);
    RefillsBound(p, ProduceTimes(p, start, waited) - n, during);
    TicksAdd(waited, during, p.refillNumber);
  }

  lemma TicksAdd(j: nat, k: nat, refill: int)
    ensures (j + k) * refill == j * refill + k * refill
  {
  }

  function One(b: bool): nat { if b then 1 else 0 }

  /** What holds before every attempt to take the tokens: `received` signals of `ticks` ticks. */
  ghost predicate Waiting(p: Params, start: int64, n: nat, ticks: nat, received: nat, pending: bool, wasPending: bool) {
    && p.NoWrap() && p.refillNumber > 0 && 0 <= start <= p.capacity && n <= p.capacity
    && received + One(pending) <= ticks + One(wasPending)
    && received <= SlowestWait(p, start, n) + One(wasPending)
    && (n <= start ==> received == 0 && ticks == 0)
  }

  /** One more signal received, during which `more` ticks produced. */
  lemma StillWaiting(p: Params, start: int64, n: nat, ticks: nat, more: nat, received: nat, held: bool, pending: bool,
                     wasPending: bool)
    requires Waiting(p, start, n, ticks, received, held, wasPending)
    requires ProduceTimes(p, start, ticks) < n && 1 + One(pending) <= more + One(held)
    ensures Waiting(p, start, n, ticks + more, received + 1, pending, wasPending)
    ensures ticks < SlowestWait(p, start, n) && received + 1 <= SlowestWait(p, start, n) + 1
    ensures ProduceTimes(p, ProduceTimes(p, start, ticks), more) == ProduceTimes(p, start, ticks + more) >= 0
  {
    NotEnoughYet(p, start, n, ticks);
    TokensGrow(p, start, ticks);
    TokensGrow(p, start, ticks + more);
    ProduceTimesAdds(p, start, ticks, more);
  }

  lemma {:induction false} ProduceTimesAdds(p: Params, tokens: int64, j: nat, k: nat)
    ensures ProduceTimes(p, ProduceTimes(p, tokens, j), k) == ProduceTimes(p, tokens, j + k)
  {
    if k > 0 { ProduceTimesAdds(p, tokens, j, k - 1); }
  }

  // ---------------------------------------------------------------- the bound is the best possible

  datatype Moment = Ticked | Received

  /** `ms` is what happens from an attempt to take n tokens (or a wait, when not `attempting`) until one succeeds. */
  ghost predicate WaitsOut(p: Params, tokens: int64, n: nat, pending: bool, attempting: bool, ms: seq<Moment>)
    decreases |ms|
  {
    if attempting && n <= tokens then ms == []
    else
      && ms != []
      && match ms[0]
         case Ticked => WaitsOut(p, p.Produce(tokens), n, true, false, ms[1..])
         case Received => pending && WaitsOut(p, tokens, n, false, true, ms[1..])
  }

  function Receives(ms: seq<Moment>): nat {
    if ms == [] then 0 else One(ms[0].Received?) + Receives(ms[1..])
  }

  /** Some schedule takes every signal the bound of `AwaitTokens` allows, the left-over one included. */
  lemma {:induction false} WaitBoundIsReached(p: Params, tokens: int64, n: nat, pending: bool) returns (ms: seq<Moment>)
    requires p.NoWrap() && p.refillNumber > 0 && 0 <= tokens < n <= p.capacity
    ensures WaitsOut(p, tokens, n, pending, true, ms)
    ensures Receives(ms) == SlowestWait(p, tokens, n) + One(pending)
    decreases n - tokens, pending
  {
    if pending {
      var rest := WaitBoundIsReached(p, tokens, n, false);
      ms := [Received] + rest;
      assert ms[1..] == rest;
    } else {
      var next := p.Produce(tokens);
      ProduceIsCappedSum(p, tokens);
      var rest := [];
      if next < n { rest := WaitBoundIsReached(p, next, n, false); }
      var received := [Received] + rest;
      assert received[1..] == rest && Receives(received) == 1 + Receives(rest);
      ms := [Ticked] + received;
      assert ms[1..] == received;
    }
  }

  // ---------------------------------------------------------------- for which buckets the wait has this bound

  /** After some number of ticks, no more than the missing tokens take at one refill each, there are n tokens. */
  ghost predicate EndsInBound(p: Params, tokens: int64, n: nat) {
    exists k: nat :: n <= ProduceTimes(p, tokens, k) && (k == 0 || (k - 1) * p.refillNumber < n - tokens)
  }

  lemma {:induction false} SlowestWaitSuffices(p: Params, tokens: int64, n: nat)
    requires p.NoWrap() && p.refillNumber > 0 && 0 <= tokens <= p.capacity && n <= p.capacity
    ensures n <= ProduceTimes(p, tokens, SlowestWait(p, tokens, n))
    decreases n - tokens
  {
    if n > tokens {
      var next := p.Produce(tokens);
      ProduceIsCappedSum(p, tokens);
      SlowestWaitSuffices(p, next, n);
      ProduceTimesShift(p, tokens, SlowestWait(p, next, n));
    }
  }

  lemma NoWrapEndsInBound(p: Params, tokens: int64, n: nat)
    requires p.NoWrap() && p.refillNumber > 0 && 0 <= tokens <= p.capacity && n <= p.capacity
    ensures EndsInBound(p, tokens, n)
  {
    var k := SlowestWait(p, tokens, n);
    SlowestWaitSuffices(p, tokens, n);
    if n > tokens { SlowestWaitIsCeiling(p, tokens, n); }
    assert n <= ProduceTimes(p, tokens, k) && (k == 0 || (k - 1) * p.refillNumber < n - tokens);
  }

  /** A bucket that can wrap gets, in some run, to a count that is not full and to which a refill cannot be added. */
  lemma {:induction false} GetsToTheEdge(p: Params, tokens: int64) returns (es: seq<Event>)
    requires !p.NoWrap() && p.refillNumber > 0 && p.capacity > 0 && 0 <= tokens <= p.capacity
    ensures var edge := Tokens(p, tokens, es); 0 <= edge < p.capacity && edge + p.refillNumber > MAX64
    decreases p.capacity - tokens
  {
    if tokens == p.capacity {
      es := [Attempt(1, 0)];
      assert Tokens(p, p.capacity - 1, es[1..]) == p.capacity - 1;
    } else if tokens + p.refillNumber > MAX64 {
      es := [];
    } else {
      var rest := GetsToTheEdge(p, p.Produce(tokens));
      es := [TokenBucket.Tick] + rest;
      assert es[1..] == rest;
    }
  }

  lemma Multiples(j: nat, refill: int)
    requires j >= 1 && refill > 0
    ensures j * refill >= refill
  {
  }

  /** From there one refill would do to fill the bucket, but the tick that brings it makes the count negative. */
  lemma EdgeBreaksBound(p: Params, edge: int64)
    requires p.refillNumber > 0 && 0 <= edge < p.capacity && edge + p.refillNumber > MAX64
    ensures !EndsInBound(p, edge, p.capacity)
  {
    assert p.Produce(edge) < 0;
    forall k: nat
      ensures !(p.capacity <= ProduceTimes(p, edge, k) && (k == 0 || (k - 1) * p.refillNumber < p.capacity - edge))
    {
      if k == 1 {
        assert ProduceTimes(p, edge, 1) == p.Produce(ProduceTimes(p, edge, 0)) == p.Produce(edge);
      } else if k > 1 {
        Multiples(k - 1, p.refillNumber);
      }
    }
  }

  /**
   Exactly for which accepted buckets the wait has its bound in every run: whatever was written before, any
   piece that fits gets its tokens in the refills that are missing, if and only if one refill on top of an
   almost full bucket fits in 64 bits.
   */
  lemma WaitBoundHoldsExactlyWhen(p: Params, initial: int64, interval: int64)
    requires p.Accepted(initial, interval)
    ensures (forall es: seq<Event>, n: nat | n <= p.capacity :: EndsInBound(p, Tokens(p, initial, es), n)) <==>
            p.NoWrap()
  {
    if p.NoWrap() {
      forall es: seq<Event>, n: nat | n <= p.capacity
        ensures EndsInBound(p, Tokens(p, initial, es), n)
      {
        TokensStayInRange(p, initial, es);
        NoWrapEndsInBound(p, Tokens(p, initial, es), n);
      }
    } else {
      var es := GetsToTheEdge(p, initial);
      EdgeBreaksBound(p, Tokens(p, initial, es));
      assert !EndsInBound(p, Tokens(p, initial, es), p.capacity);
    }
  }

  const HALF_RANGE: int64 := 0x4000_0000_0000_0000

  /**
   Why the wait loop needs a bucket that cannot wrap: refilled by half the positive range, this one goes
   round in four ticks and never holds one token more than that, so that a writer of a piece of that size
   waits for ever although the piece fits the bucket.
   */
  lemma {:induction false} WrappingBucketNeverSuffices(k: nat)
    ensures Params(MAX64, HALF_RANGE).Accepted(0, 1) && !Params(MAX64, HALF_RANGE).NoWrap()
    ensures HALF_RANGE + 1 <= MAX64 && ProduceTimes(Params(MAX64, HALF_RANGE), 0, k) < HALF_RANGE + 1
  {
    RoundInFour(k);
  }

  lemma FourTicks()
    ensures var p := Params(MAX64, HALF_RANGE);
            && p.Produce(0) == HALF_RANGE && p.Produce(HALF_RANGE) == -2 * HALF_RANGE
            && p.Produce(-2 * HALF_RANGE) == -HALF_RANGE && p.Produce(-HALF_RANGE) == 0
  {
  }

  function AfterTicks(r: nat): int64 {
    if r == 0 then 0 else if r == 1 then HALF_RANGE else if r == 2 then -2 * HALF_RANGE else -HALF_RANGE
  }

  lemma {:induction false} RoundInFour(k: nat)
    ensures ProduceTimes(Params(MAX64, HALF_RANGE), 0, k) == AfterTicks(k % 4)
  {
    if k > 0 {
      RoundInFour(k - 1);
      FourTicks();
      assert k % 4 == if (k - 1) % 4 == 3 then 0 else (k - 1) % 4 + 1;
    }
  }

  datatype WriteError = BufferSizeTooLarge | WriterFailed

  // ---------------------------------------------------------------- writing in chunks

  /** The length of a Go slice is an int. */
  type Buffer = s: seq<byte> | |s| <= MAX64

  /** A slice that may be nil, and its contents. */
  type Slice = Option<Buffer>

  function Bytes(p: Slice): Buffer { if p.Some? then p.value else [] }

  /** What Next does: yield a chunk, yield nil, or panic because the slice bounds are out of range. */
  datatype Yield = Chunk(bytes: seq<byte>) | End | Panic

  /** min(offset + chunkSize, len(buf)), the sum in 64 bits. */
  function NextOffset(len: int64, chunkSize: int64, offset: int64): int64 {
    var end := Wrap(offset + chunkSize);
    if end <= len then end else len
  }

  function Yielded(buf: Buffer, from: int64, to: int64): Yield
    requires to <= |buf|
  {
    if from == to then End else if 0 <= from < to then Chunk(buf[from..to]) else Panic
  }

  class ChunkIterator {
    const buf: Buffer
    const chunkSize: int64
    var offset: int64

    constructor (buf: Buffer, chunkSize: int64)
      ensures this.buf == buf && this.chunkSize == chunkSize && offset == 0
    {
      this.buf, this.chunkSize, offset := buf, chunkSize, 0;
    }

    method Next() returns (r: Yield)
      modifies this
      ensures offset == NextOffset(|buf|, chunkSize, old(offset))
      ensures r == Yielded(buf, old(offset), offset)
    {
      var begin := offset;
      var sum := Wrap(offset + chunkSize);
      var end := if sum <= |buf| then sum else |buf|;
      offset := end;
      if begin == end { return End; }
      if begin < 0 || end < begin { return Panic; }
      return Chunk(buf[begin..end]);
    }

    /** Next, once the n bytes before the offset have been written. */
    method NextFrom(ghost n: nat) returns (r: Yield)
      requires chunkSize > 0 && offset == n <= |buf|
      modifies this
      ensures Standing(buf, chunkSize, n, offset, r)
    {
      NextStanding(buf, chunkSize, n);
      r := Next();
    }
  }

  /** NewChunkIterator: none for a nil slice. */
  method NewChunkIterator(buf: Slice, chunkSize: int64) returns (i: ChunkIterator?)
    ensures i == null <==> buf.None?
    ensures i != null ==> fresh(i) && i.buf == buf.value && i.chunkSize == chunkSize && i.offset == 0
  {
    if buf.None? { return null; }
    i := new ChunkIterator(buf.value, chunkSize);
  }

  /** How an iteration from `offset` ends: how many bytes its chunks have covered, and whether it panics. */
  datatype Iteration = Iteration(covered: nat, panics: bool)

  function Iterate(len: int64, chunkSize: int64, offset: int64): Iteration
    requires 0 <= offset <= len
    decreases len - offset
  {
    var next := NextOffset(len, chunkSize, offset);
    if next == offset then Iteration(offset, false)
    else if next < offset then Iteration(offset, true)
    else Iterate(len, chunkSize, next)
  }

  /** From an offset within the buffer, with a positive chunk size: the panic is exactly the wrap of the sum. */
  lemma NextExactly(len: int64, chunkSize: int64, offset: int64)
    requires 0 <= offset <= len && chunkSize > 0
    ensures var next := NextOffset(len, chunkSize, offset);
            if offset + chunkSize > MAX64 then next < 0
            else offset <= next <= len && next - offset <= chunkSize && (next == offset <==> offset == len)
  {
  }

  lemma {:induction false} IterationExactly(len: int64, chunkSize: int64, offset: int64)
    requires 0 <= offset <= len && chunkSize > 0
    ensures var i := Iterate(len, chunkSize, offset);
            && (i.panics <==> len + chunkSize > MAX64) && (!i.panics ==> i.covered == len)
    decreases len - offset
  {
    NextExactly(len, chunkSize, offset);
    var next := NextOffset(len, chunkSize, offset);
    if next > offset { IterationExactly(len, chunkSize, next); }
  }

  /**
   An iterator over a buffer yields all of it and then nil if and only if its length and the chunk size
   together stay within 64 bits; a chunk size of zero yields nothing, and a negative one panics.
   */
  lemma IteratesToTheEndExactlyWhen(len: int64, chunkSize: int64)
    requires len >= 0
    ensures Iterate(len, chunkSize, 0) == Iteration(len, false)
            <==> (chunkSize > 0 && len + chunkSize <= MAX64) || (chunkSize == 0 && len == 0)
  {
    if chunkSize > 0 { IterationExactly(len, chunkSize, 0); }
  }

  /** The failing input: the largest chunk size is over the range for every buffer that is not empty. */
  lemma LargestChunkSizePanics(len: int64)
    requires len > 0
    ensures Params(MAX64, 1).Accepted(0, 1) && Params(MAX64, 1).NoWrap()
    ensures Iterate(len, MAX64, 0) == Iteration(len, true)
  {
    assert NextOffset(len, MAX64, 0) == len;
    assert NextOffset(len, MAX64, len) < 0;
    assert Iterate(len, MAX64, len) == Iteration(len, true);
  }

  /** Where a chunked write stands: n bytes are written and the iterator has just yielded `y`. */
  ghost predicate Standing(p: Buffer, capacity: int64, n: nat, offset: int64, y: Yield) {
    match y
    case Chunk(bytes) => n < offset <= |p| && bytes == p[n..offset] && |bytes| <= capacity
    case End => n == |p| && |p| + capacity <= MAX64
    case Panic => n <= |p| && |p| + capacity > MAX64
  }

  lemma NextStanding(p: Buffer, capacity: int64, n: int64)
    requires capacity > 0 && 0 <= n <= |p|
    ensures var next := NextOffset(|p|, capacity, n); Standing(p, capacity, n, next, Yielded(p, n, next))
  {
    NextExactly(|p|, capacity, n);
  }

  /** What a writer has had written: the bytes, the sizes of the pieces, and the tokens left. */
  datatype Written = Written(delivered: seq<byte>, pieces: seq<nat>, tokens: int64)

  /** Between `was` and `now` the first n bytes of p were delivered in pieces that fit, paid for by tokens and ticks. */
  ghost predicate Delivered(b: Params, was: Written, now: Written, p: Buffer, n: nat, ticks: nat) {
    && n <= |p| && now.delivered == was.delivered + p[..n]
    && PiecesFit(now.pieces, |was.pieces|, b.capacity)
    && now.tokens + n <= was.tokens + ticks * b.refillNumber
  }

  lemma NothingYet(b: Params, was: Written, p: Buffer)
    ensures Delivered(b, was, was, p, 0, 0)
  {
  }

  /** One more piece, of which `written` bytes were taken. */
  lemma OneMorePiece(b: Params, was: Written, now: Written, then': Written, p: Buffer, n: nat, to: nat, written: nat,
                     ticks: nat, waited: nat, during: nat)
    requires b.refillNumber > 0 && Delivered(b, was, now, p, n, ticks)
    requires n <= to <= |p| && written <= to - n <= b.capacity
    requires then'.delivered == now.delivered + p[n..to][..written] && then'.pieces == now.pieces + [to - n]
    requires Paid(b, now.tokens, to - n, waited, during, then'.tokens)
    ensures Delivered(b, was, then', p, n + written, ticks + waited + during)
  {
    PaidByRefills(b, now.tokens, to - n, waited, during, then'.tokens);
    TicksAdd(ticks, waited + during, b.refillNumber);
    NextPiece(p, n, to, written);
  }

  /** Appending the first k bytes of a chunk to what precedes the chunk. */
  lemma NextPiece(p: seq<byte>, from: nat, to: nat, k: nat)
    requires from + k <= to <= |p|
    ensures p[..from] + p[from..to][..k] == p[..from + k]
  {
    assert p[from..to][..k] == p[from..from + k];
  }

  /** Every piece written since the first `from` fits the bucket. */
  ghost predicate PiecesFit(pieces: seq<nat>, from: nat, capacity: int) {
    from <= |pieces| && forall k | from <= k < |pieces| :: pieces[k] <= capacity
  }

  class BandwidthLimitingWriter {
    const w: Sink
    const th: Throttler

    constructor (w: Sink, th: Throttler)
      ensures this.w == w && this.th == th
    {
      this.w, this.th := w, th;
    }

    ghost function View(): Written
      reads th.b, w
    {
      Written(w.delivered, w.pieces, th.b.tokenCount)
    }

    /** One turn of the loop below: the chunk from n to `to` of a buffer of which n bytes were delivered since `was`. */
    method WriteChunk(p: Buffer, bytes: seq<byte>, ghost was: Written, ghost n: nat, ghost to: nat, ghost ticks: nat)
      returns (written: nat, err: Option<WriteError>, ghost later: nat)
      requires th.b.Valid() && Delivered(th.b.params, was, View(), p, n, ticks)
      requires n <= to <= |p| && bytes == p[n..to] && |bytes| <= th.b.params.capacity
      modifies th, th.b, w
      ensures th.b.Valid() && Delivered(th.b.params, was, View(), p, n + written, later)
      ensures written <= |bytes| && (err.None? ==> written == |bytes|) && err != Some(BufferSizeTooLarge)
    {
      ghost var now, waited, during := View(), 0, 0;
      written, err, waited, during := th.BandwidthLimitingWrite(w, bytes);
      OneMorePiece(th.b.params, was, now, View(), p, n, to, written, ticks, waited, during);
      later := ticks + waited + during;
    }

    /**
     Delivers exactly the prefix whose length it returns, and all of it if no write fails and the chunk
     iterator does not panic, which it does if and only if the slice is nil or its length and the capacity
     together exceed 64 bits.  `n` is then what was delivered before.
     */
    method ChunkedWrite(p: Slice) returns (n: nat, err: Option<WriteError>, panicked: bool, ghost ticks: nat)
      requires th.b.Valid()
      modifies th, th.b, w
      ensures th.b.Valid() && err != Some(BufferSizeTooLarge)
      ensures Delivered(th.b.params, old(View()), View(), Bytes(p), n, ticks)
      ensures panicked <==> err.None? && (p.None? || |p.value| + th.b.params.capacity > MAX64)
      ensures err.None? && !panicked ==> n == |Bytes(p)|
    {
      n, err, ticks := 0, None, 0;
      var i := NewChunkIterator(p, th.b.params.capacity);
      if i == null { return 0, None, true, 0; }
      NothingYet(th.b.params, View(), p.value);
      var y := i.NextFrom(0);
      while y.Chunk?
        invariant fresh(i) && i.buf == p.value && i.chunkSize == th.b.params.capacity
        invariant th.b.Valid() && err.None? && Delivered(th.b.params, old(View()), View(), p.value, n, ticks)
        invariant Standing(p.value, i.chunkSize, n, i.offset, y)
        decreases |p.value| - n, y.Chunk?
      {
        var written;
        written, err, ticks := WriteChunk(p.value, y.bytes, old(View()), n, i.offset, ticks);
        n := n + written;
        if err.Some? { return n, err, false, ticks; }
        y := i.NextFrom(n);
      }
      panicked := y.Panic?;
    }

    /**
     One piece if it fits the bucket, chunks otherwise.  Only slices longer than the capacity reach the
     iterator, so that it panics for none that is at most half the 64-bit range long.
     */
    method Write(p: Slice) returns (n: nat, err: Option<WriteError>, panicked: bool, ghost ticks: nat)
      requires th.b.Valid()
      modifies th, th.b, w
      ensures th.b.Valid() && err != Some(BufferSizeTooLarge)
      ensures Delivered(th.b.params, old(View()), View(), Bytes(p), n, ticks)
      ensures var len, capacity := |Bytes(p)|, th.b.params.capacity;
              && (panicked <==> err.None? && capacity < len && len + capacity > MAX64)
              && (2 * len <= MAX64 ==> !panicked)
      ensures err.None? && !panicked ==> n == |Bytes(p)|
    {
      if |Bytes(p)| > th.b.params.capacity {
        n, err, panicked, ticks := ChunkedWrite(p);
      } else {
        panicked := false;
        NothingYet(th.b.params, View(), Bytes(p));
        n, err, ticks := WriteChunk(Bytes(p), Bytes(p), View(), 0, |Bytes(p)|, 0);
      }
    }
  }
}
