/**
 The pool of runtimes: idle ones in arrival order, and ones reserved for an invoke ID until the invoke
 arrives or the reservation expires.  Runtimes are opaque values of type `R`; reservation timers are
 expiry calls that may come at any moment, late or for an ID that has been reused.
 */
module RuntimePool {
  import opened Wrappers
  import opened Collections

  datatype PoolError = TooManyIdleRuntimes | InvokeIdAlreadyExists | NoReadyRuntime

  /** The pool as a value. */
  datatype Pool<R> = Pool(idle: seq<R>, reserved: map<InvokeID, R>)

  /** An operation on the pool; an expiry is one, whenever its timer fires. */
  datatype Op<R> =
    | Add(runtime: R)
    | Reserve(id: InvokeID)
    | Acquire(id: InvokeID)
    | Expire(id: InvokeID)

  predicate HasRoom<R>(p: Pool<R>, maxSize: int) { |p.idle| + |p.reserved| < maxSize }

  function Next<R>(p: Pool<R>, maxSize: int, op: Op<R>): Pool<R> {
    match op
    case Add(rt) => if HasRoom(p, maxSize) then p.(idle := p.idle + [rt]) else p
    case Reserve(id) =>
      if id in p.reserved || p.idle == [] then p
      else Pool(p.idle[1..], p.reserved[id := p.idle[0]])
    case Acquire(id) =>
      if id in p.reserved then p.(reserved := p.reserved - {id})
      else if p.idle == [] then p
      else p.(idle := p.idle[1..])
    case Expire(id) =>
      if id in p.reserved then Pool(p.idle + [p.reserved[id]], p.reserved - {id}) else p
  }

  /** The runtime an operation hands out, if any. */
  function HandedOut<R>(p: Pool<R>, op: Op<R>): Option<R> {
    if !op.Acquire? then None
    else if op.id in p.reserved then Some(p.reserved[op.id])
    else if p.idle == [] then None
    else Some(p.idle[0])
  }

  /** The pool object; every method runs under its mutex. */
  class RuntimePool<R(==)> {
    var idle: seq<R>
    var reserved: map<InvokeID, R>
    const maxSize: int

    ghost function State(): Pool<R>
      reads this
    {
      Pool(idle, reserved)
    }

    constructor (maxSize: int)
      ensures State() == Pool([], map[]) && this.maxSize == maxSize
    {
      idle := [];
      reserved := map[];
      this.maxSize := maxSize;
    }

    method Add(runtime: R) returns (err: Option<PoolError>)
      modifies this
      ensures State() == Next(old(State()), maxSize, Op.Add(runtime))
      ensures err == if HasRoom(old(State()), maxSize) then None else Some(TooManyIdleRuntimes)
    {
      if |idle| + |reserved| >= maxSize {
        return Some(TooManyIdleRuntimes);
      }
      idle := idle + [runtime];
      return None;
    }

    method DequeueIdle() returns (rt: Option<R>)
      modifies this`idle
      ensures rt == if old(idle) == [] then None else Some(old(idle)[0])
      ensures idle == if old(idle) == [] then [] else old(idle)[1..]
    {
      if |idle| == 0 {
        return None;
      }
      rt := Some(idle[0]);
      idle := idle[1..];
    }

    method Reserve(id: InvokeID) returns (err: Option<PoolError>)
      modifies this
      ensures State() == Next(old(State()), maxSize, Op.Reserve(id))
      ensures err == (if id in old(reserved) then Some(InvokeIdAlreadyExists)
                      else if old(idle) == [] then Some(NoReadyRuntime) else None)
    {
      if id in reserved {
        return Some(InvokeIdAlreadyExists);
      }
      var rt := DequeueIdle();
      if rt.None? {
        return Some(NoReadyRuntime);
      }
      reserved := reserved[id := rt.value];
      return None;
    }

    method Acquire(id: InvokeID) returns (rt: Option<R>, wasReserved: bool)
      modifies this
      ensures State() == Next(old(State()), maxSize, Op.Acquire(id))
      ensures rt == HandedOut(old(State()), Op.Acquire(id))
      ensures wasReserved <==> id in old(reserved)
    {
      if id in reserved {
        rt, wasReserved := Some(reserved[id]), true;
        reserved := reserved - {id};
        return;
      }
      rt := DequeueIdle();
      wasReserved := false;
    }

    method ExpireReservation(id: InvokeID) returns (expired: bool)
      modifies this
      ensures State() == Next(old(State()), maxSize, Op.Expire(id))
      ensures expired <==> id in old(reserved)
    {
      if id !in reserved {
        return false;
      }
      var rt := reserved[id];
      reserved := reserved - {id};
      idle := idle + [rt];
      return true;
    }
  }

  // ---------------------------------------------------------------- whole runs

  /** A run: the pool it leads to, the runtimes accepted by Add and those handed out, in order. */
  datatype Run<R> = Run(pool: Pool<R>, added: seq<R>, handed: seq<R>)

  function Play<R>(ops: seq<Op<R>>, maxSize: int): Run<R> {
    if ops == [] then Run(Pool([], map[]), [], [])
    else Step(Play(ops[..|ops| - 1], maxSize), maxSize, ops[|ops| - 1])
  }

  function Step<R>(run: Run<R>, maxSize: int, op: Op<R>): Run<R> {
    var out := HandedOut(run.pool, op);
    Run(Next(run.pool, maxSize, op),
        if op.Add? && HasRoom(run.pool, maxSize) then run.added + [op.runtime] else run.added,
        if out.Some? then run.handed + [out.value] else run.handed)
  }

  /** The values of a map, with multiplicity. */
  ghost function Values<K, V>(m: map<K, V>): multiset<V>
    decreases |m|
  {
    if |m| == 0 then multiset{}
    else
      var k :| k in m;
      multiset{m[k]} + Values(m - {k})
  }

  lemma OneFewer<K, V>(m: map<K, V>, k: K)
    requires k in m
    ensures |m - {k}| == |m| - 1
  {
    assert (m - {k}).Keys == m.Keys - {k};
    assert |m.Keys| == |m| && |(m - {k}).Keys| == |m - {k}|;
  }

  lemma {:induction false} ValuesWithout<K, V>(m: map<K, V>, k: K)
    requires k in m
    ensures Values(m) == multiset{m[k]} + Values(m - {k})
    decreases |m|
  {
    var h :| h in m && Values(m) == multiset{m[h]} + Values(m - {h});
    if h != k {
      OneFewer(m, h);
      OneFewer(m, k);
      var rest := m - {h, k};
      assert (m - {h}) - {k} == rest && (m - {k}) - {h} == rest;
      ValuesWithout(m - {h}, k);
      ValuesWithout(m - {k}, h);
      Exchange(multiset{m[h]}, multiset{m[k]}, Values(rest));
    }
  }

  lemma Exchange<V>(a: multiset<V>, b: multiset<V>, c: multiset<V>)
    ensures a + (b + c) == b + (a + c)
  {
  }

  lemma ValuesWith<K, V>(m: map<K, V>, k: K, v: V)
    requires k !in m
    ensures Values(m[k := v]) == Values(m) + multiset{v}
  {
    ValuesWithout(m[k := v], k);
    assert m[k := v] - {k} == m;
  }

  /** Everything in the pool, idle or reserved. */
  ghost function Held<R>(p: Pool<R>): multiset<R> {
    multiset(p.idle) + Values(p.reserved)
  }

  /** Taking the first idle runtime takes exactly one occurrence of it. */
  lemma DequeueCounts<R>(idle: seq<R>)
    requires idle != []
    ensures multiset(idle) == multiset{idle[0]} + multiset(idle[1..])
  {
    assert idle == [idle[0]] + idle[1..];
  }

  lemma ReserveKeepsHeld<R>(p: Pool<R>, maxSize: int, id: InvokeID)
    ensures Held(Next(p, maxSize, Reserve(id))) == Held(p)
  {
    if id !in p.reserved && p.idle != [] {
      DequeueCounts(p.idle);
      ValuesWith(p.reserved, id, p.idle[0]);
    }
  }

  lemma ExpireKeepsHeld<R>(p: Pool<R>, maxSize: int, id: InvokeID)
    ensures Held(Next(p, maxSize, Expire(id))) == Held(p)
  {
    if id in p.reserved { ValuesWithout(p.reserved, id); }
  }

  lemma AcquireTakesOne<R>(p: Pool<R>, maxSize: int, id: InvokeID)
    ensures var out := HandedOut(p, Acquire(id));
            Held(p) == Held(Next(p, maxSize, Acquire(id))) + (if out.Some? then multiset{out.value} else multiset{})
  {
    if id in p.reserved {
      ValuesWithout(p.reserved, id);
    } else if p.idle != [] {
      DequeueCounts(p.idle);
    }
  }

  lemma StepConserves<R>(run: Run<R>, maxSize: int, op: Op<R>)
    requires Held(run.pool) + multiset(run.handed) == multiset(run.added)
    ensures var r := Step(run, maxSize, op); Held(r.pool) + multiset(r.handed) == multiset(r.added)
  {
    match op
    case Add(_) =>
    case Reserve(id) => ReserveKeepsHeld(run.pool, maxSize, id);
    case Acquire(id) => AcquireTakesOne(run.pool, maxSize, id);
    case Expire(id) => ExpireKeepsHeld(run.pool, maxSize, id);
  }

  /**
   Conservation, for every sequence of operations: idle, reserved and handed-out runtimes are together a
   permutation of the runtimes accepted.
   */
  lemma {:induction false} Conservation<R>(ops: seq<Op<R>>, maxSize: int)
    ensures var r := Play(ops, maxSize); Held(r.pool) + multiset(r.handed) == multiset(r.added)
  {
    if ops != [] {
      Conservation(ops[..|ops| - 1], maxSize);
      StepConserves(Play(ops[..|ops| - 1], maxSize), maxSize, ops[|ops| - 1]);
    }
  }

  /** The pool never holds more than its size; a non-positive size admits nothing. */
  lemma {:induction false} Bounded<R>(ops: seq<Op<R>>, maxSize: int)
    ensures var r := Play(ops, maxSize); |r.pool.idle| + |r.pool.reserved| <= if maxSize < 0 then 0 else maxSize
  {
    if ops != [] {
      var prior := Play(ops[..|ops| - 1], maxSize).pool;
      Bounded(ops[..|ops| - 1], maxSize);
      var op := ops[|ops| - 1];
      if !op.Add? && op.id in prior.reserved {
        assert (prior.reserved - {op.id}).Keys == prior.reserved.Keys - {op.id};
      }
    }
  }

  /** No runtime is both idle and reserved, or reserved for two IDs, or idle twice. */
  ghost predicate HeldOnce<R>(p: Pool<R>) {
    && Distinct(p.idle)
    && (forall id | id in p.reserved :: p.reserved[id] !in p.idle)
    && (forall id, id' | id in p.reserved && id' in p.reserved && id != id' :: p.reserved[id] != p.reserved[id'])
  }

  lemma HeldOnceFromCounts<R>(p: Pool<R>)
    requires forall x :: Held(p)[x] <= 1
    ensures HeldOnce(p)
  {
    assert forall x :: multiset(p.idle)[x] <= Held(p)[x];
    CountsDistinct(p.idle);
    ReservedCounts(p.reserved);
    forall id | id in p.reserved
      ensures p.reserved[id] !in p.idle
    {
      assert Held(p)[p.reserved[id]] <= 1;
      assert p.reserved[id] in p.idle <==> p.reserved[id] in multiset(p.idle);
    }
    forall id, id' | id in p.reserved && id' in p.reserved && id != id'
      ensures p.reserved[id] != p.reserved[id']
    {
      ValuesWithout(p.reserved, id);
      ValuesWithout(p.reserved - {id}, id');
      assert Held(p)[p.reserved[id]] <= 1;
    }
  }

  lemma HandedOutIsNotHeld<R>(p: Pool<R>, handed: seq<R>, x: R)
    requires x in handed && Held(p)[x] + multiset(handed)[x] <= 1
    ensures x !in p.idle && x !in p.reserved.Values
  {
    assert x in multiset(handed);
    ReservedCounts(p.reserved);
    assert x in p.idle <==> x in multiset(p.idle);
  }

  /** With distinct runtimes, none is handed out twice, none is held twice, and none handed out is still held. */
  lemma NoRuntimeTwice<R>(ops: seq<Op<R>>, maxSize: int)
    requires Distinct(Play(ops, maxSize).added)
    ensures var r := Play(ops, maxSize);
            && Distinct(r.handed) && HeldOnce(r.pool)
            && (forall x | x in r.handed :: x !in r.pool.idle && x !in r.pool.reserved.Values)
  {
    var r := Play(ops, maxSize);
    Conservation(ops, maxSize);
    AllDistinct(r.pool, r.handed, r.added);
    HeldOnceFromCounts(r.pool);
    CountsDistinct(r.handed);
    forall x | x in r.handed
      ensures x !in r.pool.idle && x !in r.pool.reserved.Values
    {
      CountedOnce(Held(r.pool), multiset(r.handed), r.added, x);
      HandedOutIsNotHeld(r.pool, r.handed, x);
    }
  }

  lemma CountedOnce<R>(held: multiset<R>, handed: multiset<R>, added: seq<R>, x: R)
    requires held + handed == multiset(added) && Distinct(added)
    ensures held[x] + handed[x] <= 1
  {
    DistinctCounts(added);
    assert (held + handed)[x] == held[x] + handed[x];
  }

  lemma AllDistinct<R>(p: Pool<R>, handed: seq<R>, added: seq<R>)
    requires Held(p) + multiset(handed) == multiset(added) && Distinct(added)
    ensures forall x :: Held(p)[x] <= 1
    ensures forall x :: multiset(handed)[x] <= 1
  {
    forall x
      ensures Held(p)[x] <= 1 && multiset(handed)[x] <= 1
    {
      CountedOnce(Held(p), multiset(handed), added, x);
    }
  }

  lemma ReservedCounts<K, V>(m: map<K, V>)
    ensures forall k | k in m :: Values(m)[m[k]] >= 1
  {
    forall k | k in m
      ensures Values(m)[m[k]] >= 1
    {
      ValuesWithout(m, k);
    }
  }

  lemma CountsDistinct<R>(s: seq<R>)
    ensures (forall x :: multiset(s)[x] <= 1) ==> Distinct(s)
  {
    forall i, j | 0 <= i < j < |s| && s[i] == s[j]
      ensures multiset(s)[s[i]] >= 2
    {
      TwiceCounts(s, i, j);
    }
  }

  lemma {:induction false} DistinctCounts<R>(s: seq<R>)
    requires Distinct(s)
    ensures forall x :: multiset(s)[x] <= 1
  {
    if s != [] {
      DistinctCounts(s[1..]);
      assert s == [s[0]] + s[1..];
      assert s[0] !in s[1..];
      assert s[0] !in multiset(s[1..]);
    }
  }

  lemma TwiceCounts<R>(s: seq<R>, i: nat, j: nat)
    requires i < j < |s| && s[i] == s[j]
    ensures multiset(s)[s[i]] >= 2
  {
    assert s == s[..i] + [s[i]] + s[i + 1..j] + [s[j]] + s[j + 1..];
  }

  /** Without reservations the pool is first come, first served. */
  lemma {:induction false} FirstComeFirstServed<R>(ops: seq<Op<R>>, maxSize: int)
    requires forall k | 0 <= k < |ops| :: !ops[k].Reserve?
    ensures var r := Play(ops, maxSize); r.pool.reserved == map[] && r.handed + r.pool.idle == r.added
  {
    if ops != [] {
      var prior := Play(ops[..|ops| - 1], maxSize);
      FirstComeFirstServed(ops[..|ops| - 1], maxSize);
      if prior.pool.idle != [] {
        assert prior.pool.idle == [prior.pool.idle[0]] + prior.pool.idle[1..];
      }
    }
  }

  /** An invoke gets exactly the runtime reserved for it, whatever happened to other IDs in between. */
  lemma {:induction false} ReservationIsHonoured<R>(p: Pool<R>, maxSize: int, id: InvokeID, ops: seq<Op<R>>)
    requires id in p.reserved
    requires forall k | 0 <= k < |ops| :: ops[k] != Acquire(id) && ops[k] != Expire(id)
    ensures HandedOut(NextAll(p, maxSize, ops), Acquire(id)) == Some(p.reserved[id])
    decreases |ops|
  {
    if ops != [] {
      ReservationIsHonoured(Next(p, maxSize, ops[0]), maxSize, id, ops[1..]);
    }
  }

  function NextAll<R>(p: Pool<R>, maxSize: int, ops: seq<Op<R>>): Pool<R>
    decreases |ops|
  {
    if ops == [] then p else NextAll(Next(p, maxSize, ops[0]), maxSize, ops[1..])
  }
}
