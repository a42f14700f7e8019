/**
 The bounded cache of timed-out invoke IDs: a map from ID to a list element and a list in order of
 registration, most recent last.  The class refines operations on a plain sequence of IDs.
 */
module RecentCache {
  import opened Wrappers
  import opened Collections

  const TIMEOUT_CACHE_SIZE: nat := 1000

  // ---------------------------------------------------------------- the cache as a sequence

  function Without(s: seq<InvokeID>, id: InvokeID): seq<InvokeID> {
    if s == [] then [] else if s[0] == id then s[1..] else [s[0]] + Without(s[1..], id)
  }

  function RemoveAt<T>(s: seq<T>, k: nat): (r: seq<T>)
    requires k < |s|
    ensures |r| == |s| - 1
  {
    s[..k] + s[k + 1..]
  }

  function Registered(s: seq<InvokeID>, id: InvokeID): seq<InvokeID> {
    if id in s then Without(s, id) + [id]
    else if |s| == TIMEOUT_CACHE_SIZE then s[1..] + [id]
    else s + [id]
  }

  predicate Wellformed(s: seq<InvokeID>) {
    Distinct(s) && |s| <= TIMEOUT_CACHE_SIZE
  }

  lemma RemoveAtTail<T>(s: seq<T>, k: nat)
    requires 0 < k < |s|
    ensures RemoveAt(s, k) == [s[0]] + RemoveAt(s[1..], k - 1)
  {
    assert s[..k] == [s[0]] + s[1..][..k - 1];
    assert s[k + 1..] == s[1..][k..];
  }

  lemma {:induction false} WithoutAt(s: seq<InvokeID>, k: nat)
    requires Distinct(s) && k < |s|
    ensures Without(s, s[k]) == RemoveAt(s, k)
  {
    if k > 0 {
      TailDistinct(s);
      WithoutAt(s[1..], k - 1);
      RemoveAtTail(s, k);
    }
  }

  lemma {:induction false} WithoutAbsent(s: seq<InvokeID>, id: InvokeID)
    requires id !in s
    ensures Without(s, id) == s
  {
    if s != [] { WithoutAbsent(s[1..], id); }
  }

  lemma IndexOf<T>(s: seq<T>, x: T) returns (k: nat)
    requires x in s
    ensures k < |s| && s[k] == x
  {
    k :| 0 <= k < |s| && s[k] == x;
  }

  // ---------------------------------------------------------------- the cache as an object

  class Element {
    const value: InvokeID

    constructor (value: InvokeID)
      ensures this.value == value
    {
      this.value := value;
    }
  }

  /** The part of Go's container/list that the cache uses; `elems` runs from front to back. */
  class List {
    var elems: seq<Element>

    constructor ()
      ensures elems == []
    {
      elems := [];
    }

    method PushBack(value: InvokeID) returns (e: Element)
      modifies this
      ensures fresh(e) && e.value == value && elems == old(elems) + [e]
    {
      e := new Element(value);
      elems := elems + [e];
    }

    method Remove(e: Element, ghost k: nat)
      requires k < |elems| && elems[k] == e && Distinct(elems)
      modifies this
      ensures elems == RemoveAt(old(elems), k)
    {
      var i := 0;
      while elems[i] != e
        invariant i <= k < |elems| && elems == old(elems) && elems[k] == e
        decreases k - i
      {
        i := i + 1;
      }
      elems := RemoveAt(elems, i);
    }

    method MoveToBack(e: Element, ghost k: nat)
      requires k < |elems| && elems[k] == e && Distinct(elems)
      modifies this
      ensures elems == RemoveAt(old(elems), k) + [e]
    {
      Remove(e, k);
      elems := elems + [e];
    }
  }

  /** The IDs in a list, front to back. */
  ghost function Ids(elems: seq<Element>): (ids: seq<InvokeID>)
    ensures |ids| == |elems| && forall i | 0 <= i < |elems| :: ids[i] == elems[i].value
  {
    seq(|elems|, i requires 0 <= i < |elems| => elems[i].value)
  }

  /** The map and the list index the same IDs, once each. */
  ghost predicate Indexed(entries: map<InvokeID, Element>, elems: seq<Element>) {
    && (forall i | 0 <= i < |elems| :: elems[i].value in entries && entries[elems[i].value] == elems[i])
    && (forall id | id in entries :: entries[id] in elems && entries[id].value == id)
    && Distinct(elems)
  }

  lemma IndexedIsDistinct(entries: map<InvokeID, Element>, elems: seq<Element>)
    requires Indexed(entries, elems)
    ensures Distinct(Ids(elems)) && |entries| == |elems|
    ensures forall id :: id in entries <==> id in Ids(elems)
  {
    forall id | id in entries
      ensures id in Ids(elems)
    {
      var k := IndexOf(elems, entries[id]);
      assert Ids(elems)[k] == id;
    }
    assert entries.Keys == set id | id in Ids(elems);
    DistinctCardinality(Ids(elems));
  }

  lemma RemoveKeepsIds(entries: map<InvokeID, Element>, elems: seq<Element>, k: nat)
    requires Indexed(entries, elems) && k < |elems|
    ensures Ids(RemoveAt(elems, k)) == Without(Ids(elems), elems[k].value)
  {
    IndexedIsDistinct(entries, elems);
    WithoutAt(Ids(elems), k);
    RemoveAtCommutes(elems, k);
  }

  lemma RemoveAtCommutes(elems: seq<Element>, k: nat)
    requires k < |elems|
    ensures Ids(RemoveAt(elems, k)) == RemoveAt(Ids(elems), k)
  {
  }

  lemma RemoveKeepsIndexed(entries: map<InvokeID, Element>, elems: seq<Element>, k: nat)
    requires Indexed(entries, elems) && k < |elems|
    ensures Indexed(entries - {elems[k].value}, RemoveAt(elems, k))
  {
    var rest := RemoveAt(elems, k);
    forall i | 0 <= i < |rest|
      ensures rest[i].value in entries && rest[i].value != elems[k].value && entries[rest[i].value] == rest[i]
    {
      assert rest[i] != elems[k];
    }
    forall id | id in entries && id != elems[k].value
      ensures entries[id] in rest
    {
      var q := IndexOf(elems, entries[id]);
      assert rest[if q < k then q else q - 1] == entries[id];
    }
  }

  lemma AppendKeepsIndexed(entries: map<InvokeID, Element>, elems: seq<Element>, e: Element)
    requires Indexed(entries, elems) && e.value !in entries
    ensures Indexed(entries[e.value := e], elems + [e])
    ensures Ids(elems + [e]) == Ids(elems) + [e.value]
  {
    assert e !in elems;
    forall id | id in entries
      ensures entries[id] in elems + [e]
    {
      var q := IndexOf(elems, entries[id]);
      assert (elems + [e])[q] == entries[id];
    }
    assert (elems + [e])[|elems|] == e;
  }

  lemma MoveKeepsIndexed(entries: map<InvokeID, Element>, elems: seq<Element>, k: nat)
    requires Indexed(entries, elems) && k < |elems|
    ensures var moved := RemoveAt(elems, k) + [elems[k]];
            Indexed(entries, moved) && Ids(moved) == Without(Ids(elems), elems[k].value) + [elems[k].value]
  {
    var id := elems[k].value;
    RemoveKeepsIndexed(entries, elems, k);
    RemoveKeepsIds(entries, elems, k);
    AppendKeepsIndexed(entries - {id}, RemoveAt(elems, k), elems[k]);
    assert (entries - {id})[id := elems[k]] == entries;
  }

  class RecentCache {
    var entries: map<InvokeID, Element>
    const order: List

    ghost function Contents(): seq<InvokeID>
      reads order
    {
      Ids(order.elems)
    }

    ghost predicate Valid()
      reads this, order
    {
      Indexed(entries, order.elems) && |order.elems| <= TIMEOUT_CACHE_SIZE
    }

    constructor ()
      ensures Valid() && fresh(order) && Contents() == []
    {
      entries := map[];
      order := new List();
    }

    method TryDelete(id: InvokeID) returns (deleted: bool)
      requires Valid()
      modifies this, order
      ensures Valid()
      ensures deleted <==> id in old(Contents())
      ensures Contents() == Without(old(Contents()), id)
    {
      IndexedIsDistinct(entries, order.elems);
      if id !in entries {
        WithoutAbsent(Contents(), id);
        return false;
      }
      ghost var k := IndexOf(order.elems, entries[id]);
      RemoveKeepsIndexed(entries, order.elems, k);
      RemoveKeepsIds(entries, order.elems, k);
      order.Remove(entries[id], k);
      entries := entries - {id};
      return true;
    }

    method Consume(id: InvokeID) returns (consumed: bool)
      requires Valid()
      modifies this, order
      ensures Valid()
      ensures consumed <==> id in old(Contents())
      ensures Contents() == Without(old(Contents()), id)
    {
      consumed := TryDelete(id);
    }

    method Register(id: InvokeID)
      requires Valid()
      modifies this, order
      ensures Valid()
      ensures Contents() == Registered(old(Contents()), id)
    {
      IndexedIsDistinct(entries, order.elems);
      if id in entries {
        ghost var k := IndexOf(order.elems, entries[id]);
        MoveKeepsIndexed(entries, order.elems, k);
        order.MoveToBack(entries[id], k);
        return;
      }
      if |entries| == TIMEOUT_CACHE_SIZE {
        EvictOldest();
      }
      Append(id);
    }

    /** The two halves of registering a new ID. */
    method EvictOldest()
      requires Valid() && |order.elems| > 0
      modifies this, order
      ensures Valid() && Contents() == old(Contents())[1..]
      ensures forall id | id in entries :: id in old(entries)
    {
      var oldest := order.elems[0].value;
      IndexedIsDistinct(entries, order.elems);
      WithoutAt(Contents(), 0);
      var _ := TryDelete(oldest);
      IndexedIsDistinct(entries, order.elems);
    }

    method Append(id: InvokeID)
      requires Valid() && id !in entries && |order.elems| < TIMEOUT_CACHE_SIZE
      modifies this, order
      ensures Valid() && Contents() == old(Contents()) + [id]
    {
      ghost var before := order.elems;
      var elem := order.PushBack(id);
      AppendKeepsIndexed(entries, before, elem);
      entries := entries[id := elem];
    }
  }

  // ---------------------------------------------------------------- whole runs

  datatype Op = Register(id: InvokeID) | Consume(id: InvokeID)

  function Next(s: seq<InvokeID>, op: Op): seq<InvokeID> {
    match op
    case Register(id) => Registered(s, id)
    case Consume(id) => Without(s, id)
  }

  function NextAll(s: seq<InvokeID>, ops: seq<Op>): seq<InvokeID>
    decreases |ops|
  {
    if ops == [] then s else NextAll(Next(s, ops[0]), ops[1..])
  }

  lemma StepKeepsWellformed(s: seq<InvokeID>, op: Op)
    requires Wellformed(s)
    ensures Wellformed(Next(s, op))
  {
    if op.id in s {
      var k := IndexOf(s, op.id);
      WithoutAt(s, k);
    } else {
      WithoutAbsent(s, op.id);
    }
  }

  /** How many IDs have been registered more recently than `id`. */
  ghost predicate Within(s: seq<InvokeID>, id: InvokeID, k: nat) {
    exists p | 0 <= p < |s| :: s[p] == id && |s| - 1 - p <= k
  }

  function Registrations(ops: seq<Op>): nat {
    if ops == [] then 0 else (if ops[0].Register? then 1 else 0) + Registrations(ops[1..])
  }

  lemma WithinFrom(t: seq<InvokeID>, p: nat, id: InvokeID, k: nat)
    requires p < |t| && t[p] == id && |t| - 1 - p <= k
    ensures Within(t, id, k)
  {
  }

  lemma RemovalKeepsOthersWithin(s: seq<InvokeID>, p: nat, other: InvokeID, k: nat)
    requires Distinct(s) && p < |s| && |s| - 1 - p <= k && s[p] != other
    ensures |Without(s, other)| <= |s| && Within(Without(s, other), s[p], k)
  {
    if other in s {
      var q := IndexOf(s, other);
      WithoutAt(s, q);
      WithinFrom(RemoveAt(s, q), if p < q then p else p - 1, s[p], k);
    } else {
      WithoutAbsent(s, other);
    }
  }

  lemma StepPushesBackByOne(s: seq<InvokeID>, op: Op, id: InvokeID, k: nat)
    requires Wellformed(s) && Within(s, id, k) && op != Consume(id)
    requires op.Register? ==> k < TIMEOUT_CACHE_SIZE - 1
    ensures Within(Next(s, op), id, k + if op.Register? then 1 else 0)
  {
    var p :| 0 <= p < |s| && s[p] == id && |s| - 1 - p <= k;
    var t := Next(s, op);
    if op == Register(id) {
      WithinFrom(t, |t| - 1, id, k + 1);
    } else if op.Consume? || op.id in s {
      RemovalKeepsOthersWithin(s, p, op.id, k);
      var rest := Without(s, op.id);
      var q :| 0 <= q < |rest| && rest[q] == id && |rest| - 1 - q <= k;
      WithinFrom(t, q, id, k + if op.Register? then 1 else 0);
    } else {
      WithinFrom(t, if |s| == TIMEOUT_CACHE_SIZE then p - 1 else p, id, k + 1);
    }
  }

  lemma {:induction false} RunPushesBackByAtMost(s: seq<InvokeID>, ops: seq<Op>, id: InvokeID, k: nat)
    requires Wellformed(s) && Within(s, id, k)
    requires forall j | 0 <= j < |ops| :: ops[j] != Consume(id)
    requires k + Registrations(ops) < TIMEOUT_CACHE_SIZE
    ensures Wellformed(NextAll(s, ops)) && Within(NextAll(s, ops), id, k + Registrations(ops))
    decreases |ops|
  {
    if ops != [] {
      StepKeepsWellformed(s, ops[0]);
      StepPushesBackByOne(s, ops[0], id, k);
      RunPushesBackByAtMost(Next(s, ops[0]), ops[1..], id, k + if ops[0].Register? then 1 else 0);
    }
  }

  /**
   An ID that was registered, followed by any operations that do not consume it and register fewer than
   1000 times, is still there to be consumed.
   */
  lemma RecentlyRegisteredIsThere(s: seq<InvokeID>, id: InvokeID, ops: seq<Op>)
    requires Wellformed(s)
    requires forall j | 0 <= j < |ops| :: ops[j] != Consume(id)
    requires Registrations(ops) < TIMEOUT_CACHE_SIZE
    ensures id in NextAll(Registered(s, id), ops)
  {
    StepKeepsWellformed(s, Register(id));
    var t := Registered(s, id);
    assert t[|t| - 1] == id;
    RunPushesBackByAtMost(t, ops, id, 0);
  }

  function RegisterEach(ids: seq<InvokeID>): seq<Op> {
    if ids == [] then [] else RegisterEach(ids[..|ids| - 1]) + [Register(ids[|ids| - 1])]
  }

  lemma {:induction false} NextAllSnoc(s: seq<InvokeID>, ops: seq<Op>, op: Op)
    ensures NextAll(s, ops + [op]) == Next(NextAll(s, ops), op)
    decreases |ops|
  {
    if ops != [] {
      assert (ops + [op])[1..] == ops[1..] + [op];
      NextAllSnoc(Next(s, ops[0]), ops[1..], op);
    }
  }

  predicate EndsWith(t: seq<InvokeID>, ids: seq<InvokeID>) {
    |ids| <= |t| && t[|t| - |ids|..] == ids
  }

  /** Removing something that precedes a tail leaves the tail. */
  lemma RemovalKeepsTail(t: seq<InvokeID>, ids: seq<InvokeID>, q: nat)
    requires EndsWith(t, ids) && q < |t| && t[q] !in ids
    ensures EndsWith(RemoveAt(t, q), ids)
  {
    var n := |t| - |ids|;
    TailElements(t, n, q);
    assert RemoveAt(t, q)[n - 1..] == t[n..];
  }

  lemma TailElements(t: seq<InvokeID>, n: nat, q: nat)
    requires n <= |t| && q < |t| && t[q] !in t[n..]
    ensures q < n
  {
    assert forall i | n <= i < |t| :: t[i] in t[n..];
  }

  lemma AppendExtendsTail(t: seq<InvokeID>, ids: seq<InvokeID>, id: InvokeID)
    requires EndsWith(t, ids)
    ensures EndsWith(t + [id], ids + [id])
  {
    var n := |t| - |ids|;
    assert (t + [id])[n..] == t[n..] + [id];
  }

  lemma RegisterExtendsTail(t: seq<InvokeID>, ids: seq<InvokeID>, id: InvokeID)
    requires Wellformed(t) && EndsWith(t, ids) && id !in ids && |ids| < TIMEOUT_CACHE_SIZE
    ensures EndsWith(Registered(t, id), ids + [id])
  {
    if id in t {
      var q := IndexOf(t, id);
      WithoutAt(t, q);
      RemovalKeepsTail(t, ids, q);
      AppendExtendsTail(RemoveAt(t, q), ids, id);
    } else if |t| == TIMEOUT_CACHE_SIZE {
      assert t[1..][|t| - |ids| - 1..] == t[|t| - |ids|..];
      AppendExtendsTail(t[1..], ids, id);
    } else {
      AppendExtendsTail(t, ids, id);
    }
  }

  /** Distinct registrations end up, in order, at the back. */
  lemma {:induction false} LastRegisteredAreLast(s: seq<InvokeID>, ids: seq<InvokeID>)
    requires Wellformed(s) && Distinct(ids) && |ids| <= TIMEOUT_CACHE_SIZE
    ensures Wellformed(NextAll(s, RegisterEach(ids))) && EndsWith(NextAll(s, RegisterEach(ids)), ids)
  {
    if ids != [] {
      var n := |ids| - 1;
      var t := NextAll(s, RegisterEach(ids[..n]));
      LastRegisteredAreLast(s, ids[..n]);
      NextAllSnoc(s, RegisterEach(ids[..n]), Register(ids[n]));
      StepKeepsWellformed(t, Register(ids[n]));
      RegisterExtendsTail(t, ids[..n], ids[n]);
      assert ids[..n] + [ids[n]] == ids;
    }
  }

  /** The bound is tight: a thousand other IDs registered afterwards evict the ID, whatever the cache held. */
  lemma ThousandOthersEvict(s: seq<InvokeID>, id: InvokeID, ids: seq<InvokeID>)
    requires Wellformed(s) && Distinct(ids) && |ids| == TIMEOUT_CACHE_SIZE && id !in ids
    ensures id !in NextAll(Registered(s, id), RegisterEach(ids))
  {
    StepKeepsWellformed(s, Register(id));
    LastRegisteredAreLast(Registered(s, id), ids);
  }

  // ---------------------------------------------------------------- where every registration goes

  /** The cache after some operations, with the IDs that entered it, were consumed and were evicted, in order. */
  datatype Ledger = Ledger(cache: seq<InvokeID>, entered: seq<InvokeID>, consumed: seq<InvokeID>,
                           evicted: seq<InvokeID>)

  function Post(l: Ledger, op: Op): Ledger {
    var cache := Next(l.cache, op);
    match op
    case Register(id) =>
      if id in l.cache then l.(cache := cache)
      else Ledger(cache, l.entered + [id], l.consumed,
                  if |l.cache| == TIMEOUT_CACHE_SIZE then l.evicted + [l.cache[0]] else l.evicted)
    case Consume(id) =>
      if id in l.cache then l.(cache := cache, consumed := l.consumed + [id]) else l.(cache := cache)
  }

  function Account(ops: seq<Op>): Ledger {
    if ops == [] then Ledger([], [], [], []) else Post(Account(ops[..|ops| - 1]), ops[|ops| - 1])
  }

  lemma WithoutCounts(s: seq<InvokeID>, id: InvokeID)
    requires Distinct(s) && id in s
    ensures multiset(s) == multiset(Without(s, id)) + multiset{id}
  {
    var k := IndexOf(s, id);
    WithoutAt(s, k);
    CutAt(s, k);
    var before, after := s[..k], s[k + 1..];
    assert Without(s, id) == before + after;
    assert multiset(before + [id] + after) == multiset(before) + multiset{id} + multiset(after);
  }

  ghost predicate Balanced(l: Ledger) {
    multiset(l.cache) + multiset(l.consumed) + multiset(l.evicted) == multiset(l.entered)
  }

  lemma PostKeepsBalance(l: Ledger, op: Op)
    requires Wellformed(l.cache) && Balanced(l)
    ensures Balanced(Post(l, op))
  {
    if op.id in l.cache {
      WithoutCounts(l.cache, op.id);
    } else if op.Consume? {
      WithoutAbsent(l.cache, op.id);
    } else if |l.cache| == TIMEOUT_CACHE_SIZE {
      assert l.cache == [l.cache[0]] + l.cache[1..];
    }
  }

  /** Every ID that entered the cache is still there, was consumed once, or was evicted once. */
  lemma {:induction false} LedgerBalances(ops: seq<Op>)
    ensures Wellformed(Account(ops).cache) && Balanced(Account(ops))
  {
    if ops != [] {
      LedgerBalances(ops[..|ops| - 1]);
      StepKeepsWellformed(Account(ops[..|ops| - 1]).cache, ops[|ops| - 1]);
      PostKeepsBalance(Account(ops[..|ops| - 1]), ops[|ops| - 1]);
    }
  }

  function RegistrationsOf(ops: seq<Op>, id: InvokeID): nat {
    if ops == [] then 0 else RegistrationsOf(ops[..|ops| - 1], id) + if ops[|ops| - 1] == Register(id) then 1 else 0
  }

  lemma {:induction false} EnteredOnce(ops: seq<Op>, id: InvokeID)
    ensures RegistrationsOf(ops, id) <= 1 ==> multiset(Account(ops).entered)[id] == RegistrationsOf(ops, id)
  {
    if ops != [] {
      var prior := ops[..|ops| - 1];
      EnteredOnce(prior, id);
      LedgerBalances(prior);
      assert id in Account(prior).cache <==> id in multiset(Account(prior).cache);
    }
  }

  /**
   An ID registered exactly once and not evicted is either still waiting, or has been consumed by exactly
   one late answer.
   */
  lemma ExactlyOneLateAnswer(ops: seq<Op>, id: InvokeID)
    requires RegistrationsOf(ops, id) == 1 && id !in Account(ops).evicted
    ensures multiset(Account(ops).consumed)[id] == if id in Account(ops).cache then 0 else 1
  {
    var l := Account(ops);
    EnteredOnce(ops, id);
    LedgerBalances(ops);
    assert multiset(l.cache)[id] + multiset(l.consumed)[id] + multiset(l.evicted)[id] == 1;
    assert id in l.cache <==> id in multiset(l.cache);
    assert id in l.evicted <==> id in multiset(l.evicted);
  }

  lemma RegistrationAppended(ops: seq<Op>, op: Op, id: InvokeID)
    ensures RegistrationsOf(ops + [op], id) == RegistrationsOf(ops, id) + if op == Register(id) then 1
            else 0
  {
    assert (ops + [op])[..|ops|] == ops;
  }

  lemma {:induction false} RegistrationsJoin(ops: seq<Op>, more: seq<Op>, id: InvokeID)
    ensures RegistrationsOf(ops + more, id) == RegistrationsOf(ops, id) + RegistrationsOf(more, id)
  {
    if more == [] {
      assert ops + more == ops;
    } else {
      var last := more[|more| - 1];
      assert ops + more == (ops + more[..|more| - 1]) + [last];
      RegistrationAppended(ops + more[..|more| - 1], last, id);
      RegistrationsJoin(ops, more[..|more| - 1], id);
    }
  }

  lemma ConsumptionIsNoRegistration(ops: seq<Op>, id: InvokeID)
    requires |ops| <= 1 && forall op | op in ops :: op.Consume?
    ensures RegistrationsOf(ops, id) == 0
  {
    if ops != [] { assert ops[0] in ops && ops[..0] == []; }
  }
}
