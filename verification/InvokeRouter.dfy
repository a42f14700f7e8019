/**
 The invoke router: a concurrent map from in-flight invoke IDs to runtimes, the runtime pool and the
 timeout cache.  Invokes and late answers are threads whose accesses to the three shared structures
 interleave arbitrarily; runtimes are numbered in order of their `/next` call.
 */
module InvokeRouter {
  import opened Wrappers
  import opened Collections
  import Pool = RuntimePool
  import Cache = RecentCache

  type Runtime = nat

  datatype Outcome = Duplicate | NoRuntime | Ran(timedOut: bool)

  /** An invoke; `slot` is the place of its runtime in the order in which runtimes were handed out. */
  datatype InvokePc =
    | SetIfAbsent                                               // 110
    | Acquire                                                   // 117
    | Bind(runtime: Runtime, slot: nat)                         // 125
    | Run(runtime: Runtime, slot: nat, registered: bool)        // 127
    | Remove(bound: Option<Runtime>, outcome: Outcome)          // 115
    | Returned(outcome: Outcome)

  datatype Invoke = Invoke(id: InvokeID, pc: InvokePc)

  datatype AnswerResult = Delivered(runtime: Runtime) | Placeholder | Late | Unknown

  /** A `/response` or `/error` call; both look up and consume in the same way. */
  datatype AnswerPc =
    | Lookup                                                    // 146, 160
    | Consume                                                   // 148, 162
    | Answered(result: AnswerResult)

  datatype Answer = Answer(id: InvokeID, pc: AnswerPc)

  datatype State = State(
    maxSize: int,
    running: map<InvokeID, Option<Runtime>>,
    pool: Pool.Run<Runtime>,
    cache: seq<InvokeID>,
    nextRuntime: nat,
    invokes: seq<Invoke>,
    answers: seq<Answer>,
    // history
    live: map<InvokeID, nat>,     // which invoke put the entry of an ID into the map
    takers: seq<nat>,             // which invoke took the k-th runtime handed out
    timedOut: set<InvokeID>,      // IDs ever put into the timeout cache
    lost: set<InvokeID>)          // IDs evicted or consumed since they were last put there

  function Init(maxSize: int): State {
    State(maxSize, map[], Pool.Run(Pool.Pool([], map[]), [], []), [], 0, [], [], map[], [], {}, {})
  }

  datatype Event =
    | ArriveInvoke(id: InvokeID)
    | StepInvoke(i: nat)
    | RegisterTimeout(i: nat)
    | RunReturns(i: nat)
    | RuntimeNext
    | Reserve(id: InvokeID)
    | ExpireReservation(id: InvokeID)
    | ArriveAnswer(id: InvokeID)
    | StepAnswer(j: nat)

  predicate Enabled(s: State, e: Event) {
    match e
    case StepInvoke(i) => i < |s.invokes| && !s.invokes[i].pc.Run? && !s.invokes[i].pc.Returned?
    case RegisterTimeout(i) => i < |s.invokes| && s.invokes[i].pc.Run? && !s.invokes[i].pc.registered
    case RunReturns(i) => i < |s.invokes| && s.invokes[i].pc.Run?
    case StepAnswer(j) => j < |s.answers| && !s.answers[j].pc.Answered?
    case _ => true
  }

  function Goto(s: State, i: nat, pc: InvokePc): State
    requires i < |s.invokes|
  {
    s.(invokes := s.invokes[i := s.invokes[i].(pc := pc)])
  }

  function PoolStep(s: State, op: Pool.Op<Runtime>): State {
    s.(pool := Pool.Step(s.pool, s.maxSize, op))
  }

  function AdvanceInvoke(s: State, i: nat): State
    requires Enabled(s, StepInvoke(i))
  {
    var id := s.invokes[i].id;
    match s.invokes[i].pc
    case SetIfAbsent =>
      if id in s.running then Goto(s, i, Returned(Duplicate))
      else Goto(s, i, Acquire).(running := s.running[id := None], live := s.live[id := i])
    case Acquire =>
      var out := Pool.HandedOut(s.pool.pool, Pool.Acquire(id));
      var t := PoolStep(s, Pool.Acquire(id));
      if out.None? then Goto(t, i, Remove(None, NoRuntime))
      else Goto(t, i, Bind(out.value, |s.pool.handed|)).(takers := s.takers + [i])
    case Bind(rt, slot) => Goto(s, i, Run(rt, slot, false)).(running := s.running[id := Some(rt)])
    case Remove(_, outcome) => Goto(s, i, Returned(outcome)).(running := s.running - {id}, live := s.live - {id})
  }

  function RegisterID(s: State, id: InvokeID): State {
    var evicted := if id !in s.cache && |s.cache| == Cache.TIMEOUT_CACHE_SIZE then {s.cache[0]} else {};
    s.(cache := Cache.Registered(s.cache, id), timedOut := s.timedOut + {id}, lost := s.lost + evicted - {id})
  }

  function AdvanceAnswer(s: State, j: nat): State
    requires Enabled(s, StepAnswer(j))
  {
    var a := s.answers[j];
    match a.pc
    case Lookup =>
      var next :=
        if a.id !in s.running then Consume
        else if s.running[a.id].None? then Answered(Placeholder)
        else Answered(Delivered(s.running[a.id].value));
      s.(answers := s.answers[j := a.(pc := next)])
    case Consume =>
      if a.id in s.cache
      then s.(answers := s.answers[j := a.(pc := Answered(Late))],
              cache := Cache.Without(s.cache, a.id), lost := s.lost + {a.id})
      else s.(answers := s.answers[j := a.(pc := Answered(Unknown))])
  }

  function Apply(s: State, e: Event): State
    requires Enabled(s, e)
  {
    match e
    case ArriveInvoke(id) => s.(invokes := s.invokes + [Invoke(id, SetIfAbsent)])
    case StepInvoke(i) => AdvanceInvoke(s, i)
    case RegisterTimeout(i) =>
      var pc := s.invokes[i].pc;
      Goto(RegisterID(s, s.invokes[i].id), i, pc.(registered := true))
    case RunReturns(i) =>
      var pc := s.invokes[i].pc;
      Goto(s, i, Remove(Some(pc.runtime), Ran(pc.registered)))
    case RuntimeNext => PoolStep(s, Pool.Add(s.nextRuntime)).(nextRuntime := s.nextRuntime + 1)
    case Reserve(id) => PoolStep(s, Pool.Reserve(id))
    case ExpireReservation(id) => PoolStep(s, Pool.Expire(id))
    case ArriveAnswer(id) => s.(answers := s.answers + [Answer(id, Lookup)])
    case StepAnswer(j) => AdvanceAnswer(s, j)
  }

  predicate IsRun(s: State, es: seq<Event>)
    decreases |es|
  {
    es == [] || (Enabled(s, es[0]) && IsRun(Apply(s, es[0]), es[1..]))
  }

  function After(s: State, es: seq<Event>): State
    requires IsRun(s, es)
    decreases |es|
  {
    if es == [] then s else After(Apply(s, es[0]), es[1..])
  }

  // ---------------------------------------------------------------- the routing map

  predicate InFlight(pc: InvokePc) {
    pc.Acquire? || pc.Bind? || pc.Run? || pc.Remove?
  }

  /** The entry an in-flight invoke has in the routing map. */
  function Entry(pc: InvokePc): Option<Runtime>
    requires InFlight(pc)
  {
    match pc
    case Acquire => None
    case Bind(_, _) => None
    case Run(rt, _, _) => Some(rt)
    case Remove(bound, _) => bound
  }

  /** The map holds exactly the in-flight invokes, one per ID. */
  predicate Routed(running: map<InvokeID, Option<Runtime>>, live: map<InvokeID, nat>, invokes: seq<Invoke>) {
    && live.Keys == running.Keys
    && (forall id | id in live ::
          && live[id] < |invokes| && invokes[live[id]].id == id
          && InFlight(invokes[live[id]].pc) && running[id] == Entry(invokes[live[id]].pc))
    && (forall i | 0 <= i < |invokes| && InFlight(invokes[i].pc) :: invokes[i].id in live && live[invokes[i].id] == i)
  }

  lemma EntryAppears(running: map<InvokeID, Option<Runtime>>, live: map<InvokeID, nat>, invokes: seq<Invoke>, i: nat)
    requires Routed(running, live, invokes) && i < |invokes| && invokes[i].id !in running && !InFlight(invokes[i].pc)
    ensures Routed(running[invokes[i].id := None], live[invokes[i].id := i], invokes[i := invokes[i].(pc := Acquire)])
  {
  }

  lemma EntryChanges(running: map<InvokeID, Option<Runtime>>, live: map<InvokeID, nat>, invokes: seq<Invoke>, i: nat,
                     pc: InvokePc)
    requires Routed(running, live, invokes) && i < |invokes| && InFlight(invokes[i].pc) && InFlight(pc)
    ensures Routed(running[invokes[i].id := Entry(pc)], live, invokes[i := invokes[i].(pc := pc)])
    ensures Entry(pc) == Entry(invokes[i].pc) ==> running[invokes[i].id := Entry(pc)] == running
  {
  }

  lemma EntryDisappears(running: map<InvokeID, Option<Runtime>>, live: map<InvokeID, nat>, invokes: seq<Invoke>, i: nat,
                        pc: InvokePc)
    requires Routed(running, live, invokes) && i < |invokes| && InFlight(invokes[i].pc) && !InFlight(pc)
    ensures Routed(running - {invokes[i].id}, live - {invokes[i].id}, invokes[i := invokes[i].(pc := pc)])
  {
  }

  predicate RoutingOk(s: State) { Routed(s.running, s.live, s.invokes) }

  lemma InvokeKeepsRouting(s: State, i: nat)
    requires RoutingOk(s) && Enabled(s, StepInvoke(i))
    ensures RoutingOk(Apply(s, StepInvoke(i)))
  {
    var t := Apply(s, StepInvoke(i));
    var pc := s.invokes[i].pc;
    if pc.SetIfAbsent? && s.invokes[i].id !in s.running {
      EntryAppears(s.running, s.live, s.invokes, i);
    } else if pc.Acquire? || pc.Bind? {
      EntryChanges(s.running, s.live, s.invokes, i, t.invokes[i].pc);
    } else if pc.Remove? {
      EntryDisappears(s.running, s.live, s.invokes, i, t.invokes[i].pc);
    }
  }

  lemma StepKeepsRouting(s: State, e: Event)
    requires RoutingOk(s) && Enabled(s, e)
    ensures RoutingOk(Apply(s, e))
  {
    match e
    case StepInvoke(i) => InvokeKeepsRouting(s, i);
    case RegisterTimeout(i) => EntryChanges(s.running, s.live, s.invokes, i, Apply(s, e).invokes[i].pc);
    case RunReturns(i) => EntryChanges(s.running, s.live, s.invokes, i, Apply(s, e).invokes[i].pc);
    case _ =>
  }

  // ---------------------------------------------------------------- runtimes

  predicate Holding(pc: InvokePc) { pc.Bind? || pc.Run? }

  /** Every runtime in the pool or handed out came from its own `/next`. */
  ghost predicate PoolOk(run: Pool.Run<Runtime>, bound: nat) {
    && Pool.Held(run.pool) + multiset(run.handed) == multiset(run.added)
    && Distinct(run.added) && (forall k | 0 <= k < |run.added| :: run.added[k] < bound)
  }

  /** Each invoke that holds a runtime took it itself. */
  predicate TakersOk(handed: seq<Runtime>, takers: seq<nat>, invokes: seq<Invoke>) {
    && |takers| == |handed|
    && (forall i | 0 <= i < |invokes| && Holding(invokes[i].pc) ::
          invokes[i].pc.slot < |takers| && takers[invokes[i].pc.slot] == i
          && handed[invokes[i].pc.slot] == invokes[i].pc.runtime)
  }

  ghost predicate RuntimesOk(s: State) {
    PoolOk(s.pool, s.nextRuntime) && TakersOk(s.pool.handed, s.takers, s.invokes)
  }

  lemma PoolStepConserves(run: Pool.Run<Runtime>, maxSize: int, op: Pool.Op<Runtime>, bound: nat)
    requires PoolOk(run, bound) && (op.Add? ==> op.runtime == bound)
    ensures PoolOk(Pool.Step(run, maxSize, op), if op.Add? then bound + 1 else bound)
  {
    Pool.StepConserves(run, maxSize, op);
  }

  /** What an event does to the pool. */
  function OnPool(s: State, e: Event): Option<Pool.Op<Runtime>>
    requires Enabled(s, e)
  {
    match e
    case RuntimeNext => Some(Pool.Add(s.nextRuntime))
    case Reserve(id) => Some(Pool.Reserve(id))
    case ExpireReservation(id) => Some(Pool.Expire(id))
    case StepInvoke(i) => if s.invokes[i].pc.Acquire? then Some(Pool.Acquire(s.invokes[i].id)) else None
    case _ => None
  }

  lemma PoolMovesBy(s: State, e: Event)
    requires Enabled(s, e)
    ensures var t := Apply(s, e);
            && t.pool == (if OnPool(s, e).Some? then Pool.Step(s.pool, s.maxSize, OnPool(s, e).value) else s.pool)
            && t.nextRuntime == (if e.RuntimeNext? then s.nextRuntime + 1 else s.nextRuntime)
  {
    match e
    case StepInvoke(i) =>
    case _ =>
  }

  lemma StepKeepsPool(s: State, e: Event)
    requires PoolOk(s.pool, s.nextRuntime) && Enabled(s, e)
    ensures PoolOk(Apply(s, e).pool, Apply(s, e).nextRuntime)
  {
    PoolMovesBy(s, e);
    if OnPool(s, e).Some? {
      PoolStepConserves(s.pool, s.maxSize, OnPool(s, e).value, s.nextRuntime);
    }
  }

  lemma Taking(handed: seq<Runtime>, takers: seq<nat>, invokes: seq<Invoke>, i: nat, rt: Runtime)
    requires TakersOk(handed, takers, invokes) && i < |invokes|
    ensures TakersOk(handed + [rt], takers + [i], invokes[i := invokes[i].(pc := Bind(rt, |handed|))])
  {
  }

  lemma Moving(handed: seq<Runtime>, takers: seq<nat>, invokes: seq<Invoke>, i: nat, pc: InvokePc)
    requires TakersOk(handed, takers, invokes) && i < |invokes|
    requires Holding(pc) ==>
               Holding(invokes[i].pc) && pc.slot == invokes[i].pc.slot && pc.runtime == invokes[i].pc.runtime
    ensures TakersOk(handed, takers, invokes[i := invokes[i].(pc := pc)])
  {
  }

  lemma StepKeepsTakers(s: State, e: Event)
    requires TakersOk(s.pool.handed, s.takers, s.invokes) && Enabled(s, e)
    ensures var t := Apply(s, e); TakersOk(t.pool.handed, t.takers, t.invokes)
  {
    match e
    case StepInvoke(i) =>
      if s.invokes[i].pc.Acquire? && Pool.HandedOut(s.pool.pool, Pool.Acquire(s.invokes[i].id)).Some? {
        Taking(s.pool.handed, s.takers, s.invokes, i, Pool.HandedOut(s.pool.pool, Pool.Acquire(s.invokes[i].id)).value);
      } else {
        Moving(s.pool.handed, s.takers, s.invokes, i, Apply(s, e).invokes[i].pc);
      }
    case RegisterTimeout(i) => Moving(s.pool.handed, s.takers, s.invokes, i, Apply(s, e).invokes[i].pc);
    case RunReturns(i) => Moving(s.pool.handed, s.takers, s.invokes, i, Apply(s, e).invokes[i].pc);
    case _ =>
  }

  lemma StepKeepsRuntimes(s: State, e: Event)
    requires RuntimesOk(s) && Enabled(s, e)
    ensures RuntimesOk(Apply(s, e))
  {
    StepKeepsPool(s, e);
    StepKeepsTakers(s, e);
  }

  // ---------------------------------------------------------------- late answers

  predicate HasRegistered(pc: InvokePc) {
    (pc.Run? && pc.registered) || (pc.Remove? && pc.outcome == Ran(true)) || (pc.Returned? && pc.outcome == Ran(true))
  }

  /** A timed-out ID is in the cache until it is evicted or consumed. */
  predicate LateOk(s: State) {
    && Cache.Wellformed(s.cache)
    && (forall id | id in s.timedOut :: id in s.cache || id in s.lost)
    && (forall i | 0 <= i < |s.invokes| && HasRegistered(s.invokes[i].pc) :: s.invokes[i].id in s.timedOut)
  }

  lemma RegisteringEvictsOnlyTheOldest(cache: seq<InvokeID>, id: InvokeID)
    requires Cache.Wellformed(cache)
    ensures var t := Cache.Registered(cache, id);
            && Cache.Wellformed(t) && id in t
            && forall x | x in cache :: x in t || (id !in cache && |cache| == Cache.TIMEOUT_CACHE_SIZE && x == cache[0])
  {
    Cache.StepKeepsWellformed(cache, Cache.Register(id));
    var t := Cache.Registered(cache, id);
    assert t[|t| - 1] == id;
    forall x | x in cache
      ensures x in t || (id !in cache && |cache| == Cache.TIMEOUT_CACHE_SIZE && x == cache[0])
    {
      OthersStay(cache, id, x);
    }
  }

  lemma OthersStay(cache: seq<InvokeID>, id: InvokeID, x: InvokeID)
    requires Cache.Wellformed(cache) && x in cache
    ensures x == id || x in Cache.Without(cache, id)
    ensures x in Cache.Registered(cache, id) || (id !in cache && |cache| == Cache.TIMEOUT_CACHE_SIZE && x == cache[0])
  {
    var p := Cache.IndexOf(cache, x);
    if x != id {
      Cache.RemovalKeepsOthersWithin(cache, p, id, |cache|);
    }
    var t := Cache.Registered(cache, id);
    assert t[|t| - 1] == id;
  }

  lemma RegisteringKeepsLate(s: State, i: nat)
    requires LateOk(s) && Enabled(s, RegisterTimeout(i))
    ensures LateOk(Apply(s, RegisterTimeout(i)))
  {
    RegisteringEvictsOnlyTheOldest(s.cache, s.invokes[i].id);
  }

  lemma AnswerKeepsLate(s: State, j: nat)
    requires LateOk(s) && Enabled(s, StepAnswer(j))
    ensures LateOk(Apply(s, StepAnswer(j)))
  {
    var id := s.answers[j].id;
    Cache.StepKeepsWellformed(s.cache, Cache.Consume(id));
    forall x | x in s.cache
      ensures x == id || x in Cache.Without(s.cache, id)
    {
      OthersStay(s.cache, id, x);
    }
  }

  lemma StepKeepsLate(s: State, e: Event)
    requires LateOk(s) && Enabled(s, e)
    ensures LateOk(Apply(s, e))
  {
    match e
    case RegisterTimeout(i) => RegisteringKeepsLate(s, i);
    case StepAnswer(j) => AnswerKeepsLate(s, j);
    case _ =>
  }

  // ---------------------------------------------------------------- guarantees over every run

  ghost predicate Inv(s: State) { RoutingOk(s) && RuntimesOk(s) && LateOk(s) }

  lemma {:induction false} RunKeepsInv(s: State, es: seq<Event>)
    requires Inv(s) && IsRun(s, es)
    ensures Inv(After(s, es))
    decreases |es|
  {
    if es != [] {
      StepKeepsRouting(s, es[0]);
      StepKeepsRuntimes(s, es[0]);
      StepKeepsLate(s, es[0]);
      RunKeepsInv(Apply(s, es[0]), es[1..]);
    }
  }

  lemma InitIsSound(maxSize: int)
    ensures Inv(Init(maxSize))
  {
  }

  /**
   In every run, an ID has an entry exactly while one invoke with that ID is in flight, that invoke is
   the only one, and its entry is its own: a rejected duplicate never removes or changes it.
   */
  lemma OneInvokePerID(maxSize: int, es: seq<Event>, i: nat)
    requires IsRun(Init(maxSize), es)
    requires var s := After(Init(maxSize), es); i < |s.invokes| && InFlight(s.invokes[i].pc)
    ensures var s := After(Init(maxSize), es);
            && s.invokes[i].id in s.running && s.running[s.invokes[i].id] == Entry(s.invokes[i].pc)
            && forall j | 0 <= j < |s.invokes| && InFlight(s.invokes[j].pc) && s.invokes[j].id == s.invokes[i].id ::
                 j == i
  {
    InitIsSound(maxSize);
    RunKeepsInv(Init(maxSize), es);
  }

  /** And an entry never outlives its invoke. */
  lemma EntriesAreInFlight(maxSize: int, es: seq<Event>, id: InvokeID)
    requires IsRun(Init(maxSize), es) && id in After(Init(maxSize), es).running
    ensures var s := After(Init(maxSize), es);
            exists i | 0 <= i < |s.invokes| ::
              s.invokes[i].id == id && InFlight(s.invokes[i].pc) && s.running[id] == Entry(s.invokes[i].pc)
  {
    InitIsSound(maxSize);
    RunKeepsInv(Init(maxSize), es);
  }

  lemma HandedOutOnce(s: State, k: nat, l: nat)
    requires RuntimesOk(s) && k < |s.pool.handed| && l < |s.pool.handed| && s.pool.handed[k] == s.pool.handed[l]
    ensures k == l
  {
    Pool.AllDistinct(s.pool.pool, s.pool.handed, s.pool.added);
    Pool.CountsDistinct(s.pool.handed);
  }

  /** In every run, invokes that run at the same time run on different runtimes, none of them back in the pool. */
  lemma RuntimesAreNotShared(maxSize: int, es: seq<Event>, i: nat, j: nat)
    requires IsRun(Init(maxSize), es)
    requires var s := After(Init(maxSize), es);
             i < |s.invokes| && j < |s.invokes| && Holding(s.invokes[i].pc) && Holding(s.invokes[j].pc)
    ensures var s := After(Init(maxSize), es);
            && (s.invokes[i].pc.runtime == s.invokes[j].pc.runtime ==> i == j)
            && s.invokes[i].pc.runtime !in s.pool.pool.idle && s.invokes[i].pc.runtime !in s.pool.pool.reserved.Values
  {
    InitIsSound(maxSize);
    RunKeepsInv(Init(maxSize), es);
    var s := After(Init(maxSize), es);
    var p, q := s.invokes[i].pc, s.invokes[j].pc;
    if p.runtime == q.runtime {
      HandedOutOnce(s, p.slot, q.slot);
    }
    Pool.CountedOnce(Pool.Held(s.pool.pool), multiset(s.pool.handed), s.pool.added, p.runtime);
    Pool.HandedOutIsNotHeld(s.pool.pool, s.pool.handed, p.runtime);
  }

  /**
   A late answer to a timed-out invoke: at whatever moment it looks up or consumes, it reaches an
   in-flight invoke with that ID or the timeout entry, and is told the ID is unknown only if the entry
   was evicted or consumed meanwhile.
   */
  lemma TimedOutIsNeverUnknown(maxSize: int, es: seq<Event>, i: nat, j: nat)
    requires IsRun(Init(maxSize), es)
    requires var s := After(Init(maxSize), es);
             && i < |s.invokes| && HasRegistered(s.invokes[i].pc)
             && Enabled(s, StepAnswer(j)) && s.answers[j].id == s.invokes[i].id && s.answers[j].id !in s.lost
    ensures var s := After(Init(maxSize), es);
            var pc := Apply(s, StepAnswer(j)).answers[j].pc;
            && pc != Answered(Unknown)
            && (pc == Consume ==> s.answers[j].id in s.cache)
            && (s.answers[j].pc.Consume? ==> pc == Answered(Late))
            && (s.answers[j].pc.Lookup? && s.invokes[i].pc.Run? ==> pc == Answered(Delivered(s.invokes[i].pc.runtime)))
  {
    InitIsSound(maxSize);
    RunKeepsInv(Init(maxSize), es);
  }

  /** Exactly when an answer meets the empty entry of an invoke whose runtime is not bound. */
  lemma PlaceholderExactlyBeforeBinding(maxSize: int, es: seq<Event>, j: nat)
    requires IsRun(Init(maxSize), es)
    requires var s := After(Init(maxSize), es); Enabled(s, StepAnswer(j)) && s.answers[j].pc.Lookup?
    ensures var s := After(Init(maxSize), es);
            Apply(s, StepAnswer(j)).answers[j].pc == Answered(Placeholder) <==>
            exists i | 0 <= i < |s.invokes| ::
              s.invokes[i].id == s.answers[j].id && InFlight(s.invokes[i].pc) && Entry(s.invokes[i].pc).None?
  {
    InitIsSound(maxSize);
    RunKeepsInv(Init(maxSize), es);
    var s := After(Init(maxSize), es);
    if s.answers[j].id in s.live {
      assert InFlight(s.invokes[s.live[s.answers[j].id]].pc);
    }
  }

  // ---------------------------------------------------------------- late answers over every run

  /** What an event does to the timeout cache. */
  function OnCache(s: State, e: Event): seq<Cache.Op>
    requires Enabled(s, e)
  {
    match e
    case RegisterTimeout(i) => [Cache.Register(s.invokes[i].id)]
    case StepAnswer(j) => if s.answers[j].pc.Consume? then [Cache.Consume(s.answers[j].id)] else []
    case _ => []
  }

  /** The registrations and consumptions of a run, in order. */
  function CacheOps(s: State, es: seq<Event>): seq<Cache.Op>
    requires IsRun(s, es)
    decreases |es|
  {
    if es == [] then [] else OnCache(s, es[0]) + CacheOps(Apply(s, es[0]), es[1..])
  }

  /** How many answers to an ID were told that they are late. */
  function LateAnswers(answers: seq<Answer>, id: InvokeID): nat {
    if answers == [] then 0
    else
      var last := answers[|answers| - 1];
      LateAnswers(answers[..|answers| - 1], id) + if last == Answer(id, Answered(Late)) then 1 else 0
  }

  lemma {:induction false} LateAnswersChange(answers: seq<Answer>, j: nat, pc: AnswerPc, id: InvokeID)
    requires j < |answers| && !answers[j].pc.Answered?
    ensures LateAnswers(answers[j := answers[j].(pc := pc)], id)
            == LateAnswers(answers, id) + if answers[j].id == id && pc == Answered(Late) then 1 else 0
  {
    var n := |answers| - 1;
    var changed := answers[j := answers[j].(pc := pc)];
    if j < n {
      LateAnswersChange(answers[..n], j, pc, id);
      assert changed[..n] == answers[..n][j := answers[j].(pc := pc)];
    } else {
      assert changed[..n] == answers[..n];
    }
  }

  /** The ledger of the cache is the router's own cache and counts its late answers. */
  ghost predicate LedgerOk(s: State, l: Cache.Ledger, id: InvokeID) {
    l.cache == s.cache && multiset(l.consumed)[id] == LateAnswers(s.answers, id)
  }

  lemma AccountAppended(ops: seq<Cache.Op>, op: Cache.Op)
    ensures Cache.Account(ops + [op]) == Cache.Post(Cache.Account(ops), op)
  {
    assert (ops + [op])[..|ops|] == ops;
  }

  lemma ConsumptionKeepsLedger(s: State, j: nat, l: Cache.Ledger, id: InvokeID)
    requires Enabled(s, StepAnswer(j)) && s.answers[j].pc.Consume? && LedgerOk(s, l, id)
    ensures LedgerOk(Apply(s, StepAnswer(j)), Cache.Post(l, Cache.Consume(s.answers[j].id)), id)
  {
    var a := s.answers[j];
    LateAnswersChange(s.answers, j, Apply(s, StepAnswer(j)).answers[j].pc, id);
    if a.id !in s.cache { Cache.WithoutAbsent(s.cache, a.id); }
  }

  lemma QuietStepKeepsLedger(s: State, e: Event, l: Cache.Ledger, id: InvokeID)
    requires Enabled(s, e) && OnCache(s, e) == [] && LedgerOk(s, l, id)
    ensures LedgerOk(Apply(s, e), l, id)
  {
    match e
    case StepAnswer(j) => LateAnswersChange(s.answers, j, Apply(s, e).answers[j].pc, id);
    case ArriveAnswer(x) => assert (s.answers + [Answer(x, Lookup)])[..|s.answers|] == s.answers;
    case _ =>
  }

  lemma StepKeepsLedger(s: State, e: Event, ops: seq<Cache.Op>, id: InvokeID)
    requires Enabled(s, e) && LedgerOk(s, Cache.Account(ops), id)
    ensures LedgerOk(Apply(s, e), Cache.Account(ops + OnCache(s, e)), id)
  {
    if OnCache(s, e) == [] {
      assert ops + OnCache(s, e) == ops;
      QuietStepKeepsLedger(s, e, Cache.Account(ops), id);
    } else {
      AccountAppended(ops, OnCache(s, e)[0]);
      if e.StepAnswer? { ConsumptionKeepsLedger(s, e.j, Cache.Account(ops), id); }
    }
  }

  lemma {:induction false} RunKeepsLedger(s: State, es: seq<Event>, ops: seq<Cache.Op>, id: InvokeID)
    requires IsRun(s, es) && LedgerOk(s, Cache.Account(ops), id)
    ensures LedgerOk(After(s, es), Cache.Account(ops + CacheOps(s, es)), id)
    decreases |es|
  {
    if es == [] {
      assert ops + [] == ops;
    } else {
      var next := Apply(s, es[0]);
      StepKeepsLedger(s, es[0], ops, id);
      RunKeepsLedger(next, es[1..], ops + OnCache(s, es[0]), id);
      Associate(ops, OnCache(s, es[0]), CacheOps(next, es[1..]));
    }
  }

  /**
   In every run of the router: of the answers to an ID that was put into the timeout cache once and not
   evicted, exactly one has been told that it is late, or none yet while the ID is still in the cache.
   */
  lemma OneLateAnswerPerTimeout(maxSize: int, es: seq<Event>, id: InvokeID)
    requires IsRun(Init(maxSize), es)
    requires var ops := CacheOps(Init(maxSize), es);
             Cache.RegistrationsOf(ops, id) == 1 && id !in Cache.Account(ops).evicted
    ensures var s := After(Init(maxSize), es); LateAnswers(s.answers, id) == if id in s.cache then 0 else 1
  {
    var ops := CacheOps(Init(maxSize), es);
    RunKeepsLedger(Init(maxSize), es, [], id);
    assert [] + ops == ops;
    Cache.ExactlyOneLateAnswer(ops, id);
  }

  // ---------------------------------------------------------------- moves of an invoke

  /** The moves of an invoke other than a registration and a return. */
  predicate Moves(from: InvokePc, to: InvokePc) {
    match from
    case Run(_, _, _) => to == from
    case Remove(_, outcome) => to == from || to == Returned(outcome)
    case Returned(_) => to == from
    case _ =>
      || to.SetIfAbsent? || to.Acquire? || to.Bind? || (to.Run? && !to.registered)
      || (to.Remove? && to.outcome.NoRuntime?) || (to.Returned? && to.outcome.Duplicate?)
  }

  /** Routing other than an arrival, a registration or a return moves one invoke at most. */
  lemma RoutingMoves(s: State, e: Event)
    requires Enabled(s, e) && !e.ArriveInvoke? && !e.RegisterTimeout? && !e.RunReturns?
    ensures var t := Apply(s, e);
            && |t.invokes| == |s.invokes| && t.timedOut == s.timedOut
            && forall i | 0 <= i < |s.invokes| ::
                 t.invokes[i].id == s.invokes[i].id && Moves(s.invokes[i].pc, t.invokes[i].pc)
  {
    match e
    case StepInvoke(i) =>
      var t := Apply(s, e);
      assert t.invokes == s.invokes[i := t.invokes[i]];
    case _ =>
  }
}
