/**
 The router with the running invoke behind each of its entries: an ID enters the timeout cache exactly when
 the running invoke puts it there, and an invoke returns to the router when its main thread has finished.
 Answers may reach a running invoke at any moment, which includes the moments at which the router delivers
 them.
 */
module InvokeTimeouts {
  import opened Wrappers
  import Router = InvokeRouter
  import Cache = RecentCache
  import R = RunningInvoke
  import G = RunningInvokeGuarantees

  /** `runs[i]` is the running invoke of the router's i-th invoke. */
  datatype State = State(router: Router.State, runs: seq<R.State>)

  datatype Event =
    | ArriveInvoke(id: InvokeID, invocationID: string)
    | Return(i: nat)
    | Run(i: nat, step: R.Event)
    | Route(e: Router.Event)

  function Begin(maxSize: int): State { State(Router.Init(maxSize), []) }

  /** The invoke is in RunInvokeAndSendResult, or has been. */
  predicate HasRun(pc: Router.InvokePc) {
    pc.Run? || (pc.Remove? && pc.outcome.Ran?) || (pc.Returned? && pc.outcome.Ran?)
  }

  predicate Enabled(s: State, e: Event) {
    match e
    case ArriveInvoke(_, _) => true
    case Return(i) =>
      i < |s.router.invokes| && i < |s.runs| && s.router.invokes[i].pc.Run? && G.HasFinished(s.runs[i].main)
    case Run(i, step) =>
      i < |s.router.invokes| && i < |s.runs| && HasRun(s.router.invokes[i].pc) && R.Enabled(s.runs[i], step)
    case Route(e) => !e.ArriveInvoke? && !e.RegisterTimeout? && !e.RunReturns? && Router.Enabled(s.router, e)
  }

  /** What a step of the i-th running invoke means for the router: a registration, or nothing. */
  function Registering(s: State, i: nat, step: R.Event): seq<Router.Event>
    requires i < |s.runs| && R.Enabled(s.runs[i], step)
  {
    if R.Apply(s.runs[i], step).registered > s.runs[i].registered then [Router.RegisterTimeout(i)] else []
  }

  /** The event of the router that an event is, if it is one. */
  function OnRouter(s: State, e: Event): seq<Router.Event>
    requires Enabled(s, e)
  {
    match e
    case ArriveInvoke(id, _) => [Router.ArriveInvoke(id)]
    case Return(i) => [Router.RunReturns(i)]
    case Run(i, step) => Registering(s, i, step)
    case Route(e) => [e]
  }

  function OnRuns(s: State, e: Event): seq<R.State>
    requires Enabled(s, e)
  {
    match e
    case ArriveInvoke(_, invocationID) => s.runs + [R.Init(invocationID)]
    case Run(i, step) => s.runs[i := R.Apply(s.runs[i], step)]
    case _ => s.runs
  }

  function Apply(s: State, e: Event): State
    requires Enabled(s, e)
  {
    var on := OnRouter(s, e);
    State(if on != [] && Router.Enabled(s.router, on[0]) then Router.Apply(s.router, on[0]) else s.router, OnRuns(s, e))
  }

  predicate IsRun(s: State, es: seq<Event>)
    decreases |es|
  {
    es == [] || (Enabled(s, es[0]) && IsRun(Apply(s, es[0]), es[1..]))
  }

  function After(s: State, es: seq<Event>): State
    requires IsRun(s, es)
    decreases |es|
  {
    if es == [] then s else After(Apply(s, es[0]), es[1..])
  }

  // ---------------------------------------------------------------- invariants

  /** What the router knows of an invoke agrees with its running invoke. */
  predicate Tied(pc: Router.InvokePc, run: R.State) {
    && run.registered <= 1
    && match pc
       case Run(_, _, registered) => registered <==> run.registered == 1
       case Remove(_, outcome) => OutcomeTied(outcome, run)
       case Returned(outcome) => OutcomeTied(outcome, run)
       case _ => run.registered == 0
  }

  predicate OutcomeTied(outcome: Router.Outcome, run: R.State) {
    if outcome.Ran? then G.HasFinished(run.main) && (outcome.timedOut <==> run.registered == 1) else run.registered == 0
  }

  predicate TiedAt(s: State, i: nat)
    requires i < |s.runs| && i < |s.router.invokes|
  {
    G.Inv(s.runs[i]) && Tied(s.router.invokes[i].pc, s.runs[i])
  }

  predicate Registrant(s: State, i: nat, id: InvokeID) {
    i < |s.runs| && i < |s.router.invokes| && s.router.invokes[i].id == id && s.runs[i].registered == 1
  }

  /** An ID has timed out exactly if some invoke with that ID has registered it. */
  ghost predicate TimedOutOk(s: State) {
    forall id :: id in s.router.timedOut <==> exists i :: Registrant(s, i, id)
  }

  ghost predicate Inv(s: State) {
    && |s.runs| == |s.router.invokes|
    && (forall i | 0 <= i < |s.runs| :: TiedAt(s, i))
    && TimedOutOk(s)
  }

  /** The router can always take the event that a step is for it. */
  lemma RouterFollows(s: State, e: Event)
    requires Inv(s) && Enabled(s, e) && OnRouter(s, e) != []
    ensures |OnRouter(s, e)| == 1 && Router.Enabled(s.router, OnRouter(s, e)[0])
  {
    if e.Run? {
      assert TiedAt(s, e.i);
      G.RegistersOnce(s.runs[e.i], e.step);
    }
  }

  /** The same runs behind invokes with the same IDs keep the record of time-outs. */
  lemma SameRegistrants(s: State, t: State)
    requires TimedOutOk(s) && t.router.timedOut == s.router.timedOut
    requires |s.runs| == |s.router.invokes| && |s.runs| <= |t.runs| == |t.router.invokes|
    requires forall k | 0 <= k < |s.runs| :: t.router.invokes[k].id == s.router.invokes[k].id && t.runs[k] == s.runs[k]
    requires forall k | |s.runs| <= k < |t.runs| :: t.runs[k].registered == 0
    ensures TimedOutOk(t)
  {
    forall id
      ensures id in t.router.timedOut <==> exists k :: Registrant(t, k, id)
    {
      if id in s.router.timedOut {
        var k: nat :| Registrant(s, k, id);
        assert Registrant(t, k, id);
      }
      if k :| Registrant(t, k, id) { assert Registrant(s, k, id); }
    }
  }

  lemma RoutingKeepsTied(s: State, e: Router.Event)
    requires Inv(s) && Enabled(s, Route(e))
    ensures Inv(Apply(s, Route(e)))
  {
    var t := Apply(s, Route(e));
    Router.RoutingMoves(s.router, e);
    forall i | 0 <= i < |t.runs|
      ensures TiedAt(t, i)
    {
      assert TiedAt(s, i);
    }
    SameRegistrants(s, t);
  }

  lemma ReturnKeepsTied(s: State, i: nat)
    requires Inv(s) && Enabled(s, Return(i))
    ensures Inv(Apply(s, Return(i)))
  {
    var t := Apply(s, Return(i));
    forall k | 0 <= k < |t.runs|
      ensures TiedAt(t, k)
    {
      assert TiedAt(s, k);
    }
    SameRegistrants(s, t);
  }

  lemma ArrivalKeepsTied(s: State, id: InvokeID, invocationID: string)
    requires Inv(s)
    ensures Inv(Apply(s, ArriveInvoke(id, invocationID)))
  {
    var t := Apply(s, ArriveInvoke(id, invocationID));
    var n := |s.runs|;
    assert t.runs[n] == R.Init(invocationID) && t.runs[n].registered == 0;
    forall k | 0 <= k < |t.runs|
      ensures TiedAt(t, k)
    {
      if k < n { assert TiedAt(s, k); }
    }
    SameRegistrants(s, t);
  }

  /** What a step of the i-th running invoke changes: that invoke, its entry, and its ID's time-out. */
  lemma RunOnRouter(s: State, i: nat, step: R.Event)
    requires Inv(s) && Enabled(s, Run(i, step))
    ensures var (t, run) := (Apply(s, Run(i, step)), R.Apply(s.runs[i], step));
            && t.runs == s.runs[i := run] && |t.router.invokes| == |s.router.invokes|
            && (forall k | 0 <= k < |s.runs| :: t.router.invokes[k].id == s.router.invokes[k].id)
            && (forall k | 0 <= k < |s.runs| && k != i :: t.router.invokes[k] == s.router.invokes[k])
            && (if run.registered == s.runs[i].registered then t.router == s.router
                else && run.registered == 1 && s.runs[i].registered == 0
                     && t.router.timedOut == s.router.timedOut + {s.router.invokes[i].id})
            && Tied(t.router.invokes[i].pc, run)
  {
    assert TiedAt(s, i);
    G.RegistersOnce(s.runs[i], step);
  }

  lemma RunKeepsTied(s: State, i: nat, step: R.Event)
    requires Inv(s) && Enabled(s, Run(i, step))
    ensures Inv(Apply(s, Run(i, step)))
  {
    var t := Apply(s, Run(i, step));
    RunOnRouter(s, i, step);
    assert TiedAt(s, i);
    G.StepKeepsInv(s.runs[i], step);
    forall k | 0 <= k < |t.runs|
      ensures TiedAt(t, k)
    {
      assert TiedAt(s, k);
    }
    RegisteredIDs(s, t, i);
  }

  lemma RegisteredIDs(s: State, t: State, i: nat)
    requires TimedOutOk(s) && i < |s.runs| == |t.runs| == |s.router.invokes| == |t.router.invokes|
    requires forall k | 0 <= k < |s.runs| :: t.router.invokes[k].id == s.router.invokes[k].id
    requires forall k | 0 <= k < |s.runs| && k != i :: t.runs[k] == s.runs[k]
    requires if t.runs[i].registered == s.runs[i].registered then t.router.timedOut == s.router.timedOut
             else t.runs[i].registered == 1 && t.router.timedOut == s.router.timedOut + {s.router.invokes[i].id}
    ensures TimedOutOk(t)
  {
    forall id
      ensures id in t.router.timedOut <==> exists k :: Registrant(t, k, id)
    {
      if id in s.router.timedOut {
        var k: nat :| Registrant(s, k, id);
        assert Registrant(t, k, id);
      } else if k :| Registrant(t, k, id) {
        assert Registrant(s, k, id) || (k == i && t.runs[i].registered != s.runs[i].registered);
      }
      if id == s.router.invokes[i].id && t.runs[i].registered == 1 { assert Registrant(t, i, id); }
    }
  }

  lemma StepKeepsInv(s: State, e: Event)
    requires Inv(s) && Enabled(s, e)
    ensures Inv(Apply(s, e))
  {
    match e
    case ArriveInvoke(id, invocationID) => ArrivalKeepsTied(s, id, invocationID);
    case Return(i) => ReturnKeepsTied(s, i);
    case Run(i, step) => RunKeepsTied(s, i, step);
    case Route(e) => RoutingKeepsTied(s, e);
  }

  // ---------------------------------------------------------------- a run of both is a run of the router

  function RouterEvents(s: State, es: seq<Event>): seq<Router.Event>
    requires IsRun(s, es)
    decreases |es|
  {
    if es == [] then [] else OnRouter(s, es[0]) + RouterEvents(Apply(s, es[0]), es[1..])
  }

  lemma {:induction false} RouterRuns(s: State, es: seq<Event>)
    requires Inv(s) && IsRun(s, es)
    ensures Inv(After(s, es))
    ensures Router.IsRun(s.router, RouterEvents(s, es))
    ensures Router.After(s.router, RouterEvents(s, es)) == After(s, es).router
    decreases |es|
  {
    if es != [] {
      var t := Apply(s, es[0]);
      StepKeepsInv(s, es[0]);
      RouterRuns(t, es[1..]);
      var on, rest := OnRouter(s, es[0]), RouterEvents(t, es[1..]);
      if on != [] {
        RouterFollows(s, es[0]);
        assert on + rest == [on[0]] + rest && (on + rest)[1..] == rest;
      } else {
        assert on + rest == rest;
      }
    }
  }

  // ---------------------------------------------------------------- guarantees

  /**
   In every run an ID has been put into the timeout cache if and only if some invoke with that ID has told
   its invoker of a time-out, or has it as its next call to do so.
   */
  lemma TimedOutExactlyWhenTold(maxSize: int, es: seq<Event>, id: InvokeID)
    requires IsRun(Begin(maxSize), es)
    ensures var s := After(Begin(maxSize), es);
            && |s.runs| == |s.router.invokes|
            && (id in s.router.timedOut <==>
                exists i :: 0 <= i < |s.runs| && s.router.invokes[i].id == id && G.TellsTimeout(s.runs[i]))
  {
    RouterRuns(Begin(maxSize), es);
    var s := After(Begin(maxSize), es);
    if id in s.router.timedOut {
      var i: nat :| Registrant(s, i, id);
      assert TiedAt(s, i);
      G.RegisteredMeansTold(s.runs[i]);
    }
    if i :| 0 <= i < |s.runs| && s.router.invokes[i].id == id && G.TellsTimeout(s.runs[i]) {
      assert TiedAt(s, i);
      G.RegisteredMeansTold(s.runs[i]);
      assert Registrant(s, i, id);
    }
  }

  /**
   An answer to an invoke whose invoker has been told of a time-out, at whatever moment it looks up or
   consumes, reaches the invoke while it is in flight or the timeout entry, and is not told that the ID is
   unknown unless the entry was evicted or consumed meanwhile.
   */
  lemma AnswerAfterTimeoutReply(maxSize: int, es: seq<Event>, i: nat, j: nat)
    requires IsRun(Begin(maxSize), es)
    requires var s := After(Begin(maxSize), es);
             && i < |s.runs| && i < |s.router.invokes| && G.TellsTimeout(s.runs[i])
             && Router.Enabled(s.router, Router.StepAnswer(j))
             && s.router.answers[j].id == s.router.invokes[i].id && s.router.answers[j].id !in s.router.lost
    ensures var s := After(Begin(maxSize), es);
            var pc := Router.Apply(s.router, Router.StepAnswer(j)).answers[j].pc;
            pc != Router.Answered(Router.Unknown)
            && (s.router.answers[j].pc.Consume? ==> pc == Router.Answered(Router.Late))
  {
    RouterRuns(Begin(maxSize), es);
    var s := After(Begin(maxSize), es);
    assert TiedAt(s, i);
    G.RegisteredMeansTold(s.runs[i]);
    Router.TimedOutIsNeverUnknown(maxSize, RouterEvents(Begin(maxSize), es), i, j);
  }

  // ---- exactly one late answer

  /** How many of the first n invokes with this ID have told of a time-out. */
  function Timeouts(s: State, id: InvokeID, n: nat): nat
    requires n <= |s.runs| && n <= |s.router.invokes|
  {
    if n == 0 then 0
    else Timeouts(s, id, n - 1) + if s.router.invokes[n - 1].id == id && s.runs[n - 1].registered == 1 then 1 else 0
  }

  lemma {:induction false} SameTimeouts(s: State, t: State, id: InvokeID, n: nat)
    requires n <= |s.runs| && n <= |s.router.invokes| && n <= |t.runs| && n <= |t.router.invokes|
    requires forall k | 0 <= k < n ::
               t.router.invokes[k].id == s.router.invokes[k].id && t.runs[k].registered == s.runs[k].registered
    ensures Timeouts(t, id, n) == Timeouts(s, id, n)
  {
    if n > 0 { SameTimeouts(s, t, id, n - 1); }
  }

  lemma {:induction false} OneMoreTimeout(s: State, t: State, id: InvokeID, i: nat, n: nat)
    requires i < n <= |s.runs| && n <= |s.router.invokes| && n <= |t.runs| && n <= |t.router.invokes|
    requires forall k | 0 <= k < n :: t.router.invokes[k].id == s.router.invokes[k].id
    requires forall k | 0 <= k < n && k != i :: t.runs[k].registered == s.runs[k].registered
    requires s.runs[i].registered == 0 && t.runs[i].registered == 1
    ensures Timeouts(t, id, n) == Timeouts(s, id, n) + if s.router.invokes[i].id == id then 1 else 0
  {
    if i < n - 1 { OneMoreTimeout(s, t, id, i, n - 1); } else { SameTimeouts(s, t, id, n - 1); }
  }

  /** What an event does to the timeout cache. */
  function OnCache(s: State, e: Event): seq<Cache.Op>
    requires Enabled(s, e)
  {
    var on := OnRouter(s, e);
    if on != [] && Router.Enabled(s.router, on[0]) then Router.OnCache(s.router, on[0]) else []
  }

  lemma RunCounts(s: State, i: nat, step: R.Event, id: InvokeID)
    requires Inv(s) && Enabled(s, Run(i, step))
    ensures var t := Apply(s, Run(i, step));
            && |t.runs| == |t.router.invokes| == |s.runs|
            && Timeouts(t, id, |t.runs|) ==
               Timeouts(s, id, |s.runs|) + Cache.RegistrationsOf(OnCache(s, Run(i, step)), id)
  {
    var t := Apply(s, Run(i, step));
    RunOnRouter(s, i, step);
    if t.runs[i].registered == s.runs[i].registered {
      SameTimeouts(s, t, id, |s.runs|);
    } else {
      OneMoreTimeout(s, t, id, i, |s.runs|);
      RouterFollows(s, Run(i, step));
      Cache.RegistrationAppended([], Cache.Register(s.router.invokes[i].id), id);
      assert [] + [Cache.Register(s.router.invokes[i].id)] == [Cache.Register(s.router.invokes[i].id)];
    }
  }

  /** Nothing else registers, or makes an invoke tell of a time-out. */
  lemma OthersCount(s: State, e: Event, id: InvokeID)
    requires Inv(s) && Enabled(s, e) && !e.Run? && Inv(Apply(s, e))
    ensures var t := Apply(s, e);
            Timeouts(t, id, |t.runs|) == Timeouts(s, id, |s.runs|) && Cache.RegistrationsOf(OnCache(s, e), id) == 0
  {
    var t := Apply(s, e);
    if e.Route? { Router.RoutingMoves(s.router, e.e); }
    SameTimeouts(s, t, id, |s.runs|);
    Cache.ConsumptionIsNoRegistration(OnCache(s, e), id);
  }

  /** An event registers an ID exactly if it makes one more invoke with that ID tell of a time-out. */
  lemma StepCounts(s: State, e: Event, id: InvokeID)
    requires Inv(s) && Enabled(s, e)
    ensures var t := Apply(s, e);
            && |t.runs| == |t.router.invokes|
            && Timeouts(t, id, |t.runs|) == Timeouts(s, id, |s.runs|) + Cache.RegistrationsOf(OnCache(s, e), id)
  {
    StepKeepsInv(s, e);
    if e.Run? { RunCounts(s, e.i, e.step, id); } else { OthersCount(s, e, id); }
  }

  lemma CacheOpsOfOne(s: State, e: Event, rest: seq<Router.Event>)
    requires Inv(s) && Enabled(s, e) && Router.IsRun(Apply(s, e).router, rest)
    ensures Router.IsRun(s.router, OnRouter(s, e) + rest)
    ensures Router.CacheOps(s.router, OnRouter(s, e) + rest) ==
            OnCache(s, e) + Router.CacheOps(Apply(s, e).router, rest)
  {
    var on := OnRouter(s, e);
    if on != [] {
      RouterFollows(s, e);
      assert (on + rest)[1..] == rest;
    } else {
      assert on + rest == rest;
    }
  }

  lemma {:induction false} RunCountsTimeouts(s: State, es: seq<Event>, id: InvokeID)
    requires Inv(s) && IsRun(s, es)
    ensures Router.IsRun(s.router, RouterEvents(s, es))
    ensures var t := After(s, es);
            && |t.runs| == |t.router.invokes|
            && Timeouts(t, id, |t.runs|) ==
               Timeouts(s, id, |s.runs|) + Cache.RegistrationsOf(Router.CacheOps(s.router, RouterEvents(s, es)), id)
    decreases |es|
  {
    RouterRuns(s, es);
    if es != [] {
      var t := Apply(s, es[0]);
      StepKeepsInv(s, es[0]);
      StepCounts(s, es[0], id);
      RunCountsTimeouts(t, es[1..], id);
      var rest := RouterEvents(t, es[1..]);
      CacheOpsOfOne(s, es[0], rest);
      Cache.RegistrationsJoin(OnCache(s, es[0]), Router.CacheOps(t.router, rest), id);
    }
  }

  /**
   Of the answers to an ID that exactly one invoke has told of a time-out, and that was not evicted, exactly
   one has been told that it is late, or none yet while the ID is still in the cache.
   */
  lemma OneLateAnswerPerTimeoutReply(maxSize: int, es: seq<Event>, id: InvokeID)
    requires IsRun(Begin(maxSize), es)
    requires var s := After(Begin(maxSize), es);
             |s.runs| == |s.router.invokes| && Timeouts(s, id, |s.runs|) == 1
    requires var events := RouterEvents(Begin(maxSize), es);
             Router.IsRun(Router.Init(maxSize), events)
             && id !in Cache.Account(Router.CacheOps(Router.Init(maxSize), events)).evicted
    ensures var s := After(Begin(maxSize), es).router; Router.LateAnswers(s.answers, id) == if id in s.cache then 0
            else 1
  {
    RouterRuns(Begin(maxSize), es);
    RunCountsTimeouts(Begin(maxSize), es, id);
    Router.OneLateAnswerPerTimeout(maxSize, RouterEvents(Begin(maxSize), es), id);
  }
}
