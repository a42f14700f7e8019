/**
 A whole invoke: the runtime's share of `InvokeFlow` and the agents' share of `AgentInvoke`, driven by one
 thread in the order of the source: reset the three gates, count and release the agents, release the
 runtime, await its response and its readiness, and then await the agents.
 */
module WholeInvoke {
  import opened Wrappers
  import F = InvokeFlow
  import A = AgentInvoke
  import I = AgentInit
  import R = RuntimeStates

  datatype State = State(flow: F.State, agents: A.State)

  datatype Event =
    | MainStep
    | BeginRestore
    | RuntimeDo(m: R.Method)
    | RuntimeResume(i: nat)
    | AgentCall(name: I.Name, call: I.Method)
    | WakeAgent(name: I.Name)
    | CancelFlow(which: F.Which, cause: Option<string>)
    | CancelAgents(cause: Option<string>)

  function Begin(agents: A.Agents, subscribed: seq<I.Name>): State { State(F.BEGIN, A.Begin(agents, subscribed)) }

  /** Invokes completed. */
  function Done(s: State): nat { s.agents.done }

  // ---------------------------------------------------------------- steps

  /** Whose part of the invoke the driving thread executes next. */
  datatype Turn = Together | OfFlow | OfAgents | Nobody

  function TurnOf(flow: F.Main, agents: A.Main): Turn {
    if flow.Failed? || agents.Failed? then Nobody
    else if flow.Idle? then (if agents.Idle? then Together else OfAgents)
    else if flow.Releasing? && !agents.AwaitRuntime? then OfAgents
    else OfFlow
  }

  predicate MainEnabled(s: State) {
    match TurnOf(s.flow.main, s.agents.main)
    case Together => true
    case OfFlow => F.MainEnabled(s.flow)
    case OfAgents => A.Enabled(s.agents, A.MainStep(true))
    case Nobody => false
  }

  predicate Enabled(s: State, e: Event) {
    match e
    case MainStep => MainEnabled(s)
    case BeginRestore => s.flow.main.Idle? && s.agents.main.Idle?
    case RuntimeDo(_) => true
    case RuntimeResume(i) => F.Enabled(s.flow, F.RuntimeResume(i))
    case AgentCall(name, m) => A.Enabled(s.agents, A.AgentCall(name, m))
    case WakeAgent(name) => A.Enabled(s.agents, A.WakeAgent(name))
    case CancelFlow(_, _) => true
    case CancelAgents(_) => true
  }

  predicate AwaitsRuntime(main: F.Main) { main.AwaitResponse? || main.AwaitReady? }

  /** What the end of the runtime's share, or an error of it, means for the agents' share. */
  function AfterFlowStep(was: F.Main, now: F.Main, agents: A.State): A.State {
    if AwaitsRuntime(was) && now.Failed? then A.StepMain(agents, false)
    else if was.AwaitReady? && now.Idle? then A.StepMain(agents, true)
    else agents
  }

  function StepMain(s: State): State
    requires MainEnabled(s)
  {
    match TurnOf(s.flow.main, s.agents.main)
    case Together => State(F.StepMain(s.flow), A.StepMain(s.agents, true))
    case OfAgents => s.(agents := A.StepMain(s.agents, true))
    case OfFlow =>
      var flow := F.StepMain(s.flow);
      State(flow, AfterFlowStep(s.flow.main, flow.main, s.agents))
  }

  function Apply(s: State, e: Event): State
    requires Enabled(s, e)
  {
    match e
    case MainStep => StepMain(s)
    case BeginRestore => s.(flow := F.Apply(s.flow, F.BeginRestore))
    case RuntimeDo(m) => s.(flow := F.Apply(s.flow, F.RuntimeDo(m)))
    case RuntimeResume(i) => s.(flow := F.Apply(s.flow, F.RuntimeResume(i)))
    case AgentCall(name, m) => s.(agents := A.Apply(s.agents, A.AgentCall(name, m)))
    case WakeAgent(name) => s.(agents := A.Apply(s.agents, A.WakeAgent(name)))
    case CancelFlow(which, cause) => s.(flow := F.Apply(s.flow, F.Event.Cancel(which, cause)))
    case CancelAgents(cause) => s.(agents := A.Apply(s.agents, A.Event.Cancel(cause)))
  }

  predicate IsRun(s: State, es: seq<Event>)
    decreases |es|
  {
    es == [] || (Enabled(s, es[0]) && IsRun(Apply(s, es[0]), es[1..]))
  }

  function After(s: State, es: seq<Event>): State
    requires IsRun(s, es)
    decreases |es|
  {
    if es == [] then s else After(Apply(s, es[0]), es[1..])
  }

  // ---------------------------------------------------------------- invariants

  /** How far one share may be when the other is at a given point. */
  predicate InStep(flow: F.Main, agents: A.Main) {
    match flow
    case AwaitInit => agents.Idle?
    case AwaitRestored => agents.Idle?
    case Idle => agents.Idle? || agents.AwaitAgents? || agents.Failed?
    case ResettingReady => agents.Resetting?
    case ResettingResponse => agents.Resetting?
    case Releasing => agents.Resetting? || agents.Counting? || agents.Releasing? || agents.AwaitRuntime?
                      || agents.Failed?
    case Failed => agents.Idle? || agents.Failed?
    case _ => agents.AwaitRuntime?
  }

  predicate DoneOk(s: State) {
    !s.agents.main.Failed? && !s.flow.main.Failed? ==>
      s.flow.done == s.agents.done + if s.agents.main.AwaitAgents? then 1 else 0
  }

  predicate Inv(s: State) {
    F.Inv(s.flow) && A.Inv(s.agents) && InStep(s.flow.main, s.agents.main) && DoneOk(s)
  }

  /** A step of the driving thread is a step of the runtime's share, of the agents' share, or of both. */
  lemma MainIsStepOfShares(s: State)
    requires MainEnabled(s) && InStep(s.flow.main, s.agents.main)
    ensures var t := StepMain(s);
            && (t.flow == s.flow || (F.MainEnabled(s.flow) && t.flow == F.Apply(s.flow, F.MainStep)))
            && (t.agents == s.agents ||
                exists ok :: A.Enabled(s.agents, A.MainStep(ok)) && t.agents == A.Apply(s.agents, A.MainStep(ok)))
  {
    var t := StepMain(s);
    if t.agents == A.StepMain(s.agents, true) {
      assert t.agents == A.Apply(s.agents, A.MainStep(true)) || !A.Enabled(s.agents, A.MainStep(true));
    } else if t.agents == A.StepMain(s.agents, false) {
      assert t.agents == A.Apply(s.agents, A.MainStep(false)) || !A.Enabled(s.agents, A.MainStep(false));
    }
  }

  lemma MainKeepsStep(s: State)
    requires Inv(s) && MainEnabled(s)
    ensures var t := StepMain(s); InStep(t.flow.main, t.agents.main) && DoneOk(t)
  {
    match TurnOf(s.flow.main, s.agents.main)
    case Together =>
    case OfAgents =>
    case OfFlow =>
    case Nobody =>
  }

  lemma MainKeepsInv(s: State)
    requires Inv(s) && MainEnabled(s)
    ensures Inv(StepMain(s))
  {
    var t := StepMain(s);
    MainKeepsStep(s);
    MainIsStepOfShares(s);
    if t.flow != s.flow { F.StepKeepsInv(s.flow, F.MainStep); }
    if t.agents != s.agents {
      var ok :| A.Enabled(s.agents, A.MainStep(ok)) && t.agents == A.Apply(s.agents, A.MainStep(ok));
      A.StepKeepsInv(s.agents, A.MainStep(ok));
    }
  }

  lemma StepKeepsInv(s: State, e: Event)
    requires Inv(s) && Enabled(s, e)
    ensures Inv(Apply(s, e))
  {
    match e
    case MainStep => MainKeepsInv(s);
    case BeginRestore => F.StepKeepsInv(s.flow, F.BeginRestore);
    case RuntimeDo(m) => F.StepKeepsInv(s.flow, F.RuntimeDo(m));
    case RuntimeResume(i) => F.StepKeepsInv(s.flow, F.RuntimeResume(i));
    case AgentCall(name, m) => A.StepKeepsInv(s.agents, A.AgentCall(name, m));
    case WakeAgent(name) => A.StepKeepsInv(s.agents, A.WakeAgent(name));
    case CancelFlow(which, cause) => F.StepKeepsInv(s.flow, F.Event.Cancel(which, cause));
    case CancelAgents(cause) => A.StepKeepsInv(s.agents, A.Event.Cancel(cause));
  }

  lemma {:induction false} RunKeepsInv(s: State, es: seq<Event>)
    requires Inv(s) && IsRun(s, es)
    ensures Inv(After(s, es))
    decreases |es|
  {
    if es != [] {
      StepKeepsInv(s, es[0]);
      RunKeepsInv(Apply(s, es[0]), es[1..]);
    }
  }

  // ---------------------------------------------------------------- guarantees

  /**
   Between two invokes the runtime has accepted exactly one response for each completed one and waits in
   Ready, and every agent released for the last one has gone back to Ready since then and rests.
   */
  lemma InvokesAreWhole(agents: A.Agents, subscribed: seq<I.Name>, es: seq<Event>)
    requires A.CanBegin(agents, subscribed) && IsRun(Begin(agents, subscribed), es)
    ensures var s := After(Begin(agents, subscribed), es);
            s.flow.main.Idle? && s.agents.main.Idle? ==>
              && s.flow.rt.responses == Done(s) && (Done(s) > 0 ==> s.flow.rt.state == R.Ready)
              && (Done(s) > 0 ==> forall n | n in s.agents.subscribed :: n in s.agents.walkLog)
              && (forall n | n in s.agents.agents :: A.Resting(s.agents.agents[n]))
  {
    RunKeepsInv(Begin(agents, subscribed), es);
  }

  // ---- which whole invokes can complete

  predicate IsCancel(e: Event) { e.CancelFlow? || e.CancelAgents? }

  predicate Uncancelled(es: seq<Event>) { forall k | 0 <= k < |es| :: !IsCancel(es[k]) }

  predicate NothingCancelled(s: State) {
    !s.flow.gates.response.canceled && !s.flow.gates.ready.canceled && !s.agents.gate.canceled
  }

  /** The driving thread waits for the response, for the runtime to be ready, or for the agents. */
  predicate Waits(s: State) {
    Inv(s) && NothingCancelled(s) && (AwaitsRuntime(s.flow.main) || s.agents.main.AwaitAgents?)
  }

  /** The runtime's share is over or can be, and no released agent is gone without having come back. */
  predicate CanGoOn(s: State) { (s.agents.main.AwaitAgents? || s.flow.prompt) && A.NobodyLost(s.agents) }

  // -- it can

  function Lifted(es: seq<A.Event>): seq<Event>
    requires forall k | 0 <= k < |es| :: es[k].AgentCall? || es[k].WakeAgent?
  {
    if es == [] then []
    else [if es[0].AgentCall? then AgentCall(es[0].name, es[0].m) else WakeAgent(es[0].name)] + Lifted(es[1..])
  }

  /** What the agents can do by themselves they can do in a whole invoke. */
  lemma {:induction false} AgentsByThemselves(s: State, es: seq<A.Event>)
    requires A.IsRun(s.agents, es) && forall k | 0 <= k < |es| :: es[k].AgentCall? || es[k].WakeAgent?
    ensures IsRun(s, Lifted(es)) && Uncancelled(Lifted(es)) && |Lifted(es)| == |es|
    ensures After(s, Lifted(es)) == s.(agents := A.After(s.agents, es))
    decreases |es|
  {
    if es != [] {
      var t := s.(agents := A.Apply(s.agents, es[0]));
      var e := Lifted(es)[0];
      assert Enabled(s, e) && Apply(s, e) == t;
      AgentsByThemselves(t, es[1..]);
      assert Lifted(es)[1..] == Lifted(es[1..]);
    }
  }

  lemma {:induction false} RunsJoin(s: State, es: seq<Event>, fs: seq<Event>)
    requires IsRun(s, es) && IsRun(After(s, es), fs)
    ensures IsRun(s, es + fs) && After(s, es + fs) == After(After(s, es), fs)
    decreases |es|
  {
    if es == [] {
      assert es + fs == fs;
    } else {
      assert (es + fs)[1..] == es[1..] + fs;
      RunsJoin(Apply(s, es[0]), es[1..], fs);
    }
  }

  lemma {:induction false} AgentsShareCompletes(s: State) returns (es: seq<Event>)
    requires Waits(s) && s.agents.main.AwaitAgents? && A.NobodyLost(s.agents)
    ensures IsRun(s, es) && Uncancelled(es) && Done(After(s, es)) == Done(s) + 1
    decreases |s.agents.subscribed| - |s.agents.walkLog|
  {
    var a := s.agents;
    if forall n | n in a.subscribed :: n in a.walkLog {
      A.OpenMeansAllBack(a);
      es := [MainStep];
      assert es[1..] == [];
    } else {
      var name :| name in a.subscribed && name !in a.walkLog;
      assert !A.Lost(a, name);
      A.WalkFits(a, name);
      var back := A.AgentComesBack(a, name);
      var t := s.(agents := A.After(a, back));
      AgentsByThemselves(s, back);
      StillNobodyLost(a, t.agents, name);
      var rest := AgentsShareCompletes(t);
      es := Lifted(back) + rest;
      RunsJoin(s, Lifted(back), rest);
    }
  }

  lemma StillNobodyLost(a: A.State, b: A.State, name: I.Name)
    requires A.NobodyLost(a) && a.main.AwaitAgents? && b.main.AwaitAgents? && b.subscribed == a.subscribed
    requires b.walkLog == a.walkLog + [name] && b.agents.Keys == a.agents.Keys
    requires forall n | n in a.agents && n != name :: b.agents[n] == a.agents[n]
    ensures A.NobodyLost(b)
  {
    forall n | n in b.subscribed
      ensures !A.Lost(b, n)
    {
      assert !A.Lost(a, n);
      if n == name { assert b.walkLog[|a.walkLog|] == name; }
    }
  }

  /** One more step of the runtime's share, and of the agents' with its last. */
  lemma RuntimeShareProceeds(s: State) returns (e: Event)
    requires Waits(s) && AwaitsRuntime(s.flow.main) && CanGoOn(s)
    ensures Enabled(s, e) && !IsCancel(e)
    ensures var t := Apply(s, e);
            || Done(t) == Done(s) + 1
            || (Done(t) == Done(s) && Waits(t) && CanGoOn(t)
                && (t.agents.main.AwaitAgents? ||
                    (AwaitsRuntime(t.flow.main) && F.Distance(t.flow) < F.Distance(s.flow))))
  {
    var move := F.NextMove(s.flow);
    if F.MainEnabled(s.flow) {
      F.MainMoveIsNearer(s.flow);
      e := MainStep;
    } else {
      F.RuntimeMoveIsNearer(s.flow);
      e := if move.RuntimeDo? then RuntimeDo(move.m) else RuntimeResume(move.i);
    }
    StepKeepsInv(s, e);
    var t := Apply(s, e);
    if t.agents != s.agents {
      assert t.agents == A.StepMain(s.agents, true);
      assert t.agents.main.AwaitAgents? ==> forall n | n in t.agents.subscribed :: A.Lost(t.agents, n) ==>
               A.Lost(s.agents, n);
    }
  }

  lemma {:induction false} WholeInvokeCompletes(s: State) returns (es: seq<Event>)
    requires Waits(s) && CanGoOn(s)
    ensures IsRun(s, es) && Uncancelled(es) && Done(After(s, es)) == Done(s) + 1
    decreases if s.agents.main.AwaitAgents? then 0 else 1 + F.Distance(s.flow)
  {
    if s.agents.main.AwaitAgents? {
      es := AgentsShareCompletes(s);
    } else {
      var e := RuntimeShareProceeds(s);
      var t := Apply(s, e);
      var rest := [];
      if Done(t) == Done(s) { rest := WholeInvokeCompletes(t); }
      es := [e] + rest;
      assert es[1..] == rest;
    }
  }

  // -- it cannot

  predicate Stuck(s: State) {
    s.flow.main.AwaitResponse? && !s.flow.prompt && !s.flow.gates.response.canceled && s.agents.main.AwaitRuntime?
  }

  lemma {:induction false} StuckInvokeHangs(s: State, es: seq<Event>)
    requires Inv(s) && Stuck(s) && IsRun(s, es) && Uncancelled(es)
    ensures Done(After(s, es)) == Done(s)
    decreases |es|
  {
    if es != [] {
      StepKeepsInv(s, es[0]);
      StuckInvokeHangs(Apply(s, es[0]), es[1..]);
    }
  }

  lemma StaysLost(s: State, e: Event, name: I.Name)
    requires Inv(s) && !s.agents.gate.canceled && A.Lost(s.agents, name) && Enabled(s, e) && !IsCancel(e)
    ensures var t := Apply(s, e); !t.agents.gate.canceled && A.Lost(t.agents, name) && Done(t) == Done(s)
  {
    match e
    case AgentCall(n, m) => A.StaysLost(s.agents, A.AgentCall(n, m), name);
    case WakeAgent(n) => A.StaysLost(s.agents, A.WakeAgent(n), name);
    case MainStep =>
      MainIsStepOfShares(s);
      if Apply(s, e).agents != s.agents {
        var ok :| A.Enabled(s.agents, A.MainStep(ok)) && Apply(s, e).agents == A.Apply(s.agents, A.MainStep(ok));
        A.StaysLost(s.agents, A.MainStep(ok), name);
      }
    case _ =>
  }

  lemma {:induction false} LostAgentHangs(s: State, es: seq<Event>, name: I.Name)
    requires Inv(s) && !s.agents.gate.canceled && A.Lost(s.agents, name) && IsRun(s, es) && Uncancelled(es)
    ensures Done(After(s, es)) == Done(s)
    decreases |es|
  {
    if es != [] {
      StepKeepsInv(s, es[0]);
      StaysLost(s, es[0], name);
      LostAgentHangs(Apply(s, es[0]), es[1..], name);
    }
  }

  /**
   In every reachable state in which a whole invoke waits and nothing is cancelled: it can complete without
   a cancellation if and only if its runtime was ready when it was released, or is done, and no released
   agent is gone without having come back.
   */
  lemma WholeInvokeCanCompleteExactlyWhen(agents: A.Agents, subscribed: seq<I.Name>, so: seq<Event>)
    requires A.CanBegin(agents, subscribed) && IsRun(Begin(agents, subscribed), so)
    requires var s := After(Begin(agents, subscribed), so);
             NothingCancelled(s) && (AwaitsRuntime(s.flow.main) || s.agents.main.AwaitAgents?)
    ensures var s := After(Begin(agents, subscribed), so);
            (exists es :: IsRun(s, es) && Uncancelled(es) && Done(After(s, es)) > Done(s)) <==> CanGoOn(s)
  {
    RunKeepsInv(Begin(agents, subscribed), so);
    var s := After(Begin(agents, subscribed), so);
    if CanGoOn(s) {
      var es := WholeInvokeCompletes(s);
      assert IsRun(s, es) && Uncancelled(es) && Done(After(s, es)) > Done(s);
    } else {
      forall es | IsRun(s, es) && Uncancelled(es)
        ensures Done(After(s, es)) == Done(s)
      {
        if !A.NobodyLost(s.agents) {
          var name :| name in s.agents.subscribed && A.Lost(s.agents, name);
          LostAgentHangs(s, es, name);
        } else {
          StuckInvokeHangs(s, es);
        }
      }
    }
  }
}
