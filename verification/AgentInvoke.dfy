/**
 The agents' share of a series of invokes: the invoke flow's agent gate is reset and told how many agents
 subscribed to invokes, these are released one after the other, and once the runtime is ready again the
 invoke waits for the gate.  When the runtime is done, and how its share ends, is arbitrary here.
 */
module AgentInvoke {
  import opened Wrappers
  import opened Collections
  import opened Gate
  import I = AgentInit
  import S = AgentInitSafety
  import G = AgentInitGuarantees

  type Name = I.Name
  type Agents = map<Name, I.Agent>

  /** The comments name the line of handlers.go or flow.go that the driving thread executes next. */
  datatype Main =
    | Idle
    | Resetting            // flow.go 163
    | Counting             // handlers.go 449
    | Releasing(k: nat)    // handlers.go 465
    | AwaitRuntime         // handlers.go 478
    | AwaitAgents          // handlers.go 516
    | Failed

  /** `walkLog` is the history of the walks to the gate since it was last to be reset. */
  datatype State = State(subscribed: seq<Name>, agents: Agents, gate: GateState, main: Main, done: nat,
                         walkLog: seq<Name>)

  datatype Event =
    | MainStep(ok: bool)               // ok: of the runtime's share
    | AgentCall(name: Name, m: I.Method)
    | WakeAgent(name: Name)
    | Cancel(cause: Option<string>)

  function Begin(agents: Agents, subscribed: seq<Name>): State {
    State(subscribed, agents, GateState(MAX_AGENTS_LIMIT, 0, false, None), Idle, 0, [])
  }

  // ---------------------------------------------------------------- steps

  predicate Enabled(s: State, e: Event) {
    match e
    case MainStep(_) =>
      !s.main.Failed? && (s.main.AwaitAgents? ==> s.gate.Open() || s.gate.canceled)
    case AgentCall(name, _) => name in s.agents
    case WakeAgent(name) => name in s.agents && s.agents[name].released && s.agents[name].suspended > 0
    case Cancel(_) => true
  }

  function StepMain(s: State, ok: bool): State {
    match s.main
    case Idle => s.(main := Resetting)
    case Resetting => s.(gate := s.gate.Reset(), walkLog := [], main := Counting)
    case Counting =>
      var n := I.Truncate(|s.subscribed|);
      if n < s.gate.arrived then s.(main := Failed) else s.(gate := s.gate.SetCount(n), main := Releasing(0))
    case Releasing(k) =>
      if k >= |s.subscribed| then s.(main := AwaitRuntime)
      else if s.subscribed[k] !in s.agents then s.(main := Releasing(k + 1))
      else
        var name := s.subscribed[k];
        s.(agents := s.agents[name := s.agents[name].(released := true)], main := Releasing(k + 1))
    case AwaitRuntime =>
      if !ok then s.(main := Failed)
      else if |s.agents| > 0 then s.(main := AwaitAgents)
      else s.(main := Idle, done := s.done + 1)
    case AwaitAgents =>
      if s.gate.Verdict().None? then s.(main := Idle, done := s.done + 1) else s.(main := Failed)
    case Failed => s
  }

  function CallAgent(s: State, name: Name, m: I.Method): State
    requires name in s.agents
  {
    var (a, walk, _) := I.Call(s.agents[name], m);
    var t := s.(agents := s.agents[name := a]);
    if walk.WalkInvokeReady? then t.(gate := s.gate.Walk(), walkLog := s.walkLog + [name]) else t
  }

  function Apply(s: State, e: Event): State
    requires Enabled(s, e)
  {
    match e
    case MainStep(ok) => StepMain(s, ok)
    case AgentCall(name, m) => CallAgent(s, name, m)
    case WakeAgent(name) => s.(agents := s.agents[name := I.Wake(s.agents[name])])
    case Cancel(cause) => s.(gate := s.gate.Cancel(cause))
  }

  predicate IsRun(s: State, es: seq<Event>)
    decreases |es|
  {
    es == [] || (Enabled(s, es[0]) && IsRun(Apply(s, es[0]), es[1..]))
  }

  function After(s: State, es: seq<Event>): State
    requires IsRun(s, es)
    decreases |es|
  {
    if es == [] then s else After(Apply(s, es[0]), es[1..])
  }

  // ---------------------------------------------------------------- invariants

  /** The agent has left for good: it reported an error or its process is gone. */
  predicate Gone(a: I.Agent) { a.state in {I.ExitError, I.ShutdownFailed, I.Exited} }

  /** Suspended in Ready with nothing to wake it, or gone. */
  predicate Resting(a: I.Agent) { Gone(a) || (a.state == I.Ready && a.suspended == 1 && !a.released) }

  /** Released and not back yet, or gone. */
  predicate Working(a: I.Agent) {
    || Gone(a)
    || (a.state == I.Ready && a.suspended == 1 && a.released)
    || (a.state == I.Running && a.suspended == 0 && !a.released)
  }

  /** The agents released so far in this invoke. */
  function Released(main: Main, subscribed: seq<Name>): seq<Name> {
    match main
    case Releasing(k) => if k <= |subscribed| then subscribed[..k] else subscribed
    case AwaitRuntime => subscribed
    case AwaitAgents => subscribed
    case _ => []
  }

  predicate Due(name: Name, released: seq<Name>, walkLog: seq<Name>) { name in released && name !in walkLog }

  predicate AgentsOk(agents: Agents, released: seq<Name>, walkLog: seq<Name>) {
    forall n | n in agents :: if Due(n, released, walkLog) then Working(agents[n]) else Resting(agents[n])
  }

  predicate SubscribedOk(s: State) {
    && Distinct(s.subscribed) && |s.subscribed| <= MAX_AGENTS_LIMIT
    && (forall n | n in s.subscribed :: n in s.agents)
  }

  predicate InvokeUnderWay(main: Main) { main.Counting? || main.Releasing? || main.AwaitRuntime? || main.AwaitAgents? }

  /** Each agent walks at most once, only after it was released; and between invokes all of them have. */
  predicate LogOk(s: State) {
    && Distinct(s.walkLog) && (forall n | n in s.walkLog :: n in s.subscribed)
    && (InvokeUnderWay(s.main) ==> forall n | n in s.walkLog :: n in Released(s.main, s.subscribed))
    && (s.main.Releasing? ==> s.main.k <= |s.subscribed|)
    && (!InvokeUnderWay(s.main) && s.done > 0 ==> forall n | n in s.subscribed :: n in s.walkLog)
  }

  predicate GateOk(s: State) {
    !s.gate.canceled ==>
      && s.gate.arrived == |s.walkLog|
      && (s.main.Releasing? || s.main.AwaitRuntime? || s.main.AwaitAgents? ==> s.gate.count == |s.subscribed|)
  }

  predicate Inv(s: State) {
    s.main.Failed? ||
    (SubscribedOk(s) && AgentsOk(s.agents, Released(s.main, s.subscribed), s.walkLog) && LogOk(s) && GateOk(s))
  }

  // ---- one agent changes

  /** What a call does to an agent that rests, or that works. */
  lemma CallOutcome(a: I.Agent, m: I.Method)
    ensures var (b, walk, _) := I.Call(a, m);
            && (Gone(a) ==> b == a && !walk.WalkInvokeReady?)
            && (Resting(a) ==> Resting(b) && !walk.WalkInvokeReady?)
            && (Working(a) ==> if walk.WalkInvokeReady? then Resting(b) && a.state == I.Running else Working(b))
  {
  }

  lemma CallKeepsInv(s: State, name: Name, m: I.Method)
    requires Inv(s) && !s.main.Failed? && name in s.agents
    ensures Inv(CallAgent(s, name, m))
  {
    var a := s.agents[name];
    var (b, walk, _) := I.Call(a, m);
    var released := Released(s.main, s.subscribed);
    CallOutcome(a, m);
    if walk.WalkInvokeReady? {
      assert Due(name, released, s.walkLog);
      WalkFits(s, name);
    }
  }

  /** A walking agent is subscribed and has not walked yet, so that the gate has room for it. */
  lemma WalkFits(s: State, name: Name)
    requires SubscribedOk(s) && LogOk(s) && Due(name, Released(s.main, s.subscribed), s.walkLog)
    ensures Distinct(s.walkLog + [name]) && (forall n | n in s.walkLog + [name] :: n in s.subscribed)
    ensures |s.walkLog| < |s.subscribed|
    ensures InvokeUnderWay(s.main) && !s.main.Counting?
  {
    DistinctSnoc(s.walkLog, name);
    AllOrFewer(s.walkLog + [name], s.subscribed);
  }

  lemma WakeKeepsInv(s: State, name: Name)
    requires Inv(s) && !s.main.Failed? && Enabled(s, WakeAgent(name))
    ensures Inv(Apply(s, WakeAgent(name)))
  {
  }

  // ---- the driving thread

  /** Releasing the next agent makes it due. */
  lemma ReleaseKeepsAgents(agents: Agents, subscribed: seq<Name>, k: nat, walkLog: seq<Name>)
    requires k < |subscribed| && Distinct(subscribed) && subscribed[k] in agents
    requires AgentsOk(agents, subscribed[..k], walkLog) && forall n | n in walkLog :: n in subscribed[..k]
    ensures var name := subscribed[k];
            AgentsOk(agents[name := agents[name].(released := true)], subscribed[..k + 1], walkLog)
  {
    var name := subscribed[k];
    assert subscribed[..k + 1] == subscribed[..k] + [name];
    assert name !in subscribed[..k];
  }

  lemma ReleasingKeepsInv(s: State)
    requires Inv(s) && s.main.Releasing?
    ensures Inv(StepMain(s, true)) && Inv(StepMain(s, false))
  {
    var k := s.main.k;
    if k < |s.subscribed| {
      assert s.subscribed[k] in s.subscribed;
      ReleaseKeepsAgents(s.agents, s.subscribed, k, s.walkLog);
      assert s.subscribed[..k + 1] == s.subscribed[..k] + [s.subscribed[k]];
    } else {
      assert s.subscribed[..k] == s.subscribed;
    }
  }

  /** With the gate open, everybody is back. */
  lemma OpenMeansAllBack(s: State)
    requires SubscribedOk(s) && LogOk(s) && GateOk(s) && s.main.AwaitAgents? && !s.gate.canceled
    ensures s.gate.Open() <==> forall n | n in s.subscribed :: n in s.walkLog
  {
    AllOrFewer(s.walkLog, s.subscribed);
  }

  lemma AwaitKeepsInv(s: State, ok: bool)
    requires Inv(s) && (s.main.AwaitRuntime? || s.main.AwaitAgents?) && Enabled(s, MainStep(ok))
    ensures Inv(StepMain(s, ok))
  {
    if s.main.AwaitAgents? {
      if !s.gate.canceled { OpenMeansAllBack(s); }
    } else if ok && |s.agents| == 0 {
      assert s.agents == map[];
    }
  }

  lemma MainKeepsInv(s: State, ok: bool)
    requires Inv(s) && Enabled(s, MainStep(ok))
    ensures Inv(StepMain(s, ok))
  {
    match s.main
    case Releasing(_) => ReleasingKeepsInv(s);
    case AwaitRuntime => AwaitKeepsInv(s, ok);
    case AwaitAgents => AwaitKeepsInv(s, ok);
    case _ =>
  }

  lemma StepKeepsInv(s: State, e: Event)
    requires Inv(s) && Enabled(s, e)
    ensures Inv(Apply(s, e))
  {
    if !s.main.Failed? {
      match e
      case MainStep(ok) => MainKeepsInv(s, ok);
      case AgentCall(name, m) => CallKeepsInv(s, name, m);
      case WakeAgent(name) => WakeKeepsInv(s, name);
      case Cancel(_) =>
    }
  }

  lemma {:induction false} RunKeepsInv(s: State, es: seq<Event>)
    requires Inv(s) && IsRun(s, es)
    ensures Inv(After(s, es))
    decreases |es|
  {
    if es != [] {
      StepKeepsInv(s, es[0]);
      RunKeepsInv(Apply(s, es[0]), es[1..]);
    }
  }

  // ---------------------------------------------------------------- guarantees

  /**
   What a series of invokes begins with, as a successful init leaves it: agents at rest, and some of them
   subscribed.
   */
  predicate CanBegin(agents: Agents, subscribed: seq<Name>) {
    && (forall n | n in agents :: Resting(agents[n]))
    && Distinct(subscribed) && |subscribed| <= MAX_AGENTS_LIMIT && (forall n | n in subscribed :: n in agents)
  }

  /**
   Invokes do not leave agents behind: in every run, whenever the driving thread is between two invokes,
   every agent that was released for the last one has itself gone back to Ready since then, once, and every
   agent is at rest, suspended in Ready or gone.
   */
  lemma InvokeWaitsForAgents(agents: Agents, subscribed: seq<Name>, es: seq<Event>)
    requires CanBegin(agents, subscribed) && IsRun(Begin(agents, subscribed), es)
    ensures var s := After(Begin(agents, subscribed), es);
            s.main.Idle? ==>
              && Distinct(s.walkLog) && (s.done > 0 ==> forall n | n in s.subscribed :: n in s.walkLog)
              && forall n | n in s.agents :: Resting(s.agents[n])
  {
    RunKeepsInv(Begin(agents, subscribed), es);
  }

  /** While an invoke waits, the gate is open exactly if every released agent is back; none is ever refused. */
  lemma GateOpensExactlyWhenAllBack(agents: Agents, subscribed: seq<Name>, es: seq<Event>)
    requires CanBegin(agents, subscribed) && IsRun(Begin(agents, subscribed), es)
    requires var s := After(Begin(agents, subscribed), es); !s.main.Failed? && !s.gate.canceled
    ensures var s := After(Begin(agents, subscribed), es);
            && (s.main.AwaitAgents? ==> (s.gate.Open() <==> forall n | n in s.subscribed :: n in s.walkLog))
            && (forall n, m | n in s.agents && I.Call(s.agents[n], m).1.WalkInvokeReady? :: !s.gate.Open())
  {
    RunKeepsInv(Begin(agents, subscribed), es);
    var s := After(Begin(agents, subscribed), es);
    if s.main.AwaitAgents? { OpenMeansAllBack(s); }
    forall n, m | n in s.agents && I.Call(s.agents[n], m).1.WalkInvokeReady?
      ensures !s.gate.Open()
    {
      CallOutcome(s.agents[n], m);
      WalkFits(s, n);
    }
  }

  // ---- which invokes can complete

  predicate Uncancelled(es: seq<Event>) { forall k | 0 <= k < |es| :: !es[k].Cancel? }

  predicate Waits(s: State) { Inv(s) && s.main.AwaitAgents? && !s.gate.canceled }

  /** A due agent that is not gone can come back: it wakes up if it has not, and asks for the next event. */
  lemma AgentComesBack(s: State, name: Name) returns (es: seq<Event>)
    requires Waits(s) && name in s.subscribed && name !in s.walkLog && !Gone(s.agents[name])
    ensures IsRun(s, es) && forall k | 0 <= k < |es| :: es[k].AgentCall? || es[k].WakeAgent?
    ensures var t := After(s, es);
            && Waits(t) && t.done == s.done && t.subscribed == s.subscribed && t.walkLog == s.walkLog + [name]
            && t.agents.Keys == s.agents.Keys
            && forall n | n in s.agents && n != name :: t.agents[n] == s.agents[n]
  {
    assert Due(name, Released(s.main, s.subscribed), s.walkLog);
    var next := AgentCall(name, I.CallReady);
    if s.agents[name].state == I.Ready {
      var wake := WakeAgent(name);
      var t := Apply(s, wake);
      StepKeepsInv(s, wake);
      StepKeepsInv(t, next);
      es := [wake, next];
      assert es[1..] == [next] && es[1..][1..] == [];
      assert IsRun(Apply(t, next), []) && IsRun(t, [next]);
      assert After(t, [next]) == Apply(t, next);
    } else {
      StepKeepsInv(s, next);
      es := [next];
      assert es[1..] == [];
    }
  }

  lemma {:induction false} RunsJoin(s: State, es: seq<Event>, fs: seq<Event>)
    requires IsRun(s, es) && IsRun(After(s, es), fs)
    ensures IsRun(s, es + fs) && After(s, es + fs) == After(After(s, es), fs)
    decreases |es|
  {
    if es == [] {
      assert es + fs == fs;
    } else {
      assert (es + fs)[1..] == es[1..] + fs;
      RunsJoin(Apply(s, es[0]), es[1..], fs);
    }
  }

  lemma {:induction false} InvokeCompletes(s: State) returns (es: seq<Event>)
    requires Waits(s) && forall n | n in s.subscribed :: n in s.walkLog || !Gone(s.agents[n])
    ensures IsRun(s, es) && Uncancelled(es) && After(s, es).done == s.done + 1
    decreases |s.subscribed| - |s.walkLog|
  {
    if forall n | n in s.subscribed :: n in s.walkLog {
      OpenMeansAllBack(s);
      es := [MainStep(true)];
      assert es[1..] == [];
    } else {
      var name :| name in s.subscribed && name !in s.walkLog;
      WalkFits(s, name);
      var back := AgentComesBack(s, name);
      var rest := InvokeCompletes(After(s, back));
      es := back + rest;
      RunsJoin(s, back, rest);
    }
  }

  /** An agent that is gone before it came back holds the invoke up, in every run without a cancellation. */
  lemma {:induction false} GoneAgentHoldsInvoke(s: State, es: seq<Event>, name: Name)
    requires Waits(s) && IsRun(s, es) && Uncancelled(es)
    requires name in s.subscribed && name !in s.walkLog && Gone(s.agents[name])
    ensures After(s, es).main.AwaitAgents? && After(s, es).done == s.done
    decreases |es|
  {
    if es != [] {
      StepKeepsInv(s, es[0]);
      StaysGone(s, es[0], name);
      GoneAgentHoldsInvoke(Apply(s, es[0]), es[1..], name);
    }
  }

  lemma StaysGone(s: State, e: Event, name: Name)
    requires Waits(s) && Enabled(s, e) && !e.Cancel?
    requires name in s.subscribed && name !in s.walkLog && Gone(s.agents[name])
    ensures var t := Apply(s, e);
            && t.main.AwaitAgents? && !t.gate.canceled && t.done == s.done && t.subscribed == s.subscribed
            && name !in t.walkLog && name in t.agents && Gone(t.agents[name])
  {
    OpenMeansAllBack(s);
    if e.AgentCall? { CallOutcome(s.agents[e.name], e.m); }
  }

  /**
   In every reachable state in which an invoke waits for its agents and nothing is cancelled, it can complete
   without a cancellation if and only if no released agent is gone without having come back.
   */
  lemma CanCompleteExactlyWhen(agents: Agents, subscribed: seq<Name>, so: seq<Event>)
    requires CanBegin(agents, subscribed) && IsRun(Begin(agents, subscribed), so)
    requires var s := After(Begin(agents, subscribed), so); s.main.AwaitAgents? && !s.gate.canceled
    ensures var s := After(Begin(agents, subscribed), so);
            && (forall n | n in s.subscribed :: n in s.agents)
            && ((exists es :: IsRun(s, es) && Uncancelled(es) && After(s, es).done > s.done)
                <==> forall n | n in s.subscribed :: n in s.walkLog || !Gone(s.agents[n]))
  {
    RunKeepsInv(Begin(agents, subscribed), so);
    var s := After(Begin(agents, subscribed), so);
    if forall n | n in s.subscribed :: n in s.walkLog || !Gone(s.agents[n]) {
      var es := InvokeCompletes(s);
      assert IsRun(s, es) && Uncancelled(es) && After(s, es).done > s.done;
    } else {
      var name :| name in s.subscribed && name !in s.walkLog && Gone(s.agents[name]);
      forall es | IsRun(s, es) && Uncancelled(es)
        ensures After(s, es).done == s.done
      {
        GoneAgentHoldsInvoke(s, es, name);
      }
    }
  }

  // ---- seen from any moment

  /** A subscribed agent is gone and has not come back, or will not, from the invoke under way or to come. */
  predicate Lost(s: State, name: Name) {
    && name in s.subscribed && name in s.agents && Gone(s.agents[name])
    && (s.main.Idle? || s.main.Resetting? || name !in s.walkLog)
  }

  predicate Alive(s: State) { Inv(s) && !s.main.Failed? && !s.gate.canceled }

  lemma StaysLost(s: State, e: Event, name: Name)
    requires Inv(s) && !s.gate.canceled && Enabled(s, e) && !e.Cancel? && Lost(s, name)
    ensures var t := Apply(s, e); !t.gate.canceled && t.done == s.done && t.subscribed == s.subscribed && Lost(t, name)
  {
    if e.AgentCall? { CallOutcome(s.agents[e.name], e.m); }
    if s.main.AwaitAgents? { OpenMeansAllBack(s); }
  }

  /** With a subscribed agent already gone, no invoke completes any more in a run without a cancellation. */
  lemma {:induction false} LostAgentStopsInvokes(s: State, es: seq<Event>, name: Name)
    requires Inv(s) && !s.gate.canceled && IsRun(s, es) && Uncancelled(es) && Lost(s, name)
    ensures After(s, es).done == s.done && Lost(After(s, es), name)
    decreases |es|
  {
    if es != [] {
      StepKeepsInv(s, es[0]);
      StaysLost(s, es[0], name);
      LostAgentStopsInvokes(Apply(s, es[0]), es[1..], name);
    }
  }

  predicate NobodyLost(s: State) { forall n | n in s.subscribed :: !Lost(s, n) }

  /** Steps of the driving thread until it waits for the agents. */
  function StepsToWait(s: State): nat {
    match s.main
    case Idle => |s.subscribed| + 5
    case Resetting => |s.subscribed| + 4
    case Counting => |s.subscribed| + 3
    case Releasing(k) => if k <= |s.subscribed| then |s.subscribed| - k + 2 else 0
    case AwaitRuntime => 1
    case _ => 0
  }

  lemma NobodyOut(s: State)
    requires LogOk(s) && s.main.Counting?
    ensures s.walkLog == []
  {
    AllOrFewer(s.walkLog, Released(s.main, s.subscribed));
  }

  lemma DriverProceeds(s: State)
    requires Alive(s) && NobodyLost(s) && !s.main.AwaitAgents?
    ensures var t := Apply(s, MainStep(true));
            Alive(t) && (t.done == s.done + 1 || (t.done == s.done && NobodyLost(t) && StepsToWait(t) < StepsToWait(s)))
  {
    StepKeepsInv(s, MainStep(true));
    match s.main
    case Releasing(k) =>
      if k < |s.subscribed| { assert s.subscribed[k] in s.subscribed; }
    case Counting =>
      NobodyOut(s);
    case Idle =>
    case Resetting =>
    case AwaitRuntime =>
      assert s.agents == map[] || Apply(s, MainStep(true)).main.AwaitAgents?;
  }

  /** From any moment of an uncancelled run with no subscribed agent lost, the next invoke can be completed. */
  lemma {:induction false} NextInvokeCompletes(s: State) returns (es: seq<Event>)
    requires Alive(s) && NobodyLost(s)
    ensures IsRun(s, es) && Uncancelled(es) && After(s, es).done == s.done + 1
    decreases StepsToWait(s)
  {
    if s.main.AwaitAgents? {
      es := InvokeCompletes(s);
    } else {
      DriverProceeds(s);
      var t := Apply(s, MainStep(true));
      var rest := [];
      if t.done == s.done { rest := NextInvokeCompletes(t); }
      es := [MainStep(true)] + rest;
      assert es[1..] == rest;
    }
  }

  /**
   At every moment of every run, also before an invoke begins: as long as nothing is cancelled, a further
   invoke can complete without a cancellation if and only if no subscribed agent is lost; between two
   invokes, where lost is gone, if and only if no subscribed agent is gone.
   */
  lemma NextInvokeCanCompleteExactlyWhen(agents: Agents, subscribed: seq<Name>, so: seq<Event>)
    requires CanBegin(agents, subscribed) && IsRun(Begin(agents, subscribed), so)
    requires var s := After(Begin(agents, subscribed), so); !s.main.Failed? && !s.gate.canceled
    ensures var s := After(Begin(agents, subscribed), so);
            && (forall n | n in s.subscribed :: n in s.agents)
            && ((exists es :: IsRun(s, es) && Uncancelled(es) && After(s, es).done > s.done) <==> NobodyLost(s))
            && (s.main.Idle? ==> (NobodyLost(s) <==> forall n | n in s.subscribed :: !Gone(s.agents[n])))
  {
    RunKeepsInv(Begin(agents, subscribed), so);
    var s := After(Begin(agents, subscribed), so);
    if NobodyLost(s) {
      var es := NextInvokeCompletes(s);
      assert IsRun(s, es) && Uncancelled(es) && After(s, es).done > s.done;
    } else {
      var name :| name in s.subscribed && Lost(s, name);
      forall es | IsRun(s, es) && Uncancelled(es)
        ensures After(s, es).done == s.done
      {
        LostAgentStopsInvokes(s, es, name);
      }
    }
  }

  // ---- an extension that exits during an invoke

  const RESTING_AGENT := I.Agent(true, I.Ready, "", 1, false)
  const RELEASED_AGENT := I.Agent(true, I.Ready, "", 1, true)
  const EXITED_AGENT := I.Agent(true, I.ExitError, "Extension.Crash", 1, true)

  const TOLD := GateState(1, 0, false, None)
  const ALONE := Begin(map["agent" := RESTING_AGENT], ["agent"])
  const OUT: State := State(["agent"], map["agent" := RELEASED_AGENT], TOLD, AwaitRuntime, 0, [])
  const LEFT: State := State(["agent"], map["agent" := EXITED_AGENT], TOLD, AwaitAgents, 0, [])

  const RELEASING: seq<Event> := [MainStep(true), MainStep(true), MainStep(true), MainStep(true), MainStep(true)]
  const LEAVING: seq<Event> := [AgentCall("agent", I.CallExitError("Extension.Crash")), MainStep(true)]

  lemma AgentIsReleased()
    ensures IsRun(ALONE, RELEASING) && After(ALONE, RELEASING) == OUT
  {
    var m := MainStep(true);
    var resting, released := map["agent" := RESTING_AGENT], map["agent" := RELEASED_AGENT];
    assert resting["agent" := RELEASED_AGENT] == released;
    assert [m] + [] == [m] && [m] + [m] == [m, m] && [m] + [m, m] == [m, m, m] && [m] + [m, m, m] == [m, m, m, m];
    assert [m] + [m, m, m, m] == RELEASING;
  }

  lemma AgentLeaves()
    ensures IsRun(OUT, LEAVING) && After(OUT, LEAVING) == LEFT
  {
    var exit := AgentCall("agent", I.CallExitError("Extension.Crash"));
    var between := OUT.(agents := map["agent" := EXITED_AGENT]);
    assert Apply(OUT, exit) == between;
    assert [MainStep(true)] + [] == [MainStep(true)] && [exit] + [MainStep(true)] == LEAVING;
  }

  /**
   An extension reports its exit after it was released: the invoke waits for it in every run without a
   cancellation.
   */
  lemma ExitDuringInvokeHangs(more: seq<Event>)
    requires IsRun(LEFT, more) && Uncancelled(more)
    ensures CanBegin(ALONE.agents, ALONE.subscribed)
    ensures IsRun(ALONE, RELEASING + LEAVING) && After(ALONE, RELEASING + LEAVING) == LEFT
    ensures After(LEFT, more).main.AwaitAgents? && After(LEFT, more).done == 0
  {
    AgentIsReleased();
    AgentLeaves();
    RunsJoin(ALONE, RELEASING, LEAVING);
    RunKeepsInv(ALONE, RELEASING + LEAVING);
    GoneAgentHoldsInvoke(LEFT, more, "agent");
  }

  // ---------------------------------------------------------------- init leads up to this

  predicate NobodyReleased(es: seq<I.Event>) { forall k | 0 <= k < |es| :: !es[k].ReleaseAgent? }

  predicate Untouched(a: I.Agent) { !a.released && a.state !in {I.Running, I.ShutdownFailed, I.Exited} }

  predicate Unreleased(agents: Agents) { forall n | n in agents :: Untouched(agents[n]) }

  lemma StepLeavesUnreleased(s: I.State, e: I.Event)
    requires Unreleased(s.agents) && I.Enabled(s, e) && !e.ReleaseAgent?
    ensures Unreleased(I.Apply(s, e).agents)
  {
    match e
    case InitStep(outcome) =>
    case AgentCall(name, m) =>
      assert I.CallAgent(s, name, m).agents == s.agents[name := I.Call(s.agents[name], m).0];
    case _ =>
  }

  lemma {:induction false} StaysUnreleased(s: I.State, es: seq<I.Event>)
    requires Unreleased(s.agents) && I.IsRun(s, es) && NobodyReleased(es)
    ensures Unreleased(I.After(s, es).agents)
    decreases |es|
  {
    if es != [] {
      StepLeavesUnreleased(s, es[0]);
      StaysUnreleased(I.Apply(s, es[0]), es[1..]);
    }
  }

  /**
   After a successful init, in which nobody releases agents, a series of invokes can begin with any of them
   subscribed.
   */
  lemma InitLeavesAgentsAtRest(paths: seq<Name>, staleCount: uint16, es: seq<I.Event>, subscribed: seq<Name>)
    requires I.IsRun(I.Begin(paths, staleCount), es) && NobodyReleased(es)
    requires I.After(I.Begin(paths, staleCount), es).init.InitDone?
    requires Distinct(subscribed) && forall n | n in subscribed :: n in I.After(I.Begin(paths, staleCount), es).agents
    ensures CanBegin(I.After(I.Begin(paths, staleCount), es).agents, subscribed)
  {
    var s := I.After(I.Begin(paths, staleCount), es);
    StaysUnreleased(I.Begin(paths, staleCount), es);
    G.InitWaitsForEveryAgent(paths, staleCount, es);
    G.AgentsWalkOnce(paths, staleCount, es);
    G.RunKeepsInv(I.Begin(paths, staleCount), es);
    DistinctAmong(subscribed, s.agents.Keys);
    assert |s.agents.Keys| == |s.agents|;
    forall n | n in s.agents
      ensures Resting(s.agents[n])
    {
      assert S.AgentOk(s.agents[n], n in s.walkLog, n in s.registered);
    }
  }
}
