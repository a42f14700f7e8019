/** The guarantees of init, stated for every run of it. */
module AgentInitGuarantees {
  import opened Wrappers
  import opened Collections
  import opened AgentInit
  import opened AgentInitSafety
  import opened AgentInitGates

  // ---------------------------------------------------------------- whole runs

  predicate PastRegistration(pc: InitPc) {
    pc.AwaitRestoreReady? || pc.TurnOff? || pc.SetReadyCount? || pc.AwaitReady? || pc.InitDone?
  }

  predicate RegisteredOk(s: State) {
    PastRegistration(s.init) ==> forall n | n in s.paths :: n in s.registered
  }

  predicate Inv(s: State) {
    AgentsOk(s.agents, s.walkLog, s.registered) && LaunchOk(s) && RegisterGateOk(s) && ReadyGateOk(s) && RegisteredOk(s)
  }

  /** When the registration gate lets init pass, it has counted every launched agent. */
  lemma AllRegisteredWhenOpen(s: State)
    requires AgentsOk(s.agents, s.walkLog, s.registered) && LaunchOk(s) && RegisterGateOk(s)
    requires s.init.AwaitRegistered? && s.registerGate.Open()
    ensures forall n | n in s.paths :: n in s.registered
  {
    assert s.paths[..|s.paths|] == s.paths;
    DistinctAmong(s.paths, Externals(s.agents));
    ExternalsAreAgents(s.agents);
    SetOfSeqIsSmall(s.paths);
    DistinctAmong(s.registered, Externals(s.agents));
  }

  lemma ExternalsAreAgents(agents: map<Name, Agent>)
    ensures |Externals(agents)| <= |agents|
  {
    SubsetIsSmaller(Externals(agents), agents.Keys);
    assert |agents.Keys| == |agents|;
  }

  lemma StepKeepsRegistered(s: State, e: Event)
    requires AgentsOk(s.agents, s.walkLog, s.registered) && LaunchOk(s) && RegisterGateOk(s) && RegisteredOk(s)
    requires Enabled(s, e)
    ensures RegisteredOk(Apply(s, e))
  {
    if s.init.AwaitRegistered? && s.registerGate.Open() { AllRegisteredWhenOpen(s); }
  }

  lemma StepKeepsInv(s: State, e: Event)
    requires Inv(s) && Enabled(s, e)
    ensures Inv(Apply(s, e))
  {
    if s.init.CheckLimit? || s.init.Exec? {
      var k := s.init.k;
      assert s.paths[..k + 1][k] == s.paths[k];
      assert s.paths[k] in Externals(s.agents);
    }
    StepKeepsAgents(s, e);
    StepKeepsLaunch(s, e);
    StepKeepsRegisterGate(s, e);
    StepKeepsReadyGate(s, e);
    StepKeepsRegistered(s, e);
  }

  lemma {:induction false} RunKeepsInv(s: State, es: seq<Event>)
    requires Inv(s) && IsRun(s, es)
    ensures Inv(After(s, es))
    decreases |es|
  {
    if es != [] {
      StepKeepsInv(s, es[0]);
      RunKeepsInv(Apply(s, es[0]), es[1..]);
    }
  }

  /**
   Init completes only when every agent known to the registration service has itself gone from Registered
   to Ready, and every external agent that was launched has registered.
   */
  lemma InitWaitsForEveryAgent(paths: seq<Name>, staleCount: Gate.uint16, es: seq<Event>)
    requires IsRun(Begin(paths, staleCount), es) && After(Begin(paths, staleCount), es).init.InitDone?
    ensures var s := After(Begin(paths, staleCount), es);
            && (forall n | n in s.agents ::
                  n in s.walkLog && s.agents[n].state !in {Started, Registered, InitError, LaunchError})
            && (forall n | n in s.paths :: n in s.registered && n in s.agents)
  {
    RunKeepsInv(Begin(paths, staleCount), es);
    EveryoneWalked(After(Begin(paths, staleCount), es));
  }

  lemma EveryoneWalked(s: State)
    requires Inv(s) && s.init.InitDone?
    ensures forall n | n in s.agents :: n in s.walkLog
  {
    var e := s.early.value;
    assert |s.through| <= |s.walkLog|;
    DistinctAmong(s.walkLog, s.agents.Keys);
    assert |s.agents.Keys| == |s.agents|;
  }

  /** No agent walks the ready gate twice, no agent keeps two threads suspended, and the agents never exceed eleven. */
  lemma AgentsWalkOnce(paths: seq<Name>, staleCount: Gate.uint16, es: seq<Event>)
    requires IsRun(Begin(paths, staleCount), es)
    ensures var s := After(Begin(paths, staleCount), es);
            && Distinct(s.walkLog) && Distinct(s.registered) && |s.agents| <= MAX_AGENTS_ALLOWED + 1
            && (forall n | n in s.agents ::
                  s.agents[n].suspended <= 1 && (s.agents[n].state == Running ==> s.agents[n].suspended == 0))
  {
    RunKeepsInv(Begin(paths, staleCount), es);
  }

  predicate Terminal(state: AgentState) {
    state in {InitError, ExitError, ShutdownFailed, Exited, LaunchError}
  }

  /** Terminal agent states are never left, whatever calls and wake-ups follow, and keep their first error type. */
  lemma {:induction false} TerminalStatesAreKept(s: State, es: seq<Event>, name: Name)
    requires IsRun(s, es) && name in s.agents && Terminal(s.agents[name].state)
    ensures var t := After(s, es);
            name in t.agents && t.agents[name].state == s.agents[name].state
            && t.agents[name].errorType == s.agents[name].errorType
    decreases |es|
  {
    if es != [] {
      TerminalStep(s, es[0], name);
      TerminalStatesAreKept(Apply(s, es[0]), es[1..], name);
    }
  }

  lemma TerminalStep(s: State, e: Event, name: Name)
    requires Enabled(s, e) && name in s.agents && Terminal(s.agents[name].state)
    ensures var t := Apply(s, e);
            name in t.agents && t.agents[name].state == s.agents[name].state
            && t.agents[name].errorType == s.agents[name].errorType
  {
    match e
    case InitStep(outcome) =>
    case AgentCall(n, m) =>
    case _ =>
  }

  /** Once registration is off, the set of agents is fixed. */
  lemma {:induction false} AgentsAreFixedAfterTurnOff(s: State, es: seq<Event>)
    requires IsRun(s, es) && !s.on
    ensures var t := After(s, es); !t.on && t.agents.Keys == s.agents.Keys
    decreases |es|
  {
    if es != [] {
      AgentsAreFixedAfterTurnOff(Apply(s, es[0]), es[1..]);
    }
  }

  /**
   Exactly when the ready gate is open once its count has been set: every agent has gone from Registered to
   Ready, and no more of them came before the count was set than the stale count let through.
   */
  lemma GateOpensExactlyWhen(paths: seq<Name>, staleCount: Gate.uint16, es: seq<Event>)
    requires IsRun(Begin(paths, staleCount), es) && After(Begin(paths, staleCount), es).early.Some?
    ensures var s := After(Begin(paths, staleCount), es);
            s.readyGate.Open() <==> s.early.value <= staleCount && forall n | n in s.agents :: n in s.walkLog
  {
    RunKeepsInv(Begin(paths, staleCount), es);
    SameStaleCount(Begin(paths, staleCount), es);
    OpenExactlyWhen(After(Begin(paths, staleCount), es));
  }

  lemma OpenExactlyWhen(s: State)
    requires Inv(s) && s.early.Some?
    ensures s.readyGate.Open() <==> s.early.value <= s.staleCount && forall n | n in s.agents :: n in s.walkLog
  {
    DistinctAmong(s.walkLog, s.agents.Keys);
    assert |s.agents.Keys| == |s.agents|;
    if forall n | n in s.agents :: n in s.walkLog {
      SubsetIsSmaller(s.agents.Keys, set n | n in s.walkLog);
      SetOfSeqIsSmall(s.walkLog);
    }
  }

  lemma {:induction false} SameStaleCount(s: State, es: seq<Event>)
    requires IsRun(s, es)
    ensures After(s, es).staleCount == s.staleCount
    decreases |es|
  {
    if es != [] { SameStaleCount(Apply(s, es[0]), es[1..]); }
  }

  /** In the first generation, whose count is 65535, the gate is open exactly when everyone is ready. */
  lemma FirstGenerationOpens(paths: seq<Name>, es: seq<Event>)
    requires IsRun(Begin(paths, Gate.MAX_AGENTS_LIMIT), es)
             && After(Begin(paths, Gate.MAX_AGENTS_LIMIT), es).early.Some?
    ensures var s := After(Begin(paths, Gate.MAX_AGENTS_LIMIT), es);
            s.readyGate.Open() <==> forall n | n in s.agents :: n in s.walkLog
  {
    GateOpensExactlyWhen(paths, Gate.MAX_AGENTS_LIMIT, es);
    RunKeepsInv(Begin(paths, Gate.MAX_AGENTS_LIMIT), es);
    var s := After(Begin(paths, Gate.MAX_AGENTS_LIMIT), es);
    DistinctAmong(s.walkLog, s.agents.Keys);
    assert |s.agents.Keys| == |s.agents|;
  }

  const CLOSING: seq<Event> := [InitStep(Succeeds), InitStep(Succeeds), InitStep(Succeeds)]
  const GETTING_READY: seq<Event> :=
    [CreateInternal("agent"), AgentCall("agent", Register(true)), AgentCall("agent", CallReady)] + CLOSING
  const EARLY_AGENT: seq<Event> := [InitStep(Succeeds), InitStep(Succeeds)] + GETTING_READY

  const LAUNCHED := State([], 0, map[], true, Gate.GateState(0, 0, false, None), Gate.GateState(0, 0, false, None),
                          AwaitRestoreReady, [], [], None, [])
  const REFUSED := LAUNCHED.(agents := map["agent" := Agent(false, Ready, "", 1, false)], walkLog := ["agent"])
  const SHUT := REFUSED.(on := false, readyGate := Gate.GateState(1, 0, false, None), early := Some(1),
                         init := AwaitReady)

  lemma ClosingAfterRefusal()
    ensures IsRun(REFUSED, CLOSING) && After(REFUSED, CLOSING) == SHUT
  {
    var s1 := Apply(REFUSED, CLOSING[0]);
    var s2 := Apply(s1, CLOSING[1]);
    assert Apply(s2, CLOSING[2]) == SHUT;
    Prepend(s2, CLOSING[2..]);
    Prepend(s1, CLOSING[1..]);
    Prepend(REFUSED, CLOSING);
  }

  lemma ReadyTooEarly()
    ensures IsRun(LAUNCHED, GETTING_READY) && After(LAUNCHED, GETTING_READY) == SHUT
  {
    var es := GETTING_READY;
    var s1 := Apply(LAUNCHED, es[0]);
    var s2 := Apply(s1, es[1]);
    assert Apply(s2, es[2]) == REFUSED;
    ClosingAfterRefusal();
    assert es[3..] == CLOSING;
    Prepend(s2, es[2..]);
    Prepend(s1, es[1..]);
    Prepend(LAUNCHED, es);
  }

  /**
   In a later generation it may stay shut: after a generation without agents the count is zero, an agent
   that is ready before the count is set is refused, and init waits for an arrival that cannot come.
   */
  lemma StaleCountShutsOut()
    ensures IsRun(Begin([], 0), EARLY_AGENT)
    ensures var s := After(Begin([], 0), EARLY_AGENT);
            && s.init.AwaitReady? && !Enabled(s, InitStep(Succeeds))
            && s.agents.Keys == {"agent"} && s.agents["agent"].state == Ready && s.walkLog == ["agent"]
  {
    var es := EARLY_AGENT;
    var s1 := Apply(Begin([], 0), es[0]);
    assert Apply(s1, es[1]) == LAUNCHED;
    ReadyTooEarly();
    assert es[2..] == GETTING_READY;
    Prepend(s1, es[1..]);
    Prepend(Begin([], 0), es);
  }

  lemma Prepend(s: State, es: seq<Event>)
    requires es != [] && Enabled(s, es[0]) && IsRun(Apply(s, es[0]), es[1..])
    ensures IsRun(s, es) && After(s, es) == After(Apply(s, es[0]), es[1..])
  {
  }
}
