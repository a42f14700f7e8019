/** What every step of init keeps of its two gates. */
module AgentInitGates {
  import opened Wrappers
  import opened Collections
  import opened AgentInit
  import opened AgentInitSafety

  // ---------------------------------------------------------------- the two gates

  predicate RegisterGateOk(s: State) {
    if s.init.SetRegisterCount? then s.registerGate.arrived == 0 && s.registered == []
    else if s.init.InitFailed? || |s.paths| >= 0x1_0000 then true
    else s.registerGate.count == |s.paths| && s.registerGate.arrived == |s.registered|
  }

  /** A registering agent finds room at the gate: the gate expects every path, and it is one that has not come yet. */
  lemma RegistrationsFit(s: State, name: Name)
    requires LaunchOk(s) && AgentsOk(s.agents, s.walkLog, s.registered) && !s.init.InitFailed?
    requires name in s.agents && s.agents[name].external && name !in s.registered
    ensures |s.registered| + 1 <= Created(s.init, |s.paths|) <= |s.paths|
  {
    var later := s.registered + [name];
    forall n | n in later
      ensures n in Externals(s.agents)
    {
      if n != name { assert n in s.registered; }
    }
    DistinctAmong(later, Externals(s.agents));
    SetOfSeqIsSmall(s.paths[..Created(s.init, |s.paths|)]);
  }

  lemma StepKeepsRegisterGate(s: State, e: Event)
    requires RegisterGateOk(s) && LaunchOk(s) && AgentsOk(s.agents, s.walkLog, s.registered) && Enabled(s, e)
    ensures RegisterGateOk(Apply(s, e))
  {
    match e
    case AgentCall(name, m) =>
      if Call(s.agents[name], m).1.WalkRegistered? && !s.init.InitFailed? { RegistrationsFit(s, name); }
    case InitStep(outcome) => InitKeepsRegisterGate(s, outcome);
    case _ =>
  }

  lemma InitKeepsRegisterGate(s: State, outcome: Outcome)
    requires RegisterGateOk(s) && LaunchOk(s) && Enabled(s, InitStep(outcome))
    ensures RegisterGateOk(StepInit(s, outcome))
  {
  }

  function Min(a: nat, b: nat): nat { if a <= b then a else b }

  /** Exactly which walks got through: as many early ones as the stale count allowed, and every later one. */
  predicate ThroughOk(stale: nat, walkLog: seq<Name>, through: seq<Name>, early: Option<nat>) {
    if early.None? then through == walkLog[..Min(stale, |walkLog|)]
    else early.value <= |walkLog| && through == walkLog[..Min(stale, early.value)] + walkLog[early.value..]
  }

  /** The ready gate counts the walks that got through; it expects the stale count, and then all agents. */
  predicate ReadyCount(g: Gate.GateState, stale: nat, walkLog: seq<Name>, through: seq<Name>, early: Option<nat>,
                       agents: nat) {
    && g.arrived == |through| && ThroughOk(stale, walkLog, through, early)
    && g.count == (if early.None? then stale else agents)
  }

  predicate ReadyGateOk(s: State) {
    && ReadyCount(s.readyGate, s.staleCount, s.walkLog, s.through, s.early, |s.agents|)
    && (s.early.Some? ==> !s.on && (s.init.AwaitReady? || s.init.InitDone? || s.init.InitFailed?))
    && (s.init.AwaitReady? || s.init.InitDone? ==> s.early.Some?)
    && (s.init.InitDone? ==> |s.through| == |s.agents|)
  }

  /** Every agent walks at most once, so a walking agent is one that the log does not hold yet. */
  lemma WalksFit(s: State, name: Name)
    requires AgentsOk(s.agents, s.walkLog, s.registered) && name in s.agents && name !in s.walkLog
    ensures |s.walkLog| + 1 <= |s.agents|
  {
    var later := s.walkLog + [name];
    forall n | n in later
      ensures n in s.agents.Keys
    {
      if n != name { assert n in s.walkLog; }
    }
    DistinctAmong(later, s.agents.Keys);
    assert |s.agents.Keys| == |s.agents|;
  }

  lemma CallKeepsReadyGate(s: State, name: Name, m: Method)
    requires ReadyGateOk(s) && LaunchOk(s) && AgentsOk(s.agents, s.walkLog, s.registered) && name in s.agents
    ensures ReadyGateOk(CallAgent(s, name, m))
  {
    if Call(s.agents[name], m).1.WalkInitReady? {
      assert AgentOk(s.agents[name], name in s.walkLog, name in s.registered);
      WalksFit(s, name);
      WalkIsCounted(s.readyGate, s.staleCount, s.walkLog, s.through, s.early, |s.agents|, name);
    }
  }

  lemma WalkIsCounted(g: Gate.GateState, stale: nat, walkLog: seq<Name>, through: seq<Name>, early: Option<nat>,
                      agents: nat,
                      name: Name)
    requires ReadyCount(g, stale, walkLog, through, early, agents) && |walkLog| < agents
    ensures ReadyCount(g.Walk(), stale, walkLog + [name], if g.Open() then through else through + [name], early, agents)
    ensures early.Some? ==> |through| < agents
  {
  }

  lemma SettingTheCountKeepsReadyGate(s: State, outcome: Outcome)
    requires ReadyGateOk(s) && LaunchOk(s) && s.init.SetReadyCount? && |s.walkLog| <= |s.agents|
    ensures ReadyGateOk(StepInit(s, outcome)) && StepInit(s, outcome).init.AwaitReady?
  {
    var n := |s.walkLog|;
    assert s.walkLog[n..] == [] && s.through == s.walkLog[..Min(s.staleCount, n)] + s.walkLog[n..];
  }

  lemma InitKeepsReadyGate(s: State, outcome: Outcome)
    requires ReadyGateOk(s) && LaunchOk(s) && AgentsOk(s.agents, s.walkLog, s.registered)
             && Enabled(s, InitStep(outcome))
    ensures ReadyGateOk(StepInit(s, outcome))
  {
    if s.init.SetReadyCount? {
      DistinctAmong(s.walkLog, s.agents.Keys);
      assert |s.agents.Keys| == |s.agents|;
      SettingTheCountKeepsReadyGate(s, outcome);
    }
  }

  lemma StepKeepsReadyGate(s: State, e: Event)
    requires ReadyGateOk(s) && LaunchOk(s) && AgentsOk(s.agents, s.walkLog, s.registered) && Enabled(s, e)
    ensures ReadyGateOk(Apply(s, e))
  {
    match e
    case InitStep(outcome) => InitKeepsReadyGate(s, outcome);
    case AgentCall(name, m) => CallKeepsReadyGate(s, name, m);
    case _ =>
  }
}
