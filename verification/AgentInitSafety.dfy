/** What every step of init keeps of each agent and of the launch of the external ones. */
module AgentInitSafety {
  import opened Collections
  import opened AgentInit

  // ---------------------------------------------------------------- each agent

  /** An agent's state determines whether it has walked the gates, and how many threads it keeps suspended. */
  predicate AgentOk(a: Agent, walked: bool, registered: bool) {
    && (registered <==> a.external && a.state != Started && a.state != LaunchError)
    && match a.state
       case Started => !walked && a.suspended == 0
       case LaunchError => !walked && a.suspended == 0
       case Registered => !walked && a.suspended == 0
       case InitError => !walked && a.suspended == 0
       case Ready => walked && a.suspended == 1
       case Running => walked && a.suspended == 0
       case ShutdownFailed => walked && a.suspended == 0
       case Exited => walked && a.suspended == 0
       case ExitError => a.suspended <= 1
  }

  predicate AgentsOk(agents: map<Name, Agent>, walkLog: seq<Name>, registered: seq<Name>) {
    && Distinct(walkLog) && Distinct(registered)
    && (forall n | n in walkLog :: n in agents)
    && (forall n | n in registered :: n in agents)
    && (forall n | n in agents :: AgentOk(agents[n], n in walkLog, n in registered))
  }

  lemma NewAgentIsOk(agents: map<Name, Agent>, walkLog: seq<Name>, registered: seq<Name>, name: Name, external: bool)
    requires AgentsOk(agents, walkLog, registered) && name !in agents
    ensures AgentsOk(agents[name := Agent(external, Started, "", 0, false)], walkLog, registered)
  {
  }

  lemma ChangedAgentIsOk(agents: map<Name, Agent>, walkLog: seq<Name>, registered: seq<Name>, name: Name, a: Agent)
    requires AgentsOk(agents, walkLog, registered) && name in agents && AgentOk(a, name in walkLog, name in registered)
    ensures AgentsOk(agents[name := a], walkLog, registered)
  {
  }

  lemma WalkingAgentIsOk(agents: map<Name, Agent>, walkLog: seq<Name>, registered: seq<Name>, name: Name, a: Agent)
    requires AgentsOk(agents, walkLog, registered) && name in agents && name !in walkLog
             && AgentOk(a, true, name in registered)
    ensures AgentsOk(agents[name := a], walkLog + [name], registered)
  {
    forall n | n in agents && n != name
      ensures n in walkLog + [name] <==> n in walkLog
    {
    }
    assert (walkLog + [name])[|walkLog|] == name;
  }

  lemma RegisteringAgentIsOk(agents: map<Name, Agent>, walkLog: seq<Name>, registered: seq<Name>, name: Name, a: Agent)
    requires AgentsOk(agents, walkLog, registered) && name in agents && name !in registered
             && AgentOk(a, name in walkLog, true)
    ensures AgentsOk(agents[name := a], walkLog, registered + [name])
  {
    forall n | n in agents && n != name
      ensures n in registered + [name] <==> n in registered
    {
    }
    assert (registered + [name])[|registered|] == name;
  }

  lemma CallKeepsAgents(s: State, name: Name, m: Method)
    requires AgentsOk(s.agents, s.walkLog, s.registered) && name in s.agents
    ensures var t := CallAgent(s, name, m); AgentsOk(t.agents, t.walkLog, t.registered)
  {
    var (a, walk, _) := Call(s.agents[name], m);
    match walk
    case WalkRegistered => RegisteringAgentIsOk(s.agents, s.walkLog, s.registered, name, a);
    case WalkInitReady => WalkingAgentIsOk(s.agents, s.walkLog, s.registered, name, a);
    case _ => ChangedAgentIsOk(s.agents, s.walkLog, s.registered, name, a);
  }

  lemma InitKeepsAgents(s: State, outcome: Outcome)
    requires AgentsOk(s.agents, s.walkLog, s.registered) && Enabled(s, InitStep(outcome))
    requires s.init.CheckLimit? || s.init.Exec? ==> s.init.k < |s.paths| && s.paths[s.init.k] in s.agents
    ensures var t := StepInit(s, outcome); AgentsOk(t.agents, t.walkLog, t.registered)
  {
    var t := StepInit(s, outcome);
    match s.init
    case Create(k) =>
      if t.init.CheckLimit? { NewAgentIsOk(s.agents, s.walkLog, s.registered, s.paths[k], true); }
    case CheckLimit(k) =>
      var a := s.agents[s.paths[k]];
      ChangedAgentIsOk(s.agents, s.walkLog, s.registered, s.paths[k],
                       Call(a, CallLaunchError(AgentInfoErrorType(OverTheLimit))).0);
    case Exec(k) =>
      if outcome.Fails? {
        var a := s.agents[s.paths[k]];
        ChangedAgentIsOk(s.agents, s.walkLog, s.registered, s.paths[k], t.agents[s.paths[k]]);
      }
    case _ =>
  }

  lemma StepKeepsAgents(s: State, e: Event)
    requires AgentsOk(s.agents, s.walkLog, s.registered) && Enabled(s, e)
    requires s.init.CheckLimit? || s.init.Exec? ==> s.init.k < |s.paths| && s.paths[s.init.k] in s.agents
    ensures var t := Apply(s, e); AgentsOk(t.agents, t.walkLog, t.registered)
  {
    match e
    case InitStep(outcome) => InitKeepsAgents(s, outcome);
    case AgentCall(name, m) => CallKeepsAgents(s, name, m);
    case CreateInternal(name) =>
      if name !in s.agents { NewAgentIsOk(s.agents, s.walkLog, s.registered, name, false); }
    case ReleaseAgent(name) =>
      ChangedAgentIsOk(s.agents, s.walkLog, s.registered, name, s.agents[name].(released := true));
    case WakeAgent(name) => ChangedAgentIsOk(s.agents, s.walkLog, s.registered, name, Wake(s.agents[name]));
    case CancelFlows(_) =>
  }

  // ---------------------------------------------------------------- launching the external agents

  /** How many external agents have been created so far. */
  function Created(pc: InitPc, n: nat): nat {
    match pc
    case SetRegisterCount => 0
    case Create(k) => k
    case CheckLimit(k) => k + 1
    case Exec(k) => k + 1
    case _ => n
  }

  function Externals(agents: map<Name, Agent>): set<Name> {
    set n | n in agents && agents[n].external
  }

  /** The external agents are exactly those of the paths handled so far, which are all different. */
  predicate PathsOk(pc: InitPc, paths: seq<Name>, externals: set<Name>) {
    !pc.InitFailed? ==>
      var c := Created(pc, |paths|);
      c <= |paths| && Distinct(paths[..c]) && externals == (set n | n in paths[..c]) && (pc.Create? ==> pc.k < |paths|)
  }

  predicate LimitOk(pc: InitPc, agents: nat) {
    agents <= (if pc.CheckLimit? || pc.InitFailed? then MAX_AGENTS_ALLOWED + 1 else MAX_AGENTS_ALLOWED)
  }

  predicate LaunchOk(s: State) {
    && PathsOk(s.init, s.paths, Externals(s.agents))
    && LimitOk(s.init, |s.agents|)
    && (s.init.SetReadyCount? || s.init.AwaitReady? || s.init.InitDone? ==> !s.on)
  }

  /** Changing an agent in place changes neither the external agents nor the number of agents. */
  lemma ChangedAgentKeepsLaunch(agents: map<Name, Agent>, name: Name, a: Agent)
    requires name in agents && a.external == agents[name].external
    ensures Externals(agents[name := a]) == Externals(agents) && |agents[name := a]| == |agents|
    ensures agents[name := a].Keys == agents.Keys
  {
    assert agents[name := a].Keys == agents.Keys;
  }

  lemma CallKeepsKind(a: Agent, m: Method)
    ensures Call(a, m).0.external == a.external
  {
  }

  lemma CreateKeepsLaunch(s: State, outcome: Outcome)
    requires LaunchOk(s) && s.init.Create?
    ensures LaunchOk(StepInit(s, outcome))
  {
    var k := s.init.k;
    var t := StepInit(s, outcome);
    assert s.paths[..k + 1] == s.paths[..k] + [s.paths[k]];
    if t.init.CheckLimit? {
      assert t.agents.Keys == s.agents.Keys + {s.paths[k]};
      assert Externals(t.agents) == Externals(s.agents) + {s.paths[k]};
      assert s.paths[k] !in Externals(s.agents);
      DistinctSnoc(s.paths[..k], s.paths[k]);
    }
  }

  /** A step of the launch loop leaves the agents alone or changes the agent just created. */
  lemma LaunchingChangesOne(s: State, outcome: Outcome)
    requires (s.init.CheckLimit? || s.init.Exec?) && s.init.k < |s.paths| && s.paths[s.init.k] in s.agents
    ensures var t := StepInit(s, outcome);
            && t.paths == s.paths && t.on == s.on
            && (t.agents == s.agents || t.agents == s.agents[s.paths[s.init.k] := t.agents[s.paths[s.init.k]]])
            && s.paths[s.init.k] in t.agents
            && t.agents[s.paths[s.init.k]].external == s.agents[s.paths[s.init.k]].external
            && (t.init.InitFailed? || Created(t.init, |s.paths|) == Created(s.init, |s.paths|) || !t.init.Create?)
            && (s.init.CheckLimit? && !t.init.InitFailed? ==> |s.agents| <= MAX_AGENTS_ALLOWED)
  {
  }

  lemma LaunchingKeepsLaunch(s: State, outcome: Outcome)
    requires LaunchOk(s) && (s.init.CheckLimit? || s.init.Exec?)
    ensures LaunchOk(StepInit(s, outcome))
  {
    var k := s.init.k;
    var name := s.paths[k];
    assert s.paths[..k + 1][k] == name;
    assert name in Externals(s.agents);
    LaunchingChangesOne(s, outcome);
    ChangedAgentKeepsLaunch(s.agents, name, StepInit(s, outcome).agents[name]);
  }

  lemma InitKeepsLaunch(s: State, outcome: Outcome)
    requires LaunchOk(s) && Enabled(s, InitStep(outcome)) && !s.init.Create?
    ensures LaunchOk(StepInit(s, outcome))
  {
    if s.init.CheckLimit? || s.init.Exec? { LaunchingKeepsLaunch(s, outcome); }
  }

  lemma QuietStepKeepsLaunch(s: State, t: State)
    requires LaunchOk(s) && t.init == s.init && t.paths == s.paths && t.on == s.on
    requires Externals(t.agents) == Externals(s.agents)
    requires |t.agents| == |s.agents| || |t.agents| <= MAX_AGENTS_ALLOWED
    ensures LaunchOk(t)
  {
  }

  lemma InternalIsNotExternal(agents: map<Name, Agent>, name: Name)
    requires name !in agents
    ensures Externals(agents[name := Agent(false, Started, "", 0, false)]) == Externals(agents)
    ensures |agents[name := Agent(false, Started, "", 0, false)]| == |agents| + 1
  {
    var more := agents[name := Agent(false, Started, "", 0, false)];
    assert more.Keys == agents.Keys + {name};
  }

  lemma StepKeepsLaunch(s: State, e: Event)
    requires LaunchOk(s) && Enabled(s, e)
    ensures LaunchOk(Apply(s, e))
  {
    match e
    case InitStep(outcome) =>
      if s.init.Create? { CreateKeepsLaunch(s, outcome); } else { InitKeepsLaunch(s, outcome); }
    case AgentCall(name, m) =>
      CallKeepsKind(s.agents[name], m);
      ChangedAgentKeepsLaunch(s.agents, name, Call(s.agents[name], m).0);
      QuietStepKeepsLaunch(s, Apply(s, e));
    case ReleaseAgent(name) =>
      ChangedAgentKeepsLaunch(s.agents, name, s.agents[name].(released := true));
      QuietStepKeepsLaunch(s, Apply(s, e));
    case WakeAgent(name) =>
      ChangedAgentKeepsLaunch(s.agents, name, Wake(s.agents[name]));
      QuietStepKeepsLaunch(s, Apply(s, e));
    case CreateInternal(name) =>
      if name !in s.agents { InternalIsNotExternal(s.agents, name); }
      QuietStepKeepsLaunch(s, Apply(s, e));
    case CancelFlows(_) => QuietStepKeepsLaunch(s, Apply(s, e));
  }
}
