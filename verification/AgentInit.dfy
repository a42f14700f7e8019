/**
 Initialisation with extensions: the agents' state machines, the registration service and the two init
 gates they walk, and the thread that launches the external agents, closes registration and waits.

 One generation is modelled, from a cleared init flow to the end of init.  Clearing a gate forgets its
 arrivals but keeps its count, so the ready gate starts with whatever count the previous generation left
 (65535 in the first one): the `staleCount` below.
 */
module AgentInit {
  import opened Wrappers
  import opened Gate

  type Name = string

  const MAX_AGENTS_ALLOWED: nat := 10

  datatype AgentState =
    | Started | Registered | Ready | Running
    | InitError | ExitError | ShutdownFailed | Exited | LaunchError

  datatype Method =
    | Register(valid: bool)          // whether every event in the list may be subscribed to
    | CallReady
    | CallInitError(errorType: string)
    | CallExitError(errorType: string)
    | CallShutdownFailed
    | CallExited
    | CallLaunchError(errorType: string)

  /** The gate a call walks through. */
  datatype Walk = NoWalk | WalkRegistered | WalkInitReady | WalkInvokeReady

  datatype Agent = Agent(external: bool, state: AgentState, errorType: string, suspended: nat, released: bool)

  /** The locked part of a call on an agent: its new state, the gate it walks, and whether it was allowed. */
  function Call(a: Agent, m: Method): (Agent, Walk, bool) {
    match (a.state, m)
    case (Started, Register(valid)) =>
      if valid then (a.(state := Registered), if a.external then WalkRegistered else NoWalk, true)
      else (a, NoWalk, false)
    case (Started, CallLaunchError(t)) =>
      if a.external then (a.(state := LaunchError, errorType := t), NoWalk, true) else (a, NoWalk, false)
    case (Registered, CallReady) => (a.(state := Ready, suspended := a.suspended + 1), WalkInitReady, true)
    case (Registered, CallInitError(t)) => (a.(state := InitError, errorType := t), NoWalk, true)
    case (Registered, CallExitError(t)) => (a.(state := ExitError, errorType := t), NoWalk, true)
    case (Ready, CallExitError(t)) => (a.(state := ExitError, errorType := t), NoWalk, true)
    case (Running, CallReady) => (a.(state := Ready, suspended := a.suspended + 1), WalkInvokeReady, true)
    case (Running, CallExitError(t)) => (a.(state := ExitError, errorType := t), NoWalk, true)
    case (Running, CallShutdownFailed) =>
      if a.external then (a.(state := ShutdownFailed), NoWalk, true) else (a, NoWalk, false)
    case (Running, CallExited) => if a.external then (a.(state := Exited), NoWalk, true) else (a, NoWalk, false)
    case (InitError, CallInitError(_)) => (a, NoWalk, true)
    case (ExitError, CallExitError(_)) => (a, NoWalk, true)
    case _ => (a, NoWalk, false)
  }

  /** A suspended thread finds the operator condition set and goes on. */
  function Wake(a: Agent): Agent
    requires a.suspended > 0
  {
    a.(released := false, suspended := a.suspended - 1, state := if a.state == Ready then Running else a.state)
  }

  /** The thread that runs doRuntimeDomainInit. */
  datatype InitPc =
    | SetRegisterCount        // handlers.go 135
    | Create(k: nat)          // 141
    | CheckLimit(k: nat)      // 146
    | Exec(k: nat)            // 159
    | AwaitRegistered         // 183
    | AwaitRestoreReady       // 375
    | TurnOff                 // 383
    | SetReadyCount           // 386
    | AwaitReady              // 389
    | InitDone
    | InitFailed

  datatype State = State(
    paths: seq<Name>,
    staleCount: uint16,
    agents: map<Name, Agent>,
    on: bool,
    registerGate: GateState,
    readyGate: GateState,
    init: InitPc,
    // history: calls to AgentReady on the init flow, those that got through, and how many came before the count was set
    walkLog: seq<Name>,
    through: seq<Name>,
    early: Option<nat>,
    registered: seq<Name>)

  function Begin(paths: seq<Name>, staleCount: uint16): State {
    State(paths, staleCount, map[], true, GateState(0, 0, false, None), GateState(staleCount, 0, false, None),
          SetRegisterCount, [], [], None, [])
  }

  /** How the foreign call of an init step ends: launching a process, or waiting for the runtime. */
  datatype Outcome = Succeeds | NoSockets | Fails(permission: bool)

  datatype Event =
    | InitStep(outcome: Outcome)
    | CreateInternal(name: Name)
    | AgentCall(name: Name, m: Method)
    | ReleaseAgent(name: Name)
    | WakeAgent(name: Name)
    | CancelFlows(cause: Option<string>)

  predicate Enabled(s: State, e: Event) {
    match e
    case InitStep(_) => (
      match s.init
      case AwaitRegistered => s.registerGate.Open() || s.registerGate.canceled
      case AwaitReady => s.readyGate.Open() || s.readyGate.canceled
      case InitDone => false
      case InitFailed => false
      case _ => true)
    case CreateInternal(_) => true
    case AgentCall(name, m) => name in s.agents && !m.CallLaunchError?
    case ReleaseAgent(name) => name in s.agents
    case WakeAgent(name) => name in s.agents && s.agents[name].released && s.agents[name].suspended > 0
    case CancelFlows(_) => true
  }

  function Truncate(n: nat): uint16 { n % 0x1_0000 }

  /**
   GetRegisteredAgentsSize: both sizes are truncated and their sum wraps; external and internal names never
   collide.
   */
  function RegisteredSize(agents: map<Name, Agent>): uint16 {
    Truncate(|agents|)
  }

  /** Why an agent could not be launched, and what is recorded of it. */
  datatype LaunchCause = NotPermitted | OverTheLimit | OtherCause

  function AgentInfoErrorType(cause: LaunchCause): string {
    match cause
    case NotPermitted => "PermissionDenied"
    case OverTheLimit => "TooManyExtensions"
    case OtherCause => "UnknownError"
  }

  /** The k-th agent is told of its failure, and init ends. */
  function LaunchFailed(s: State, k: nat, cause: LaunchCause): State {
    if k < |s.paths| && s.paths[k] in s.agents then
      var failed := Call(s.agents[s.paths[k]], CallLaunchError(AgentInfoErrorType(cause))).0;
      s.(agents := s.agents[s.paths[k] := failed], init := InitFailed)
    else s.(init := InitFailed)
  }

  function StepInit(s: State, outcome: Outcome): State
    requires Enabled(s, InitStep(outcome))
  {
    match s.init
    case SetRegisterCount =>
      if Truncate(|s.paths|) < s.registerGate.arrived then s.(init := InitFailed)
      else s.(registerGate := s.registerGate.SetCount(Truncate(|s.paths|)),
              init := if s.paths == [] then AwaitRegistered else Create(0))
    case Create(k) =>
      if !s.on || k >= |s.paths| || s.paths[k] in s.agents then s.(init := InitFailed)
      else s.(agents := s.agents[s.paths[k] := Agent(true, Started, "", 0, false)], init := CheckLimit(k))
    case CheckLimit(k) =>
      if |s.agents| > MAX_AGENTS_ALLOWED then LaunchFailed(s, k, OverTheLimit) else s.(init := Exec(k))
    case Exec(k) =>
      if outcome.NoSockets? then s.(init := InitFailed)
      else if outcome.Fails? then LaunchFailed(s, k, if outcome.permission then NotPermitted else OtherCause)
      else s.(init := if k + 1 < |s.paths| then Create(k + 1) else AwaitRegistered)
    case AwaitRegistered => s.(init := if s.registerGate.Verdict().None? then AwaitRestoreReady else InitFailed)
    case AwaitRestoreReady => s.(init := if outcome.Succeeds? then TurnOff else InitFailed)
    case TurnOff => s.(on := false, init := SetReadyCount)
    case SetReadyCount =>
      if RegisteredSize(s.agents) < s.readyGate.arrived then s.(init := InitFailed)
      else s.(readyGate := s.readyGate.SetCount(RegisteredSize(s.agents)), early := Some(|s.walkLog|),
              init := AwaitReady)
    case AwaitReady => s.(init := if s.readyGate.Verdict().None? then InitDone else InitFailed)
  }

  function CallAgent(s: State, name: Name, m: Method): State
    requires name in s.agents
  {
    var (a, walk, _) := Call(s.agents[name], m);
    var t := s.(agents := s.agents[name := a]);
    match walk
    case NoWalk => t
    case WalkRegistered => t.(registerGate := s.registerGate.Walk(), registered := s.registered + [name])
    case WalkInitReady =>
      t.(readyGate := s.readyGate.Walk(), walkLog := s.walkLog + [name],
         through := if s.readyGate.Open() then s.through else s.through + [name])
    case WalkInvokeReady => t
  }

  function Apply(s: State, e: Event): State
    requires Enabled(s, e)
  {
    match e
    case InitStep(outcome) => StepInit(s, outcome)
    case CreateInternal(name) =>
      if !s.on || |s.agents| >= MAX_AGENTS_ALLOWED || name in s.agents then s
      else s.(agents := s.agents[name := Agent(false, Started, "", 0, false)])
    case AgentCall(name, m) => CallAgent(s, name, m)
    case ReleaseAgent(name) => s.(agents := s.agents[name := s.agents[name].(released := true)])
    case WakeAgent(name) => s.(agents := s.agents[name := Wake(s.agents[name])])
    case CancelFlows(cause) => s.(registerGate := s.registerGate.Cancel(cause), readyGate := s.readyGate.Cancel(cause))
  }

  predicate IsRun(s: State, es: seq<Event>)
    decreases |es|
  {
    es == [] || (Enabled(s, es[0]) && IsRun(Apply(s, es[0]), es[1..]))
  }

  function After(s: State, es: seq<Event>): State
    requires IsRun(s, es)
    decreases |es|
  {
    if es == [] then s else After(Apply(s, es[0]), es[1..])
  }
}
