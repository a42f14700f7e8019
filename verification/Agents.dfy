/**
 The objects behind the init protocol: an agent, whose calls walk the gates of the two flows; the agent
 maps with their two indices; and the registration service.  Their methods are the steps of `AgentInit`.
 */
module Agents {
  import opened Wrappers
  import opened Gate
  import I = AgentInit

  datatype AgentEvent = InvokeEvent | ShutdownEvent | OtherEvent(name: string)

  datatype Result = Ok | ErrNotAllowed | ErrInvalidEvent | ErrConcurrentStateModification | Suspended

  /** External agents may subscribe to invokes and shutdowns, internal ones to invokes only. */
  predicate Allowed(external: bool, e: AgentEvent) { e.InvokeEvent? || (external && e.ShutdownEvent?) }

  predicate AllAllowed(external: bool, es: seq<AgentEvent>) { forall e | e in es :: Allowed(external, e) }

  class Agent {
    const name: string
    const id: nat
    const external: bool
    const registeredGate: Gate
    const initReadyGate: Gate
    const invokeReadyGate: Gate
    var currentState: I.AgentState
    var errorType: string
    var events: set<AgentEvent>
    var operatorConditionValue: bool
    ghost var suspended: nat      // threads inside SuspendUnsafe

    ghost predicate Valid()
      reads this, registeredGate, initReadyGate, invokeReadyGate
    {
      && registeredGate != initReadyGate && registeredGate != invokeReadyGate && initReadyGate != invokeReadyGate
      && registeredGate.State().Sound() && initReadyGate.State().Sound() && invokeReadyGate.State().Sound()
    }

    ghost function View(): I.Agent
      reads this
    {
      I.Agent(external, currentState, errorType, suspended, operatorConditionValue)
    }

    constructor (name: string, id: nat, external: bool, registeredGate: Gate, initReadyGate: Gate,
                 invokeReadyGate: Gate)
      ensures this.name == name && this.id == id && this.external == external && events == {}
      ensures this.registeredGate == registeredGate && this.initReadyGate == initReadyGate
              && this.invokeReadyGate == invokeReadyGate
      ensures View() == I.Agent(external, I.Started, "", 0, false)
    {
      this.name, this.id, this.external := name, id, external;
      this.registeredGate, this.initReadyGate, this.invokeReadyGate := registeredGate, initReadyGate, invokeReadyGate;
      currentState, errorType, events, operatorConditionValue, suspended := I.Started, "", {}, false, 0;
    }

    /** What a call did, as `AgentInit.Call` has it: the agent, the one gate it walked, and the two it left alone. */
    twostate predicate Did(m: I.Method)
      reads this, registeredGate, initReadyGate, invokeReadyGate
    {
      var (a, walk, _) := I.Call(old(View()), m);
      && View() == a
      && registeredGate.State() ==
         (if walk == I.WalkRegistered then old(registeredGate.State()).Walk() else old(registeredGate.State()))
      && initReadyGate.State() ==
         (if walk == I.WalkInitReady then old(initReadyGate.State()).Walk() else old(initReadyGate.State()))
      && invokeReadyGate.State() ==
         (if walk == I.WalkInvokeReady then old(invokeReadyGate.State()).Walk() else old(invokeReadyGate.State()))
    }

    /** Subscribes event by event; the first event that is not allowed ends the call, earlier ones stay subscribed. */
    method Register(es: seq<AgentEvent>) returns (r: Result)
      requires Valid()
      modifies this, registeredGate
      ensures Valid() && Did(I.Register(AllAllowed(external, es)))
      ensures r == (if old(currentState) != I.Started then ErrNotAllowed else if AllAllowed(external, es) then Ok
                    else ErrInvalidEvent)
      ensures r == Ok ==> events == old(events) + set e | e in es
      ensures forall e | e in events && e !in old(events) :: e in es && Allowed(external, e)
    {
      if currentState != I.Started { return ErrNotAllowed; }
      var i := 0;
      while i < |es|
        invariant 0 <= i <= |es| && Valid() && View() == old(View())
        invariant events == old(events) + set e | e in es[..i]
        invariant forall e | e in es[..i] :: Allowed(external, e)
        invariant registeredGate.State() == old(registeredGate.State())
      {
        if !Allowed(external, es[i]) { return ErrInvalidEvent; }
        events := events + {es[i]};
        i := i + 1;
        assert es[..i] == es[..i - 1] + [es[i - 1]];
      }
      assert es[..i] == es;
      currentState := I.Registered;
      if external {
        var _, _ := registeredGate.WalkThrough();
      }
      return Ok;
    }

    /** /extension/event/next up to the point where the thread suspends. */
    method Ready() returns (r: Result)
      requires Valid()
      modifies this, initReadyGate, invokeReadyGate
      ensures Valid() && Did(I.CallReady)
      ensures r == if old(currentState) in {I.Registered, I.Running} then Suspended else ErrNotAllowed
    {
      if currentState == I.Registered {
        currentState := I.Ready;
        var _, _ := initReadyGate.WalkThrough();
      } else if currentState == I.Running {
        currentState := I.Ready;
        var _, _ := invokeReadyGate.WalkThrough();
      } else {
        return ErrNotAllowed;
      }
      suspended := suspended + 1;
      return Suspended;
    }

    /** The rest of Ready, once the thread finds the condition set. */
    method Resume() returns (r: Result)
      requires operatorConditionValue && suspended > 0
      modifies this
      ensures View() == I.Wake(old(View())) && events == old(events)
      ensures r == if old(currentState) == I.Ready then Ok else ErrConcurrentStateModification
    {
      operatorConditionValue := false;
      suspended := suspended - 1;
      if currentState != I.Ready { return ErrConcurrentStateModification; }
      currentState := I.Running;
      return Ok;
    }

    method Release()
      modifies this`operatorConditionValue
      ensures operatorConditionValue
    {
      operatorConditionValue := true;
    }

    method InitError(t: string) returns (r: Result)
      modifies this
      ensures View() == I.Call(old(View()), I.CallInitError(t)).0 && events == old(events)
      ensures r == if I.Call(old(View()), I.CallInitError(t)).2 then Ok else ErrNotAllowed
    {
      if currentState == I.Registered {
        currentState, errorType := I.InitError, t;
        return Ok;
      }
      return if currentState == I.InitError then Ok else ErrNotAllowed;
    }

    method ExitError(t: string) returns (r: Result)
      modifies this
      ensures View() == I.Call(old(View()), I.CallExitError(t)).0 && events == old(events)
      ensures r == if I.Call(old(View()), I.CallExitError(t)).2 then Ok else ErrNotAllowed
    {
      if currentState == I.Registered || currentState == I.Ready || currentState == I.Running {
        currentState, errorType := I.ExitError, t;
        return Ok;
      }
      return if currentState == I.ExitError then Ok else ErrNotAllowed;
    }

    method ShutdownFailed() returns (r: Result)
      modifies this
      ensures View() == I.Call(old(View()), I.CallShutdownFailed).0 && events == old(events)
      ensures r == if I.Call(old(View()), I.CallShutdownFailed).2 then Ok else ErrNotAllowed
    {
      if !external || currentState != I.Running { return ErrNotAllowed; }
      currentState := I.ShutdownFailed;
      return Ok;
    }

    method Exited() returns (r: Result)
      modifies this
      ensures View() == I.Call(old(View()), I.CallExited).0 && events == old(events)
      ensures r == if I.Call(old(View()), I.CallExited).2 then Ok else ErrNotAllowed
    {
      if !external || currentState != I.Running { return ErrNotAllowed; }
      currentState := I.Exited;
      return Ok;
    }

    method LaunchError(cause: I.LaunchCause) returns (r: Result)
      modifies this
      ensures View() == I.Call(old(View()), I.CallLaunchError(I.AgentInfoErrorType(cause))).0 && events == old(events)
      ensures r == if I.Call(old(View()), I.CallLaunchError(I.AgentInfoErrorType(cause))).2 then Ok else ErrNotAllowed
    {
      if !external || currentState != I.Started { return ErrNotAllowed; }
      currentState, errorType := I.LaunchError, I.AgentInfoErrorType(cause);
      return Ok;
    }
  }

  // ---------------------------------------------------------------- agent maps

  datatype MapError = NameCollision | IDCollision | ServiceOff | TooManyExtensions

  /** The two indices hold the same agents, each under its own name and its own ID. */
  ghost predicate Indexed(byName: map<string, Agent>, byID: map<nat, Agent>) {
    && (forall n | n in byName :: byName[n].name == n && byName[n].id in byID && byID[byName[n].id] == byName[n])
    && (forall k | k in byID :: byID[k].id == k && byID[k].name in byName && byName[byID[k].name] == byID[k])
  }

  /** So they have the same agents and the same size: what is found by name is found by ID, and conversely. */
  lemma {:induction false} IndicesAgree(byName: map<string, Agent>, byID: map<nat, Agent>)
    requires Indexed(byName, byID)
    ensures |byName| == |byID|
    ensures forall a: Agent :: a in byName.Values <==> a in byID.Values
    decreases |byName|
  {
    if byName != map[] {
      var n :| n in byName;
      var a := byName[n];
      var names, ids := byName - {n}, byID - {a.id};
      assert |byName.Keys| == |byName| && |byID.Keys| == |byID| && |names.Keys| == |names| && |ids.Keys| == |ids|;
      assert names.Keys == byName.Keys - {n} && ids.Keys == byID.Keys - {a.id};
      IndicesAgree(names, ids);
      forall x: Agent
        ensures x in byName.Values ==> x in byID.Values
        ensures x in byID.Values ==> x in byName.Values
      {
        if x in byName.Values { assert byID[x.id] == x; }
        if x in byID.Values { assert byName[x.name] == x; }
      }
    } else {
      assert byID == map[];
    }
  }

  class AgentsMap {
    var byName: map<string, Agent>
    var byID: map<nat, Agent>

    ghost predicate Valid()
      reads this
    {
      Indexed(byName, byID)
    }

    constructor ()
      ensures Valid() && byName == map[]
    {
      byName, byID := map[], map[];
    }

    method Insert(a: Agent) returns (err: Option<MapError>)
      requires Valid()
      modifies this
      ensures Valid()
      ensures byName == if err.None? then old(byName)[a.name := a] else old(byName)
      ensures byID == if err.None? then old(byID)[a.id := a] else old(byID)
      ensures err == (if a.name in old(byName) then Some(NameCollision) else if a.id in old(byID) then Some(IDCollision)
                      else None)
    {
      if a.name in byName { return Some(NameCollision); }
      if a.id in byID { return Some(IDCollision); }
      byName := byName[a.name := a];
      byID := byID[a.id := a];
      return None;
    }

    /** Finding by ID gives the agent that is found by its name, if any has that ID. */
    method FindByID(id: nat) returns (a: Agent?)
      requires Valid()
      ensures a != null ==> a.id == id && a.name in byName && byName[a.name] == a
      ensures a == null ==> forall n | n in byName :: byName[n].id != id
    {
      return if id in byID then byID[id] else null;
    }

    method Clear()
      modifies this
      ensures Valid() && byName == map[] && byID == map[]
    {
      byName, byID := map[], map[];
    }
  }

  // ---------------------------------------------------------------- the registration service

  /** Truncating two sizes and letting their sum wrap is truncating the sum. */
  lemma TruncatedSum(e: nat, i: nat)
    ensures (I.Truncate(e) + I.Truncate(i)) % 0x1_0000 == I.Truncate(e + i)
  {
    var m := 0x1_0000;
    var q, r := e / m + i / m, e % m + i % m;
    assert e + i == q * m + r;
    assert (q * m + r) % m == r % m;
  }

  function InternalRefusal(on: bool, names: set<string>, name: string): Option<MapError> {
    if !on then Some(ServiceOff)
    else if |names| >= I.MAX_AGENTS_ALLOWED then Some(TooManyExtensions)
    else if name in names then Some(NameCollision)
    else None
  }

  class RegistrationService {
    const externalAgents: AgentsMap
    const internalAgents: AgentsMap
    var on: bool

    ghost predicate Valid()
      reads this, externalAgents, internalAgents
    {
      && externalAgents != internalAgents && externalAgents.Valid() && internalAgents.Valid()
      && externalAgents.byName.Keys !! internalAgents.byName.Keys
    }

    /** The agents present: the domain of `AgentInit`'s agent map. */
    ghost function Names(): set<string>
      reads this, externalAgents, internalAgents
    {
      externalAgents.byName.Keys + internalAgents.byName.Keys
    }

    constructor ()
      ensures Valid() && on && Names() == {} && fresh(externalAgents) && fresh(internalAgents)
    {
      externalAgents := new AgentsMap();
      internalAgents := new AgentsMap();
      on := true;
    }

    /** There is no limit here: the launch loop checks it afterwards. */
    method CreateExternalAgent(a: Agent) returns (err: Option<MapError>)
      requires Valid() && a.external
      modifies externalAgents
      ensures Valid() && Names() == if err.None? then old(Names()) + {a.name} else old(Names())
      ensures !on ==> err == Some(ServiceOff)
      ensures on && a.name in old(Names()) ==> err == Some(NameCollision)
      ensures on && a.name !in old(Names()) ==>
                err.None? || (err == Some(IDCollision) && a.id in old(externalAgents.byID))
      ensures err.None? ==> a.name in externalAgents.byName && externalAgents.byName[a.name] == a
    {
      if !on { return Some(ServiceOff); }
      if a.name in internalAgents.byName { return Some(NameCollision); }
      err := externalAgents.Insert(a);
    }

    method CountAgents() returns (n: nat)
      requires Valid()
      ensures n == |Names()|
    {
      return |externalAgents.byName.Keys| + |internalAgents.byName.Keys|;
    }

    /** Ten agents are the limit, counted before the new one is added. */
    method CreateInternalAgent(a: Agent) returns (err: Option<MapError>)
      requires Valid() && !a.external
      modifies internalAgents
      ensures Valid() && Names() == if err.None? then old(Names()) + {a.name} else old(Names())
      ensures var refusal := InternalRefusal(on, old(Names()), a.name);
              err == refusal || (refusal.None? && err == Some(IDCollision) && a.id in old(internalAgents.byID))
    {
      if !on { return Some(ServiceOff); }
      var n := CountAgents();
      if n >= I.MAX_AGENTS_ALLOWED { return Some(TooManyExtensions); }
      err := InsertInternal(a);
    }

    method InsertInternal(a: Agent) returns (err: Option<MapError>)
      requires Valid()
      modifies internalAgents
      ensures Valid() && Names() == if err.None? then old(Names()) + {a.name} else old(Names())
      ensures a.name in old(Names()) ==> err == Some(NameCollision)
      ensures a.name !in old(Names()) ==> err.None? || (err == Some(IDCollision) && a.id in old(internalAgents.byID))
    {
      if a.name in externalAgents.byName { return Some(NameCollision); }
      err := internalAgents.Insert(a);
    }

    method TurnOff()
      modifies this`on
      ensures !on
    {
      on := false;
    }

    /** Both sizes are truncated to 16 bits and their sum wraps, which gives the truncated number of names. */
    method GetRegisteredAgentsSize() returns (n: uint16)
      requires Valid()
      ensures n == I.Truncate(|Names()|)
    {
      var e, i := |externalAgents.byName.Keys|, |internalAgents.byName.Keys|;
      TruncatedSum(e, i);
      n := (I.Truncate(e) + I.Truncate(i)) % 0x1_0000;
    }
  }
}
