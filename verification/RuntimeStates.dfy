/**
 The runtime's state machine.  A call runs under the runtime's lock until it returns or suspends; a
 suspended thread goes on when it finds the operator condition set by Release, which may be much later
 and with the state long changed.  Whether a walk through a gate succeeds is up to the gate, so every
 walk of a call carries its outcome.
 */
module RuntimeStates {
  import opened Wrappers

  datatype RuntimeState =
    | Started | InitError | Ready | Running | RestoreReady | Restoring
    | InvocationResponse | InvocationErrorResponse | ResponseSent | RestoreError

  datatype Method =
    | CallReady | CallRestoreReady | CallInvocationResponse | CallInvocationErrorResponse
    | CallInitError | CallResponseSent | CallRestoreError

  datatype InitWalk = WalkRestoreReady | WalkRuntimeReady

  datatype InvokeWalk = WalkResponse | WalkInvokeReady

  /** What a suspended thread was doing: answering /next or /restore/next. */
  datatype Errand = ForInvoke | ForRestore

  datatype Result = Ok | ErrNotAllowed | ErrGate | ErrConcurrentStateModification | Suspended(errand: Errand)

  /** The effect of the locked part of a call. */
  datatype Effect = Effect(state: RuntimeState, initWalks: seq<InitWalk>, invokeWalks: seq<InvokeWalk>, result: Result)

  /** `first` and `second` are the outcomes of the walks the call makes, in order. */
  function Call(state: RuntimeState, m: Method, first: bool, second: bool): Effect {
    match (state, m)
    case (Started, CallReady) =>
      if !first then Effect(Ready, [WalkRestoreReady], [], ErrGate)
      else Effect(Ready, [WalkRestoreReady, WalkRuntimeReady], [], if second then Suspended(ForInvoke) else ErrGate)
    case (Started, CallRestoreReady) =>
      Effect(RestoreReady, [WalkRestoreReady], [], if first then Suspended(ForRestore) else ErrGate)
    case (Started, CallInitError) => Effect(InitError, [], [], Ok)
    case (Restoring, CallReady) =>
      Effect(Ready, [WalkRuntimeReady], [], if first then Suspended(ForInvoke) else ErrGate)
    case (Restoring, CallRestoreError) => Effect(RestoreError, [], [], Ok)
    case (Ready, CallReady) => Effect(Ready, [], [], Suspended(ForInvoke))
    case (Running, CallReady) => Effect(Running, [], [], Ok)
    case (Running, CallInvocationResponse) => Effect(InvocationResponse, [], [], Ok)
    case (Running, CallInvocationErrorResponse) => Effect(InvocationErrorResponse, [], [], Ok)
    case (InvocationResponse, CallResponseSent) =>
      Effect(ResponseSent, [], [WalkResponse], if first then Ok else ErrGate)
    case (InvocationErrorResponse, CallResponseSent) =>
      Effect(ResponseSent, [], [WalkResponse], if first then Ok else ErrGate)
    case (ResponseSent, CallReady) =>
      Effect(Ready, [], [WalkInvokeReady], if first then Suspended(ForInvoke) else ErrGate)
    case _ => Effect(state, [], [], ErrNotAllowed)
  }

  /** A suspended thread goes on. */
  function Wake(state: RuntimeState, errand: Errand): (RuntimeState, Result) {
    match errand
    case ForInvoke =>
      if state == Ready || state == Running then (Running, Ok) else (state, ErrConcurrentStateModification)
    case ForRestore =>
      if state == RestoreReady || state == Restoring then (Restoring, Ok) else (state, ErrConcurrentStateModification)
  }

  /** The runtime object, with the walks it has made on the two flows. */
  class Runtime {
    var currentState: RuntimeState
    var operatorConditionValue: bool
    var initFlow: seq<InitWalk>
    var invokeFlow: seq<InvokeWalk>
    var initFlowError: Option<string>    // why this runtime cancelled the init flow, if it did

    constructor ()
      ensures currentState == Started && !operatorConditionValue
      ensures initFlow == [] && invokeFlow == [] && initFlowError == None
    {
      currentState, operatorConditionValue, initFlow, invokeFlow, initFlowError := Started, false, [], [], None;
    }

    twostate predicate Did(e: Effect)
      reads this
    {
      && currentState == e.state && operatorConditionValue == old(operatorConditionValue)
      && initFlow == old(initFlow) + e.initWalks && invokeFlow == old(invokeFlow) + e.invokeWalks
      && initFlowError == old(initFlowError)
    }

    method CallReady(first: bool, second: bool) returns (r: Result)
      modifies this
      ensures Did(Call(old(currentState), Method.CallReady, first, second))
      ensures r == Call(old(currentState), Method.CallReady, first, second).result
    {
      match currentState {
        case Started =>
          currentState := Ready;
          initFlow := initFlow + [WalkRestoreReady];
          if !first { return ErrGate; }
          initFlow := initFlow + [WalkRuntimeReady];
          if !second { return ErrGate; }
          return Suspended(ForInvoke);
        case Restoring =>
          currentState := Ready;
          initFlow := initFlow + [WalkRuntimeReady];
          if !first { return ErrGate; }
          return Suspended(ForInvoke);
        case Ready => return Suspended(ForInvoke);
        case Running => return Ok;
        case ResponseSent =>
          currentState := Ready;
          invokeFlow := invokeFlow + [WalkInvokeReady];
          if !first { return ErrGate; }
          return Suspended(ForInvoke);
        case _ => return ErrNotAllowed;
      }
    }

    method CallRestoreReady(first: bool) returns (r: Result)
      modifies this
      ensures Did(Call(old(currentState), Method.CallRestoreReady, first, true))
      ensures r == Call(old(currentState), Method.CallRestoreReady, first, true).result
    {
      if currentState != Started { return ErrNotAllowed; }
      currentState := RestoreReady;
      initFlow := initFlow + [WalkRestoreReady];
      if !first { return ErrGate; }
      return Suspended(ForRestore);
    }

    method CallResponseSent(first: bool) returns (r: Result)
      modifies this
      ensures Did(Call(old(currentState), Method.CallResponseSent, first, true))
      ensures r == Call(old(currentState), Method.CallResponseSent, first, true).result
    {
      if currentState != InvocationResponse && currentState != InvocationErrorResponse { return ErrNotAllowed; }
      currentState := ResponseSent;
      invokeFlow := invokeFlow + [WalkResponse];
      return if first then Ok else ErrGate;
    }

    method CallInvocationResponse() returns (r: Result)
      modifies this
      ensures Did(Call(old(currentState), Method.CallInvocationResponse, true, true))
      ensures r == Call(old(currentState), Method.CallInvocationResponse, true, true).result
    {
      if currentState != Running { return ErrNotAllowed; }
      currentState := InvocationResponse;
      return Ok;
    }

    method CallInvocationErrorResponse() returns (r: Result)
      modifies this
      ensures Did(Call(old(currentState), Method.CallInvocationErrorResponse, true, true))
      ensures r == Call(old(currentState), Method.CallInvocationErrorResponse, true, true).result
    {
      if currentState != Running { return ErrNotAllowed; }
      currentState := InvocationErrorResponse;
      return Ok;
    }

    method CallInitError() returns (r: Result)
      modifies this
      ensures Did(Call(old(currentState), Method.CallInitError, true, true))
      ensures r == Call(old(currentState), Method.CallInitError, true, true).result
    {
      if currentState != Started { return ErrNotAllowed; }
      currentState := InitError;
      return Ok;
    }

    /** A failed restore hook also cancels the init flow. */
    method CallRestoreError(userError: string) returns (r: Result)
      modifies this
      ensures currentState == Call(old(currentState), Method.CallRestoreError, true, true).state
      ensures r == Call(old(currentState), Method.CallRestoreError, true, true).result
      ensures initFlowError == if r == Ok then Some(userError) else old(initFlowError)
      ensures initFlow == old(initFlow) && invokeFlow == old(invokeFlow)
      ensures operatorConditionValue == old(operatorConditionValue)
    {
      if currentState != Restoring { return ErrNotAllowed; }
      currentState, initFlowError := RestoreError, Some(userError);
      return Ok;
    }

    /** The tail of SuspendUnsafe and of the method that called it. */
    method Resume(errand: Errand) returns (r: Result)
      requires operatorConditionValue
      modifies this
      ensures !operatorConditionValue && initFlow == old(initFlow) && invokeFlow == old(invokeFlow)
      ensures initFlowError == old(initFlowError)
      ensures (currentState, r) == Wake(old(currentState), errand)
    {
      operatorConditionValue := false;
      if errand == ForInvoke {
        if currentState != Ready && currentState != Running { return ErrConcurrentStateModification; }
        currentState := Running;
      } else {
        if currentState != RestoreReady && currentState != Restoring { return ErrConcurrentStateModification; }
        currentState := Restoring;
      }
      return Ok;
    }

    method Release()
      modifies this`operatorConditionValue
      ensures operatorConditionValue
    {
      operatorConditionValue := true;
    }
  }

  // ---------------------------------------------------------------- runs with any number of suspended threads

  datatype System = System(
    state: RuntimeState,
    released: bool,
    suspended: seq<Errand>,
    // history
    initWalks: seq<InitWalk>,
    invokeWalks: seq<InvokeWalk>,
    responses: nat,
    resumed: nat,
    releases: nat)

  const INIT := System(Started, false, [], [], [], 0, 0, 0)

  datatype Event =
    | Do(m: Method, first: bool, second: bool)
    | Resume(i: nat)
    | Release

  predicate Enabled(s: System, e: Event) {
    e.Resume? ==> s.released && e.i < |s.suspended|
  }

  predicate AcceptsResponse(s: System, e: Event) {
    e.Do? && s.state == Running && (e.m.CallInvocationResponse? || e.m.CallInvocationErrorResponse?)
  }

  function Apply(s: System, e: Event): System
    requires Enabled(s, e)
  {
    match e
    case Do(m, first, second) =>
      var f := Call(s.state, m, first, second);
      s.(state := f.state,
         suspended := if f.result.Suspended? then s.suspended + [f.result.errand] else s.suspended,
         initWalks := s.initWalks + f.initWalks,
         invokeWalks := s.invokeWalks + f.invokeWalks,
         responses := if AcceptsResponse(s, e) then s.responses + 1 else s.responses)
    case Resume(i) =>
      s.(state := Wake(s.state, s.suspended[i]).0, released := false,
         suspended := s.suspended[..i] + s.suspended[i + 1..], resumed := s.resumed + 1)
    case Release => s.(released := true, releases := s.releases + 1)
  }

  predicate IsRun(s: System, es: seq<Event>)
    decreases |es|
  {
    es == [] || (Enabled(s, es[0]) && IsRun(Apply(s, es[0]), es[1..]))
  }

  function After(s: System, es: seq<Event>): System
    requires IsRun(s, es)
    decreases |es|
  {
    if es == [] then s else After(Apply(s, es[0]), es[1..])
  }

  predicate Alternating(ws: seq<InvokeWalk>) {
    forall k | 0 <= k < |ws| :: ws[k] == if k % 2 == 0 then WalkResponse else WalkInvokeReady
  }

  /** Where the init walks stand in each state. */
  predicate InitWalksOk(state: RuntimeState, ws: seq<InitWalk>) {
    match state
    case Started => ws == []
    case InitError => ws == []
    case RestoreReady => ws == [WalkRestoreReady]
    case Restoring => ws == [WalkRestoreReady]
    case RestoreError => ws == [WalkRestoreReady]
    case _ => ws == [WalkRestoreReady] || ws == [WalkRestoreReady, WalkRuntimeReady]
  }

  predicate Inv(s: System) {
    && InitWalksOk(s.state, s.initWalks)
    && Alternating(s.invokeWalks)
    && (s.state == ResponseSent <==> |s.invokeWalks| % 2 == 1)
    && s.resumed + (if s.released then 1 else 0) <= s.releases
    && s.responses + (if s.state == Running then 1 else 0) <= s.resumed
    && |s.invokeWalks| <= 2 * s.responses
    && (s.state == InvocationResponse || s.state == InvocationErrorResponse ==> |s.invokeWalks| <= 2 * s.responses - 2)
  }

  lemma StepKeepsInv(s: System, e: Event)
    requires Inv(s) && Enabled(s, e)
    ensures Inv(Apply(s, e))
  {
    match e
    case Do(m, first, second) => CallKeepsInv(s, m, first, second);
    case Resume(i) =>
    case Release =>
  }

  lemma AlternatingGrows(ws: seq<InvokeWalk>)
    requires Alternating(ws)
    ensures Alternating(ws + [if |ws| % 2 == 0 then WalkResponse else WalkInvokeReady])
  {
  }

  lemma CallKeepsInv(s: System, m: Method, first: bool, second: bool)
    requires Inv(s)
    ensures Inv(Apply(s, Do(m, first, second)))
  {
    AlternatingGrows(s.invokeWalks);
    assert s.invokeWalks + [] == s.invokeWalks;
    match s.state
    case Started =>
    case Running =>
    case ResponseSent =>
    case _ =>
  }

  lemma {:induction false} RunKeepsInv(s: System, es: seq<Event>)
    requires Inv(s) && IsRun(s, es)
    ensures Inv(After(s, es))
    decreases |es|
  {
    if es != [] {
      StepKeepsInv(s, es[0]);
      RunKeepsInv(Apply(s, es[0]), es[1..]);
    }
  }

  /**
   In every run of the state methods, with any number of suspended threads and any outcome of the gates:
   the walks of the invoke flow alternate, a response first; every walk pair belongs to an accepted
   response; and no more responses are accepted than Release was called.
   */
  lemma InvokeWalksAlternate(es: seq<Event>)
    requires IsRun(INIT, es)
    ensures var s := After(INIT, es);
            && Alternating(s.invokeWalks)
            && |s.invokeWalks| <= 2 * s.responses && s.responses <= s.resumed <= s.releases
  {
    RunKeepsInv(INIT, es);
  }

  /** Each init gate is walked at most once, and restore-ready first. */
  lemma InitWalksOnce(es: seq<Event>)
    requires IsRun(INIT, es)
    ensures After(INIT, es).initWalks <= [WalkRestoreReady, WalkRuntimeReady]
  {
    RunKeepsInv(INIT, es);
  }

  predicate Terminal(state: RuntimeState) { state == InitError || state == RestoreError }

  /** Failed initialisation and failed restore are final, and a runtime that left Started never starts again. */
  lemma {:induction false} FailuresAreFinal(s: System, es: seq<Event>)
    requires IsRun(s, es)
    ensures Terminal(s.state) ==> After(s, es).state == s.state
    ensures s.state != Started ==> After(s, es).state != Started
    decreases |es|
  {
    if es != [] { FailuresAreFinal(Apply(s, es[0]), es[1..]); }
  }

  /**
   A thread that wakes up while a response is being processed changes nothing but the operator
   condition: it is told of the concurrent modification and the response is not disturbed.
   */
  lemma LateWakeupIsHarmless(s: System, i: nat)
    requires Enabled(s, Resume(i))
    requires s.state in {InvocationResponse, InvocationErrorResponse, ResponseSent, InitError, RestoreError}
    ensures Wake(s.state, s.suspended[i]) == (s.state, ErrConcurrentStateModification)
    ensures Apply(s, Resume(i)).state == s.state && !Apply(s, Resume(i)).released
  {
  }

  /**
   One invoke, from any state in which a /next thread is suspended and ready: release, response (or error
   response), response sent, next.  The runtime is back in Ready, one response and one pair of walks richer.
   */
  lemma InvokeCycle(s: System, i: nat, failed: bool)
    requires s.state == Ready && i < |s.suspended| && s.suspended[i] == ForInvoke
    ensures Enabled(Apply(s, Release), Resume(i))
    ensures var answer := if failed then CallInvocationErrorResponse else CallInvocationResponse;
            var s2 := Apply(Apply(s, Release), Resume(i));
            var s5 := Apply(Apply(Apply(s2, Do(answer, true, true)), Do(CallResponseSent, true, true)),
                            Do(CallReady, true, true));
            && s5.state == Ready && s5.suspended == s.suspended[..i] + s.suspended[i + 1..] + [ForInvoke]
            && s5.invokeWalks == s.invokeWalks + [WalkResponse, WalkInvokeReady] && s5.initWalks == s.initWalks
            && s5.responses == s.responses + 1 && s5.resumed == s.resumed + 1 && s5.releases == s.releases + 1
  {
    var answer := if failed then CallInvocationErrorResponse else CallInvocationResponse;
    var s2 := Apply(Apply(s, Release), Resume(i));
    var rest := s.suspended[..i] + s.suspended[i + 1..];
    assert s2 == s.(state := Running, released := false, suspended := rest, resumed := s.resumed + 1,
                    releases := s.releases + 1);
    var s3 := Apply(s2, Do(answer, true, true));
    assert s3.state == (if failed then InvocationErrorResponse else InvocationResponse)
           && s3.responses == s.responses + 1;
    var s4 := Apply(s3, Do(CallResponseSent, true, true));
    assert s4.state == ResponseSent && s4.invokeWalks == s.invokeWalks + [WalkResponse] && s4.suspended == rest;
    assert s.invokeWalks + [WalkResponse] + [WalkInvokeReady] == s.invokeWalks + [WalkResponse, WalkInvokeReady];
  }
}
