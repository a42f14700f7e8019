/**
 Whole invokes of the emulator: the thread that runs init, restore and one invoke after the other, the
 gates of the init and invoke flows, and the runtime with any number of suspended threads.  Here the
 outcome of a walk is the gate's own, and each gate may be cancelled at any moment.
 */
module InvokeFlow {
  import opened Wrappers
  import opened Gate
  import R = RuntimeStates

  /** The thread that drives the flows; the comments name the line of handlers.go or flow.go it executes next. */
  datatype Main =
    | AwaitInit            // handlers.go 375
    | Idle
    | AwaitRestored        // handlers.go 847
    | ResettingReady       // flow.go 161
    | ResettingResponse    // flow.go 162
    | Releasing            // handlers.go 478
    | AwaitResponse        // handlers.go 481
    | AwaitReady           // handlers.go 491
    | Failed

  datatype Gates = Gates(restoreReady: GateState, initReady: GateState, response: GateState, ready: GateState)

  datatype Which = RestoreReadyGate | InitReadyGate | ResponseGate | ReadyGate

  /**
   `done` counts the invokes completed without error; `prompt` says that the runtime was ready when it was
   last released.
   */
  datatype State = State(rt: R.System, gates: Gates, main: Main, done: nat, prompt: bool)

  datatype Event =
    | MainStep
    | BeginRestore
    | RuntimeDo(m: R.Method)
    | RuntimeResume(i: nat)
    | Cancel(which: Which, cause: Option<string>)

  const NEW_GATE := GateState(1, 0, false, None)

  const BEGIN := State(R.INIT, Gates(NEW_GATE, NEW_GATE, NEW_GATE, NEW_GATE), AwaitInit, 0, false)

  // ---------------------------------------------------------------- steps

  /** Whether the gate lets the first, and the second, walk of a call through. */
  function First(g: Gates, state: R.RuntimeState, m: R.Method): bool {
    match (state, m)
    case (Started, CallReady) => !g.restoreReady.Open()
    case (Started, CallRestoreReady) => !g.restoreReady.Open()
    case (Restoring, CallReady) => !g.initReady.Open()
    case (ResponseSent, CallReady) => !g.ready.Open()
    case (InvocationResponse, CallResponseSent) => !g.response.Open()
    case (InvocationErrorResponse, CallResponseSent) => !g.response.Open()
    case _ => true
  }

  function Walked(g: Gates, f: R.Effect): Gates {
    Gates(if R.WalkRestoreReady in f.initWalks then g.restoreReady.Walk() else g.restoreReady,
          if R.WalkRuntimeReady in f.initWalks then g.initReady.Walk() else g.initReady,
          if R.WalkResponse in f.invokeWalks then g.response.Walk() else g.response,
          if R.WalkInvokeReady in f.invokeWalks then g.ready.Walk() else g.ready)
  }

  /** The call with the outcomes its gates give it. */
  function TheCall(s: State, m: R.Method): R.Event {
    R.Do(m, First(s.gates, s.rt.state, m), !s.gates.initReady.Open())
  }

  function CancelGate(g: Gates, which: Which, cause: Option<string>): Gates {
    match which
    case RestoreReadyGate => g.(restoreReady := g.restoreReady.Cancel(cause))
    case InitReadyGate => g.(initReady := g.initReady.Cancel(cause))
    case ResponseGate => g.(response := g.response.Cancel(cause))
    case ReadyGate => g.(ready := g.ready.Cancel(cause))
  }

  function CancelInitFlow(g: Gates, cause: Option<string>): Gates {
    CancelGate(CancelGate(g, RestoreReadyGate, cause), InitReadyGate, cause)
  }

  predicate Passable(g: GateState) { g.Open() || g.canceled }

  predicate MainEnabled(s: State) {
    match s.main
    case AwaitInit => Passable(s.gates.restoreReady)
    case AwaitRestored => Passable(s.gates.initReady)
    case AwaitResponse => Passable(s.gates.response)
    case AwaitReady => Passable(s.gates.ready)
    case Failed => false
    case _ => true
  }

  predicate Enabled(s: State, e: Event) {
    match e
    case MainStep => MainEnabled(s)
    case BeginRestore => s.main.Idle?
    case RuntimeDo(_) => true
    case RuntimeResume(i) => R.Enabled(s.rt, R.Resume(i))
    case Cancel(_, _) => true
  }

  /** What follows an await: the next step on nil, failure on an error. */
  function Awaited(g: GateState, next: Main): Main { if g.Verdict().None? then next else Failed }

  function StepMain(s: State): State
    requires MainEnabled(s)
  {
    match s.main
    case AwaitInit => s.(main := Awaited(s.gates.restoreReady, Idle))
    case Idle => s.(main := ResettingReady)
    case AwaitRestored => s.(main := Awaited(s.gates.initReady, Idle))
    case ResettingReady => s.(gates := s.gates.(ready := s.gates.ready.Reset()), main := ResettingResponse)
    case ResettingResponse => s.(gates := s.gates.(response := s.gates.response.Reset()), main := Releasing)
    case Releasing => s.(rt := R.Apply(s.rt, R.Release), main := AwaitResponse, prompt := s.rt.state == R.Ready)
    case AwaitResponse => s.(main := Awaited(s.gates.response, AwaitReady))
    case AwaitReady =>
      var next := Awaited(s.gates.ready, Idle);
      s.(main := next, done := if next.Idle? then s.done + 1 else s.done)
  }

  function Apply(s: State, e: Event): State
    requires Enabled(s, e)
  {
    match e
    case MainStep => StepMain(s)
    case BeginRestore =>
      if s.rt.state == R.RestoreReady then s.(rt := R.Apply(s.rt, R.Release), main := AwaitRestored) else s
    case RuntimeDo(m) =>
      var call := TheCall(s, m);
      var f := R.Call(s.rt.state, m, call.first, call.second);
      var gates := Walked(s.gates, f);
      // a failed restore hook cancels the init flow
      var gates' := if s.rt.state == R.Restoring && m.CallRestoreError?
                    then CancelInitFlow(gates, Some("restore hook")) else gates;
      s.(rt := R.Apply(s.rt, call), gates := gates')
    case RuntimeResume(i) => s.(rt := R.Apply(s.rt, R.Resume(i)))
    case Cancel(which, cause) => s.(gates := CancelGate(s.gates, which, cause))
  }

  predicate IsRun(s: State, es: seq<Event>)
    decreases |es|
  {
    es == [] || (Enabled(s, es[0]) && IsRun(Apply(s, es[0]), es[1..]))
  }

  function After(s: State, es: seq<Event>): State
    requires IsRun(s, es)
    decreases |es|
  {
    if es == [] then s else After(Apply(s, es[0]), es[1..])
  }

  // ---------------------------------------------------------------- invariants

  /** No invoke is being processed. */
  predicate Calm(state: R.RuntimeState) {
    state in {R.Started, R.InitError, R.RestoreReady, R.Restoring, R.RestoreError, R.Ready}
  }

  /** Which threads are suspended in each state. */
  predicate SuspendedOk(state: R.RuntimeState, suspended: seq<R.Errand>, readyCanceled: bool) {
    match state
    case Started => suspended == []
    case InitError => suspended == []
    case RestoreReady => suspended == [R.ForRestore]
    case Restoring => suspended == []
    case RestoreError => suspended == []
    case Ready => (forall e | e in suspended :: e == R.ForInvoke) && (suspended != [] || readyCanceled)
    case _ => forall e | e in suspended :: e == R.ForInvoke
  }

  function InitWalks(state: R.RuntimeState): nat {
    match state
    case Started => 0
    case InitError => 0
    case RestoreReady => 1
    case Restoring => 1
    case RestoreError => 1
    case _ => 2
  }

  function One(b: bool): uint16 { if b then 1 else 0 }

  /** The init gates count the init walks, for ever. */
  predicate InitGatesOk(state: R.RuntimeState, walks: seq<R.InitWalk>, g: Gates) {
    && walks == [R.WalkRestoreReady, R.WalkRuntimeReady][..InitWalks(state)]
    && g.restoreReady.count == 1 && g.restoreReady.arrived == One(InitWalks(state) >= 1)
    && g.initReady.count == 1 && g.initReady.arrived == One(InitWalks(state) == 2)
  }

  /**
   Whether the response gate, and the ready gate, has been walked since it was last reset; `w` is the number
   of invoke walks.
   */
  predicate ResponseArrived(main: Main, done: nat, w: nat) {
    match main
    case AwaitInit => false
    case AwaitRestored => false
    case Idle => done > 0
    case ResettingReady => done > 0
    case ResettingResponse => done > 0
    case Releasing => false
    case _ => w > 2 * done
  }

  predicate ReadyArrived(main: Main, done: nat, w: nat) {
    match main
    case AwaitInit => false
    case AwaitRestored => false
    case Idle => done > 0
    case ResettingReady => done > 0
    case ResettingResponse => false
    case Releasing => false
    case _ => w > 2 * done + 1
  }

  predicate GateCounts(g: GateState, arrived: bool) {
    g.count == 1 && g.arrived <= 1 && (g.canceled || g.arrived == One(arrived))
  }

  predicate InvokeGatesOk(main: Main, done: nat, w: nat, g: Gates) {
    GateCounts(g.response, ResponseArrived(main, done, w)) && GateCounts(g.ready, ReadyArrived(main, done, w))
  }

  predicate Between(main: Main) {
    main.AwaitInit? || main.Idle? || main.ResettingReady? || main.ResettingResponse? || main.Releasing?
  }

  /** Where the runtime stands in the invoke that follows the `done` completed ones. */
  predicate InvokeOk(done: nat, state: R.RuntimeState, w: nat, responses: nat, released: bool) {
    match state
    case Running => w == 2 * done && responses == done && !released
    case InvocationResponse => w == 2 * done && responses == done + 1 && !released
    case InvocationErrorResponse => w == 2 * done && responses == done + 1 && !released
    case ResponseSent => w == 2 * done + 1 && responses == done + 1 && !released
    case _ =>
      || (w == 2 * done && responses == done)
      || (state == R.Ready && w == 2 * done + 2 && responses == done + 1 && !released)
  }

  predicate FlowOk(main: Main, done: nat, state: R.RuntimeState, w: nat, responses: nat, released: bool, prompt: bool) {
    if Between(main) then
      && state in {R.Started, R.InitError, R.RestoreReady, R.Ready} && w == 2 * done && responses == done && !released
      && (done > 0 ==> state == R.Ready) && (if main.AwaitInit? then done == 0 else InitWalks(state) >= 1)
    else if main.AwaitRestored? then
      && Calm(state) && w == 0 && done == 0 && responses == 0 && (released ==> state == R.RestoreReady)
    else
      && InvokeOk(done, state, w, responses, released)
      && (main.AwaitReady? ==> w > 2 * done)
      && (main.AwaitResponse? || main.AwaitReady? ==>
            if prompt then InitWalks(state) == 2 && (state == R.Ready && w == 2 * done ==> released)
            else Calm(state) && w == 2 * done && InitWalks(state) >= 1 && (released ==> state == R.RestoreReady))
  }

  predicate Inv(s: State) {
    && SuspendedOk(s.rt.state, s.rt.suspended, s.gates.ready.canceled)
    && InitGatesOk(s.rt.state, s.rt.initWalks, s.gates)
    && InvokeGatesOk(s.main, s.done, |s.rt.invokeWalks|, s.gates)
    && FlowOk(s.main, s.done, s.rt.state, |s.rt.invokeWalks|, s.rt.responses, s.rt.released, s.prompt)
  }

  // ---- calls of the runtime

  lemma CallKeepsInitGates(s: State, m: R.Method)
    requires Inv(s)
    ensures var t := Apply(s, RuntimeDo(m)); InitGatesOk(t.rt.state, t.rt.initWalks, t.gates)
  {
    InitWalksFollow(s.rt.state, s.rt.initWalks, s.gates, m);
  }

  lemma InitWalksFollow(state: R.RuntimeState, walks: seq<R.InitWalk>, g: Gates, m: R.Method)
    requires InitGatesOk(state, walks, g)
    ensures var f := R.Call(state, m, First(g, state, m), !g.initReady.Open());
            InitGatesOk(f.state, walks + f.initWalks, Walked(g, f))
    ensures state in {R.Started, R.Restoring} ==>
              R.Call(state, m, First(g, state, m), !g.initReady.Open()).result != R.ErrGate
  {
    match (state, m)
    case (Started, CallReady) =>
      assert walks + [R.WalkRestoreReady, R.WalkRuntimeReady] == [R.WalkRestoreReady, R.WalkRuntimeReady][..2];
    case (Started, CallRestoreReady) =>
      assert walks + [R.WalkRestoreReady] == [R.WalkRestoreReady, R.WalkRuntimeReady][..1];
    case (Restoring, CallReady) => assert walks + [R.WalkRuntimeReady] == [R.WalkRestoreReady, R.WalkRuntimeReady][..2];
    case _ =>
  }

  function Walks(s: State, m: R.Method): seq<R.InvokeWalk> {
    R.Call(s.rt.state, m, TheCall(s, m).first, TheCall(s, m).second).invokeWalks
  }

  /** What the call answers, given what its gates say. */
  function Answer(s: State, m: R.Method): R.Result {
    R.Call(s.rt.state, m, TheCall(s, m).first, TheCall(s, m).second).result
  }

  predicate MayRefuse(state: R.RuntimeState, g: Gates) {
    || (state == R.ResponseSent && g.ready.canceled)
    || (state in {R.InvocationResponse, R.InvocationErrorResponse} && g.response.canceled)
  }

  lemma CallKeepsSuspended(s: State, m: R.Method)
    requires Inv(s)
    ensures var t := Apply(s, RuntimeDo(m)); SuspendedOk(t.rt.state, t.rt.suspended, t.gates.ready.canceled)
  {
  }

  lemma FlowFollows(main: Main, done: nat, state: R.RuntimeState, w: nat, responses: nat, released: bool, prompt: bool,
                    m: R.Method, first: bool, second: bool)
    requires FlowOk(main, done, state, w, responses, released, prompt)
    ensures var f := R.Call(state, m, first, second);
            var accepted := state == R.Running && (m.CallInvocationResponse? || m.CallInvocationErrorResponse?);
            FlowOk(main, done, f.state, w + |f.invokeWalks|, if accepted then responses + 1 else responses, released,
                   prompt)
  {
    match state
    case Started =>
    case Restoring =>
    case Running =>
    case ResponseSent =>
    case _ =>
  }

  lemma CallKeepsFlow(s: State, m: R.Method)
    requires Inv(s)
    ensures var t := Apply(s, RuntimeDo(m));
            FlowOk(t.main, t.done, t.rt.state, |t.rt.invokeWalks|, t.rt.responses, t.rt.released, t.prompt)
  {
    FlowFollows(s.main, s.done, s.rt.state, |s.rt.invokeWalks|, s.rt.responses, s.rt.released, s.prompt, m,
                TheCall(s, m).first, TheCall(s, m).second);
  }

  lemma CallKeepsInvokeGates(s: State, m: R.Method)
    requires Inv(s)
    ensures var t := Apply(s, RuntimeDo(m)); InvokeGatesOk(t.main, t.done, |t.rt.invokeWalks|, t.gates)
  {
    if Walks(s, m) != [] {
      assert Walks(s, m) == [R.WalkResponse] || Walks(s, m) == [R.WalkInvokeReady];
    }
  }

  // ---- the other steps

  lemma ResumeKeepsInv(s: State, i: nat)
    requires Inv(s) && Enabled(s, RuntimeResume(i))
    ensures Inv(Apply(s, RuntimeResume(i)))
  {
    var suspended := s.rt.suspended;
    assert suspended[i] in suspended;
    var rest := suspended[..i] + suspended[i + 1..];
    assert forall e | e in rest :: e in suspended;
  }

  lemma MainKeepsGates(s: State)
    requires Inv(s) && Enabled(s, MainStep)
    ensures var t := Apply(s, MainStep); InvokeGatesOk(t.main, t.done, |t.rt.invokeWalks|, t.gates)
  {
    match s.main
    case AwaitReady =>
    case _ =>
  }

  lemma MainKeepsFlow(s: State)
    requires Inv(s) && Enabled(s, MainStep)
    ensures var t := Apply(s, MainStep);
            FlowOk(t.main, t.done, t.rt.state, |t.rt.invokeWalks|, t.rt.responses, t.rt.released, t.prompt)
  {
    match s.main
    case Releasing =>
    case AwaitResponse =>
    case AwaitReady =>
    case _ =>
  }

  lemma MainKeepsInv(s: State)
    requires Inv(s) && Enabled(s, MainStep)
    ensures Inv(Apply(s, MainStep))
  {
    MainKeepsGates(s);
    MainKeepsFlow(s);
  }

  lemma CallKeepsInv(s: State, m: R.Method)
    requires Inv(s)
    ensures Inv(Apply(s, RuntimeDo(m)))
  {
    CallKeepsSuspended(s, m);
    CallKeepsInitGates(s, m);
    CallKeepsInvokeGates(s, m);
    CallKeepsFlow(s, m);
  }

  lemma CancelKeepsInv(s: State, which: Which, cause: Option<string>)
    requires Inv(s)
    ensures Inv(Apply(s, Event.Cancel(which, cause)))
  {
  }

  lemma RestoreKeepsInv(s: State)
    requires Inv(s) && s.main.Idle?
    ensures Inv(Apply(s, BeginRestore))
  {
  }

  lemma StepKeepsInv(s: State, e: Event)
    requires Inv(s) && Enabled(s, e)
    ensures Inv(Apply(s, e))
  {
    match e
    case MainStep => MainKeepsInv(s);
    case RuntimeDo(m) => CallKeepsInv(s, m);
    case RuntimeResume(i) => ResumeKeepsInv(s, i);
    case BeginRestore => RestoreKeepsInv(s);
    case Cancel(which, cause) => CancelKeepsInv(s, which, cause);
  }

  lemma {:induction false} RunKeepsInv(s: State, es: seq<Event>)
    requires Inv(s) && IsRun(s, es)
    ensures Inv(After(s, es))
    decreases |es|
  {
    if es != [] {
      StepKeepsInv(s, es[0]);
      RunKeepsInv(Apply(s, es[0]), es[1..]);
    }
  }

  // ---------------------------------------------------------------- guarantees

  /**
   Invokes do not mix: whenever the driving thread is between two invokes, the runtime has accepted exactly
   one response and made exactly one pair of walks for each completed invoke, and waits in Ready; during an
   invoke it has accepted at most one more.
   */
  lemma OneResponsePerInvoke(es: seq<Event>)
    requires IsRun(BEGIN, es)
    ensures var s := After(BEGIN, es);
            && s.done <= s.rt.responses <= s.done + 1
            && 2 * s.done <= |s.rt.invokeWalks| <= 2 * s.done + 2
            && (s.main.Idle? ==> s.rt.responses == s.done && |s.rt.invokeWalks| == 2 * s.done)
            && (s.main.Idle? && s.done > 0 ==> s.rt.state == R.Ready)
  {
    RunKeepsInv(BEGIN, es);
  }

  /** A gate refuses a walk only after it was cancelled, and the init gates never do. */
  lemma WalksAreRefusedOnlyWhenCancelled(es: seq<Event>, m: R.Method)
    requires IsRun(BEGIN, es)
    ensures var s := After(BEGIN, es);
            Answer(s, m) == R.ErrGate ==>
              || (s.rt.state == R.ResponseSent && s.gates.ready.canceled)
              || (s.rt.state in {R.InvocationResponse, R.InvocationErrorResponse} && s.gates.response.canceled)
  {
    RunKeepsInv(BEGIN, es);
  }

  /** An invoke waits for its runtime, neither gate is cancelled, and the runtime was ready when it was released. */
  predicate WaitsPromptly(s: State) {
    && (s.main.AwaitResponse? || s.main.AwaitReady?) && s.prompt
    && !s.gates.response.canceled && !s.gates.ready.canceled
  }

  /** The step that brings the invoke nearer to its end: main's own if a gate is open, otherwise the runtime's. */
  function NextMove(s: State): Event {
    if MainEnabled(s) then MainStep
    else match s.rt.state
      case Ready => RuntimeResume(0)
      case Running => RuntimeDo(R.CallInvocationResponse)
      case ResponseSent => RuntimeDo(R.CallReady)
      case _ => RuntimeDo(R.CallResponseSent)
  }

  /** How many such steps are left. */
  function Distance(s: State): nat {
    if s.main.AwaitReady? then (if s.rt.state == R.Ready then 1 else 2)
    else match s.rt.state
      case Ready => if |s.rt.invokeWalks| == 2 * s.done then 6 else 2
      case Running => 5
      case ResponseSent => 3
      case _ => 4
  }

  lemma MainMoveIsNearer(s: State)
    requires Inv(s) && WaitsPromptly(s) && MainEnabled(s)
    ensures var t := Apply(s, MainStep);
            if Distance(s) == 1 then t.main.Idle? && t.done == s.done + 1
            else WaitsPromptly(t) && t.done == s.done && Distance(t) == Distance(s) - 1
  {
  }

  lemma RuntimeMoveIsNearer(s: State)
    requires Inv(s) && WaitsPromptly(s) && !MainEnabled(s)
    ensures Enabled(s, NextMove(s)) && !NextMove(s).MainStep? && !NextMove(s).Cancel?
    ensures var t := Apply(s, NextMove(s)); WaitsPromptly(t) && t.done == s.done && Distance(t) == Distance(s) - 1
  {
    if s.rt.state == R.Ready {
      assert s.rt.suspended[0] in s.rt.suspended;
    }
  }

  /**
   No release is lost: in every reachable state in which such an invoke waits at a closed gate, the runtime
   has a move, to wake up, to answer, to complete its answer or to ask for more, that brings the end nearer.
   */
  lemma WaitingMeansRuntimesTurn(es: seq<Event>)
    requires IsRun(BEGIN, es) && WaitsPromptly(After(BEGIN, es)) && !Enabled(After(BEGIN, es), MainStep)
    ensures var s := After(BEGIN, es);
            && Enabled(s, NextMove(s)) && (NextMove(s).RuntimeDo? || NextMove(s).RuntimeResume?)
            && Distance(Apply(s, NextMove(s))) < Distance(s)
            && (s.main.AwaitReady? ==> s.rt.state == R.ResponseSent)
  {
    RunKeepsInv(BEGIN, es);
    RuntimeMoveIsNearer(After(BEGIN, es));
  }

  /** From every such state at most six steps, three of them of the runtime's answer, complete the invoke. */
  lemma {:induction false} PromptInvokeCompletes(s: State) returns (es: seq<Event>)
    requires Inv(s) && WaitsPromptly(s)
    ensures IsRun(s, es) && |es| == Distance(s) <= 6 && forall k | 0 <= k < |es| :: !es[k].Cancel?
    ensures After(s, es).main.Idle? && After(s, es).done == s.done + 1
    decreases Distance(s)
  {
    var e := NextMove(s);
    if MainEnabled(s) { MainMoveIsNearer(s); } else { RuntimeMoveIsNearer(s); }
    var rest := [];
    if Distance(s) > 1 {
      StepKeepsInv(s, e);
      rest := PromptInvokeCompletes(Apply(s, e));
    }
    es := [e] + rest;
    assert es[1..] == rest;
    assert IsRun(Apply(s, e), []);
  }

  /** The other half: an invoke whose runtime was not ready at the release waits in every run without a cancellation. */
  lemma {:induction false} UnpromptInvokeHangs(s: State, es: seq<Event>)
    requires Inv(s) && IsRun(s, es) && s.main.AwaitResponse? && !s.prompt && !s.gates.response.canceled
    requires forall k | 0 <= k < |es| :: !es[k].Cancel?
    ensures After(s, es).main.AwaitResponse? && !Enabled(After(s, es), MainStep) && After(s, es).done == s.done
    decreases |es|
  {
    if es != [] {
      StepKeepsInv(s, es[0]);
      StaysUnprompt(s, es[0]);
      UnpromptInvokeHangs(Apply(s, es[0]), es[1..]);
    }
  }

  lemma StaysUnprompt(s: State, e: Event)
    requires Inv(s) && Enabled(s, e) && !e.Cancel? && s.main.AwaitResponse? && !s.prompt && !s.gates.response.canceled
    ensures var t := Apply(s, e); t.main.AwaitResponse? && !t.prompt && !t.gates.response.canceled && t.done == s.done
  {
  }

  predicate Uncancelled(es: seq<Event>) { forall k | 0 <= k < |es| :: !es[k].Cancel? }

  /**
   In every reachable state: an invoke that waits for its response, with nothing cancelled, can complete
   without a cancellation if and only if its runtime was ready when it was released.
   */
  lemma CanCompleteExactlyWhenPrompt(so: seq<Event>)
    requires IsRun(BEGIN, so)
    requires var s := After(BEGIN, so);
             s.main.AwaitResponse? && !s.gates.response.canceled && !s.gates.ready.canceled
    ensures var s := After(BEGIN, so);
            (exists es :: IsRun(s, es) && Uncancelled(es) && After(s, es).done > s.done) <==> s.prompt
  {
    RunKeepsInv(BEGIN, so);
    var s := After(BEGIN, so);
    if s.prompt {
      var es := PromptInvokeCompletes(s);
      assert IsRun(s, es) && Uncancelled(es) && After(s, es).done > s.done;
    } else {
      forall es | IsRun(s, es) && Uncancelled(es)
        ensures After(s, es).done == s.done
      {
        UnpromptInvokeHangs(s, es);
      }
    }
  }

  const WALKED := GateState(1, 1, false, None)
  const HOOK_GATES := Gates(WALKED, NEW_GATE, NEW_GATE, NEW_GATE)
  const HOOKED := R.System(R.RestoreReady, false, [R.ForRestore], [R.WalkRestoreReady], [], 0, 0, 0)
  const RELEASED := R.System(R.RestoreReady, true, [R.ForRestore], [R.WalkRestoreReady], [], 0, 0, 1)
  const RESTORING := R.System(R.Restoring, false, [], [R.WalkRestoreReady], [], 0, 1, 1)
  const READY_AGAIN := R.System(R.Ready, false, [R.ForInvoke], [R.WalkRestoreReady, R.WalkRuntimeReady], [], 0, 1, 1)
  const HUNG := State(READY_AGAIN, Gates(WALKED, WALKED, NEW_GATE, NEW_GATE), AwaitResponse, 0, false)

  const USING_UP: seq<Event> := [RuntimeResume(0), RuntimeDo(R.CallReady)]
  const INVOKING: seq<Event> := [MainStep, MainStep, MainStep, MainStep] + USING_UP
  const RESTORE_SKIPPED: seq<Event> := [RuntimeDo(R.CallRestoreReady), MainStep] + INVOKING

  lemma ReleaseIsUsedUp()
    ensures IsRun(State(RELEASED, HOOK_GATES, AwaitResponse, 0, false), USING_UP)
    ensures After(State(RELEASED, HOOK_GATES, AwaitResponse, 0, false), USING_UP) == HUNG
  {
    var s := State(RESTORING, HOOK_GATES, AwaitResponse, 0, false);
    assert Apply(s, RuntimeDo(R.CallReady)) == HUNG;
    Prepend(s, RuntimeDo(R.CallReady), HUNG, []);
    assert Apply(State(RELEASED, HOOK_GATES, AwaitResponse, 0, false), RuntimeResume(0)) == s;
    Prepend(State(RELEASED, HOOK_GATES, AwaitResponse, 0, false), RuntimeResume(0), s, [RuntimeDo(R.CallReady)]);
    assert USING_UP == [RuntimeResume(0)] + [RuntimeDo(R.CallReady)];
  }

  lemma InvokeReleases()
    ensures IsRun(State(HOOKED, HOOK_GATES, ResettingResponse, 0, false), [MainStep, MainStep] + USING_UP)
    ensures After(State(HOOKED, HOOK_GATES, ResettingResponse, 0, false), [MainStep, MainStep] + USING_UP) == HUNG
  {
    ReleaseIsUsedUp();
    var third := State(HOOKED, HOOK_GATES, Releasing, 0, false);
    Prepend(third, MainStep, State(RELEASED, HOOK_GATES, AwaitResponse, 0, false), USING_UP);
    Prepend(State(HOOKED, HOOK_GATES, ResettingResponse, 0, false), MainStep, third, [MainStep] + USING_UP);
    assert [MainStep, MainStep] + USING_UP == [MainStep] + ([MainStep] + USING_UP);
  }

  lemma InvokeBegins()
    ensures IsRun(State(HOOKED, HOOK_GATES, Idle, 0, false), INVOKING)
    ensures After(State(HOOKED, HOOK_GATES, Idle, 0, false), INVOKING) == HUNG
  {
    InvokeReleases();
    var first := State(HOOKED, HOOK_GATES, ResettingReady, 0, false);
    var rest := [MainStep, MainStep] + USING_UP;
    Prepend(first, MainStep, State(HOOKED, HOOK_GATES, ResettingResponse, 0, false), rest);
    Prepend(State(HOOKED, HOOK_GATES, Idle, 0, false), MainStep, first, [MainStep] + rest);
    assert INVOKING == [MainStep] + ([MainStep] + rest);
  }

  /**
   It happens when a runtime that asked for /restore/next is invoked without a restore in between: the
   release meant for the invoke ends the restore wait instead.
   */
  lemma SkippedRestoreHangs()
    ensures IsRun(BEGIN, RESTORE_SKIPPED) && After(BEGIN, RESTORE_SKIPPED) == HUNG
    ensures HUNG.main.AwaitResponse? && !HUNG.prompt && !HUNG.gates.response.canceled && HUNG.rt.state == R.Ready
  {
    InvokeBegins();
    var hooked := State(HOOKED, HOOK_GATES, AwaitInit, 0, false);
    Prepend(hooked, MainStep, State(HOOKED, HOOK_GATES, Idle, 0, false), INVOKING);
    assert Apply(BEGIN, RuntimeDo(R.CallRestoreReady)) == hooked;
    Prepend(BEGIN, RuntimeDo(R.CallRestoreReady), hooked, [MainStep] + INVOKING);
    assert RESTORE_SKIPPED == [RuntimeDo(R.CallRestoreReady)] + ([MainStep] + INVOKING);
  }

  lemma Prepend(s: State, e: Event, t: State, es: seq<Event>)
    requires Enabled(s, e) && Apply(s, e) == t && IsRun(t, es)
    ensures IsRun(s, [e] + es) && After(s, [e] + es) == After(t, es)
  {
    assert ([e] + es)[1..] == es;
  }
}
