/**
 The lifecycle of the sandbox application: the state guard, and the threads that race through Init, Invoke,
 Shutdown and the process termination monitor.  Any number of callers come and go; a step is one access to
 the state guard, the once, the stored error or a channel.
 */
module AppLifecycle {
  import opened Wrappers

  datatype Status = Idle | Initializing | Initialized | ShuttingDown | Shutdown

  function Rank(s: Status): nat {
    match s
    case Idle => 0
    case Initializing => 1
    case Initialized => 2
    case ShuttingDown => 3
    case Shutdown => 4
  }

  predicate IsValidTransition(from: Status, to: Status) {
    to == Idle ||
    match from
    case Idle => to == Initializing || to == ShuttingDown
    case Initializing => to == Initialized || to == ShuttingDown
    case Initialized => to == ShuttingDown
    case ShuttingDown => to == Shutdown
    case Shutdown => false
  }

  /** Apart from a return to Idle, a valid transition climbs; shutting down is possible exactly before it has begun. */
  lemma TransitionsClimb(from: Status, to: Status)
    ensures IsValidTransition(from, to) && to != Idle ==> Rank(from) < Rank(to)
    ensures IsValidTransition(from, ShuttingDown) <==> Rank(from) < Rank(ShuttingDown)
  {
  }

  class StateGuard {
    var current: Status

    constructor ()
      ensures current == Idle
    {
      current := Idle;
    }

    method SetState(state: Status) returns (ok: bool)
      modifies this
      ensures ok <==> IsValidTransition(old(current), state)
      ensures current == if ok then state else old(current)
      ensures state != Idle ==> Rank(old(current)) <= Rank(current)
    {
      if !IsValidTransition(current, state) { return false; }
      current := state;
      return true;
    }
  }

  // ---------------------------------------------------------------- threads

  type AppError = nat

  datatype InitResult = Succeeded | Rejected | RejectedLate | Failed(error: AppError)

  /** `helper` is the thread that a failed Init starts to shut down. */
  datatype InitPc = Entering | Handling | AwaitingShutdown(error: AppError, helper: nat) | Finishing
    | InitReturned(result: InitResult)

  datatype ShutdownPc = AtOnce | Setting | Storing | Closing | HandlingShutdown | SettingFinal | ClosingDone
    | ShutdownReturned

  datatype Admission = Admitted | NotInitialized | Unhealthy

  datatype Thread =
    | Monitor
    | InitCall(ipc: InitPc)
    | ShutdownCall(reason: Option<AppError>, pc: ShutdownPc)
    | InvokeCall(admission: Option<Admission>)

  /** sync.Once: nobody came yet, thread t is inside, thread t has been inside. */
  datatype Once = Fresh | Running(t: nat) | Completed(t: nat)

  /** `started` and `done` count the closings of shutdownStartedCh and doneCh. */
  datatype Shared = Shared(status: Status, once: Once, err: Option<AppError>, started: nat, done: nat)

  datatype State = State(sh: Shared, threads: seq<Thread>)

  datatype Event =
    | Arrive(caller: Thread)
    | Step(t: nat, result: Option<AppError>)   // result: of HandleInit, or of the termination notifier

  predicate NewCaller(th: Thread) {
    th == InitCall(Entering) || (th.ShutdownCall? && th.pc == AtOnce) || th == InvokeCall(None)
  }

  function SetState(sh: Shared, to: Status): Shared {
    if IsValidTransition(sh.status, to) then sh.(status := to) else sh
  }

  // ---------------------------------------------------------------- steps

  predicate ThreadEnabled(sh: Shared, th: Thread) {
    match th
    case Monitor => true
    case InitCall(ipc) => !ipc.InitReturned? && (ipc.AwaitingShutdown? ==> sh.started > 0)
    case ShutdownCall(_, pc) => pc != ShutdownReturned && (pc == AtOnce ==> !sh.once.Running?)
    case InvokeCall(admission) => admission.None?
  }

  predicate Enabled(s: State, e: Event) {
    match e
    case Arrive(caller) => NewCaller(caller)
    case Step(t, _) => t < |s.threads| && ThreadEnabled(s.sh, s.threads[t])
  }

  function Admit(status: Status): Admission {
    match status
    case Initialized => Admitted
    case Idle => NotInitialized
    case Initializing => NotInitialized
    case ShuttingDown => Unhealthy
    case Shutdown => Unhealthy
  }

  function InitStep(sh: Shared, ipc: InitPc, result: Option<AppError>, n: nat): (Shared, InitPc) {
    match ipc
    case Entering =>
      if IsValidTransition(sh.status, Initializing) then (SetState(sh, Initializing), Handling)
      else (sh, InitReturned(Rejected))
    case Handling => (sh, if result.Some? then AwaitingShutdown(result.value, n) else Finishing)
    case AwaitingShutdown(e, _) => (sh, InitReturned(Failed(e)))
    case Finishing =>
      if IsValidTransition(sh.status, Initialized) then (SetState(sh, Initialized), InitReturned(Succeeded))
      else (sh, InitReturned(RejectedLate))
    case InitReturned(_) => (sh, ipc)
  }

  function ShutdownStep(sh: Shared, t: nat, reason: Option<AppError>, pc: ShutdownPc): (Shared, ShutdownPc) {
    match pc
    case AtOnce => if sh.once.Fresh? then (sh.(once := Running(t)), Setting) else (sh, ShutdownReturned)
    case Setting =>
      if IsValidTransition(sh.status, ShuttingDown) then (SetState(sh, ShuttingDown), Storing)
      else (sh.(once := Completed(t)), ShutdownReturned)
    case Storing => (if reason.Some? then sh.(err := reason) else sh, Closing)
    case Closing => (sh.(started := sh.started + 1), HandlingShutdown)
    case HandlingShutdown => (sh, SettingFinal)
    case SettingFinal => (SetState(sh, Shutdown), ClosingDone)
    case ClosingDone => (sh.(done := sh.done + 1, once := Completed(t)), ShutdownReturned)
    case ShutdownReturned => (sh, pc)
  }

  function ThreadStep(sh: Shared, t: nat, th: Thread, result: Option<AppError>, n: nat): (Shared, Thread) {
    match th
    case Monitor => (sh, ShutdownCall(result, AtOnce))
    case InitCall(ipc) => var (sh', ipc') := InitStep(sh, ipc, result, n); (sh', InitCall(ipc'))
    case ShutdownCall(reason, pc) => var (sh', pc') := ShutdownStep(sh, t, reason, pc); (sh', ShutdownCall(reason, pc'))
    case InvokeCall(admission) => (sh, InvokeCall(if admission.None? then Some(Admit(sh.status)) else admission))
  }

  /** A failed Init starts the thread that shuts down. */
  function Spawned(th: Thread, result: Option<AppError>): seq<Thread> {
    if th == InitCall(Handling) && result.Some? then [ShutdownCall(result, AtOnce)] else []
  }

  function Next(s: State, e: Event): State
    requires Enabled(s, e)
  {
    match e
    case Arrive(caller) => s.(threads := s.threads + [caller])
    case Step(t, result) =>
      var (sh, th) := ThreadStep(s.sh, t, s.threads[t], result, |s.threads|);
      State(sh, s.threads[t := th] + Spawned(s.threads[t], result))
  }

  function Initial(): State { State(Shared(Idle, Fresh, None, 0, 0), [Monitor]) }

  predicate IsRun(s: State, es: seq<Event>)
    decreases |es|
  {
    es == [] || (Enabled(s, es[0]) && IsRun(Next(s, es[0]), es[1..]))
  }

  function After(s: State, es: seq<Event>): State
    requires IsRun(s, es)
    decreases |es|
  {
    if es == [] then s else After(Next(s, es[0]), es[1..])
  }

  // ---------------------------------------------------------------- invariants

  predicate Inside(th: Thread) { th.ShutdownCall? && th.pc != AtOnce && th.pc != ShutdownReturned }

  /** What the shared state is while the once is fresh, held by a thread at `pc`, or completed. */
  predicate PhaseOk(sh: Shared, reason: Option<AppError>, pc: ShutdownPc) {
    && sh.started == (if pc in {AtOnce, Setting, Storing, Closing} then 0 else 1)
    && sh.done == (if pc == ShutdownReturned then 1 else 0)
    && sh.err == (if pc in {AtOnce, Setting, Storing} then None else reason)
    && (pc in {AtOnce, Setting} ==> Rank(sh.status) < Rank(ShuttingDown))
    && (pc in {Storing, Closing, HandlingShutdown, SettingFinal} ==> sh.status == ShuttingDown)
    && (pc in {ClosingDone, ShutdownReturned} ==> sh.status == Shutdown)
  }

  /** The once's owner explains the shared state, and nobody else is inside. */
  ghost predicate OnceOk(sh: Shared, threads: seq<Thread>) {
    && (forall t | 0 <= t < |threads| && Inside(threads[t]) :: sh.once == Running(t))
    && match sh.once
       case Fresh => PhaseOk(sh, None, AtOnce)
       case Running(t) => t < |threads| && Inside(threads[t]) && PhaseOk(sh, threads[t].reason, threads[t].pc)
       case Completed(t) =>
         t < |threads| && threads[t].ShutdownCall? && threads[t].pc == ShutdownReturned
         && PhaseOk(sh, threads[t].reason, ShutdownReturned)
  }

  /** An Init that got past its first transition. */
  predicate Began(th: Thread) { th.InitCall? && th.ipc != Entering && th.ipc != InitReturned(Rejected) }

  ghost predicate InitOk(sh: Shared, threads: seq<Thread>, i: nat)
    requires i < |threads| && threads[i].InitCall?
  {
    match threads[i].ipc
    case AwaitingShutdown(e, h) =>
      h < |threads| && threads[h].ShutdownCall? && threads[h].reason == Some(e)
      && (sh.once == Fresh ==> threads[h].pc == AtOnce)
    case InitReturned(r) => (r.Failed? ==> sh.started > 0) && (r == Succeeded ==> Rank(sh.status) >= Rank(Initialized))
    case _ => true
  }

  ghost predicate EachInitOk(sh: Shared, threads: seq<Thread>) {
    forall i | 0 <= i < |threads| && threads[i].InitCall? :: InitOk(sh, threads, i)
  }

  ghost predicate OneInit(sh: Shared, threads: seq<Thread>) {
    && (forall i, j | 0 <= i < j < |threads| && Began(threads[i]) :: !Began(threads[j]))
    && (forall i | 0 <= i < |threads| && Began(threads[i]) :: Rank(sh.status) > 0)
  }

  ghost predicate SuccessOk(sh: Shared, threads: seq<Thread>) {
    sh.status == Initialized ==> exists i :: 0 <= i < |threads| && threads[i] == InitCall(InitReturned(Succeeded))
  }

  ghost predicate Inv(s: State) {
    OnceOk(s.sh, s.threads) && EachInitOk(s.sh, s.threads) && OneInit(s.sh, s.threads) && SuccessOk(s.sh, s.threads)
  }

  /** An Init cannot interfere with a shutdown under way, nor bring one about. */
  lemma InitKeepsPhase(sh: Shared, ipc: InitPc, result: Option<AppError>, n: nat, reason: Option<AppError>,
                       pc: ShutdownPc)
    requires PhaseOk(sh, reason, pc)
    ensures var sh' := InitStep(sh, ipc, result, n).0; PhaseOk(sh', reason, pc) && sh'.once == sh.once
  {
  }

  lemma StepKeepsOnce(s: State, t: nat, result: Option<AppError>)
    requires OnceOk(s.sh, s.threads) && Enabled(s, Step(t, result))
    ensures var s' := Next(s, Step(t, result)); OnceOk(s'.sh, s'.threads)
  {
    var s' := Next(s, Step(t, result));
    var th, n := s.threads[t], |s.threads|;
    if th.InitCall? {
      match s.sh.once
      case Fresh => InitKeepsPhase(s.sh, th.ipc, result, n, None, AtOnce);
      case Running(o) => InitKeepsPhase(s.sh, th.ipc, result, n, s.threads[o].reason, s.threads[o].pc);
      case Completed(o) => InitKeepsPhase(s.sh, th.ipc, result, n, s.threads[o].reason, ShutdownReturned);
    }
  }

  lemma StepKeepsEachInit(s: State, t: nat, result: Option<AppError>, i: nat)
    requires EachInitOk(s.sh, s.threads) && Enabled(s, Step(t, result))
    requires var s' := Next(s, Step(t, result)); i < |s'.threads| && s'.threads[i].InitCall?
    ensures var s' := Next(s, Step(t, result)); InitOk(s'.sh, s'.threads, i)
  {
    assert i < |s.threads| && s.threads[i].InitCall?;
    assert InitOk(s.sh, s.threads, i);
  }

  lemma StepKeepsOneInit(s: State, t: nat, result: Option<AppError>)
    requires OneInit(s.sh, s.threads) && Enabled(s, Step(t, result))
    ensures var s' := Next(s, Step(t, result)); OneInit(s'.sh, s'.threads)
  {
    var s' := Next(s, Step(t, result));
    assert Began(s'.threads[t]) ==> Rank(s'.sh.status) > 0 && (Began(s.threads[t]) || s.sh.status == Idle);
  }

  lemma StepKeepsSuccess(s: State, t: nat, result: Option<AppError>)
    requires SuccessOk(s.sh, s.threads) && Enabled(s, Step(t, result))
    ensures var s' := Next(s, Step(t, result)); SuccessOk(s'.sh, s'.threads)
  {
    var s' := Next(s, Step(t, result));
    if s'.sh.status == Initialized {
      if s.sh.status == Initialized {
        var i :| 0 <= i < |s.threads| && s.threads[i] == InitCall(InitReturned(Succeeded));
        assert s'.threads[i] == InitCall(InitReturned(Succeeded));
      } else {
        assert s'.threads[t] == InitCall(InitReturned(Succeeded));
      }
    }
  }

  lemma StepKeepsInv(s: State, e: Event)
    requires Inv(s) && Enabled(s, e)
    ensures Inv(Next(s, e))
  {
    match e
    case Step(t, result) =>
      StepKeepsOnce(s, t, result);
      StepKeepsOneInit(s, t, result);
      StepKeepsSuccess(s, t, result);
      var s' := Next(s, e);
      forall i | 0 <= i < |s'.threads| && s'.threads[i].InitCall?
        ensures InitOk(s'.sh, s'.threads, i)
      {
        StepKeepsEachInit(s, t, result, i);
      }
    case Arrive(caller) =>
      ArrivalKeepsInv(s, caller);
  }

  lemma ArrivalKeepsInv(s: State, caller: Thread)
    requires Inv(s) && NewCaller(caller)
    ensures Inv(Next(s, Arrive(caller)))
  {
    var s' := Next(s, Arrive(caller));
    assert s'.threads[|s.threads|] == caller && !Inside(caller) && !Began(caller);
    forall i | 0 <= i < |s'.threads| && s'.threads[i].InitCall?
      ensures InitOk(s'.sh, s'.threads, i)
    {
      if i < |s.threads| { assert InitOk(s.sh, s.threads, i); }
    }
    if s.sh.status == Initialized {
      var i :| 0 <= i < |s.threads| && s.threads[i] == InitCall(InitReturned(Succeeded));
      assert s'.threads[i] == InitCall(InitReturned(Succeeded));
    }
  }

  lemma {:induction false} RunKeepsInv(s: State, es: seq<Event>)
    requires Inv(s) && IsRun(s, es)
    ensures Inv(After(s, es))
    decreases |es|
  {
    if es != [] {
      StepKeepsInv(s, es[0]);
      RunKeepsInv(Next(s, es[0]), es[1..]);
    }
  }

  ghost predicate Reachable(s: State) {
    exists es :: IsRun(Initial(), es) && After(Initial(), es) == s
  }

  lemma ReachableInv(s: State)
    requires Reachable(s)
    ensures Inv(s)
  {
    var es :| IsRun(Initial(), es) && After(Initial(), es) == s;
    RunKeepsInv(Initial(), es);
  }

  // ---------------------------------------------------------------- guarantees

  /** The lifecycle is monotone over every run, and so are the channels. */
  lemma {:induction false} RankNeverFalls(s: State, es: seq<Event>)
    requires IsRun(s, es)
    ensures Rank(s.sh.status) <= Rank(After(s, es).sh.status)
    ensures s.sh.started <= After(s, es).sh.started && s.sh.done <= After(s, es).sh.done
    decreases |es|
  {
    if es != [] {
      RankNeverFalls(Next(s, es[0]), es[1..]);
    }
  }

  /** Neither transition inside the once can fail. */
  lemma OnceTransitionsSucceed(s: State, t: nat)
    requires Reachable(s) && t < |s.threads| && s.threads[t].ShutdownCall?
    ensures s.threads[t].pc == Setting ==> IsValidTransition(s.sh.status, ShuttingDown)
    ensures s.threads[t].pc == SettingFinal ==> IsValidTransition(s.sh.status, Shutdown)
    ensures Inside(s.threads[t]) ==> forall k | 0 <= k < |s.threads| && Inside(s.threads[k]) :: k == t
  {
    ReachableInv(s);
  }

  /** Each channel is closed at most once, the start before the end, and each means what it says. */
  lemma ChannelsCloseOnceAndInOrder(s: State)
    requires Reachable(s)
    ensures s.sh.done <= s.sh.started <= 1
    ensures s.sh.started == 1 ==> Rank(s.sh.status) >= Rank(ShuttingDown)
    ensures s.sh.done == 1 ==> s.sh.status == Shutdown
  {
    ReachableInv(s);
  }

  /** The stored error is the reason of the one call that shuts down, from before the start is announced, for ever. */
  lemma ErrorIsTheReasonOfTheShutdown(s: State, es: seq<Event>)
    requires Reachable(s) && s.sh.started > 0 && IsRun(s, es)
    ensures !s.sh.once.Fresh? && s.sh.once.t < |s.threads| && s.threads[s.sh.once.t].ShutdownCall?
    ensures s.sh.err == s.threads[s.sh.once.t].reason
    ensures After(s, es).sh.err == s.sh.err
  {
    ReachableInv(s);
    ErrorStays(s, es);
  }

  lemma {:induction false} ErrorStays(s: State, es: seq<Event>)
    requires Inv(s) && s.sh.started > 0 && IsRun(s, es)
    ensures After(s, es).sh.err == s.sh.err
    decreases |es|
  {
    if es != [] {
      StepKeepsInv(s, es[0]);
      if es[0].Step? { assert Inside(s.threads[es[0].t]) ==> s.sh.once == Running(es[0].t); }
      ErrorStays(Next(s, es[0]), es[1..]);
    }
  }

  /** Only one Init ever reaches HandleInit. */
  lemma OneInitHandled(s: State, i: nat, j: nat)
    requires Reachable(s) && i < |s.threads| && j < |s.threads| && Began(s.threads[i]) && Began(s.threads[j])
    ensures i == j
  {
    ReachableInv(s);
  }

  /** An invoke is admitted only after that Init has succeeded and before a shutdown is announced. */
  lemma InvokesFollowInit(s: State, t: nat)
    requires Reachable(s) && t < |s.threads| && s.threads[t] == InvokeCall(None)
    requires Next(s, Step(t, None)).threads[t] == InvokeCall(Some(Admitted))
    ensures s.sh.started == 0
    ensures exists i :: 0 <= i < |s.threads| && s.threads[i] == InitCall(InitReturned(Succeeded))
  {
    ReachableInv(s);
  }

  /** Once the start of a shutdown is announced, or a failing Init has returned, no invoke is admitted any more. */
  lemma NoInvokeAfterShutdownStarts(s: State, es: seq<Event>, i: nat)
    requires Reachable(s) && IsRun(s, es) && i < |s.threads|
    requires s.sh.started > 0 || (s.threads[i].InitCall? && s.threads[i].ipc.InitReturned?
                                  && s.threads[i].ipc.result.Failed?)
    ensures s.sh.started > 0 && Admit(After(s, es).sh.status) == Unhealthy
  {
    ReachableInv(s);
    assert s.threads[i].InitCall? ==> InitOk(s.sh, s.threads, i);
    RankNeverFalls(s, es);
  }

  // ---------------------------------------------------------------- a failing Init does not wait for ever

  /** Steps of the shutting-down thread until shutdownStartedCh is closed. */
  function Distance(s: State): nat {
    match s.sh.once
    case Fresh => 4
    case Completed(_) => 0
    case Running(t) =>
      if t < |s.threads| && s.threads[t].ShutdownCall? then
        match s.threads[t].pc
        case Setting => 3
        case Storing => 2
        case Closing => 1
        case _ => 0
      else 0
  }

  predicate Awaits(s: State, i: nat) { i < |s.threads| && s.threads[i].InitCall? && s.threads[i].ipc.AwaitingShutdown? }

  /** The thread whose steps bring the closing nearer. */
  function Driver(s: State, i: nat): nat
    requires Awaits(s, i)
  {
    if s.sh.once.Fresh? then s.threads[i].ipc.helper else s.sh.once.t
  }

  /** While an Init waits for the closing, some thread is able to take the next step toward it. */
  lemma DriverIsEnabled(s: State, i: nat)
    requires Inv(s) && Awaits(s, i)
    ensures Distance(s) == 0 <==> s.sh.started > 0
    ensures Distance(s) > 0 ==>
              var e := Step(Driver(s, i), None);
              Enabled(s, e) && Distance(Next(s, e)) == Distance(s) - 1 && Awaits(Next(s, e), i)
  {
    assert InitOk(s.sh, s.threads, i);
  }

  /** Nobody's step undoes the progress. */
  lemma DistanceNeverGrows(s: State, e: Event)
    requires Inv(s) && Enabled(s, e)
    ensures Distance(Next(s, e)) <= Distance(s)
  {
    if e.Step? {
      assert Inside(s.threads[e.t]) ==> s.sh.once == Running(e.t);
    }
  }

  /** How often the driver steps, up to the closing. */
  function Moves(s: State, i: nat, es: seq<Event>): nat
    requires IsRun(s, es)
    decreases |es|
  {
    if es == [] || s.sh.started > 0 || !Awaits(s, i) then 0
    else (if es[0].Step? && es[0].t == Driver(s, i) then 1 else 0) + Moves(Next(s, es[0]), i, es[1..])
  }

  /**
   In every run, as long as an Init waits, the driver, which is always able to step, has stepped less than
   four times.
   */
  lemma {:induction false} WaitsOnlyForFourMoves(s: State, i: nat, es: seq<Event>)
    requires Inv(s) && Awaits(s, i) && IsRun(s, es) && After(s, es).sh.started == 0
    ensures Moves(s, i, es) + Distance(After(s, es)) <= Distance(s) <= 4
    ensures Awaits(After(s, es), i) && Enabled(After(s, es), Step(Driver(After(s, es), i), None))
    decreases |es|
  {
    DriverIsEnabled(s, i);
    RankNeverFalls(s, es);
    if es != [] {
      StepKeepsInv(s, es[0]);
      StillAwaits(s, i, es[0]);
      DistanceNeverGrows(s, es[0]);
      WaitsOnlyForFourMoves(Next(s, es[0]), i, es[1..]);
    }
  }

  /** The wait lasts until the closing, and the driver's step, whatever its argument, brings it nearer. */
  lemma StillAwaits(s: State, i: nat, e: Event)
    requires Inv(s) && Awaits(s, i) && Enabled(s, e) && s.sh.started == 0
    ensures Awaits(Next(s, e), i)
    ensures e.Step? && e.t == Driver(s, i) ==> Distance(Next(s, e)) < Distance(s)
  {
    assert InitOk(s.sh, s.threads, i);
    DriverIsEnabled(s, i);
  }

  /** The steps of the thread that shuts down, alone, end the wait; at most four of them do. */
  lemma {:induction false} FailingInitReturns(s: State, i: nat) returns (es: seq<Event>)
    requires Inv(s) && Awaits(s, i)
    ensures |es| == Distance(s) <= 4 && IsRun(s, es)
    ensures forall k | 0 <= k < |es| :: es[k].Step? && es[k].t != i
    ensures Awaits(After(s, es), i) && Enabled(After(s, es), Step(i, None))
    ensures Next(After(s, es), Step(i, None)).threads[i] == InitCall(InitReturned(Failed(s.threads[i].ipc.error)))
    decreases Distance(s)
  {
    DriverIsEnabled(s, i);
    if Distance(s) == 0 {
      es := [];
    } else {
      var e := Step(Driver(s, i), None);
      StepKeepsInv(s, e);
      var rest := FailingInitReturns(Next(s, e), i);
      es := [e] + rest;
      assert es[1..] == rest;
    }
  }
}
