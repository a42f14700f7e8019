/** The guarantees of the response protocol, stated for every run of it. */
module RunningInvokeGuarantees {
  import opened Wrappers
  import opened RunningInvoke
  import opened RunningInvokeSafety

  predicate Inv(s: State) {
    Claims(s) && TraceOk(s.main, s.body, s.trace) && EchoOk(s) && ConsumedOk(s)
    && ReplyOk(s.main, s.trace, s.registered, s.race.responseState == GotError)
    && ClosedOk(s.main, s.trace, s.race)
  }

  lemma StepKeepsInv(s: State, e: Event)
    requires Inv(s) && Enabled(s, e)
    ensures Inv(Apply(s, e))
  {
    StepKeepsClaims(s, e);
    StepKeepsTrace(s, e);
    StepKeepsEcho(s, e);
    StepKeepsConsumed(s, e);
    StepKeepsReply(s, e);
    StepKeepsClosed(s, e);
  }

  lemma {:induction false} RunKeepsInv(s: State, es: seq<Event>)
    requires Inv(s) && IsRun(s, es)
    ensures Inv(After(s, es))
    decreases |es|
  {
    if es != [] {
      StepKeepsInv(s, es[0]);
      RunKeepsInv(Apply(s, es[0]), es[1..]);
    }
  }

  predicate Waiting(c: Caller) {
    (c.ResponseCaller? && c.rpc.AwaitSent?) || (c.ErrorCaller? && c.epc.AwaitErrorSent?)
  }

  predicate Delivering(c: Caller) {
    (c.ResponseCaller? && c.rpc.Deliver?) || (c.ErrorCaller? && c.epc.DeliverError?)
  }

  predicate Done(c: Caller) {
    (c.ResponseCaller? && c.rpc.Answered?) || (c.ErrorCaller? && c.epc.ErrorAnswered?)
  }

  /**
   In every run at most one request ever enters each request channel, whatever the number of callers,
   and a caller about to place its request never blocks.
   */
  lemma AtMostOneAnswerEnters(id: string, es: seq<Event>)
    requires IsRun(Init(id), es)
    ensures var s := After(Init(id), es);
            && |s.race.responsesEntered| <= 1 && |s.race.errorsEntered| <= 1
            && forall i | 0 <= i < |s.callers| && Delivering(s.callers[i]) :: Enabled(s, StepCaller(i))
  {
    RunKeepsInv(Init(id), es);
    var s := After(Init(id), es);
    forall i | 0 <= i < |s.callers| && Delivering(s.callers[i])
      ensures Enabled(s, StepCaller(i))
    {
      assert CallerOk(s, i);
    }
  }

  /** Once the atomic says that an error won, it says so for ever. */
  lemma {:induction false} GotErrorIsAbsorbing(s: State, es: seq<Event>)
    requires s.race.responseState == GotError && IsRun(s, es)
    ensures After(s, es).race.responseState == GotError
    decreases |es|
  {
    if es != [] {
      GotErrorIsAbsorbing(Apply(s, es[0]), es[1..]);
    }
  }

  /**
   Agreement: the result main returns, the result the accepted response caller returns and the result
   the accepted error caller reads are the same, and main never blocks while announcing it.
   */
  lemma Agreement(id: string, es: seq<Event>)
    requires IsRun(Init(id), es)
    ensures var s := After(Init(id), es);
            && (s.main.NotifyResponse? || s.main.NotifyError? ==> Enabled(s, StepMain))
            && (forall i | 0 <= i < |s.callers| && s.race.accepted == Some(i) && Done(s.callers[i]) ::
                  s.callers[i].ResponseCaller? && Told(s.main) == Some(s.callers[i].rpc.result))
            && (forall i | 0 <= i < |s.callers| && s.race.acceptedError == Some(i) && Done(s.callers[i]) ::
                  s.callers[i].ErrorCaller? && ToldError(s.main) == Some(s.callers[i].epc.sent))
  {
    RunKeepsInv(Init(id), es);
    var s := After(Init(id), es);
    forall i | 0 <= i < |s.callers|
      ensures s.race.accepted == Some(i) && Done(s.callers[i]) ==>
                s.callers[i].ResponseCaller? && Told(s.main) == Some(s.callers[i].rpc.result)
      ensures s.race.acceptedError == Some(i) && Done(s.callers[i]) ==>
                s.callers[i].ErrorCaller? && ToldError(s.main) == Some(s.callers[i].epc.sent)
    {
      assert CallerOk(s, i);
    }
  }

  /**
   Once main is done, a waiting caller can go on exactly when the invoke reached the runtime: after a
   failed send nothing is announced.
   */
  lemma WaitingCallersAreAnswered(id: string, es: seq<Event>, i: nat)
    requires IsRun(Init(id), es)
    requires var s := After(Init(id), es); i < |s.callers| && (s.main.Finished? || s.main.FinishedUnsent?)
    ensures var s := After(Init(id), es);
            && (s.main.Finished? && !Done(s.callers[i]) ==> Enabled(s, StepCaller(i)))
            && (Waiting(s.callers[i]) ==> (Enabled(s, StepCaller(i)) <==> s.main.Finished?))
  {
    RunKeepsInv(Init(id), es);
    assert CallerOk(After(Init(id), es), i);
  }

  lemma StaysWaiting(s: State, e: Event, i: nat)
    requires Globals(s) && Enabled(s, e) && s.main.FinishedUnsent? && i < |s.callers| && Waiting(s.callers[i])
    ensures var t := Apply(s, e); i < |t.callers| && t.callers[i] == s.callers[i] && t.main == s.main
  {
  }

  /** The other half: after a failed send an accepted caller waits in every continuation. */
  lemma {:induction false} UnsentLeavesCallersWaiting(s: State, es: seq<Event>, i: nat)
    requires Inv(s) && IsRun(s, es)
    requires s.main.FinishedUnsent? && i < |s.callers| && Waiting(s.callers[i])
    ensures var t := After(s, es); i < |t.callers| && t.callers[i] == s.callers[i] && t.main == s.main
    decreases |es|
  {
    if es != [] {
      StepKeepsInv(s, es[0]);
      StaysWaiting(s, es[0], i);
      UnsentLeavesCallersWaiting(Apply(s, es[0]), es[1..], i);
    }
  }

  /** How many more actions a caller can take. */
  function Remaining(c: Caller): nat {
    match c
    case ResponseCaller(_, pc, _) => (
      match pc
      case TryAccept => 5
      case CheckEcho => 4
      case Undo => 1
      case Deliver => 2
      case AwaitSent => 1
      case Answered(_) => 0)
    case ErrorCaller(_, pc, _) => (
      match pc
      case CheckErrorEcho => 5
      case SwapState => 4
      case DeliverError => 2
      case AwaitErrorSent => 1
      case ErrorAnswered(_, _, _) => 0)
  }

  /** No livelock: a caller is answered after at most five of its own actions, and nobody else moves it. */
  lemma CallersTerminate(s: State, e: Event, i: nat)
    requires Enabled(s, e) && i < |s.callers|
    ensures var t := Apply(s, e);
            && i < |t.callers| && Remaining(s.callers[i]) <= 5
            && (if e == StepCaller(i) then Remaining(t.callers[i]) < Remaining(s.callers[i])
                else t.callers[i] == s.callers[i])
            && (Done(s.callers[i]) <==> Remaining(s.callers[i]) == 0)
  {
    if e.StepCaller? {
      match s.callers[e.i]
      case ResponseCaller(_, pc, _) =>
      case ErrorCaller(_, pc, _) =>
    }
  }

  /** Main can move, or has returned, or waits for an answer or a cancellation, or for a body sender that can move. */
  predicate MainCanMove(s: State) {
    || s.main.Finished? || s.main.FinishedUnsent?
    || Enabled(s, StepMain) || Enabled(s, SendSucceeds)
    || Enabled(s, TakeResponse) || Enabled(s, TakeError) || Enabled(s, TakeCancellation) || Enabled(s, TakeBodyResult)
    || (s.main.Select? && s.race.responseChan == [] && s.race.errorChan == [] && s.ctx.None?)
    || ((s.main.AwaitBody? || s.main.DrainBody?) && (Enabled(s, BodyStarts) || Enabled(s, BodyReturns(None))))
  }

  lemma InvLetsMainMove(s: State)
    requires AnnouncedOk(s.race, Settled(s.main), Told(s.main), ToldError(s.main)) && TraceOk(s.main, s.body, s.trace)
    ensures MainCanMove(s)
  {
    match s.main
    case AwaitBody(_) =>
    case DrainBody(_) =>
    case _ =>
  }

  /** Main is blocked only where the source waits for somebody else. */
  lemma MainBlocksOnlyForOthers(id: string, es: seq<Event>)
    requires IsRun(Init(id), es)
    ensures MainCanMove(After(Init(id), es))
  {
    RunKeepsInv(Init(id), es);
    InvLetsMainMove(After(Init(id), es));
  }

  predicate Final(call: SenderCall) { call.SendError? || call.ErrorTrailers? || call.ResponseTrailers? }

  /** Nothing follows a final call, and trailers follow a body only once the body sender has returned. */
  predicate WellOrdered(trace: seq<SenderCall>) {
    && (forall k | 0 <= k < |trace| - 1 :: !Final(trace[k]))
    && (trace != [] && BodyBegin in trace && Final(trace[|trace| - 1]) ==>
          trace[..|trace| - 1] == [Headers, BodyBegin, BodyEnd])
  }

  lemma TraceIsWellOrdered(m: Main, body: Body, trace: seq<SenderCall>)
    requires TraceOk(m, body, trace)
    ensures WellOrdered(trace)
  {
    match m
    case NotifyResponse(result) => CompleteIsWellOrdered(trace, result);
    case NotifyError(result) => CompleteIsWellOrdered(trace, result);
    case Finished(result) => CompleteIsWellOrdered(trace, result);
    case _ =>
  }

  lemma CompleteIsWellOrdered(trace: seq<SenderCall>, result: Option<AppError>)
    requires CompleteTrace(trace, result)
    ensures WellOrdered(trace)
  {
    if |trace| == 4 {
      assert trace[0] == trace[..3][0] && trace[1] == trace[..3][1] && trace[2] == trace[..3][2];
    }
  }

  /**
   The calls on the response sender: when main returns they have one of the four shapes and the last one
   reports exactly main's result; at every moment trailers come last and only after the body sender returned.
   */
  lemma SenderTrace(id: string, es: seq<Event>)
    requires IsRun(Init(id), es)
    ensures var s := After(Init(id), es);
            && (s.main.Finished? ==> CompleteTrace(s.trace, s.main.result))
            && (s.main.FinishedUnsent? ==> s.trace == [SendError(s.main.err.errorType)])
            && WellOrdered(s.trace)
  {
    RunKeepsInv(Init(id), es);
    var s := After(Init(id), es);
    TraceIsWellOrdered(s.main, s.body, s.trace);
  }

  /**
   When the invoker has been answered by a plain error, the atomic is closed to further answers if and only
   if the invoke had reached the runtime or an error caller had swapped it; and the invoke ID is in the
   timeout cache, registered once and before the reply, exactly when that error is a sandbox timeout.
   */
  lemma PlainErrorReply(id: string, es: seq<Event>)
    requires IsRun(Init(id), es)
    ensures var s := After(Init(id), es);
            && (s.trace != [] && s.trace[0].SendError? ==>
                  (s.race.responseState == GotError <==> !s.main.FinishedUnsent? || s.race.acceptedError.Some?))
            && s.registered <= 1
            && (s.main.Finished? || s.main.FinishedUnsent? ==>
                  (s.registered == 1 <==> s.trace == [SendError(SandboxTimedout)]))
            && ((s.main.Reply? || s.main.FailedReply?) && s.main.err.errorType.SandboxTimedout? ==>
                  s.registered == 1 && s.trace == [])
  {
    RunKeepsInv(Init(id), es);
    ReplyCloses(After(Init(id), es));
  }

  lemma ReplyCloses(s: State)
    requires TraceOk(s.main, s.body, s.trace) && ClosedOk(s.main, s.trace, s.race)
    ensures s.trace != [] && s.trace[0].SendError? ==>
              (s.race.responseState == GotError <==> !s.main.FinishedUnsent? || s.race.acceptedError.Some?)
  {
  }

  /**
   After the reply to a failed send answers are still accepted: a response that comes to its comparison of
   the atomic exactly if no answer was accepted or is being checked, an error that comes to its swap exactly
   if no error was accepted.
   */
  lemma AnswersAfterFailedSend(id: string, es: seq<Event>, i: nat)
    requires IsRun(Init(id), es) && After(Init(id), es).main.FinishedUnsent? && i < |After(Init(id), es).callers|
    ensures var s := After(Init(id), es);
            && (s.callers[i].ResponseCaller? && s.callers[i].rpc.TryAccept? ==>
                  (Apply(s, StepCaller(i)).race.holder == Some(i) <==>
                   s.race.holder.None? && s.race.accepted.None? && s.race.acceptedError.None?))
            && (s.callers[i].ErrorCaller? && s.callers[i].epc.SwapState? ==>
                  (Apply(s, StepCaller(i)).race.acceptedError == Some(i) <==> s.race.acceptedError.None?))
  {
    RunKeepsInv(Init(id), es);
    assert CallerOk(After(Init(id), es), i);
  }

  /** A runtime told that its error was sent shares that error's type with what the invoker was told. */
  lemma ErrorAcknowledgedMeansReported(id: string, es: seq<Event>, i: nat)
    requires IsRun(Init(id), es)
    requires var s := After(Init(id), es);
             i < |s.callers| && s.callers[i].ErrorCaller? && Done(s.callers[i]) && s.callers[i].epc.outcome == None
    ensures var s := After(Init(id), es);
            s.main.Finished? && s.trace != []
            && Reports(s.trace[|s.trace| - 1], Some(CustomerError(s.callers[i].err.errorType)))
  {
    RunKeepsInv(Init(id), es);
    assert CallerOk(After(Init(id), es), i);
    RejectionsCarryErrors(Init(id), es);
  }

  predicate RejectionsOk(s: State) {
    forall j | 0 <= j < |s.callers| && s.callers[j].ErrorCaller? && s.callers[j].epc.ErrorAnswered?
               && !s.callers[j].epc.accepted ::
      s.callers[j].epc.outcome.Some?
  }

  /** A rejected error caller is always given an error. */
  lemma {:induction false} RejectionsCarryErrors(s: State, es: seq<Event>)
    requires RejectionsOk(s) && IsRun(s, es)
    ensures RejectionsOk(After(s, es))
    decreases |es|
  {
    if es != [] {
      RejectionsCarryErrors(Apply(s, es[0]), es[1..]);
    }
  }

  /**
   The answer main consumes, if its caller compared echoes after the ID was recorded, echoed either no
   ID or the recorded one (an empty recorded ID is never compared).
   */
  lemma ConsumedAnswerMatches(id: string, es: seq<Event>, i: nat)
    requires IsRun(Init(id), es)
    requires var s := After(Init(id), es);
             && i < |s.callers| && (s.race.accepted == Some(i) || s.race.acceptedError == Some(i))
             && s.callers[i].seen == Some(id) && id != ""
    ensures EchoOf(After(Init(id), es).callers[i]) in {"", id}
  {
    RunKeepsInv(Init(id), es);
    var s := After(Init(id), es);
    assert CallerOk(s, i);
    SameRequest(Init(id), es);
  }

  lemma {:induction false} SameRequest(s: State, es: seq<Event>)
    requires IsRun(s, es)
    ensures After(s, es).requestID == s.requestID
    decreases |es|
  {
    if es != [] { SameRequest(Apply(s, es[0]), es[1..]); }
  }

  predicate Checking(c: Caller) {
    (c.ResponseCaller? && c.rpc.CheckEcho?) || (c.ErrorCaller? && c.epc.CheckErrorEcho?)
  }

  /**
   Exactly which echoes the comparison lets through, for a non-empty invocation ID: none, the right one,
   and any at all as long as main has not recorded the ID yet.
   */
  lemma CheckAdmits(id: string, es: seq<Event>, i: nat)
    requires IsRun(Init(id), es) && id != ""
    requires var s := After(Init(id), es); i < |s.callers| && Checking(s.callers[i]) && Enabled(s, StepCaller(i))
    ensures var s := After(Init(id), es);
            PassedCheck(Apply(s, StepCaller(i)).callers[i], false) <==>
            EchoOf(s.callers[i]) in {"", id} || s.main.RecordID?
  {
    RunKeepsInv(Init(id), es);
    SameRequest(Init(id), es);
  }

  /** So an accepted answer with a foreign echo was compared before the ID was recorded. */
  lemma ForeignAnswerComparedTooEarly(id: string, es: seq<Event>, i: nat)
    requires IsRun(Init(id), es) && id != ""
    requires var s := After(Init(id), es);
             && i < |s.callers| && (s.race.accepted == Some(i) || s.race.acceptedError == Some(i))
             && EchoOf(s.callers[i]) !in {"", id}
    ensures After(Init(id), es).callers[i].seen == Some("")
  {
    RunKeepsInv(Init(id), es);
    assert CallerOk(After(Init(id), es), i);
    SameRequest(Init(id), es);
  }

  const FOREIGN := Response("other", true, None)
  const ACCEPTING: seq<Event> := [ArriveResponse(FOREIGN), StepCaller(0), StepCaller(0)]
  const CONSUMING: seq<Event> := [StepMain, StepCaller(0), SendSucceeds, TakeResponse]
  const EARLY_FOREIGN_ANSWER: seq<Event> := ACCEPTING + CONSUMING

  /** The foreign answer has been accepted before the ID was recorded. */
  const FOREIGN_ACCEPTED: State :=
    Init("mine").(race := NO_CLAIMS.(responseState := GotResponse, accepted := Some(0)),
                  callers := [ResponseCaller(FOREIGN, Deliver, Some(""))])

  lemma ForeignAnswerIsAccepted()
    requires IsRun(FOREIGN_ACCEPTED, CONSUMING)
    ensures IsRun(Init("mine"), EARLY_FOREIGN_ANSWER)
    ensures After(Init("mine"), EARLY_FOREIGN_ANSWER) == After(FOREIGN_ACCEPTED, CONSUMING)
  {
    var es := EARLY_FOREIGN_ANSWER;
    var s1 := Apply(Init("mine"), ArriveResponse(FOREIGN));
    var s2 := Apply(s1, StepCaller(0));
    assert Apply(s2, StepCaller(0)) == FOREIGN_ACCEPTED;
    assert es[1..][1..][1..] == CONSUMING;
    Prepend(s2, es[1..][1..]);
    Prepend(s1, es[1..]);
    Prepend(Init("mine"), es);
  }

  /** And it happens: main records ID "mine" and then consumes an answer echoing "other". */
  lemma ForeignAnswerIsConsumed()
    ensures IsRun(Init("mine"), EARLY_FOREIGN_ANSWER)
    ensures var s := After(Init("mine"), EARLY_FOREIGN_ANSWER);
            s.recordedID == "mine" && s.main == SendHeaders(FOREIGN)
  {
    var es := CONSUMING;
    var s1 := Apply(FOREIGN_ACCEPTED, es[0]);
    var s2 := Apply(s1, es[1]);
    var s3 := Apply(s2, es[2]);
    Prepend(s3, es[1..][1..][1..]);
    Prepend(s2, es[1..][1..]);
    Prepend(s1, es[1..]);
    Prepend(FOREIGN_ACCEPTED, es);
    ForeignAnswerIsAccepted();
  }

  // ---- a caller left waiting

  const ANSWER := Response("", true, None)
  const ANSWERING: seq<Event> := [ArriveResponse(ANSWER), StepCaller(0), StepCaller(0), StepCaller(0)]
  const FAILING: seq<Event> := [StepMain, SendFails(RUNTIME_UNKNOWN), StepMain, StepMain, StepMain]
  const LEFT_WAITING: seq<Event> := ANSWERING + FAILING

  /** The answer is in its channel before the invoke is sent. */
  const ANSWERED_EARLY: State :=
    Init("").(race := NO_CLAIMS.(responseState := GotResponse, accepted := Some(0), responsesEntered := [0],
                                 responseChan := [Posted(0, ANSWER)]),
              callers := [ResponseCaller(ANSWER, AwaitSent, Some(""))])

  const ACCEPTED_EARLY: State :=
    Init("").(race := NO_CLAIMS.(responseState := GotResponse, accepted := Some(0)),
              callers := [ResponseCaller(ANSWER, Deliver, Some(""))])

  lemma AnswerIsAccepted()
    requires IsRun(ACCEPTED_EARLY, [StepCaller(0)] + FAILING)
    ensures IsRun(Init(""), LEFT_WAITING)
    ensures After(Init(""), LEFT_WAITING) == After(ACCEPTED_EARLY, [StepCaller(0)] + FAILING)
  {
    var es := LEFT_WAITING;
    var s1 := Apply(Init(""), ArriveResponse(ANSWER));
    var s2 := Apply(s1, StepCaller(0));
    assert Apply(s2, StepCaller(0)) == ACCEPTED_EARLY;
    assert es[1..][1..][1..] == [StepCaller(0)] + FAILING;
    Prepend(s2, es[1..][1..]);
    Prepend(s1, es[1..]);
    Prepend(Init(""), es);
  }

  lemma AnswerEnters()
    requires IsRun(ANSWERED_EARLY, FAILING)
    ensures IsRun(Init(""), LEFT_WAITING) && After(Init(""), LEFT_WAITING) == After(ANSWERED_EARLY, FAILING)
  {
    var es := [StepCaller(0)] + FAILING;
    assert es[1..] == FAILING && Apply(ACCEPTED_EARLY, StepCaller(0)) == ANSWERED_EARLY;
    Prepend(ACCEPTED_EARLY, es);
    AnswerIsAccepted();
  }

  lemma SendingFails()
    ensures IsRun(ANSWERED_EARLY, FAILING)
    ensures After(ANSWERED_EARLY, FAILING).main == FinishedUnsent(RUNTIME_UNKNOWN)
    ensures After(ANSWERED_EARLY, FAILING).callers == ANSWERED_EARLY.callers
    ensures After(ANSWERED_EARLY, FAILING).race == ANSWERED_EARLY.race
  {
    var es := FAILING;
    var s1 := Apply(ANSWERED_EARLY, es[0]);
    var s2 := Apply(s1, es[1]);
    var s3 := Apply(s2, es[2]);
    var s4 := Apply(s3, es[3]);
    Prepend(s4, es[1..][1..][1..][1..]);
    Prepend(s3, es[1..][1..][1..]);
    Prepend(s2, es[1..][1..]);
    Prepend(s1, es[1..]);
    Prepend(ANSWERED_EARLY, es);
  }

  /** The runtime answers early, the send fails, the invoker is told, and the caller waits in every continuation. */
  lemma FailedSendStrandsCaller(more: seq<Event>)
    requires IsRun(Init(""), LEFT_WAITING) ==> IsRun(After(Init(""), LEFT_WAITING), more)
    ensures IsRun(Init(""), LEFT_WAITING)
    ensures var t := After(After(Init(""), LEFT_WAITING), more);
            t.main == FinishedUnsent(RUNTIME_UNKNOWN) && t.callers != [] && Waiting(t.callers[0])
  {
    SendingFails();
    AnswerEnters();
    RunKeepsInv(Init(""), LEFT_WAITING);
    UnsentLeavesCallersWaiting(After(Init(""), LEFT_WAITING), more, 0);
  }

  const LATE_ERROR: seq<Event> := [ArriveError(RuntimeError("", TruncatedResponse)), StepCaller(1), StepCaller(1)]

  /** In that state, with the invoker told, an error is still accepted. */
  lemma LateErrorIsAccepted()
    ensures IsRun(Init(""), LEFT_WAITING)
    ensures var s := After(Init(""), LEFT_WAITING);
            && s.trace == [SendError(RUNTIME_UNKNOWN.errorType)] && s.race.acceptedError.None?
            && IsRun(s, LATE_ERROR)
            && After(s, LATE_ERROR).race.acceptedError == Some(1)
            && After(s, LATE_ERROR).trace == s.trace && After(s, LATE_ERROR).main == FinishedUnsent(RUNTIME_UNKNOWN)
  {
    SendingFails();
    AnswerEnters();
    SenderTrace("", LEFT_WAITING);
    AcceptsLateError(After(Init(""), LEFT_WAITING));
  }

  lemma AcceptsLateError(s: State)
    requires |s.callers| == 1 && s.race.responseState != GotError
    ensures IsRun(s, LATE_ERROR) && After(s, LATE_ERROR).race.acceptedError == Some(1)
    ensures After(s, LATE_ERROR).trace == s.trace && After(s, LATE_ERROR).main == s.main
  {
    var es := LATE_ERROR;
    var s1 := Apply(s, es[0]);
    var s2 := Apply(s1, StepCaller(1));
    assert es[1..][1..] == [StepCaller(1)] && es[1..][1..][1..] == [];
    Prepend(s2, es[1..][1..]);
    Prepend(s1, es[1..]);
    Prepend(s, es);
  }

  lemma Prepend(s: State, es: seq<Event>)
    requires es != [] && Enabled(s, es[0]) && IsRun(Apply(s, es[0]), es[1..])
    ensures IsRun(s, es) && After(s, es) == After(Apply(s, es[0]), es[1..])
  {
  }

  // ---------------------------------------------------------------- time-outs

  predicate HasFinished(m: Main) { m.Finished? || m.FinishedUnsent? }

  /** A running invoke registers at most once, and not after it has finished. */
  lemma RegistersOnce(run: State, step: Event)
    requires Inv(run) && Enabled(run, step)
    ensures var t := Apply(run, step);
            t.registered == run.registered || (run.registered == 0 && t.registered == 1 && !HasFinished(run.main))
    ensures HasFinished(run.main) ==> Apply(run, step).main == run.main
  {
    match step
    case StepMain =>
      match run.main {
        case CancelRegister(_) =>
        case FailedRegister(_) =>
        case _ =>
      }
    case _ =>
  }

  /** The invoker has been told of a time-out. */
  predicate ToldTimeout(run: State) { run.trace == [SendError(SandboxTimedout)] }

  /** Or is just about to be. */
  predicate TellsTimeout(run: State) {
    || ToldTimeout(run)
    || (run.main.Reply? && run.main.err.errorType.SandboxTimedout?)
    || (run.main.FailedReply? && run.main.err.errorType.SandboxTimedout?)
  }

  lemma RegisteredMeansTold(run: State)
    requires Inv(run)
    ensures run.registered == 1 <==> TellsTimeout(run)
  {
    match run.main
    case NotifyResponse(_) =>
    case NotifyError(_) =>
    case Finished(_) =>
    case FinishedUnsent(_) =>
    case _ =>
  }
}
