/** What every interleaving of the response protocol keeps, and the guarantees that follow for whole runs. */
module RunningInvokeSafety {
  import opened Wrappers
  import opened RunningInvoke

  // ---------------------------------------------------------------- claims, channels and notifications

  /** Main has taken an answer, or has closed the door to further ones. */
  predicate Settled(m: Main) {
    m.ParseFailed? || m.SendHeaders? || m.AwaitBody? || m.DrainBody? || m.SendErrorHeaders? || m.SendTrailers?
    || m.CancelRegister? || m.Reply? || m.NotifyResponse? || m.NotifyError? || m.Finished?
  }

  /** The result main has announced to the accepted response caller, and to the accepted error caller. */
  function Told(m: Main): Option<Option<AppError>> {
    if m.NotifyError? || m.Finished? then Some(m.result) else None
  }

  function ToldError(m: Main): Option<Option<AppError>> {
    if m.Finished? then Some(m.result) else None
  }

  predicate ResponseCallerOk(r: Race, told: Option<Option<AppError>>, c: Caller, i: nat)
    requires c.ResponseCaller?
  {
    && r.acceptedError != Some(i)
    && match c.rpc
       case TryAccept => r.holder != Some(i) && r.accepted != Some(i)
       case CheckEcho => r.holder == Some(i) && r.accepted != Some(i)
       case Undo => r.holder == Some(i) && r.accepted != Some(i)
       case Deliver => r.holder != Some(i) && r.accepted == Some(i) && r.responsesEntered == []
                       && (told.Some? ==> r.responseSent == [told.value])
       case AwaitSent => r.holder != Some(i) && r.accepted == Some(i) && r.responsesEntered == [i]
                         && (told.Some? ==> r.responseSent == [told.value])
       case Answered(result) =>
         && r.holder != Some(i)
         && (r.accepted == Some(i) ==> r.responsesEntered == [i] && told == Some(result))
  }

  predicate ErrorCallerOk(r: Race, told: Option<Option<AppError>>, c: Caller, i: nat)
    requires c.ErrorCaller?
  {
    && r.holder != Some(i) && r.accepted != Some(i)
    && match c.epc
       case CheckErrorEcho => r.acceptedError != Some(i)
       case SwapState => r.acceptedError != Some(i)
       case DeliverError => r.acceptedError == Some(i) && r.errorsEntered == []
                            && (told.Some? ==> r.errorSent == [told.value])
       case AwaitErrorSent => r.acceptedError == Some(i) && r.errorsEntered == [i]
                              && (told.Some? ==> r.errorSent == [told.value])
       case ErrorAnswered(sent, accepted, outcome) =>
         && (accepted <==> r.acceptedError == Some(i))
         && (accepted ==> r.errorsEntered == [i] && told == Some(sent) && outcome == ErrorOutcome(c.err, sent))
  }

  predicate CallerOk(s: State, i: nat)
    requires i < |s.callers|
  {
    if s.callers[i].ResponseCaller? then ResponseCallerOk(s.race, Told(s.main), s.callers[i], i)
    else ErrorCallerOk(s.race, ToldError(s.main), s.callers[i], i)
  }

  predicate RaceOk(r: Race, n: nat) {
    && (r.holder.Some? ==> r.holder.value < n && r.accepted.None?)
    && (r.accepted.Some? ==> r.accepted.value < n)
    && (r.acceptedError.Some? ==> r.acceptedError.value < n && r.responseState == GotError)
    && (r.responseState == NoResponse ==> r.holder.None? && r.accepted.None?)
    && (r.responseState == GotResponse ==> r.holder.Some? || r.accepted.Some?)
    && (r.responsesEntered == [] || (r.accepted.Some? && r.responsesEntered == [r.accepted.value]))
    && (r.responseChan == [] || (r.responsesEntered != [] && |r.responseChan| == 1))
    && (r.errorsEntered == [] || (r.acceptedError.Some? && r.errorsEntered == [r.acceptedError.value]))
    && (r.errorChan == [] || (r.errorsEntered != [] && |r.errorChan| == 1))
  }

  /** How the race relates to what main has done: `settled` and what it has announced so far. */
  predicate AnnouncedOk(r: Race, settled: bool, told: Option<Option<AppError>>, toldError: Option<Option<AppError>>) {
    && (settled ==> r.accepted.Some? || r.responseState == GotError)
    && (told.None? ==> r.responseSent == [])
    && (told.Some? && r.accepted.None? ==> r.responseSent == [told.value])
    && (told.Some? ==> r.responseSent == [] || r.responseSent == [told.value])
    && (toldError.None? ==> r.errorSent == [])
    && (toldError.Some? && r.acceptedError.None? ==> r.errorSent == [toldError.value])
    && (toldError.Some? ==> r.errorSent == [] || r.errorSent == [toldError.value])
  }

  predicate Globals(s: State) {
    RaceOk(s.race, |s.callers|) && AnnouncedOk(s.race, Settled(s.main), Told(s.main), ToldError(s.main))
  }

  predicate Claims(s: State) {
    (forall i | 0 <= i < |s.callers| :: CallerOk(s, i)) && Globals(s)
  }

  lemma ResponseCallerSteps(r: Race, n: nat, settled: bool, told: Option<Option<AppError>>,
                            toldError: Option<Option<AppError>>, id: string, c: Caller, i: nat)
    requires i < n && c.ResponseCaller? && CallerEnabled(r, c)
    requires ResponseCallerOk(r, told, c, i) && RaceOk(r, n) && AnnouncedOk(r, settled, told, toldError)
    ensures var (r', c') := StepResponseCaller(r, id, c, i);
            ResponseCallerOk(r', told, c', i) && RaceOk(r', n) && AnnouncedOk(r', settled, told, toldError)
  {
  }

  lemma ErrorCallerSteps(r: Race, n: nat, settled: bool, told: Option<Option<AppError>>,
                         toldError: Option<Option<AppError>>, id: string, c: Caller, i: nat)
    requires i < n && c.ErrorCaller? && CallerEnabled(r, c)
    requires ErrorCallerOk(r, toldError, c, i) && RaceOk(r, n) && AnnouncedOk(r, settled, told, toldError)
    ensures var (r', c') := StepErrorCaller(r, id, c, i);
            ErrorCallerOk(r', toldError, c', i) && RaceOk(r', n) && AnnouncedOk(r', settled, told, toldError)
  {
  }

  /** The step of caller `i` does not disturb caller `j`. */
  lemma OthersUndisturbed(r: Race, n: nat, told: Option<Option<AppError>>, toldError: Option<Option<AppError>>,
                          id: string, c: Caller, i: nat, d: Caller, j: nat)
    requires i != j && CallerEnabled(r, c) && RaceOk(r, n)
    requires if c.ResponseCaller? then ResponseCallerOk(r, told, c, i) else ErrorCallerOk(r, toldError, c, i)
    requires if d.ResponseCaller? then ResponseCallerOk(r, told, d, j) else ErrorCallerOk(r, toldError, d, j)
    ensures var r' := if c.ResponseCaller? then StepResponseCaller(r, id, c, i).0 else StepErrorCaller(r, id, c, i).0;
            if d.ResponseCaller? then ResponseCallerOk(r', told, d, j) else ErrorCallerOk(r', toldError, d, j)
  {
  }

  lemma CallerKeepsClaims(s: State, i: nat)
    requires Claims(s) && Enabled(s, StepCaller(i))
    ensures Claims(Apply(s, StepCaller(i)))
  {
    var t := Apply(s, StepCaller(i));
    var c := s.callers[i];
    assert CallerOk(s, i);
    if c.ResponseCaller? {
      ResponseCallerSteps(s.race, |s.callers|, Settled(s.main), Told(s.main), ToldError(s.main), s.recordedID, c, i);
    } else {
      ErrorCallerSteps(s.race, |s.callers|, Settled(s.main), Told(s.main), ToldError(s.main), s.recordedID, c, i);
    }
    forall j | 0 <= j < |t.callers|
      ensures CallerOk(t, j)
    {
      assert CallerOk(s, j);
      if j != i {
        OthersUndisturbed(s.race, |s.callers|, Told(s.main), ToldError(s.main), s.recordedID, c, i, s.callers[j], j);
      }
    }
  }

  /** A step that leaves the race and the announcements alone, or only closes the door, keeps every caller in order. */
  lemma QuietStep(s: State, t: State)
    requires Claims(s)
    requires t.callers == s.callers && Told(t.main) == Told(s.main) && ToldError(t.main) == ToldError(s.main)
    requires t.race == s.race || t.race == s.race.(responseState := GotError)
             || t.race == s.race.(responseChan := t.race.responseChan)
             || t.race == s.race.(errorChan := t.race.errorChan)
    requires t.race.responseChan == s.race.responseChan || t.race.responseChan == []
    requires t.race.errorChan == s.race.errorChan || t.race.errorChan == []
    requires Settled(t.main) ==> t.race.accepted.Some? || t.race.responseState == GotError
    ensures Claims(t)
  {
    forall j | 0 <= j < |t.callers|
      ensures CallerOk(t, j)
    {
      assert CallerOk(s, j);
    }
  }

  /** When main announces its result no accepted caller has been answered yet. */
  lemma AnnouncementKeepsClaims(s: State)
    requires Claims(s) && (s.main.NotifyResponse? || s.main.NotifyError?) && Enabled(s, StepMain)
    ensures Claims(Apply(s, StepMain))
  {
    var t := Apply(s, StepMain);
    forall j | 0 <= j < |t.callers|
      ensures CallerOk(t, j)
    {
      assert CallerOk(s, j);
    }
  }

  lemma ArrivalKeepsClaims(s: State, e: Event)
    requires Claims(s) && (e.ArriveResponse? || e.ArriveError?)
    ensures Claims(Apply(s, e))
  {
    var t := Apply(s, e);
    forall j | 0 <= j < |t.callers|
      ensures CallerOk(t, j)
    {
      if j < |s.callers| { assert CallerOk(s, j); }
    }
  }

  lemma MainKeepsClaims(s: State)
    requires Claims(s) && Enabled(s, StepMain)
    ensures Claims(Apply(s, StepMain))
  {
    if s.main.NotifyResponse? || s.main.NotifyError? {
      AnnouncementKeepsClaims(s);
    } else {
      QuietStep(s, Apply(s, StepMain));
    }
  }

  lemma StepKeepsClaims(s: State, e: Event)
    requires Claims(s) && Enabled(s, e)
    ensures Claims(Apply(s, e))
  {
    match e
    case StepCaller(i) => CallerKeepsClaims(s, i);
    case ArriveResponse(_) => ArrivalKeepsClaims(s, e);
    case ArriveError(_) => ArrivalKeepsClaims(s, e);
    case StepMain => MainKeepsClaims(s);
    case _ => QuietStep(s, Apply(s, e));
  }

  // ---------------------------------------------------------------- the sender's trace

  /** The last call tells the invoker exactly the result of the invoke. */
  predicate Reports(call: SenderCall, result: Option<AppError>) {
    if result.None? then call == ResponseTrailers
    else (call.SendError? || call.ErrorTrailers?) && call.reported == result.value.errorType
  }

  /** A finished trace: one of the four shapes, ending with a report of the result. */
  predicate CompleteTrace(trace: seq<SenderCall>, result: Option<AppError>) {
    && trace != []
    && Reports(trace[|trace| - 1], result)
    && (|| (|trace| == 1 && trace[0].SendError?)
        || (|trace| == 2 && trace[0] == Headers && trace[1].ErrorTrailers? && trace[1].status == Complete)
        || (|trace| == 4 && trace[..3] == [Headers, BodyBegin, BodyEnd]
            && (trace[3].ErrorTrailers? || trace[3].ResponseTrailers?)))
  }

  function BodyTrace(b: Body): seq<SenderCall> {
    match b
    case NoBody => []
    case Spawned => [Headers]
    case Sending => [Headers, BodyBegin]
    case Returned(_) => [Headers, BodyBegin, BodyEnd]
    case Taken => [Headers, BodyBegin, BodyEnd]
  }

  predicate TraceOk(m: Main, body: Body, trace: seq<SenderCall>) {
    match m
    case AwaitBody(_) => trace == BodyTrace(body) && !body.NoBody? && !body.Taken?
    case DrainBody(_) => trace == BodyTrace(body) && !body.NoBody? && !body.Taken?
    case SendTrailers(call, result) =>
      && Reports(call, result) && !call.SendError?
      && ((body == Taken && trace == BodyTrace(Taken)) ||
          (body == NoBody && trace == [Headers] && call.ErrorTrailers? && call.status == Complete))
    case NotifyResponse(result) => CompleteTrace(trace, result) && (body.NoBody? || body.Taken?)
    case NotifyError(result) => CompleteTrace(trace, result) && (body.NoBody? || body.Taken?)
    case Finished(result) => CompleteTrace(trace, result) && (body.NoBody? || body.Taken?)
    case FinishedUnsent(err) => trace == [SendError(err.errorType)] && body.NoBody?
    case _ => trace == [] && body.NoBody?
  }

  lemma StepKeepsTrace(s: State, e: Event)
    requires TraceOk(s.main, s.body, s.trace) && Enabled(s, e)
    ensures var t := Apply(s, e); TraceOk(t.main, t.body, t.trace)
  {
    match e
    case StepMain =>
    case StepCaller(_) =>
    case _ =>
  }

  // ---------------------------------------------------------------- echoes and consumed answers

  function EchoOf(c: Caller): string {
    if c.ResponseCaller? then c.resp.echoedID else c.err.echoedID
  }

  /** The caller passed the comparison of its echo with the recorded invocation ID. */
  predicate PassedCheck(c: Caller, accepted: bool) {
    match c
    case ResponseCaller(_, pc, _) => pc.Deliver? || pc.AwaitSent? || (pc.Answered? && accepted)
    case ErrorCaller(_, pc, _) => pc.SwapState? || pc.DeliverError? || pc.AwaitErrorSent?
                                  || (pc.ErrorAnswered? && pc.accepted)
  }

  predicate EchoCallerOk(requestID: string, recorded: bool, c: Caller, accepted: bool) {
    && (c.seen.Some? ==> c.seen.value == "" || (c.seen.value == requestID && recorded))
    && (PassedCheck(c, accepted) ==> c.seen.Some? && !Mismatch(EchoOf(c), c.seen.value))
  }

  predicate EchoOk(s: State) {
    && s.recordedID == (if s.main.RecordID? then "" else s.requestID)
    && forall i | 0 <= i < |s.callers| ::
         EchoCallerOk(s.requestID, !s.main.RecordID?, s.callers[i], s.race.accepted == Some(i))
  }

  lemma CallerKeepsEcho(s: State, i: nat)
    requires Claims(s) && EchoOk(s) && Enabled(s, StepCaller(i))
    ensures EchoOk(Apply(s, StepCaller(i)))
  {
    var t := Apply(s, StepCaller(i));
    assert CallerOk(s, i);
    forall j | 0 <= j < |t.callers|
      ensures EchoCallerOk(t.requestID, !t.main.RecordID?, t.callers[j], t.race.accepted == Some(j))
    {
      assert CallerOk(s, j);
    }
  }

  lemma StepKeepsEcho(s: State, e: Event)
    requires Claims(s) && EchoOk(s) && Enabled(s, e)
    ensures EchoOk(Apply(s, e))
  {
    if e.StepCaller? {
      CallerKeepsEcho(s, e.i);
    } else {
      var t := Apply(s, e);
      assert t.race.accepted == s.race.accepted && t.requestID == s.requestID
             && (t.main.RecordID? ==> s.main.RecordID?);
    }
  }

  predicate ResponseConsumedOk(chan: seq<Posted<Response>>, m: Main, accepted: Option<nat>, callers: seq<Caller>) {
    && (chan != [] || m.SendHeaders? || m.AwaitBody? ==>
          accepted.Some? && accepted.value < |callers| && callers[accepted.value].ResponseCaller?)
    && (chan != [] ==> chan[0] == Posted(accepted.value, callers[accepted.value].resp))
    && (m.SendHeaders? || m.AwaitBody? ==> m.resp == callers[accepted.value].resp)
  }

  predicate ErrorConsumedOk(chan: seq<Posted<RuntimeError>>, m: Main, accepted: Option<nat>, callers: seq<Caller>) {
    && (chan != [] || m.SendErrorHeaders? || m.DrainBody? ==>
          accepted.Some? && accepted.value < |callers| && callers[accepted.value].ErrorCaller?)
    && (chan != [] ==> chan[0] == Posted(accepted.value, callers[accepted.value].err))
    && (m.SendErrorHeaders? || m.DrainBody? ==> m.req == callers[accepted.value].err)
  }

  /** Main only ever works on the request of the accepted caller. */
  predicate ConsumedOk(s: State) {
    && ResponseConsumedOk(s.race.responseChan, s.main, s.race.accepted, s.callers)
    && ErrorConsumedOk(s.race.errorChan, s.main, s.race.acceptedError, s.callers)
  }

  /** A step of a caller changes its position only, and fills a channel only with its own request. */
  lemma CallerFillsChannels(s: State, i: nat)
    requires Enabled(s, StepCaller(i)) && CallerOk(s, i) && Globals(s)
    ensures var (c, r, c', r') :=
            (s.callers[i], s.race, Apply(s, StepCaller(i)).callers[i], Apply(s, StepCaller(i)).race);
            && c'.ResponseCaller? == c.ResponseCaller?
            && (if c.ResponseCaller? then c'.resp == c.resp else c'.err == c.err)
            && (r'.responseChan == r.responseChan
                || (c.ResponseCaller? && r'.responseChan == [Posted(i, c.resp)] && r.accepted == Some(i)))
            && (r'.accepted == r.accepted || (r.accepted.None? && r'.accepted == Some(i) && c.ResponseCaller?))
            && (r'.errorChan == r.errorChan
                || (c.ErrorCaller? && r'.errorChan == [Posted(i, c.err)] && r.acceptedError == Some(i)))
            && (r'.acceptedError == r.acceptedError
                || (r.acceptedError.None? && r'.acceptedError == Some(i) && c.ErrorCaller?))
  {
    if s.callers[i].ResponseCaller? {
      match s.callers[i].rpc
      case Deliver =>
      case CheckEcho =>
      case _ =>
    } else {
      match s.callers[i].epc
      case DeliverError =>
      case SwapState =>
      case _ =>
    }
  }

  lemma CallerKeepsConsumed(s: State, i: nat)
    requires Enabled(s, StepCaller(i)) && CallerOk(s, i) && Globals(s) && ConsumedOk(s)
    ensures ConsumedOk(Apply(s, StepCaller(i)))
  {
    CallerFillsChannels(s, i);
    var t := Apply(s, StepCaller(i));
    assert t.main == s.main && t.callers == s.callers[i := t.callers[i]];
  }

  lemma MainKeepsConsumed(s: State)
    requires ConsumedOk(s) && Enabled(s, StepMain)
    ensures ConsumedOk(Apply(s, StepMain))
  {
    match s.main
    case SendHeaders(_) =>
    case _ =>
  }

  lemma StepKeepsConsumed(s: State, e: Event)
    requires Claims(s) && ConsumedOk(s) && Enabled(s, e)
    ensures ConsumedOk(Apply(s, e))
  {
    match e
    case StepCaller(i) =>
      assert CallerOk(s, i);
      CallerKeepsConsumed(s, i);
    case StepMain => MainKeepsConsumed(s);
    case _ =>
      var t := Apply(s, e);
      assert t.race.accepted == s.race.accepted && t.race.acceptedError == s.race.acceptedError;
      assert s.callers <= t.callers;
  }

  // ---------------------------------------------------------------- plain error replies

  function Once(t: ErrorType): nat { if t.SandboxTimedout? then 1 else 0 }

  predicate ReplyOk(m: Main, trace: seq<SenderCall>, registered: nat, closed: bool) {
    match m
    case FailedReply(err) => registered == Once(err.errorType)
    case FinishedUnsent(err) => registered == Once(err.errorType)
    case CancelRegister(_) => registered == 0 && closed
    case Reply(err) => registered == Once(err.errorType) && closed
    case NotifyResponse(_) => PlainReplyOk(trace, registered, closed)
    case NotifyError(_) => PlainReplyOk(trace, registered, closed)
    case Finished(_) => PlainReplyOk(trace, registered, closed)
    case ParseFailed(err) => registered == 0 && !err.errorType.SandboxTimedout?
    case _ => registered == 0
  }

  predicate PlainReplyOk(trace: seq<SenderCall>, registered: nat, closed: bool) {
    && trace != []
    && registered == (if trace[0].SendError? then Once(trace[0].reported) else 0)
    && (trace[0].SendError? ==> closed)
  }

  lemma MainKeepsReply(s: State)
    requires ReplyOk(s.main, s.trace, s.registered, s.race.responseState == GotError)
    requires TraceOk(s.main, s.body, s.trace) && MainEnabled(s)
    ensures var t := StepMainThread(s); ReplyOk(t.main, t.trace, t.registered, t.race.responseState == GotError)
  {
    match s.main
    case SendTrailers(call, _) => assert (s.trace + [call])[0] == Headers;
    case Reply(_) =>
    case _ =>
  }

  lemma StepKeepsReply(s: State, e: Event)
    requires ReplyOk(s.main, s.trace, s.registered, s.race.responseState == GotError)
    requires TraceOk(s.main, s.body, s.trace) && Enabled(s, e)
    ensures var t := Apply(s, e); ReplyOk(t.main, t.trace, t.registered, t.race.responseState == GotError)
  {
    match e
    case StepMain => MainKeepsReply(s);
    case StepCaller(_) =>
    case _ =>
  }

  // ---------------------------------------------------------------- who closes the atomic

  /** Main has stored the error state: on a cancellation, or on a response that did not parse. */
  predicate StoredByMain(m: Main, trace: seq<SenderCall>) {
    match m
    case CancelRegister(_) => true
    case Reply(_) => true
    case NotifyResponse(_) => trace != [] && trace[0].SendError?
    case NotifyError(_) => trace != [] && trace[0].SendError?
    case Finished(_) => trace != [] && trace[0].SendError?
    case _ => false
  }

  /** The atomic says that an error won exactly when an error caller swapped it or main stored it. */
  predicate ClosedOk(m: Main, trace: seq<SenderCall>, r: Race) {
    r.responseState == GotError <==> r.acceptedError.Some? || StoredByMain(m, trace)
  }

  lemma MainKeepsClosed(s: State)
    requires ClosedOk(s.main, s.trace, s.race) && TraceOk(s.main, s.body, s.trace) && MainEnabled(s)
    ensures var t := StepMainThread(s); ClosedOk(t.main, t.trace, t.race)
  {
    match s.main
    case SendTrailers(call, _) => assert (s.trace + [call])[0] == Headers;
    case _ =>
  }

  lemma StepKeepsClosed(s: State, e: Event)
    requires ClosedOk(s.main, s.trace, s.race) && TraceOk(s.main, s.body, s.trace) && Enabled(s, e)
    ensures var t := Apply(s, e); ClosedOk(t.main, t.trace, t.race)
  {
    match e
    case StepMain => MainKeepsClosed(s);
    case StepCaller(_) =>
    case _ =>
  }
}
