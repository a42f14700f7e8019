/**
 The response protocol of one running invoke.

 One main thread runs the invoke; any number of `/response` and `/error` callers race with it
 through a three-valued atomic and four channels of capacity one, while the context may be cancelled
 at any moment.  Every step below is one atomic action of one thread; a run is any interleaving.
 */
module RunningInvoke {
  import opened Wrappers

  // ---------------------------------------------------------------- errors

  datatype ErrorType =
    | SandboxTimedout
    | TruncatedResponse
    | OversizedResponse
    | OtherType(name: string)

  datatype Severity = Error | Fatal | Invalid

  datatype AppError = AppError(errorType: ErrorType, severity: Severity)

  function CustomerError(t: ErrorType): AppError { AppError(t, Error) }

  const RESPONSE_IN_PROGRESS := CustomerError(OtherType("Runtime.InvokeResponseInProgress"))
  const ERROR_IN_PROGRESS := CustomerError(OtherType("Runtime.ErrorResponseInProgress"))
  const RESPONSE_WAS_SENT := CustomerError(OtherType("Runtime.InvokeResponseWasSent"))
  const INVOKE_TIMEOUT := CustomerError(OtherType("Runtime.InvokeTimeout"))
  const INVALID_RESPONSE_MODE := CustomerError(OtherType("Runtime.InvalidResponseModeHeader"))
  const RUNTIME_UNKNOWN := CustomerError(OtherType("Runtime.Unknown"))

  /** Why a context ended. */
  datatype Cause = AppCause(err: AppError) | DeadlineExceeded | Foreign

  function BuildInvokeAppError(cause: Cause): AppError {
    match cause
    case AppCause(err) => err
    case DeadlineExceeded => CustomerError(SandboxTimedout)
    case Foreign => AppError(OtherType("BuildInvokeAppError doesn't know this error"), Fatal)
  }

  datatype BodyStatus = Complete | Truncated | Oversized | Timeout

  function EndOfResponse(err: AppError): BodyStatus {
    match err.errorType
    case SandboxTimedout => Timeout
    case TruncatedResponse => Truncated
    case OversizedResponse => Oversized
    case OtherType(_) => Truncated
  }

  // ---------------------------------------------------------------- threads

  /** A response whose mode header did not parse carries INVALID_RESPONSE_MODE as its parsing error. */
  datatype Response = Response(echoedID: string, validMode: bool, trailerError: Option<ErrorType>)

  datatype RuntimeError = RuntimeError(echoedID: string, errorType: ErrorType)

  /** Where a `/response` caller stands; the comments name the source line it will execute next. */
  datatype ResponsePc =
    | TryAccept      // 291
    | CheckEcho      // 297
    | Undo           // 301
    | Deliver        // 306
    | AwaitSent      // 307
    | Answered(result: Option<AppError>)

  datatype ErrorPc =
    | CheckErrorEcho // 311
    | SwapState      // 319
    | DeliverError   // 325
    | AwaitErrorSent // 327
    | ErrorAnswered(sent: Option<AppError>, accepted: bool, outcome: Option<AppError>)

  /** `seen` is the recorded invocation ID at the moment the caller compared its echo with it. */
  datatype Caller =
    | ResponseCaller(resp: Response, rpc: ResponsePc, seen: Option<string>)
    | ErrorCaller(err: RuntimeError, epc: ErrorPc, seen: Option<string>)

  /** The calls made on the response sender; a body call has a beginning and a return. */
  datatype SenderCall =
    | SendError(reported: ErrorType)
    | Headers
    | BodyBegin
    | BodyEnd
    | ErrorTrailers(reported: ErrorType, status: BodyStatus)
    | ResponseTrailers

  datatype Main =
    | RecordID                                    // 104
    | SendInvoke                                  // 117
    | FailedCancel(err: AppError)                 // 121
    | FailedRegister(err: AppError)               // 122
    | FailedReply(err: AppError)                  // 126
    | Select                                      // 141
    | ParseFailed(err: AppError)                  // 146
    | SendHeaders(resp: Response)                 // 203
    | AwaitBody(resp: Response)                   // 214
    | DrainBody(req: RuntimeError)                // 237
    | SendErrorHeaders(req: RuntimeError)         // 266
    | SendTrailers(call: SenderCall, result: Option<AppError>) // 219, 226, 232, 240, 267
    | CancelStore(err: AppError)                  // 160
    | CancelRegister(err: AppError)               // 164
    | Reply(err: AppError)                        // 147, 169
    | NotifyResponse(result: Option<AppError>)    // 178
    | NotifyError(result: Option<AppError>)       // 179
    | Finished(result: Option<AppError>)          // 180
    | FinishedUnsent(err: AppError)               // 131

  /** The goroutine that sends the response body. */
  datatype Body = NoBody | Spawned | Sending | Returned(err: Option<AppError>) | Taken

  /** A request on a channel, with the caller that placed it. */
  datatype Posted<T> = Posted(caller: nat, request: T)

  datatype ResponseState = NoResponse | GotResponse | GotError

  /** What the threads race on: the atomic, the four channels, and the history of who claimed what. */
  datatype Race = Race(
    responseState: ResponseState,
    responseChan: seq<Posted<Response>>,
    errorChan: seq<Posted<RuntimeError>>,
    responseSent: seq<Option<AppError>>,
    errorSent: seq<Option<AppError>>,
    // history: every item that ever entered the two request channels, and the callers that hold a claim
    responsesEntered: seq<nat>,
    errorsEntered: seq<nat>,
    holder: Option<nat>,
    accepted: Option<nat>,
    acceptedError: Option<nat>)

  datatype State = State(
    requestID: string,
    recordedID: string,
    race: Race,
    ctx: Option<Cause>,
    asyncCause: Option<Cause>,
    main: Main,
    body: Body,
    callers: seq<Caller>,
    trace: seq<SenderCall>,
    registered: nat)

  const NO_CLAIMS := Race(NoResponse, [], [], [], [], [], [], None, None, None)

  function Init(requestID: string): State {
    State(requestID, "", NO_CLAIMS, None, None, RecordID, NoBody, [], [], 0)
  }

  datatype Event =
    | ArriveResponse(resp: Response)
    | ArriveError(err: RuntimeError)
    | StepCaller(i: nat)
    | StepMain
    | SendSucceeds
    | SendFails(failure: AppError)
    | TakeResponse
    | TakeError
    | TakeCancellation
    | TakeBodyResult
    | BodyStarts
    | BodyReturns(bodyErr: Option<AppError>)
    | ContextEnds(cause: Cause)
    | CancelAsync(cancelErr: AppError)
    | PropagateAsync

  // ---------------------------------------------------------------- steps

  predicate Mismatch(echoed: string, recorded: string) {
    echoed != "" && recorded != "" && echoed != recorded
  }

  predicate CallerEnabled(r: Race, c: Caller) {
    match c
    case ResponseCaller(_, pc, _) => (
      match pc
      case Deliver => |r.responseChan| < 1
      case AwaitSent => r.responseSent != []
      case Answered(_) => false
      case _ => true)
    case ErrorCaller(_, pc, _) => (
      match pc
      case DeliverError => |r.errorChan| < 1
      case AwaitErrorSent => r.errorSent != []
      case ErrorAnswered(_, _, _) => false
      case _ => true)
  }

  /** StepMain covers the steps of the main thread that involve no choice. */
  predicate MainEnabled(s: State) {
    match s.main
    case SendInvoke => false
    case Select => false
    case AwaitBody(_) => false
    case DrainBody(_) => s.body.Returned?
    case NotifyResponse(_) => |s.race.responseSent| < 1
    case NotifyError(_) => |s.race.errorSent| < 1
    case Finished(_) => false
    case FinishedUnsent(_) => false
    case _ => true
  }

  predicate Enabled(s: State, e: Event) {
    match e
    case ArriveResponse(_) => true
    case ArriveError(_) => true
    case StepCaller(i) => i < |s.callers| && CallerEnabled(s.race, s.callers[i])
    case StepMain => MainEnabled(s)
    case SendSucceeds => s.main.SendInvoke?
    case SendFails(err) =>
      && s.main.SendInvoke?
      && (err == RUNTIME_UNKNOWN || (s.ctx.Some? && err == BuildInvokeAppError(s.ctx.value)))
    case TakeResponse => s.main.Select? && s.race.responseChan != []
    case TakeError => (s.main.Select? || s.main.AwaitBody?) && s.race.errorChan != []
    case TakeCancellation => s.main.Select? && s.ctx.Some?
    case TakeBodyResult => s.main.AwaitBody? && s.body.Returned?
    case BodyStarts => s.body.Spawned?
    case BodyReturns(_) => s.body.Sending?
    case ContextEnds(_) => s.ctx.None?
    case CancelAsync(_) => true
    case PropagateAsync => s.ctx.None? && s.asyncCause.Some?
  }

  /** One atomic action of response caller `i`, which is `c`: its effect on the race and on the caller. */
  function StepResponseCaller(r: Race, recordedID: string, c: Caller, i: nat): (Race, Caller)
    requires c.ResponseCaller? && CallerEnabled(r, c)
  {
    match c.rpc
    case TryAccept =>
      if r.responseState == NoResponse
      then (r.(responseState := GotResponse, holder := Some(i)), c.(rpc := CheckEcho))
      else (r, c.(rpc := Answered(Some(RESPONSE_IN_PROGRESS))))
    case CheckEcho =>
      if Mismatch(c.resp.echoedID, recordedID)
      then (r, c.(rpc := Undo, seen := Some(recordedID)))
      else (r.(holder := None, accepted := Some(i)), c.(rpc := Deliver, seen := Some(recordedID)))
    case Undo =>
      (r.(responseState := if r.responseState == GotResponse then NoResponse else r.responseState, holder := None),
       c.(rpc := Answered(Some(INVOKE_TIMEOUT))))
    case Deliver =>
      (r.(responseChan := r.responseChan + [Posted(i, c.resp)], responsesEntered := r.responsesEntered + [i]),
       c.(rpc := AwaitSent))
    case AwaitSent =>
      (r.(responseSent := r.responseSent[1..]), c.(rpc := Answered(r.responseSent[0])))
  }

  function ErrorOutcome(req: RuntimeError, sent: Option<AppError>): Option<AppError> {
    if sent.None? then Some(RESPONSE_WAS_SENT)
    else if req.errorType == sent.value.errorType && sent.value.severity == Error then None
    else sent
  }

  function StepErrorCaller(r: Race, recordedID: string, c: Caller, i: nat): (Race, Caller)
    requires c.ErrorCaller? && CallerEnabled(r, c)
  {
    match c.epc
    case CheckErrorEcho =>
      if Mismatch(c.err.echoedID, recordedID)
      then (r, c.(epc := ErrorAnswered(None, false, Some(INVOKE_TIMEOUT)), seen := Some(recordedID)))
      else (r, c.(epc := SwapState, seen := Some(recordedID)))
    case SwapState =>
      if r.responseState == GotError
      then (r, c.(epc := ErrorAnswered(None, false, Some(ERROR_IN_PROGRESS))))
      else (r.(responseState := GotError, acceptedError := Some(i)), c.(epc := DeliverError))
    case DeliverError =>
      (r.(errorChan := r.errorChan + [Posted(i, c.err)], errorsEntered := r.errorsEntered + [i]),
       c.(epc := AwaitErrorSent))
    case AwaitErrorSent =>
      var sent := r.errorSent[0];
      (r.(errorSent := r.errorSent[1..]), c.(epc := ErrorAnswered(sent, true, ErrorOutcome(c.err, sent))))
  }

  function RegisterIfTimedOut(s: State, err: AppError): State {
    if err.errorType.SandboxTimedout? then s.(registered := s.registered + 1) else s
  }

  function StepMainThread(s: State): State
    requires MainEnabled(s)
  {
    match s.main
    case RecordID => s.(recordedID := s.requestID, main := SendInvoke)
    case FailedCancel(err) =>
      s.(asyncCause := if s.asyncCause.None? then Some(AppCause(err)) else s.asyncCause, main := FailedRegister(err))
    case FailedRegister(err) => RegisterIfTimedOut(s, err).(main := FailedReply(err))
    case FailedReply(err) => s.(trace := s.trace + [SendError(err.errorType)], main := FinishedUnsent(err))
    case ParseFailed(err) => s.(race := s.race.(responseState := GotError), main := Reply(err))
    case SendHeaders(resp) => s.(trace := s.trace + [Headers], body := Spawned, main := AwaitBody(resp))
    case DrainBody(req) =>
      var t := req.errorType;
      s.(body := Taken, main := SendTrailers(ErrorTrailers(t, Truncated), Some(CustomerError(t))))
    case SendErrorHeaders(req) =>
      var t := req.errorType;
      s.(trace := s.trace + [Headers], main := SendTrailers(ErrorTrailers(t, Complete), Some(CustomerError(t))))
    case SendTrailers(call, result) => s.(trace := s.trace + [call], main := NotifyResponse(result))
    case CancelStore(err) => s.(race := s.race.(responseState := GotError), main := CancelRegister(err))
    case CancelRegister(err) => RegisterIfTimedOut(s, err).(main := Reply(err))
    case Reply(err) => s.(trace := s.trace + [SendError(err.errorType)], main := NotifyResponse(Some(err)))
    case NotifyResponse(result) => s.(race := s.race.(responseSent := s.race.responseSent + [result]),
                                      main := NotifyError(result))
    case NotifyError(result) => s.(race := s.race.(errorSent := s.race.errorSent + [result]), main := Finished(result))
    case _ => s
  }

  function FinishBody(s: State, resp: Response, err: Option<AppError>): State {
    var next :=
      if err.Some? then SendTrailers(ErrorTrailers(err.value.errorType, EndOfResponse(err.value)), err)
      else if resp.trailerError.Some?
      then SendTrailers(ErrorTrailers(resp.trailerError.value, Complete), Some(CustomerError(resp.trailerError.value)))
      else SendTrailers(ResponseTrailers, None);
    s.(body := Taken, main := next)
  }

  function Apply(s: State, e: Event): State
    requires Enabled(s, e)
  {
    match e
    case ArriveResponse(resp) => s.(callers := s.callers + [ResponseCaller(resp, TryAccept, None)])
    case ArriveError(err) => s.(callers := s.callers + [ErrorCaller(err, CheckErrorEcho, None)])
    case StepCaller(i) =>
      var c := s.callers[i];
      var (race, c') :=
        if c.ResponseCaller? then StepResponseCaller(s.race, s.recordedID, c, i)
        else StepErrorCaller(s.race, s.recordedID, c, i);
      s.(race := race, callers := s.callers[i := c'])
    case StepMain => StepMainThread(s)
    case SendSucceeds => s.(main := Select)
    case SendFails(err) => s.(main := FailedCancel(err))
    case TakeResponse =>
      var resp := s.race.responseChan[0].request;
      s.(race := s.race.(responseChan := s.race.responseChan[1..]),
         main := if resp.validMode then SendHeaders(resp) else ParseFailed(INVALID_RESPONSE_MODE))
    case TakeError =>
      var req := s.race.errorChan[0].request;
      s.(race := s.race.(errorChan := s.race.errorChan[1..]),
         main := if s.main.Select? then SendErrorHeaders(req) else DrainBody(req))
    case TakeCancellation => s.(main := CancelStore(BuildInvokeAppError(s.ctx.value)))
    case TakeBodyResult => FinishBody(s, s.main.resp, s.body.err)
    case BodyStarts => s.(body := Sending, trace := s.trace + [BodyBegin])
    case BodyReturns(err) => s.(body := Returned(err), trace := s.trace + [BodyEnd])
    case ContextEnds(cause) => s.(ctx := Some(cause))
    case CancelAsync(err) => if s.asyncCause.None? then s.(asyncCause := Some(AppCause(err))) else s
    case PropagateAsync => s.(ctx := s.asyncCause)
  }

  /** `es` is a run from `s`: every event is enabled when it happens. */
  predicate IsRun(s: State, es: seq<Event>)
    decreases |es|
  {
    es == [] || (Enabled(s, es[0]) && IsRun(Apply(s, es[0]), es[1..]))
  }

  function After(s: State, es: seq<Event>): State
    requires IsRun(s, es)
    decreases |es|
  {
    if es == [] then s else After(Apply(s, es[0]), es[1..])
  }
}
