/**
 The reservation and reply protocol of the standalone server.  Every public operation is one or more
 critical sections under the server's mutex; a run is any interleaving of those critical sections.
 */
module ReplyServer {
  import opened Wrappers

  type Stream = nat

  datatype InvokeContext = InvokeContext(reservation: nat, invokeID: string, replySent: bool, stream: Option<Stream>,
                                         direct: bool)

  /** What reading the payload yields. */
  datatype Payload = Readable(data: seq<byte>) | Unreadable

  /** How the reply stream behaves for one reply: it takes everything, or fails after some bytes. */
  datatype Writer = Takes | FailsAfter(taken: nat)

  datatype Error =
    | AlreadyReserved | NotReserved | AlreadyReplied | AlreadyInvocating
    | InvalidInvokeID | ResponseSent | StreamNotAvailable | ReadFailed | WriteFailed
    | ResponseTooLarge(size: nat, max: int)

  /** One write to a reply stream: a buffered one is `complete` when it succeeded. */
  datatype Reply = Reply(reservation: nat, invokeID: string, stream: Stream, data: seq<byte>, complete: bool,
                         direct: bool) {
    /** A buffered reply that was written in full, or a direct one, however it ended. */
    predicate Settles() { complete || direct }
  }

  /** What a reservation was granted for, and the stream set for it. */
  datatype Grant = Grant(invokeID: string, stream: Option<Stream>)

  datatype State = State(max: int, ctx: Option<InvokeContext>, grants: seq<Grant>, log: seq<Reply>)

  // ---------------------------------------------------------------- critical sections

  /** The bytes of the payload that reach the stream. */
  function Taken(payload: Payload, w: Writer): seq<byte> {
    match payload
    case Unreadable => []
    case Readable(data) => if w.Takes? || w.taken >= |data| then data else data[..w.taken]
  }

  /** The error of the checks that precede any writing. */
  function Refusal(ctx: Option<InvokeContext>, invokeID: string): Option<Error> {
    if ctx.None? || invokeID != ctx.value.invokeID then Some(InvalidInvokeID)
    else if ctx.value.replySent then Some(ResponseSent)
    else if ctx.value.stream.None? then Some(StreamNotAvailable)
    else None
  }

  /** The error of a buffered reply that passed the checks. */
  function BufferedError(max: int, payload: Payload, w: Writer): Option<Error> {
    if payload.Unreadable? then Some(ReadFailed)
    else if |payload.data| > max then Some(ResponseTooLarge(|payload.data|, max))
    else if w.FailsAfter? then Some(WriteFailed)
    else None
  }

  function SendError(s: State, invokeID: string, payload: Payload, w: Writer): Option<Error> {
    if Refusal(s.ctx, invokeID).Some? then Refusal(s.ctx, invokeID)
    else if s.ctx.value.direct then (if w.FailsAfter? || payload.Unreadable? then Some(WriteFailed) else None)
    else BufferedError(s.max, payload, w)
  }

  datatype Section =
    | Reserve(id: string)
    | SetReplyStream(w: Stream, direct: bool)
    | Release
    | Send(invokeID: string, payload: Payload, writer: Writer)

  /** Calls reserve a server only under a non-empty ID: an empty one is replaced by a generated one. */
  predicate Callable(e: Section) { e.Reserve? ==> e.id != "" }

  function Outcome(s: State, e: Section): Option<Error> {
    match e
    case Reserve(_) => if s.ctx.Some? then Some(AlreadyReserved) else None
    case SetReplyStream(_, _) =>
      if s.ctx.None? then Some(NotReserved)
      else if s.ctx.value.replySent then Some(AlreadyReplied)
      else if s.ctx.value.stream.Some? then Some(AlreadyInvocating)
      else None
    case Release => if s.ctx.None? then Some(NotReserved) else None
    case Send(invokeID, payload, w) => SendError(s, invokeID, payload, w)
  }

  function Replied(s: State, payload: Payload, w: Writer, error: Option<Error>): State
    requires s.ctx.Some? && s.ctx.value.stream.Some?
  {
    var c := s.ctx.value;
    var reply := Reply(c.reservation, c.invokeID, c.stream.value, Taken(payload, w), error.None?, c.direct);
    if c.direct || error.None? then
      s.(ctx := Some(c.(replySent := true, direct := false)), log := s.log + [reply])
    else if error == Some(WriteFailed) then s.(log := s.log + [reply])
    else s
  }

  function Next(s: State, e: Section): State {
    match e
    case Reserve(id) =>
      if s.ctx.Some? then s
      else s.(ctx := Some(InvokeContext(|s.grants|, id, false, None, false)), grants := s.grants + [Grant(id, None)])
    case SetReplyStream(w, direct) =>
      if Outcome(s, e).Some? then s
      else
        var c := s.ctx.value;
        s.(ctx := Some(c.(stream := Some(w), direct := direct)),
           grants := if c.reservation < |s.grants|
                     then s.grants[c.reservation := s.grants[c.reservation].(stream := Some(w))] else s.grants)
    case Release => s.(ctx := None)
    case Send(invokeID, payload, w) =>
      if Refusal(s.ctx, invokeID).Some? then s else Replied(s, payload, w, SendError(s, invokeID, payload, w))
  }

  function Initial(max: int): State { State(max, None, [], []) }

  function After(s: State, es: seq<Section>): State
    decreases |es|
  {
    if es == [] then s else After(Next(s, es[0]), es[1..])
  }

  predicate AllCallable(es: seq<Section>) { forall k | 0 <= k < |es| :: Callable(es[k]) }

  predicate NoRelease(es: seq<Section>) { Release !in es }

  // ---------------------------------------------------------------- the server

  datatype Phase = Idle | Initializing | Invoking
  datatype RuntimeState = NotStarted | InitErrorState | InvokeResponseSent | InvokeErrorState

  class Server {
    const maxPayloadSize: int
    var invokeCtx: Option<InvokeContext>
    var rapidPhase: Phase
    var runtimeState: RuntimeState
    var cachedInitErrorResponse: Option<Payload>
    ghost var grants: seq<Grant>
    ghost var log: seq<Reply>

    ghost function View(): State
      reads this
    {
      State(maxPayloadSize, invokeCtx, grants, log)
    }

    var reservations: nat    // stands for the generated reservation token

    ghost predicate Valid()
      reads this
    {
      reservations == |grants|
      && (invokeCtx.Some? ==> invokeCtx.value.reservation < reservations && invokeCtx.value.invokeID != "")
    }

    constructor (max: int)
      ensures Valid() && View() == Initial(max) && rapidPhase == Idle && cachedInitErrorResponse.None?
    {
      maxPayloadSize, invokeCtx, rapidPhase, runtimeState, cachedInitErrorResponse := max, None, Idle, NotStarted, None;
      grants, log, reservations := [], [], 0;
    }

    /** `generated` is the random ID used when the caller gives none. */
    method Reserve(id: string, generated: string) returns (err: Option<Error>)
      requires Valid() && generated != ""
      modifies this
      ensures Valid()
      ensures var e := Section.Reserve(if |id| > 0 then id else generated);
              Callable(e) && View() == Next(old(View()), e) && err == Outcome(old(View()), e)
      ensures rapidPhase == old(rapidPhase) && cachedInitErrorResponse == old(cachedInitErrorResponse)
    {
      var invokeID := generated;
      if |id| > 0 { invokeID := id; }
      if invokeCtx.Some? {
        return Some(AlreadyReserved);
      }
      invokeCtx := Some(InvokeContext(reservations, invokeID, false, None, false));
      reservations := reservations + 1;
      grants := grants + [Grant(invokeID, None)];
      return None;
    }

    method SetReplyStream(w: Stream, direct: bool) returns (r: string, err: Option<Error>)
      requires Valid()
      modifies this
      ensures Valid()
      ensures View() == Next(old(View()), Section.SetReplyStream(w, direct))
              && err == Outcome(old(View()), Section.SetReplyStream(w, direct))
      ensures err.None? ==> r == invokeCtx.value.invokeID && r != ""
      ensures rapidPhase == old(rapidPhase) && cachedInitErrorResponse == old(cachedInitErrorResponse)
    {
      if invokeCtx.None? { return "", Some(NotReserved); }
      var c := invokeCtx.value;
      if c.replySent { return "", Some(AlreadyReplied); }
      if c.stream.Some? { return "", Some(AlreadyInvocating); }
      invokeCtx := Some(c.(stream := Some(w), direct := direct));
      grants := grants[c.reservation := grants[c.reservation].(stream := Some(w))];
      return c.invokeID, None;
    }

    method Release() returns (err: Option<Error>)
      requires Valid()
      modifies this
      ensures Valid() && View() == Next(old(View()), Section.Release) && err == Outcome(old(View()), Section.Release)
      ensures rapidPhase == old(rapidPhase) && cachedInitErrorResponse == old(cachedInitErrorResponse)
    {
      if invokeCtx.None? { return Some(NotReserved); }
      invokeCtx := None;
      return None;
    }

    method GetCurrentInvokeID() returns (id: string)
      requires Valid()
      ensures id == "" <==> invokeCtx.None?
      ensures invokeCtx.Some? ==> id == invokeCtx.value.invokeID
    {
      if invokeCtx.None? { return ""; }
      return invokeCtx.value.invokeID;
    }

    method SendResponseUnsafe(invokeID: string, payload: Payload, w: Writer) returns (err: Option<Error>)
      requires Valid()
      modifies this`invokeCtx, this`log
      ensures Valid()
      ensures View() == Next(old(View()), Send(invokeID, payload, w))
              && err == Outcome(old(View()), Send(invokeID, payload, w))
    {
      if invokeCtx.None? || invokeID != invokeCtx.value.invokeID { return Some(InvalidInvokeID); }
      var c := invokeCtx.value;
      if c.replySent { return Some(ResponseSent); }
      if c.stream.None? { return Some(StreamNotAvailable); }
      err := None;
      if c.direct {
        if w.FailsAfter? || payload.Unreadable? { err := Some(WriteFailed); }
        log := log + [Reply(c.reservation, c.invokeID, c.stream.value, Taken(payload, w), err.None?, true)];
      } else {
        if payload.Unreadable? { return Some(ReadFailed); }
        if |payload.data| > maxPayloadSize { return Some(ResponseTooLarge(|payload.data|, maxPayloadSize)); }
        log := log + [Reply(c.reservation, c.invokeID, c.stream.value, Taken(payload, w), w.Takes?, false)];
        if w.FailsAfter? { return Some(WriteFailed); }
      }
      invokeCtx := Some(c.(replySent := true, direct := false));
    }

    method SendResponse(invokeID: string, payload: Payload, w: Writer) returns (err: Option<Error>)
      requires Valid()
      modifies this
      ensures Valid() && runtimeState == InvokeResponseSent
      ensures View() == Next(old(View()), Send(invokeID, payload, w))
              && err == Outcome(old(View()), Send(invokeID, payload, w))
      ensures rapidPhase == old(rapidPhase) && cachedInitErrorResponse == old(cachedInitErrorResponse)
    {
      runtimeState := InvokeResponseSent;
      err := SendResponseUnsafe(invokeID, payload, w);
    }

    method SendErrorResponse(invokeID: string, payload: Payload, w: Writer) returns (err: Option<Error>)
      requires Valid()
      modifies this
      ensures Valid() && runtimeState == InvokeErrorState
      ensures View() == Next(old(View()), Send(invokeID, payload, w))
              && err == Outcome(old(View()), Send(invokeID, payload, w))
      ensures rapidPhase == old(rapidPhase) && cachedInitErrorResponse == old(cachedInitErrorResponse)
    {
      runtimeState := InvokeErrorState;
      err := SendResponseUnsafe(invokeID, payload, w);
    }

    /**
     During an invoke the error goes to the current reservation, and is refused if there is none; otherwise
     it is kept for later.
     */
    method SendInitErrorResponse(payload: Payload, w: Writer) returns (err: Option<Error>)
      requires Valid()
      modifies this
      ensures Valid() && rapidPhase == old(rapidPhase)
      ensures rapidPhase == Invoking && invokeCtx.None? ==> err == Some(InvalidInvokeID)
      ensures rapidPhase == Invoking ==>
                |log| <= |old(log)| + 1 && cachedInitErrorResponse == old(cachedInitErrorResponse)
      ensures rapidPhase == Invoking && old(invokeCtx).Some? ==>
                var e := Send(old(invokeCtx).value.invokeID, payload, w);
                View() == Next(old(View()), e) && err == Outcome(old(View()), e)
      ensures rapidPhase != Invoking ==>
                && err.None? && View() == old(View()) && cachedInitErrorResponse == Some(payload)
                && runtimeState == InitErrorState
    {
      if rapidPhase == Invoking {
        var id := GetCurrentInvokeID();
        err := SendErrorResponse(id, payload, w);
        return;
      }
      cachedInitErrorResponse := Some(payload);
      runtimeState := InitErrorState;
      return None;
    }
  }

  // ---------------------------------------------------------------- invariants

  /** Every reply went to the stream and ID of its reservation. */
  ghost predicate RepliesMatchGrants(grants: seq<Grant>, log: seq<Reply>) {
    forall i | 0 <= i < |log| ::
      log[i].reservation < |grants| && grants[log[i].reservation] == Grant(log[i].invokeID, Some(log[i].stream))
  }

  /** Before a reply of the same reservation there are only failed buffered ones. */
  ghost predicate OneSettlingReply(log: seq<Reply>) {
    forall i, j | 0 <= i < j < |log| && log[i].reservation == log[j].reservation :: !log[i].Settles()
  }

  /** The current reservation is the latest, and has been replied to exactly when it says so. */
  ghost predicate CurrentOk(ctx: Option<InvokeContext>, grants: seq<Grant>, log: seq<Reply>) {
    ctx.Some? ==>
      && ctx.value.reservation == |grants| - 1 && grants[|grants| - 1] == Grant(ctx.value.invokeID, ctx.value.stream)
      && ctx.value.invokeID != ""
      && (ctx.value.replySent <==>
          exists i | 0 <= i < |log| :: log[i].reservation == ctx.value.reservation && log[i].Settles())
  }

  ghost predicate Inv(s: State) {
    && RepliesMatchGrants(s.grants, s.log) && OneSettlingReply(s.log) && CurrentOk(s.ctx, s.grants, s.log)
  }

  lemma SendKeepsInv(s: State, invokeID: string, payload: Payload, w: Writer)
    requires Inv(s)
    ensures Inv(Next(s, Send(invokeID, payload, w)))
  {
    var t := Next(s, Send(invokeID, payload, w));
    if t.log != s.log {
      var n := |s.log|;
      var c := s.ctx.value;
      assert t.log[n].reservation == c.reservation;
      forall i | 0 <= i < n && s.log[i].reservation == c.reservation
        ensures !s.log[i].Settles()
      {
      }
      assert t.log[n].Settles() <==> t.ctx.value.replySent;
    }
  }

  lemma StepKeepsInv(s: State, e: Section)
    requires Inv(s) && Callable(e)
    ensures Inv(Next(s, e))
  {
    match e
    case Send(invokeID, payload, w) => SendKeepsInv(s, invokeID, payload, w);
    case Reserve(id) =>
    case SetReplyStream(w, direct) =>
    case Release =>
  }

  lemma {:induction false} RunKeepsInv(s: State, es: seq<Section>)
    requires Inv(s) && AllCallable(es)
    ensures Inv(After(s, es))
    decreases |es|
  {
    if es != [] {
      StepKeepsInv(s, es[0]);
      RunKeepsInv(Next(s, es[0]), es[1..]);
    }
  }

  // ---------------------------------------------------------------- guarantees

  /**
   Whatever is written, in whole or in part, goes to the stream set for its reservation, under its ID; at
   most one reply per reservation settles it, and none follows.
   */
  lemma OneReplyPerReservation(max: int, es: seq<Section>)
    requires AllCallable(es)
    ensures var s := After(Initial(max), es);
            && RepliesMatchGrants(s.grants, s.log)
            && (forall i, j | 0 <= i < j < |s.log| && s.log[i].reservation == s.log[j].reservation ::
                  !s.log[i].complete && !s.log[i].direct)
  {
    RunKeepsInv(Initial(max), es);
    assert OneSettlingReply(After(Initial(max), es).log);
    var log := After(Initial(max), es).log;
    forall i, j | 0 <= i < j < |log| && log[i].reservation == log[j].reservation
      ensures !log[i].complete && !log[i].direct
    {
      assert !log[i].Settles();
    }
  }

  /** What a reservation has reached is not lost: the ID stays, the stream once set stays, a sent reply stays sent. */
  ghost predicate Continues(c: InvokeContext, d: InvokeContext) {
    && d.reservation == c.reservation && d.invokeID == c.invokeID
    && (c.stream.Some? ==> d.stream == c.stream)
    && (c.replySent ==> d.replySent)
  }

  /** No run without a release takes the reservation away or gives it to somebody else. */
  lemma {:induction false} ReservationHolds(s: State, es: seq<Section>)
    requires s.ctx.Some? && NoRelease(es)
    ensures var t := After(s, es);
            && t.ctx.Some? && Continues(s.ctx.value, t.ctx.value) && t.max == s.max
            && |t.grants| == |s.grants|
            && (s.ctx.value.replySent ==> t.log == s.log)
    decreases |es|
  {
    if es != [] {
      assert es[0] != Release;
      ReservationHolds(Next(s, es[0]), es[1..]);
    }
  }

  /**
   An oversized buffered reply changes nothing, so that a later reply that fits is written in full to the
   same stream; after that one, every reply is refused until the release.
   */
  lemma OversizedReplyLeavesRoomForOne(s: State, big: seq<byte>, small: seq<byte>, w: Writer, es: seq<Section>,
                                       late: Section)
    requires s.ctx.Some? && !s.ctx.value.replySent && s.ctx.value.stream.Some? && !s.ctx.value.direct
    requires |small| <= s.max < |big| && NoRelease(es) && late.Send?
    ensures var c := s.ctx.value;
            var oversized, fitting := Send(c.invokeID, Readable(big), w), Send(c.invokeID, Readable(small), Takes);
            var t := Next(Next(s, oversized), fitting);
            && Outcome(s, oversized) == Some(ResponseTooLarge(|big|, s.max)) && Next(s, oversized) == s
            && Outcome(s, fitting).None?
            && t.log == s.log + [Reply(c.reservation, c.invokeID, c.stream.value, small, true, false)]
            && Outcome(After(t, es), late) ==
               Some(if late.invokeID == c.invokeID then ResponseSent else InvalidInvokeID)
            && After(t, es + [late]).log == t.log
  {
    var c := s.ctx.value;
    var t := Next(s, Send(c.invokeID, Readable(small), Takes));
    ReservationHolds(t, es);
    AfterAppended(t, es, late);
  }

  lemma {:induction false} AfterAppended(s: State, es: seq<Section>, e: Section)
    ensures After(s, es + [e]) == Next(After(s, es), e)
    decreases |es|
  {
    if es == [] {
      assert ([e])[1..] == [];
      assert After(Next(s, e), []) == Next(s, e);
    } else {
      assert (es + [e])[1..] == es[1..] + [e];
      AfterAppended(Next(s, es[0]), es[1..], e);
    }
  }

  /**
   The default error response reads the current ID in one critical section and replies in a later one.  On
   a reservation that has its stream, what happens in between makes it fail only because a reply was
   already sent (the failure its caller tolerates), provided that nobody releases the reservation.
   */
  lemma DefaultErrorFailsOnlyAsSent(s: State, es: seq<Section>, payload: seq<byte>)
    requires s.ctx.Some? && s.ctx.value.stream.Some? && NoRelease(es) && |payload| <= s.max
    ensures var t := After(s, es);
            var e := Send(s.ctx.value.invokeID, Readable(payload), Takes);
            && t.ctx.Some?
            && Outcome(t, e) == (if t.ctx.value.replySent then Some(ResponseSent) else None)
            && Next(t, e).ctx.value.replySent
  {
    ReservationHolds(s, es);
  }

  /** After a release, until the same ID is reserved again, it fails in the way its caller does not tolerate. */
  lemma {:induction false} ReleasedIDIsInvalid(s: State, es: seq<Section>, id: string, payload: Payload, w: Writer)
    requires s.ctx.None? && Reserve(id) !in es
    ensures Outcome(After(s, es), Send(id, payload, w)) == Some(InvalidInvokeID)
  {
    NotReservedUnder(s, es, id);
  }

  lemma {:induction false} NotReservedUnder(s: State, es: seq<Section>, id: string)
    requires (s.ctx.None? || s.ctx.value.invokeID != id) && Reserve(id) !in es
    ensures var t := After(s, es); t.ctx.None? || t.ctx.value.invokeID != id
    decreases |es|
  {
    if es != [] {
      assert es[0] != Reserve(id);
      NotReservedUnder(Next(s, es[0]), es[1..], id);
    }
  }

  lemma SettlingIsLast(log: seq<Reply>, i: nat, j: nat)
    requires OneSettlingReply(log) && i < |log| && j < |log| && i != j
    requires log[i].reservation == log[j].reservation && log[i].Settles()
    ensures j < i && !log[j].Settles()
  {
  }

  /**
   A reply is lost only to a failed write: a reservation whose reply is marked sent has exactly one settling
   reply in the log, the last of its own.
   */
  lemma SentMeansWritten(max: int, es: seq<Section>)
    requires AllCallable(es)
    ensures var s := After(Initial(max), es);
            s.ctx.Some? ==>
              (s.ctx.value.replySent <==>
               exists i :: 0 <= i < |s.log| && s.log[i].reservation == s.ctx.value.reservation && s.log[i].Settles()
                 && forall j | 0 <= j < |s.log| && j != i && s.log[j].reservation == s.ctx.value.reservation ::
                      j < i && !s.log[j].Settles())
  {
    RunKeepsInv(Initial(max), es);
    var s := After(Initial(max), es);
    if s.ctx.Some? && s.ctx.value.replySent {
      var i :| 0 <= i < |s.log| && s.log[i].reservation == s.ctx.value.reservation && s.log[i].Settles();
      forall j | 0 <= j < |s.log| && j != i && s.log[j].reservation == s.ctx.value.reservation
        ensures j < i && !s.log[j].Settles()
      {
        SettlingIsLast(s.log, i, j);
      }
    }
  }
}
