/**
 Handing a reply's metrics over.  A reply that was written waits, with the server's mutex held, until a call
 of FastInvoke receives its metrics from an unbuffered channel; and such a call needs the mutex itself, to
 set the reply stream and then the phase, before it comes to receive.  Any number of calls, reservations,
 replies and releases interleave.
 */
module ReplyHandover {
  import opened Wrappers
  import P = ReplyServer

  /** What a call of FastInvoke answers; `of` is the reservation whose metrics it received. */
  datatype Result = Refused | AlreadyWritten(of: nat) | Received(of: nat) | ReservationDone

  /** A call of FastInvoke; the comments name the line of server.go it executes next. */
  datatype Call =
    | SettingStream(w: P.Stream, direct: bool)      // 529
    | SettingPhase(reservation: nat)                // 534
    | Polling(reservation: nat)                     // 538
    | Entering(reservation: nat)                    // 585
    | Waiting(reservation: nat, context: nat)       // 585, with the context it found there
    | Returned(result: Result)

  /** `parked` is the reservation whose reply is being handed over, with the mutex held. */
  datatype State = State(server: P.State, parked: Option<nat>, released: set<nat>, calls: seq<Call>)

  datatype Event =
    | CallFastInvoke(w: P.Stream, direct: bool)
    | Reserve(id: string)
    | Release
    | Send(invokeID: string, payload: P.Payload, writer: P.Writer, handsOver: bool)
    | Step(t: nat)       // what the call does without receiving
    | Receive(t: nat)

  function Begin(max: int): State { State(P.Initial(max), None, {}, []) }

  // ---------------------------------------------------------------- steps

  /** A buffered reply is handed over exactly if it was written; a direct one may fail before it comes to that. */
  predicate HandsOver(s: State, e: Event)
    requires e.Send?
  {
    && P.Refusal(s.server.ctx, e.invokeID).None?
    && if s.server.ctx.value.direct then e.handsOver
       else P.BufferedError(s.server.max, e.payload, e.writer).None?
  }

  predicate CanReceive(c: Call) { c.Polling? || c.Waiting? }

  predicate StepEnabled(s: State, c: Call) {
    match c
    case SettingStream(_, _) => s.parked.None?
    case SettingPhase(_) => s.parked.None?
    case Polling(_) => s.parked.None?
    case Entering(_) => true
    case Waiting(_, context) => context in s.released
    case Returned(_) => false
  }

  predicate Enabled(s: State, e: Event) {
    match e
    case CallFastInvoke(_, _) => true
    case Reserve(id) => s.parked.None? && id != ""
    case Release => s.parked.None?
    case Send(_, _, _, _) => s.parked.None?
    case Step(t) => t < |s.calls| && StepEnabled(s, s.calls[t])
    case Receive(t) => t < |s.calls| && CanReceive(s.calls[t]) && s.parked.Some?
  }

  function Latest(s: State): nat { if s.server.grants == [] then 0 else |s.server.grants| - 1 }

  function StepCall(s: State, t: nat): State
    requires Enabled(s, Step(t))
  {
    match s.calls[t]
    case SettingStream(w, direct) =>
      var section := P.Section.SetReplyStream(w, direct);
      if P.Outcome(s.server, section).Some? then s.(calls := s.calls[t := Returned(Refused)])
      else s.(server := P.Next(s.server, section), calls := s.calls[t := SettingPhase(s.server.ctx.value.reservation)])
    case SettingPhase(r) => s.(calls := s.calls[t := Polling(r)])
    case Polling(r) => s.(calls := s.calls[t := Entering(r)])
    case Entering(r) => s.(calls := s.calls[t := Waiting(r, Latest(s))])
    case Waiting(_, _) => s.(calls := s.calls[t := Returned(ReservationDone)])
  }

  function Apply(s: State, e: Event): State
    requires Enabled(s, e)
  {
    match e
    case CallFastInvoke(w, direct) => s.(calls := s.calls + [SettingStream(w, direct)])
    case Reserve(id) => s.(server := P.Next(s.server, P.Section.Reserve(id)))
    case Release =>
      s.(server := P.Next(s.server, P.Section.Release),
         released := if s.server.ctx.Some? then s.released + {s.server.ctx.value.reservation} else s.released)
    case Send(id, payload, writer, _) =>
      s.(server := P.Next(s.server, P.Section.Send(id, payload, writer)),
         parked := if HandsOver(s, e) then Some(s.server.ctx.value.reservation) else None)
    case Step(t) => StepCall(s, t)
    case Receive(t) =>
      var of := s.parked.value;
      s.(parked := None, calls :=
         s.calls[t := Returned(if s.calls[t].Polling? then AlreadyWritten(of) else Received(of))])
  }

  predicate IsRun(s: State, es: seq<Event>)
    decreases |es|
  {
    es == [] || (Enabled(s, es[0]) && IsRun(Apply(s, es[0]), es[1..]))
  }

  function After(s: State, es: seq<Event>): State
    requires IsRun(s, es)
    decreases |es|
  {
    if es == [] then s else After(Apply(s, es[0]), es[1..])
  }

  lemma Prepend(s: State, e: Event, t: State, es: seq<Event>)
    requires Enabled(s, e) && Apply(s, e) == t && IsRun(t, es)
    ensures IsRun(s, [e] + es) && After(s, [e] + es) == After(t, es)
  {
    assert ([e] + es)[1..] == es;
  }

  // ---------------------------------------------------------------- the call behind a reply

  /** The call has set the stream of reservation r and is still to receive. */
  predicate Serves(c: Call, r: nat) {
    match c
    case SettingPhase(reservation) => reservation == r
    case Polling(reservation) => reservation == r
    case Entering(reservation) => reservation == r
    case Waiting(reservation, context) => reservation == r && context == r
    case _ => false
  }

  ghost predicate Served(calls: seq<Call>, r: nat) { exists t :: 0 <= t < |calls| && Serves(calls[t], r) }

  /** The current reservation is the latest and not released; until its reply is handed over, a call serves it. */
  ghost predicate CurrentOk(s: State) {
    && (s.server.ctx.Some? ==>
          && s.server.ctx.value.reservation == |s.server.grants| - 1 && s.server.ctx.value.reservation !in s.released
          && (s.server.ctx.value.stream.Some? && (!s.server.ctx.value.replySent || s.parked.Some?) ==>
                Served(s.calls, s.server.ctx.value.reservation)))
    && (s.parked.Some? ==>
          && s.server.ctx.Some? && s.server.ctx.value.stream.Some? && s.server.ctx.value.replySent
          && s.parked.value == s.server.ctx.value.reservation)
    && (forall r | r in s.released :: r < |s.server.grants|)
  }

  lemma StillServed(calls: seq<Call>, t: nat, c: Call, r: nat)
    requires Served(calls, r) && t < |calls| && (Serves(calls[t], r) ==> Serves(c, r))
    ensures Served(calls[t := c], r)
  {
    var k :| 0 <= k < |calls| && Serves(calls[k], r);
    assert Serves(calls[t := c][k], r);
  }

  lemma CallKeepsCurrent(s: State, t: nat)
    requires CurrentOk(s) && Enabled(s, Step(t))
    ensures CurrentOk(Apply(s, Step(t)))
  {
    var u := Apply(s, Step(t));
    if s.server.ctx.Some? {
      var r := s.server.ctx.value.reservation;
      if Served(s.calls, r) { StillServed(s.calls, t, u.calls[t], r); }
      if u.server != s.server { assert Serves(u.calls[t], r); }
    }
  }

  lemma StepKeepsCurrent(s: State, e: Event)
    requires CurrentOk(s) && Enabled(s, e)
    ensures CurrentOk(Apply(s, e))
  {
    match e
    case CallFastInvoke(_, _) =>
      if s.server.ctx.Some? && Served(s.calls, s.server.ctx.value.reservation) {
        var k :| 0 <= k < |s.calls| && Serves(s.calls[k], s.server.ctx.value.reservation);
        assert Serves(Apply(s, e).calls[k], s.server.ctx.value.reservation);
      }
    case Step(t) => CallKeepsCurrent(s, t);
    case Receive(t) =>
    case _ =>
  }

  lemma {:induction false} RunKeepsCurrent(s: State, es: seq<Event>)
    requires CurrentOk(s) && IsRun(s, es)
    ensures CurrentOk(After(s, es))
    decreases |es|
  {
    if es != [] {
      StepKeepsCurrent(s, es[0]);
      RunKeepsCurrent(Apply(s, es[0]), es[1..]);
    }
  }

  // ---------------------------------------------------------------- when a reply is handed over

  /** The call has set the phase and has not returned: it is at, or can go on by itself to, a receive. */
  predicate PastPhase(c: Call) { c.Polling? || c.Entering? || c.Waiting? }

  ghost predicate SomePastPhase(calls: seq<Call>) { exists t :: 0 <= t < |calls| && PastPhase(calls[t]) }

  /** A reply waits and no call is past setting its phase. */
  ghost predicate Deadlocked(s: State) { s.parked.Some? && !SomePastPhase(s.calls) }

  /** Then nothing moves any more: no reservation, release, reply or call in progress, in any continuation. */
  lemma {:induction false} DeadlockIsForEver(s: State, es: seq<Event>)
    requires Deadlocked(s) && IsRun(s, es)
    ensures var t := After(s, es); Deadlocked(t) && t.parked == s.parked && t.server == s.server && s.calls <= t.calls
    decreases |es|
  {
    if es != [] {
      DeadlockIsForEver(Apply(s, es[0]), es[1..]);
    }
  }

  /** Otherwise at most two steps of one call, which need no mutex, hand the reply over. */
  lemma HandOver(s: State) returns (es: seq<Event>)
    requires s.parked.Some? && SomePastPhase(s.calls)
    ensures |es| <= 2 && IsRun(s, es) && After(s, es).parked.None? && After(s, es).server == s.server
  {
    var t :| 0 <= t < |s.calls| && PastPhase(s.calls[t]);
    es := [Receive(t)];
    if s.calls[t].Entering? {
      var u := Apply(s, Step(t));
      Prepend(u, Receive(t), Apply(u, Receive(t)), []);
      Prepend(s, Step(t), u, [Receive(t)] + []);
      es := [Step(t)] + ([Receive(t)] + []);
    } else {
      Prepend(s, Receive(t), Apply(s, Receive(t)), []);
      assert es == [Receive(t)] + [];
    }
  }

  /**
   In every reachable state in which a reply waits to be handed over: some continuation hands it over if and
   only if some call of FastInvoke is past setting its phase; and if none is, the call that set the stream
   of this very reservation is the one that waits for the mutex in order to set it.
   */
  lemma HandedOverExactlyWhen(max: int, so: seq<Event>)
    requires IsRun(Begin(max), so) && After(Begin(max), so).parked.Some?
    ensures var s := After(Begin(max), so);
            && ((exists es :: IsRun(s, es) && After(s, es).parked.None?) <==> SomePastPhase(s.calls))
            && (Deadlocked(s) ==> exists t :: 0 <= t < |s.calls| && s.calls[t] == SettingPhase(s.parked.value))
  {
    RunKeepsCurrent(Begin(max), so);
    var s := After(Begin(max), so);
    if SomePastPhase(s.calls) {
      var es := HandOver(s);
      assert IsRun(s, es) && After(s, es).parked.None?;
    } else {
      forall es | IsRun(s, es)
        ensures After(s, es).parked.Some?
      {
        DeadlockIsForEver(s, es);
      }
      var t :| 0 <= t < |s.calls| && Serves(s.calls[t], s.parked.value);
      assert !PastPhase(s.calls[t]);
    }
  }

  /** So a reply is never stuck once the call for its reservation has set its phase. */
  lemma NoDeadlockAfterPhase(max: int, so: seq<Event>, t: nat)
    requires IsRun(Begin(max), so) && After(Begin(max), so).parked.Some?
    requires var s := After(Begin(max), so);
             t < |s.calls| && Serves(s.calls[t], s.parked.value) && !s.calls[t].SettingPhase?
    ensures exists es :: IsRun(After(Begin(max), so), es) && After(After(Begin(max), so), es).parked.None?
  {
    var s := After(Begin(max), so);
    assert PastPhase(s.calls[t]);
    var es := HandOver(s);
    assert IsRun(s, es) && After(s, es).parked.None?;
  }

  // ---- the deadlock, and the wrong receiver

  const EMPTY := P.Readable([])
  const REPLY := Send("a", EMPTY, P.Takes, true)
  const GRANTED := P.InvokeContext(0, "a", false, Some(7), false)
  const REPLIED := P.Reply(0, "a", 7, [], true, false)
  const STREAM_SET := P.State(0, Some(GRANTED), [P.Grant("a", Some(7))], [])
  const WRITTEN := P.State(0, Some(GRANTED.(replySent := true)), [P.Grant("a", Some(7))], [REPLIED])

  const EARLY_REPLY: seq<Event> := [Reserve("a"), CallFastInvoke(7, false), Step(0), REPLY]

  /**
   A reply between setting the stream and setting the phase, as when the runtime crashes just then, stops the
   server.
   */
  lemma EarlyReplyDeadlocks()
    ensures IsRun(Begin(0), EARLY_REPLY) && Deadlocked(After(Begin(0), EARLY_REPLY))
    ensures After(Begin(0), EARLY_REPLY) == State(WRITTEN, Some(0), {}, [SettingPhase(0)])
  {
    var last := State(WRITTEN, Some(0), {}, [SettingPhase(0)]);
    var set' := State(STREAM_SET, None, {}, [SettingPhase(0)]);
    var reserved := P.State(0, Some(GRANTED.(stream := None)), [P.Grant("a", None)], []);
    Prepend(set', REPLY, last, []);
    Prepend(State(reserved, None, {}, [SettingStream(7, false)]), Step(0), set', [REPLY]);
    Prepend(State(reserved, None, {}, []), CallFastInvoke(7, false),
            State(reserved, None, {}, [SettingStream(7, false)]),
            [Step(0), REPLY]);
    Prepend(Begin(0), Reserve("a"), State(reserved, None, {}, []), [CallFastInvoke(7, false), Step(0), REPLY]);
    assert [REPLY] + [] == [REPLY] && [Step(0)] + [REPLY] == [Step(0), REPLY];
    assert [CallFastInvoke(7, false)] + [Step(0), REPLY] == [CallFastInvoke(7, false), Step(0), REPLY];
    assert [Reserve("a")] + [CallFastInvoke(7, false), Step(0), REPLY] == EARLY_REPLY;
    assert last.calls[0] == SettingPhase(0);
  }

  // the second reservation of a run that released the first one while its call was past setting the phase

  const SECOND_REPLY := Send("b", EMPTY, P.Takes, true)
  const FIRST_GRANT := P.Grant("a", Some(7))
  const SECOND := P.InvokeContext(1, "b", false, Some(8), false)
  const SECOND_SET := P.State(0, Some(SECOND), [FIRST_GRANT, P.Grant("b", Some(8))], [])
  const SECOND_WRITTEN :=
    P.State(0, Some(SECOND.(replySent := true)), [FIRST_GRANT, P.Grant("b", Some(8))],
            [P.Reply(1, "b", 8, [], true, false)])

  const FIRST_CALL: seq<Event> := [Reserve("a"), CallFastInvoke(7, false), Step(0), Step(0)]
  const SECOND_CALL: seq<Event> := [Release, Reserve("b"), CallFastInvoke(8, false), Step(1), SECOND_REPLY, Receive(0)]

  const AFTER_FIRST := State(STREAM_SET, None, {}, [Polling(0)])
  const MISDELIVERED := State(SECOND_WRITTEN, None, {0}, [Returned(AlreadyWritten(1)), SettingPhase(1)])

  lemma FirstCallPolls()
    ensures IsRun(Begin(0), FIRST_CALL) && After(Begin(0), FIRST_CALL) == AFTER_FIRST
  {
    var reserved := P.State(0, Some(GRANTED.(stream := None)), [P.Grant("a", None)], []);
    Prepend(State(STREAM_SET, None, {}, [SettingPhase(0)]), Step(0), AFTER_FIRST, []);
    Prepend(State(reserved, None, {}, [SettingStream(7, false)]), Step(0),
            State(STREAM_SET, None, {}, [SettingPhase(0)]), [Step(0)]);
    Prepend(State(reserved, None, {}, []), CallFastInvoke(7, false),
            State(reserved, None, {}, [SettingStream(7, false)]),
            [Step(0), Step(0)]);
    Prepend(Begin(0), Reserve("a"), State(reserved, None, {}, []), [CallFastInvoke(7, false), Step(0), Step(0)]);
    assert [Step(0)] + [] == [Step(0)] && [Step(0)] + [Step(0)] == [Step(0), Step(0)];
    assert [CallFastInvoke(7, false)] + [Step(0), Step(0)] == [CallFastInvoke(7, false), Step(0), Step(0)];
    assert [Reserve("a")] + [CallFastInvoke(7, false), Step(0), Step(0)] == FIRST_CALL;
  }

  lemma SecondReplyIsReceived()
    ensures var s := State(SECOND_SET, None, {0}, [Polling(0), SettingPhase(1)]);
            IsRun(s, [SECOND_REPLY, Receive(0)]) && After(s, [SECOND_REPLY, Receive(0)]) == MISDELIVERED
  {
    var parked := State(SECOND_WRITTEN, Some(1), {0}, [Polling(0), SettingPhase(1)]);
    Prepend(parked, Receive(0), MISDELIVERED, []);
    Prepend(State(SECOND_SET, None, {0}, [Polling(0), SettingPhase(1)]), SECOND_REPLY, parked, [Receive(0)]);
    assert [Receive(0)] + [] == [Receive(0)] && [SECOND_REPLY] + [Receive(0)] == [SECOND_REPLY, Receive(0)];
  }

  lemma SecondCallIsForestalled()
    ensures IsRun(AFTER_FIRST, SECOND_CALL) && After(AFTER_FIRST, SECOND_CALL) == MISDELIVERED
  {
    SecondReplyIsReceived();
    var last := [SECOND_REPLY, Receive(0)];
    var free := P.State(0, None, [FIRST_GRANT], []);
    var reserved := P.State(0, Some(SECOND.(stream := None)), [FIRST_GRANT, P.Grant("b", None)], []);
    Prepend(State(reserved, None, {0}, [Polling(0), SettingStream(8, false)]), Step(1),
            State(SECOND_SET, None, {0}, [Polling(0), SettingPhase(1)]), last);
    Prepend(State(reserved, None, {0}, [Polling(0)]), CallFastInvoke(8, false),
            State(reserved, None, {0}, [Polling(0), SettingStream(8, false)]), [Step(1)] + last);
    Prepend(State(free, None, {0}, [Polling(0)]), Reserve("b"), State(reserved, None, {0}, [Polling(0)]),
            [CallFastInvoke(8, false)] + ([Step(1)] + last));
    Prepend(AFTER_FIRST, Release, State(free, None, {0}, [Polling(0)]),
            [Reserve("b")] + ([CallFastInvoke(8, false)] + ([Step(1)] + last)));
    assert SECOND_CALL == [Release] + ([Reserve("b")] + ([CallFastInvoke(8, false)] + ([Step(1)] + last)));
  }

  /**
   A call left over from a released reservation receives the metrics of the next one, whose own call is then
   left to wait although its reply was written.
   */
  lemma LeftoverCallReceives()
    ensures IsRun(Begin(0), FIRST_CALL) && IsRun(After(Begin(0), FIRST_CALL), SECOND_CALL)
    ensures var s := After(After(Begin(0), FIRST_CALL), SECOND_CALL);
            s.parked.None? && s.calls == [Returned(AlreadyWritten(1)), SettingPhase(1)] && s.server.ctx.Some?
            && s.server.ctx.value.replySent
  {
    FirstCallPolls();
    SecondCallIsForestalled();
  }
}
