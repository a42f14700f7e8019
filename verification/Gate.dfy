/**
 A gate: it opens when the expected number of arrivals has walked through it, and can be cancelled.
 The object's methods run under its lock; threads blocked in AwaitGateCondition form the monitor below,
 where being parked, being notified and re-checking the condition are separate steps.
 */
module Gate {
  import opened Wrappers

  type uint16 = x: int | 0 <= x < 0x1_0000

  const MAX_AGENTS_LIMIT: uint16 := 0xFFFF

  datatype GateError = ErrGateIntegrity | ErrGateCanceled | CancelledWith(cause: string)

  /** The gate as a value; `err` is the cause given to CancelWithError, if any. */
  datatype GateState = GateState(count: uint16, arrived: uint16, canceled: bool, err: Option<string>) {
    predicate Open() { arrived == count }

    predicate Sound() { arrived <= count }

    /** What AwaitGateCondition returns once it stops waiting. */
    function Verdict(): Option<GateError> {
      if !canceled then None else if err.Some? then Some(CancelledWith(err.value)) else Some(ErrGateCanceled)
    }

    function Clear(): GateState { GateState(count, 0, false, None) }

    function Reset(): GateState { if canceled then this else this.(arrived := 0) }

    function Cancel(cause: Option<string>): GateState { this.(canceled := true, err := cause) }

    function SetCount(c: uint16): GateState { if c < arrived then this else this.(count := c) }

    function Walk(): GateState { if Open() then this else this.(arrived := (arrived + 1) % 0x1_0000) }
  }

  class Gate {
    var count: uint16
    var arrived: uint16
    var canceled: bool
    var err: Option<string>

    ghost function State(): GateState
      reads this
    {
      GateState(count, arrived, canceled, err)
    }

    constructor (count: uint16)
      ensures State() == GateState(count, 0, false, None) && State().Sound()
    {
      this.count := count;
      arrived, canceled, err := 0, false, None;
    }

    method SetCount(c: uint16) returns (e: Option<GateError>)
      requires State().Sound()
      modifies this
      ensures State() == old(State()).SetCount(c) && State().Sound()
      ensures e == if c < old(arrived) then Some(ErrGateIntegrity) else None
    {
      if c > MAX_AGENTS_LIMIT || c < arrived {
        return Some(ErrGateIntegrity);
      }
      count := c;
      return None;
    }

    method Reset()
      requires State().Sound()
      modifies this
      ensures State() == old(State()).Reset() && State().Sound()
    {
      if !canceled {
        arrived := 0;
      }
    }

    /** `broadcast` says that all waiting threads are woken. */
    method WalkThrough() returns (e: Option<GateError>, broadcast: bool)
      requires State().Sound()
      modifies this
      ensures State() == old(State()).Walk() && State().Sound()
      ensures e == if old(State()).Open() then Some(ErrGateIntegrity) else None
      ensures broadcast <==> !old(State()).Open() && State().Open()
    {
      broadcast := false;
      if arrived == count {
        return Some(ErrGateIntegrity), false;
      }
      arrived := (arrived + 1) % 0x1_0000;
      if arrived == count {
        broadcast := true;
      }
      e := None;
    }

    method CancelWithError(cause: Option<string>)
      requires State().Sound()
      modifies this
      ensures State() == old(State()).Cancel(cause) && State().Sound()
    {
      canceled := true;
      err := cause;
    }

    method Clear()
      modifies this
      ensures State() == old(State()).Clear() && State().Sound()
    {
      canceled := false;
      arrived := 0;
      err := None;
    }
  }

  // ---------------------------------------------------------------- the monitor

  /** A thread inside AwaitGateCondition. */
  datatype Waiter = Entering | Parked | Notified | Returned(result: Option<GateError>)

  datatype Monitor = Monitor(gate: GateState, waiters: seq<Waiter>)

  datatype Event =
    | Await
    | Check(i: nat)                  // take the lock and evaluate the loop condition
    | SetCount(c: uint16)
    | Reset
    | WalkThrough
    | Cancel(cause: Option<string>)
    | Clear

  function Broadcast(ws: seq<Waiter>): (r: seq<Waiter>)
    ensures |r| == |ws|
    ensures forall i | 0 <= i < |ws| :: r[i] == if ws[i].Parked? then Notified else ws[i]
  {
    seq(|ws|, i requires 0 <= i < |ws| => if ws[i].Parked? then Notified else ws[i])
  }

  predicate Enabled(m: Monitor, e: Event) {
    e.Check? ==> e.i < |m.waiters| && (m.waiters[e.i].Entering? || m.waiters[e.i].Notified?)
  }

  function Apply(m: Monitor, e: Event): Monitor
    requires Enabled(m, e)
  {
    match e
    case Await => m.(waiters := m.waiters + [Entering])
    case Check(i) =>
      var w := if !m.gate.Open() && !m.gate.canceled then Parked else Returned(m.gate.Verdict());
      m.(waiters := m.waiters[i := w])
    case SetCount(c) => m.(gate := m.gate.SetCount(c))
    case Reset => m.(gate := m.gate.Reset())
    case WalkThrough =>
      var g := m.gate.Walk();
      Monitor(g, if !m.gate.Open() && g.Open() then Broadcast(m.waiters) else m.waiters)
    case Cancel(cause) => Monitor(m.gate.Cancel(cause), Broadcast(m.waiters))
    case Clear => m.(gate := m.gate.Clear())
  }

  predicate IsRun(m: Monitor, es: seq<Event>)
    decreases |es|
  {
    es == [] || (Enabled(m, es[0]) && IsRun(Apply(m, es[0]), es[1..]))
  }

  function After(m: Monitor, es: seq<Event>): Monitor
    requires IsRun(m, es)
    decreases |es|
  {
    if es == [] then m else After(Apply(m, es[0]), es[1..])
  }

  function Init(count: uint16): Monitor { Monitor(GateState(count, 0, false, None), []) }

  /** No thread is parked on a gate that is open or cancelled. */
  predicate NoLostWakeup(m: Monitor) {
    && m.gate.Sound()
    && forall i | 0 <= i < |m.waiters| && m.waiters[i].Parked? :: !m.gate.Open() && !m.gate.canceled
  }

  predicate AnyParked(m: Monitor) { exists i | 0 <= i < |m.waiters| :: m.waiters[i].Parked? }

  /** The use of SetCount that strands a thread: it opens the gate, without a broadcast, under a parked thread. */
  predicate Strands(m: Monitor, e: Event) {
    e.SetCount? && e.c == m.gate.arrived && AnyParked(m)
  }

  /** Exactly the steps that do not strand a parked thread preserve the absence of lost wake-ups. */
  lemma StepKeepsWakeups(m: Monitor, e: Event)
    requires NoLostWakeup(m) && Enabled(m, e)
    ensures NoLostWakeup(Apply(m, e)) <==> !Strands(m, e)
  {
    var t := Apply(m, e);
    if Strands(m, e) {
      var i :| 0 <= i < |m.waiters| && m.waiters[i].Parked?;
      assert t.waiters[i].Parked? && t.gate.Open();
    }
  }

  /** A run in which no SetCount opens the gate under a parked thread. */
  predicate Disciplined(m: Monitor, es: seq<Event>)
    requires IsRun(m, es)
    decreases |es|
  {
    es == [] || (!Strands(m, es[0]) && Disciplined(Apply(m, es[0]), es[1..]))
  }

  lemma {:induction false} RunKeepsWakeups(m: Monitor, es: seq<Event>)
    requires NoLostWakeup(m) && IsRun(m, es) && Disciplined(m, es)
    ensures NoLostWakeup(After(m, es))
    decreases |es|
  {
    if es != [] {
      StepKeepsWakeups(m, es[0]);
      RunKeepsWakeups(Apply(m, es[0]), es[1..]);
    }
  }

  /** The order all callers use, SetCount before anyone is parked, is disciplined. */
  predicate SetCountOnlyUnparked(m: Monitor, es: seq<Event>)
    requires IsRun(m, es)
    decreases |es|
  {
    es == [] || ((es[0].SetCount? ==> !AnyParked(m)) && SetCountOnlyUnparked(Apply(m, es[0]), es[1..]))
  }

  lemma {:induction false} CallersAreDisciplined(m: Monitor, es: seq<Event>)
    requires IsRun(m, es) && SetCountOnlyUnparked(m, es)
    ensures Disciplined(m, es)
    decreases |es|
  {
    if es != [] { CallersAreDisciplined(Apply(m, es[0]), es[1..]); }
  }

  /**
   After any mix of walks, cancellations, resets and clears, with counts set before anyone is parked:
   nobody is parked on an open or cancelled gate, and once the gate is open or cancelled every thread
   that has not returned can take the lock and returns, with nil exactly when the gate is not cancelled.
   */
  lemma OpenGateReleasesEveryone(count: uint16, es: seq<Event>, i: nat)
    requires IsRun(Init(count), es) && SetCountOnlyUnparked(Init(count), es)
    requires var m := After(Init(count), es);
             i < |m.waiters| && !m.waiters[i].Returned? && (m.gate.Open() || m.gate.canceled)
    ensures var m := After(Init(count), es);
            && Enabled(m, Check(i))
            && Apply(m, Check(i)).waiters[i] == Returned(m.gate.Verdict())
            && (m.gate.Verdict().None? <==> m.gate.Open() && !m.gate.canceled)
  {
    CallersAreDisciplined(Init(count), es);
    RunKeepsWakeups(Init(count), es);
  }

  /** Arrivals never exceed the expected count, whatever the order of operations. */
  lemma {:induction false} ArrivalsNeverExceedCount(m: Monitor, es: seq<Event>)
    requires m.gate.Sound() && IsRun(m, es)
    ensures After(m, es).gate.Sound()
    decreases |es|
  {
    if es != [] { ArrivalsNeverExceedCount(Apply(m, es[0]), es[1..]); }
  }

  /** A thread returns nil only at a moment when the gate is open and not cancelled, and never without checking. */
  lemma NilMeansOpen(m: Monitor, e: Event, i: nat)
    requires Enabled(m, e) && i < |m.waiters| && !m.waiters[i].Returned?
    ensures Apply(m, e).waiters[i] == Returned(None) <==> e == Check(i) && m.gate.Open() && !m.gate.canceled
  {
    match e
    case Check(j) =>
    case WalkThrough =>
    case Cancel(_) =>
    case _ =>
  }

  /** The stranded thread, concretely: one waiter on a gate for one arrival, then the count is lowered to zero. */
  lemma LoweringTheCountStrands()
    ensures var es := [Await, Check(0), SetCount(0)];
            && IsRun(Init(1), es)
            && After(Init(1), es).gate.Open() && After(Init(1), es).waiters == [Parked]
  {
    var es := [Await, Check(0), SetCount(0)];
    var m1 := Apply(Init(1), es[0]);
    var m2 := Apply(m1, es[1]);
    var m3 := Apply(m2, es[2]);
    assert m1.waiters == [Entering] && m2.waiters == [Parked];
    assert es[1..] == [Check(0), SetCount(0)] && es[1..][1..] == [SetCount(0)] && es[1..][1..][1..] == [];
    assert IsRun(m2, es[1..][1..]) && After(m2, es[1..][1..]) == m3;
    assert IsRun(m1, es[1..]) && After(m1, es[1..]) == m3;
  }

  // ---------------------------------------------------------------- counting arrivals

  /** The walks that got through since the gate was last emptied, read off the events alone. */
  function WalksSinceEmptied(m: Monitor, es: seq<Event>, n: nat): nat
    requires IsRun(m, es)
    decreases |es|
  {
    if es == [] then n
    else WalksSinceEmptied(Apply(m, es[0]), es[1..],
           if es[0].Clear? || (es[0].Reset? && !m.gate.canceled) then 0
           else if es[0].WalkThrough? && !m.gate.Open() then n + 1 else n)
  }

  /** A gate is open exactly when that many walks got through as it expects. */
  lemma {:induction false} OpenMeansEveryoneWalked(m: Monitor, es: seq<Event>)
    requires m.gate.Sound() && IsRun(m, es)
    ensures var t := After(m, es); t.gate.Open() <==> WalksSinceEmptied(m, es, m.gate.arrived) == t.gate.count
    ensures After(m, es).gate.arrived == WalksSinceEmptied(m, es, m.gate.arrived)
    decreases |es|
  {
    if es != [] { OpenMeansEveryoneWalked(Apply(m, es[0]), es[1..]); }
  }
}
