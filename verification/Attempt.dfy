/**
 One connection attempt of a channel (`runOneConnection`) as a transition system. A step is one callback
 of the transport, a timer, the lease or the caller; observers it notifies may abort the attempt.
 */
module Attempt {
  import opened Outcomes

  /** An error as far as the attempt looks into it. */
  datatype Fault = Fault(retryable: bool, remote: bool, authentication: bool)

  const TIMEOUT := Fault(true, false, false)
  const TIMER_BROKEN := Fault(false, false, false)
  const ENDED_EARLY := Fault(true, false, false)
  const ABORTED := Fault(false, false, false)

  datatype Status = Connecting | Open | Reconnecting | Closed

  datatype Settlement = Fulfilled(at: real) | Rejected(fault: Fault)

  /** What the attempt waits for: the lease, the headers, the transport, or nothing any more. */
  datatype Phase = Acquiring | Building | Streaming | Over

  datatype Config = Config(reconnect: bool, protected: bool, idleTimeout: bool, minUptimeMs: real)

  datatype State = State(
    phase: Phase,
    settlement: Option<Settlement>,
    settlements: nat,
    hasOpened: bool,
    openedAt: real,
    connectArmed: bool,
    idleArmed: bool,
    holdsLease: bool,
    acquired: nat,
    released: nat,
    opens: nat,
    closed: bool,
    status: Status)

  /** What an observer of a notification can do to the attempt. */
  datatype Interrupt = CallerAborts | LeaseAborts(reason: Fault)

  /**
   `heard` are the interrupts made while listeners hear a frame, `thrown` what its dispatch threw, and
   `interrupts` those made while a status change is shown.
   */
  datatype Step =
    | Acquired(leaseAborted: Option<Fault>)
    | AdmissionFailed(fault: Fault)
    | Admitted
    | Opened(now: real, interrupts: seq<Interrupt>)
    | Framed(heard: seq<Interrupt>, thrown: Option<Fault>, now: real, interrupts: seq<Interrupt>)
    | Directed(thrown: Option<Fault>, now: real, interrupts: seq<Interrupt>)
    | ConnectElapsed(now: real, interrupts: seq<Interrupt>)
    | IdleElapsed(now: real, interrupts: seq<Interrupt>)
    | TimerFailed(now: real, interrupts: seq<Interrupt>)
    | TransportEnded(now: real, interrupts: seq<Interrupt>)
    | TransportFailed(fault: Fault, now: real, interrupts: seq<Interrupt>)
    | Interrupted(interrupt: Interrupt)
    | Elsewhere(status: Status)

  predicate Settled(s: State) {
    s.settlement.Some?
  }

  /** `finish`: the first caller settles the attempt, cancels both timers and gives the lease back. */
  function Finish(s: State, how: Settlement): State {
    if Settled(s) then s
    else
      s.(settlement := Some(how), settlements := s.settlements + 1, connectArmed := false, idleArmed := false,
         released := if s.holdsLease then s.released + 1 else s.released)
  }

  /** The caller's close ends the session; a lease abort rejects with the server's reason. */
  function Interrupts(s: State, notices: seq<Interrupt>): State {
    if notices == [] then s
    else
      var t := Interrupts(s, notices[..|notices| - 1]);
      match notices[|notices| - 1]
      case CallerAborts => Finish(t.(closed := true, status := Closed), Rejected(ABORTED))
      case LeaseAborts(reason) =>
        if t.holdsLease then Finish(t, Rejected(if reason.remote then reason else ABORTED)) else t
  }

  /** `setStatus` notifies its observers only of a change. */
  function SetStatus(s: State, status: Status, interrupts: seq<Interrupt>): State {
    if s.status == status then s else Interrupts(s.(status := status), interrupts)
  }

  predicate Stable(c: Config, s: State, now: real) {
    s.hasOpened && now - s.openedAt >= c.minUptimeMs
  }

  function EndWithFailure(c: Config, s: State, f: Fault, now: real, interrupts: seq<Interrupt>): State {
    if f.remote && f.authentication then Finish(s, Rejected(f))
    else if f.retryable && Stable(c, s, now) && !f.remote then Finish(s, Fulfilled(now))
    else if f.retryable && c.reconnect && !s.closed then Finish(SetStatus(s, Reconnecting, interrupts), Rejected(f))
    else Finish(s, Rejected(f))
  }

  function ArmIdle(c: Config, s: State): State {
    if Settled(s) || !c.idleTimeout then s else s.(idleArmed := true)
  }

  /** The attempt begins; a session that was aborted by then settles it at once. */
  function Start(c: Config, aborted: bool, status: Status): State {
    var s := State(if c.protected then Acquiring else Building, None, 0, false, 0.0, true, false, false, 0, 0, 0, aborted, status);
    if aborted then Finish(s.(phase := Over), Rejected(ABORTED)) else s
  }

  /** One step; a step that is not enabled changes nothing. */
  function Next(c: Config, s: State, a: Step): State {
    match a
    case Acquired(leaseAborted) =>
      if s.phase != Acquiring then s
      else if Settled(s) then s.(phase := Over, acquired := s.acquired + 1, released := s.released + 1)
      else
        var t := s.(acquired := s.acquired + 1, holdsLease := true);
        if leaseAborted.Some? then Interrupts(t.(phase := Over), [LeaseAborts(leaseAborted.value)])
        else t.(phase := Building)
    case AdmissionFailed(fault) =>
      if s.phase != Acquiring && s.phase != Building then s else Finish(s.(phase := Over), Rejected(fault))
    case Admitted =>
      if s.phase != Building then s
      else if Settled(s) then s.(phase := Over) else s.(phase := Streaming, opens := s.opens + 1)
    case Opened(now, interrupts) =>
      if s.opens == 0 || Settled(s) then s
      else ArmIdle(c, SetStatus(s.(connectArmed := false, hasOpened := true, openedAt := now), Open, interrupts))
    case Framed(heard, thrown, now, interrupts) =>
      if s.opens == 0 || Settled(s) then s
      else if thrown.Some? then EndWithFailure(c, Interrupts(s, heard), thrown.value, now, interrupts)
      else ArmIdle(c, Interrupts(s, heard))
    case Directed(thrown, now, interrupts) =>
      if s.opens == 0 || Settled(s) || thrown.None? then s else EndWithFailure(c, s, thrown.value, now, interrupts)
    case ConnectElapsed(now, interrupts) => EndWithFailure(c, s.(connectArmed := false), TIMEOUT, now, interrupts)
    case IdleElapsed(now, interrupts) =>
      if !s.hasOpened || !c.idleTimeout then s else EndWithFailure(c, s.(idleArmed := false), TIMEOUT, now, interrupts)
    case TimerFailed(now, interrupts) => EndWithFailure(c, s, TIMER_BROKEN, now, interrupts)
    case TransportEnded(now, interrupts) =>
      if s.phase != Streaming then s
      else
        var t := s.(phase := Over);
        if Stable(c, t, now) then Finish(t, Fulfilled(now)) else EndWithFailure(c, t, ENDED_EARLY, now, interrupts)
    case TransportFailed(fault, now, interrupts) =>
      if s.phase != Streaming then s else EndWithFailure(c, s.(phase := Over), fault, now, interrupts)
    case Interrupted(interrupt) => Interrupts(s, [interrupt])
    case Elsewhere(status) => s.(status := status)
  }

  function Run(c: Config, s: State, steps: seq<Step>): State {
    if steps == [] then s else Next(c, Run(c, s, steps[..|steps| - 1]), steps[|steps| - 1])
  }

  // ---------------------------------------------------------------- what every attempt keeps

  ghost predicate Inv(c: Config, s: State) {
    && s.settlements == (if Settled(s) then 1 else 0)
    && s.acquired <= 1 && (s.phase.Acquiring? ==> s.acquired == 0 && !s.holdsLease)
    && (s.holdsLease ==> s.acquired == 1)
    && s.released == (if Settled(s) then s.acquired else 0)
    && (!Settled(s) ==> s.holdsLease == (s.acquired == 1))
    && (Settled(s) ==> !s.connectArmed && !s.idleArmed)
    && s.opens <= 1 && (s.opens == 1 ==> s.phase.Streaming? || s.phase.Over?)
    && (s.hasOpened ==> s.opens == 1)
    && (Settled(s) && s.settlement.value.Fulfilled? ==> s.hasOpened && s.settlement.value.at - s.openedAt >= c.minUptimeMs)
  }

  lemma FinishKeeps(c: Config, s: State, how: Settlement)
    requires Inv(c, s) && (how.Fulfilled? ==> Stable(c, s, how.at))
    ensures Inv(c, Finish(s, how))
  {
  }

  lemma {:induction false} InterruptsKeep(c: Config, s: State, notices: seq<Interrupt>)
    requires Inv(c, s)
    ensures Inv(c, Interrupts(s, notices)) && Interrupts(s, notices).phase == s.phase && Interrupts(s, notices).opens == s.opens
    ensures Interrupts(s, notices).holdsLease == s.holdsLease && Interrupts(s, notices).hasOpened == s.hasOpened
    ensures Settled(s) ==> Interrupts(s, notices).settlement == s.settlement
    decreases |notices|
  {
    if notices != [] {
      InterruptsKeep(c, s, notices[..|notices| - 1]);
    }
  }

  lemma EndKeeps(c: Config, s: State, f: Fault, now: real, interrupts: seq<Interrupt>)
    requires Inv(c, s)
    ensures Inv(c, EndWithFailure(c, s, f, now, interrupts)) && Settled(EndWithFailure(c, s, f, now, interrupts))
    ensures Settled(s) ==> EndWithFailure(c, s, f, now, interrupts).settlement == s.settlement
  {
    hide Interrupts;
    InterruptsKeep(c, s.(status := Reconnecting), interrupts);
  }

  lemma OpenedKeeps(c: Config, s: State, now: real, interrupts: seq<Interrupt>)
    requires Inv(c, s)
    ensures Inv(c, Next(c, s, Opened(now, interrupts)))
    ensures Settled(s) ==> Next(c, s, Opened(now, interrupts)) == s
  {
    hide Interrupts;
    if s.opens == 1 && !Settled(s) {
      InterruptsKeep(c, s.(connectArmed := false, hasOpened := true, openedAt := now, status := Open), interrupts);
    }
  }

  lemma AdmissionKeeps(c: Config, s: State, a: Step)
    requires Inv(c, s) && (a.Acquired? || a.AdmissionFailed? || a.Admitted?)
    ensures Inv(c, Next(c, s, a))
    ensures Settled(s) ==> Next(c, s, a).settlement == s.settlement
  {
    if a.Acquired? && s.phase.Acquiring? && !Settled(s) && a.leaseAborted.Some? {
      var t := s.(acquired := s.acquired + 1, holdsLease := true, phase := Over);
      InterruptsKeep(c, t, [LeaseAborts(a.leaseAborted.value)]);
    }
    hide Interrupts;
  }

  lemma CallbackKeeps(c: Config, s: State, a: Step)
    requires Inv(c, s) && (a.Framed? || a.Directed?)
    ensures Inv(c, Next(c, s, a))
    ensures Settled(s) ==> Next(c, s, a).settlement == s.settlement
  {
    hide Interrupts, EndWithFailure;
    if a.Framed? { InterruptsKeep(c, s, a.heard); }
    if a.thrown.Some? { EndKeeps(c, if a.Framed? then Interrupts(s, a.heard) else s, a.thrown.value, a.now, a.interrupts); }
  }

  lemma NextKeeps(c: Config, s: State, a: Step)
    requires Inv(c, s)
    ensures Inv(c, Next(c, s, a))
    ensures Settled(s) ==> Next(c, s, a).settlement == s.settlement
  {
    match a
    case Opened(now, interrupts) => OpenedKeeps(c, s, now, interrupts);
    case Framed(_, _, _, _) => CallbackKeeps(c, s, a);
    case Directed(_, _, _) => CallbackKeeps(c, s, a);
    case ConnectElapsed(now, interrupts) =>
      hide EndWithFailure;
      EndKeeps(c, s.(connectArmed := false), TIMEOUT, now, interrupts);
    case IdleElapsed(now, interrupts) =>
      hide EndWithFailure;
      EndKeeps(c, s.(idleArmed := false), TIMEOUT, now, interrupts);
    case TimerFailed(now, interrupts) =>
      hide EndWithFailure;
      EndKeeps(c, s, TIMER_BROKEN, now, interrupts);
    case TransportEnded(now, interrupts) =>
      hide EndWithFailure;
      EndKeeps(c, s.(phase := Over), ENDED_EARLY, now, interrupts);
    case TransportFailed(fault, now, interrupts) =>
      hide EndWithFailure;
      EndKeeps(c, s.(phase := Over), fault, now, interrupts);
    case Interrupted(interrupt) => InterruptsKeep(c, s, [interrupt]);
    case Elsewhere(_) =>
    case _ => AdmissionKeeps(c, s, a);
  }

  lemma {:induction false} RunKeeps(c: Config, aborted: bool, status: Status, steps: seq<Step>)
    ensures Inv(c, Run(c, Start(c, aborted, status), steps))
    decreases |steps|
  {
    if steps != [] {
      hide Inv, Next, Start;
      RunKeeps(c, aborted, status, steps[..|steps| - 1]);
      NextKeeps(c, Run(c, Start(c, aborted, status), steps[..|steps| - 1]), steps[|steps| - 1]);
    }
  }

  // ---------------------------------------------------------------- the promises

  /**
   Whatever the order of its callbacks, an attempt settles at most once, gives a lease back exactly once
   as soon as it has both borrowed one and settled, opens its transport at most once, and leaves no timer
   armed behind. It resolves only after a stable open.
   */
  lemma AttemptsSettleAndRelease(c: Config, aborted: bool, status: Status, steps: seq<Step>)
    ensures var s := Run(c, Start(c, aborted, status), steps);
            && s.settlements == (if Settled(s) then 1 else 0)
            && s.acquired <= 1 && s.opens <= 1
            && s.released == (if Settled(s) then s.acquired else 0)
            && (Settled(s) ==> !s.connectArmed && !s.idleArmed)
            && (Settled(s) && s.settlement.value.Fulfilled? ==> s.hasOpened && s.settlement.value.at - s.openedAt >= c.minUptimeMs)
  {
    RunKeeps(c, aborted, status, steps);
  }

  /** A settlement is final. */
  lemma {:induction false} SettlementIsFinal(c: Config, aborted: bool, status: Status, steps: seq<Step>, more: seq<Step>)
    requires Settled(Run(c, Start(c, aborted, status), steps))
    ensures Run(c, Start(c, aborted, status), steps + more).settlement == Run(c, Start(c, aborted, status), steps).settlement
    decreases |more|
  {
    hide Next, Start;
    if more == [] {
      assert steps + more == steps;
    } else {
      var front := more[..|more| - 1];
      SettlementIsFinal(c, aborted, status, steps, front);
      assert (steps + more)[..|steps + more| - 1] == steps + front;
      RunKeeps(c, aborted, status, steps + front);
      NextKeeps(c, Run(c, Start(c, aborted, status), steps + front), more[|more| - 1]);
    }
  }

  // ---------------------------------------------------------------- status after settlement

  /** The failure a late callback of a settled attempt still reports. */
  function LateFault(c: Config, s: State, a: Step): Option<Fault> {
    match a
    case ConnectElapsed(_, _) => Some(TIMEOUT)
    case IdleElapsed(_, _) => if s.hasOpened && c.idleTimeout then Some(TIMEOUT) else None
    case TimerFailed(_, _) => Some(TIMER_BROKEN)
    case TransportEnded(now, _) => if s.phase.Streaming? && !Stable(c, s, now) then Some(ENDED_EARLY) else None
    case TransportFailed(fault, _, _) => if s.phase.Streaming? then Some(fault) else None
    case _ => None
  }

  lemma {:induction false} InterruptsShow(s: State, notices: seq<Interrupt>)
    ensures Interrupts(s, notices).status == if CallerAborts in notices then Closed else s.status
    decreases |notices|
  {
    if notices != [] {
      InterruptsShow(s, notices[..|notices| - 1]);
      assert notices == notices[..|notices| - 1] + [notices[|notices| - 1]];
    }
  }

  /**
   Settlement does not stop an attempt from touching the channel's status. A callback of a settled
   attempt shows `reconnecting` exactly when it reports a retryable failure that is neither an
   authentication failure from the server nor, unless the server sent it, the drop of a stable
   connection, while reconnection is on and the session is not closed. It stays shown unless an observer
   of that very change closes the session.
   */
  lemma LateStatusExactly(c: Config, s: State, a: Step)
    requires Settled(s) && !a.Interrupted? && !a.Elsewhere?
    ensures Next(c, s, a).status ==
              var f := LateFault(c, s, a);
              if f.Some? && f.value.retryable && !(f.value.remote && f.value.authentication)
                 && (f.value.remote || !Stable(c, s, a.now)) && c.reconnect && !s.closed
              then (if s.status != Reconnecting && CallerAborts in a.interrupts then Closed else Reconnecting)
              else s.status
  {
    hide Interrupts;
    if LateFault(c, s, a).Some? {
      InterruptsShow(Shown(s, a).(status := Reconnecting), a.interrupts);
    }
  }

  /** A settled attempt at the moment a late callback shows its status. */
  function Shown(s: State, a: Step): State {
    match a
    case ConnectElapsed(_, _) => s.(connectArmed := false)
    case IdleElapsed(_, _) => s.(idleArmed := false)
    case TransportEnded(_, _) => s.(phase := Over)
    case TransportFailed(_, _, _) => s.(phase := Over)
    case _ => s
  }

  /** A concrete run: a transport that fails after its attempt timed out hides the open connection of the next attempt. */
  lemma LateFailureHidesOpenConnection(c: Config)
    requires c.reconnect && !c.protected
    ensures var steps := [Admitted, ConnectElapsed(0.0, []), Elsewhere(Open), TransportFailed(Fault(true, false, false), 0.0, [])];
            var s := Run(c, Start(c, false, Connecting), steps[..3]);
            && Settled(s) && s.status == Open
            && Run(c, Start(c, false, Connecting), steps).status == Reconnecting
  {
    var steps := [Admitted, ConnectElapsed(0.0, []), Elsewhere(Open), TransportFailed(Fault(true, false, false), 0.0, [])];
    var s0 := Start(c, false, Connecting);
    assert steps[..3][..2][..1][..0] == [];
    assert steps[..3][..2] == steps[..2] && steps[..2][..1] == steps[..1];
    assert Run(c, s0, steps[..1]) == Next(c, s0, Admitted);
    assert Run(c, s0, steps[..2]) == Next(c, Next(c, s0, Admitted), ConnectElapsed(0.0, []));
  }
}
