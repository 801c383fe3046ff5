/** How each callback of an attempt that has not settled yet settles it, or does not. */
module AttemptEndings {
  import opened Attempt
  import opened Outcomes

  // ---------------------------------------------------------------- what ends an attempt

  /** The first of these interrupts that reaches the attempt: a lease abort does only while it holds the lease. */
  function FirstAbort(holdsLease: bool, notices: seq<Interrupt>): Option<Fault>
    decreases |notices|
  {
    if notices == [] then None
    else
      match notices[0]
      case CallerAborts => Some(ABORTED)
      case LeaseAborts(reason) =>
        if holdsLease then Some(if reason.remote then reason else ABORTED) else FirstAbort(holdsLease, notices[1..])
  }

  /** What a callback reports as the failure of the attempt; a clean end of the transport is one as well. */
  function Reported(c: Config, s: State, a: Step): Option<Fault> {
    match a
    case Framed(heard, thrown, _, _) => if s.opens > 0 && FirstAbort(s.holdsLease, heard).None? then thrown else None
    case Directed(thrown, _, _) => if s.opens > 0 then thrown else None
    case ConnectElapsed(_, _) => Some(TIMEOUT)
    case IdleElapsed(_, _) => if s.hasOpened && c.idleTimeout then Some(TIMEOUT) else None
    case TimerFailed(_, _) => Some(TIMER_BROKEN)
    case TransportEnded(_, _) => if s.phase.Streaming? then Some(ENDED_EARLY) else None
    case TransportFailed(fault, _, _) => if s.phase.Streaming? then Some(fault) else None
    case _ => None
  }

  /** Open for the minimum uptime, as far as the clock tells. */
  predicate UpLongEnough(c: Config, s: State, now: real) {
    s.hasOpened && now - s.openedAt >= c.minUptimeMs
  }

  /** The failure shows `reconnecting`, so that observers may abort the attempt before it rejects. */
  predicate ShowsReconnecting(c: Config, s: State, f: Fault) {
    f.retryable && !(f.remote && f.authentication) && c.reconnect && !s.closed && s.status != Reconnecting
  }

  /** How a reported failure settles the attempt: the retryable local drop of a stable connection resolves it. */
  function SettledBy(c: Config, s: State, f: Fault, now: real, interrupts: seq<Interrupt>): Settlement {
    if f.retryable && !f.remote && UpLongEnough(c, s, now) then Fulfilled(now)
    else if ShowsReconnecting(c, s, f) && FirstAbort(s.holdsLease, interrupts).Some? then
      Rejected(FirstAbort(s.holdsLease, interrupts).value)
    else Rejected(f)
  }

  /** The abort that a callback brings about itself, or `None`. */
  function Aborting(s: State, a: Step): Option<Fault> {
    match a
    case Framed(heard, _, _, _) => if s.opens > 0 then FirstAbort(s.holdsLease, heard) else None
    case Opened(_, interrupts) => if s.opens > 0 && s.status != Open then FirstAbort(s.holdsLease, interrupts) else None
    case Interrupted(interrupt) => FirstAbort(s.holdsLease, [interrupt])
    case Acquired(leaseAborted) => if s.phase.Acquiring? && leaseAborted.Some? then FirstAbort(true, [LeaseAborts(leaseAborted.value)]) else None
    case AdmissionFailed(fault) => if s.phase.Acquiring? || s.phase.Building? then Some(fault) else None
    case _ => None
  }

  // ---------------------------------------------------------------- the result

  lemma {:induction false} InterruptsSettle(s: State, notices: seq<Interrupt>)
    requires !Settled(s)
    ensures var first := FirstAbort(s.holdsLease, notices);
            && Interrupts(s, notices).settlement == (if first.Some? then Some(Rejected(first.value)) else None)
            && (first.None? ==> Interrupts(s, notices) == s)
    decreases |notices|
  {
    if notices != [] {
      var front, last := notices[..|notices| - 1], notices[|notices| - 1];
      InterruptsSettle(s, front);
      AbortsJoin(s.holdsLease, front, [last]);
      assert notices == front + [last];
      InterruptsHold(s, front);
    }
  }

  lemma {:induction false} AbortsJoin(holdsLease: bool, a: seq<Interrupt>, b: seq<Interrupt>)
    ensures FirstAbort(holdsLease, a + b) ==
            if FirstAbort(holdsLease, a).Some? then FirstAbort(holdsLease, a) else FirstAbort(holdsLease, b)
    decreases |a|
  {
    if a == [] {
      assert a + b == b;
    } else {
      AbortsJoin(holdsLease, a[1..], b);
      assert (a + b)[1..] == a[1..] + b;
    }
  }

  lemma {:induction false} InterruptsHold(s: State, notices: seq<Interrupt>)
    ensures Interrupts(s, notices).holdsLease == s.holdsLease
    ensures Settled(s) ==> Interrupts(s, notices).settlement == s.settlement
    decreases |notices|
  {
    if notices != [] { InterruptsHold(s, notices[..|notices| - 1]); }
  }

  lemma EndSettles(c: Config, s: State, f: Fault, now: real, interrupts: seq<Interrupt>)
    requires !Settled(s)
    ensures EndWithFailure(c, s, f, now, interrupts).settlement == Some(SettledBy(c, s, f, now, interrupts))
  {
    hide Interrupts, FirstAbort;
    InterruptsSettle(s.(status := Reconnecting), interrupts);
  }

  /** A settled attempt stays settled as it is. */
  lemma EndAgain(c: Config, s: State, f: Fault, now: real, interrupts: seq<Interrupt>)
    requires Settled(s)
    ensures EndWithFailure(c, s, f, now, interrupts).settlement == s.settlement
  {
    hide Interrupts;
    InterruptsHold(s.(status := Reconnecting), interrupts);
  }

  /** Neither timers nor the phase decide how a failure settles. */
  lemma Unarmed(c: Config, s: State, f: Fault, now: real, interrupts: seq<Interrupt>)
    ensures SettledBy(c, s.(connectArmed := false), f, now, interrupts) == SettledBy(c, s, f, now, interrupts)
    ensures SettledBy(c, s.(idleArmed := false), f, now, interrupts) == SettledBy(c, s, f, now, interrupts)
    ensures SettledBy(c, s.(phase := Over), f, now, interrupts) == SettledBy(c, s, f, now, interrupts)
  {
  }

  lemma CleanEnd(c: Config, s: State, now: real, interrupts: seq<Interrupt>)
    ensures Stable(c, s, now) ==> SettledBy(c, s, ENDED_EARLY, now, interrupts) == Fulfilled(now)
  {
  }

  /** An abort comes first, then what the callback reports; otherwise the attempt goes on. */
  ghost predicate EndsAsSaid(c: Config, s: State, a: Step) {
    Next(c, s, a).settlement ==
      if Aborting(s, a).Some? then Some(Rejected(Aborting(s, a).value))
      else if Reported(c, s, a).Some? then Some(SettledBy(c, s, Reported(c, s, a).value, a.now, a.interrupts))
      else None
  }

  lemma FramedEnds(c: Config, s: State, a: Step)
    requires !Settled(s) && a.Framed?
    ensures EndsAsSaid(c, s, a)
  {
    hide Interrupts, FirstAbort, EndWithFailure, SettledBy;
    if s.opens > 0 {
      InterruptsSettle(s, a.heard);
      if a.thrown.Some? {
        if FirstAbort(s.holdsLease, a.heard).Some? {
          EndAgain(c, Interrupts(s, a.heard), a.thrown.value, a.now, a.interrupts);
        } else {
          EndSettles(c, s, a.thrown.value, a.now, a.interrupts);
        }
      }
    }
  }

  lemma TimerEnds(c: Config, s: State, a: Step)
    requires !Settled(s) && (a.ConnectElapsed? || a.IdleElapsed? || a.TimerFailed? || a.Directed?)
    ensures EndsAsSaid(c, s, a)
  {
    hide Interrupts, EndWithFailure, SettledBy, FirstAbort;
    match a
    case ConnectElapsed(now, interrupts) =>
      EndSettles(c, s.(connectArmed := false), TIMEOUT, now, interrupts);
      Unarmed(c, s, TIMEOUT, now, interrupts);
    case IdleElapsed(now, interrupts) =>
      EndSettles(c, s.(idleArmed := false), TIMEOUT, now, interrupts);
      Unarmed(c, s, TIMEOUT, now, interrupts);
    case TimerFailed(now, interrupts) => EndSettles(c, s, TIMER_BROKEN, now, interrupts);
    case Directed(thrown, now, interrupts) => if thrown.Some? { EndSettles(c, s, thrown.value, now, interrupts); }
  }

  lemma TransportEnds(c: Config, s: State, a: Step)
    requires !Settled(s) && (a.TransportEnded? || a.TransportFailed?)
    ensures EndsAsSaid(c, s, a)
  {
    hide Interrupts, EndWithFailure, SettledBy, FirstAbort;
    var f := if a.TransportEnded? then ENDED_EARLY else a.fault;
    EndSettles(c, s.(phase := Over), f, a.now, a.interrupts);
    Unarmed(c, s, f, a.now, a.interrupts);
    CleanEnd(c, s, a.now, a.interrupts);
  }

  lemma OtherEnds(c: Config, s: State, a: Step)
    requires !Settled(s) && (a.Opened? || a.Interrupted? || a.Acquired? || a.AdmissionFailed? || a.Admitted? || a.Elsewhere?)
    ensures EndsAsSaid(c, s, a)
  {
    hide Interrupts;
    match a
    case Opened(now, interrupts) =>
      InterruptsSettle(s.(connectArmed := false, hasOpened := true, openedAt := now, status := Open), interrupts);
    case Interrupted(interrupt) => InterruptsSettle(s, [interrupt]);
    case Acquired(leaseAborted) =>
      if s.phase.Acquiring? && leaseAborted.Some? {
        InterruptsSettle(s.(acquired := s.acquired + 1, holdsLease := true, phase := Over), [LeaseAborts(leaseAborted.value)]);
      }
    case _ =>
  }

  /**
   Every callback of an attempt that has not settled settles it as said here, or leaves it unsettled. In
   particular a retryable drop of a connection that was open for the minimum uptime, and a clean end of
   such a connection, resolve the attempt; before that they reject it; and a failure that the server sent
   or that is not retryable rejects it in any case.
   */
  lemma AttemptEndsExactly(c: Config, s: State, a: Step)
    requires !Settled(s)
    ensures EndsAsSaid(c, s, a)
  {
    hide EndsAsSaid;
    match a
    case Framed(_, _, _, _) => FramedEnds(c, s, a);
    case TransportEnded(_, _) => TransportEnds(c, s, a);
    case TransportFailed(_, _, _) => TransportEnds(c, s, a);
    case Directed(_, _, _) => TimerEnds(c, s, a);
    case ConnectElapsed(_, _) => TimerEnds(c, s, a);
    case IdleElapsed(_, _) => TimerEnds(c, s, a);
    case TimerFailed(_, _) => TimerEnds(c, s, a);
    case _ => OtherEnds(c, s, a);
  }

  // ---------------------------------------------------------------- a settled attempt

  /**
   A callback of a settled attempt opens nothing, arms nothing and gives a lease that arrives late back at
   once.
   */
  lemma SettledAttemptIsInert(c: Config, s: State, a: Step)
    requires Settled(s) && Inv(c, s)
    ensures var t := Next(c, s, a);
            && t.settlement == s.settlement && t.opens == s.opens && t.hasOpened == s.hasOpened
            && !t.connectArmed && !t.idleArmed && t.released == t.acquired
  {
    hide Next;
    NextKeeps(c, s, a);
    OpensNothing(c, s, a);
  }

  lemma OpensNothing(c: Config, s: State, a: Step)
    requires Settled(s)
    ensures Next(c, s, a).opens == s.opens && Next(c, s, a).hasOpened == s.hasOpened
  {
    hide Interrupts;
    match a
    case ConnectElapsed(_, interrupts) => ShowsOnly(s.(connectArmed := false), interrupts);
    case IdleElapsed(_, interrupts) => ShowsOnly(s.(idleArmed := false), interrupts);
    case TimerFailed(_, interrupts) => ShowsOnly(s, interrupts);
    case TransportEnded(_, interrupts) => ShowsOnly(s.(phase := Over), interrupts);
    case TransportFailed(_, _, interrupts) => ShowsOnly(s.(phase := Over), interrupts);
    case Interrupted(interrupt) => InterruptsOpenNothing(s, [interrupt]);
    case _ =>
  }

  lemma ShowsOnly(s: State, interrupts: seq<Interrupt>)
    ensures Interrupts(s.(status := Reconnecting), interrupts).opens == s.opens
    ensures Interrupts(s.(status := Reconnecting), interrupts).hasOpened == s.hasOpened
  {
    InterruptsOpenNothing(s.(status := Reconnecting), interrupts);
  }

  lemma {:induction false} InterruptsOpenNothing(s: State, notices: seq<Interrupt>)
    ensures Interrupts(s, notices).opens == s.opens && Interrupts(s, notices).hasOpened == s.hasOpened
    decreases |notices|
  {
    if notices != [] { InterruptsOpenNothing(s, notices[..|notices| - 1]); }
  }

  /** An attempt that begins in an aborted session rejects at once and never opens its transport. */
  lemma {:induction false} AbortedAttemptNeverOpens(c: Config, status: Status, steps: seq<Step>)
    ensures var s := Run(c, Start(c, true, status), steps);
            s.settlement == Some(Rejected(ABORTED)) && s.opens == 0
    decreases |steps|
  {
    if steps != [] {
      hide Next, Inv, Start;
      var front := steps[..|steps| - 1];
      AbortedAttemptNeverOpens(c, status, front);
      RunKeeps(c, true, status, front);
      SettledAttemptIsInert(c, Run(c, Start(c, true, status), front), steps[|steps| - 1]);
    }
  }

  // ---------------------------------------------------------------- a healthy attempt

  /** An open connection: the lease, if one is needed, is held, and no timer but the idle one is armed. */
  predicate Healthy(c: Config, s: State, openedAt: real) {
    && !Settled(s) && s.phase.Streaming? && s.opens == 1
    && s.hasOpened && s.openedAt == openedAt && s.status == Open
    && !s.connectArmed && s.idleArmed == c.idleTimeout && s.holdsLease == c.protected
  }

  function Opening(c: Config, openedAt: real): seq<Step> {
    (if c.protected then [Acquired(None)] else []) + [Admitted, Opened(openedAt, [])]
  }

  predicate QuietFrame(a: Step) {
    a.Framed? && a.heard == [] && a.thrown.None?
  }

  lemma {:induction false} RunJoins(c: Config, s: State, a: seq<Step>, b: seq<Step>)
    ensures Run(c, s, a + b) == Run(c, Run(c, s, a), b)
    decreases |b|
  {
    hide Next;
    if b == [] {
      assert a + b == a;
    } else {
      RunJoins(c, s, a, b[..|b| - 1]);
      assert (a + b)[..|a + b| - 1] == a + b[..|b| - 1];
    }
  }

  lemma RunOne(c: Config, s: State, a: Step)
    ensures Run(c, s, [a]) == Next(c, s, a)
  {
    hide Next;
    assert Run(c, s, [a][..0]) == s;
  }

  lemma OpeningIsHealthy(c: Config, status: Status, openedAt: real)
    ensures Healthy(c, Run(c, Start(c, false, status), Opening(c, openedAt)), openedAt)
  {
    hide Next, Start, Run, Healthy;
    var s := Start(c, false, status);
    var admitted := [Admitted] + [Opened(openedAt, [])];
    assert [Admitted, Opened(openedAt, [])] == admitted;
    var building := if c.protected then Next(c, s, Acquired(None)) else s;
    if c.protected {
      RunJoins(c, s, [Acquired(None)], admitted);
      RunOne(c, s, Acquired(None));
    } else {
      assert Opening(c, openedAt) == [] + admitted == admitted;
    }
    RunJoins(c, building, [Admitted], [Opened(openedAt, [])]);
    RunOne(c, building, Admitted);
    RunOne(c, Next(c, building, Admitted), Opened(openedAt, []));
    AdmittedOpens(c, status, openedAt);
  }

  lemma AdmittedOpens(c: Config, status: Status, openedAt: real)
    ensures var s := Start(c, false, status);
            var building := if c.protected then Next(c, s, Acquired(None)) else s;
            Healthy(c, Next(c, Next(c, building, Admitted), Opened(openedAt, [])), openedAt)
  {
  }

  lemma {:induction false} FramesStayHealthy(c: Config, s: State, frames: seq<Step>, openedAt: real)
    requires Healthy(c, s, openedAt) && forall i :: 0 <= i < |frames| ==> QuietFrame(frames[i])
    ensures Healthy(c, Run(c, s, frames), openedAt)
    decreases |frames|
  {
    if frames != [] { FramesStayHealthy(c, s, frames[..|frames| - 1], openedAt); }
  }

  /**
   An attempt that is admitted, opens and hears any number of frames stays open with its lease held; when
   the transport then ends, it resolves if it was open for the minimum uptime, and is retried otherwise.
   Either way both timers are gone and the lease is given back.
   */
  lemma HealthyAttemptResolves(c: Config, status: Status, openedAt: real, frames: seq<Step>, endedAt: real)
    requires forall i :: 0 <= i < |frames| ==> QuietFrame(frames[i])
    ensures var open := Run(c, Start(c, false, status), Opening(c, openedAt) + frames);
            var s := Next(c, open, TransportEnded(endedAt, []));
            && Healthy(c, open, openedAt)
            && s.settlement == Some(if endedAt - openedAt >= c.minUptimeMs then Fulfilled(endedAt) else Rejected(ENDED_EARLY))
            && !s.connectArmed && !s.idleArmed && s.released == (if c.protected then 1 else 0)
  {
    hide Run, Start, Next, Opening, QuietFrame, Inv;
    var s := Start(c, false, status);
    OpeningIsHealthy(c, status, openedAt);
    RunJoins(c, s, Opening(c, openedAt), frames);
    FramesStayHealthy(c, Run(c, s, Opening(c, openedAt)), frames, openedAt);
    RunKeeps(c, false, status, Opening(c, openedAt) + frames);
    EndingReleases(c, Run(c, s, Opening(c, openedAt) + frames), openedAt, endedAt);
  }

  lemma EndingReleases(c: Config, s: State, openedAt: real, endedAt: real)
    requires Healthy(c, s, openedAt) && Inv(c, s)
    ensures var t := Next(c, s, TransportEnded(endedAt, []));
            && t.settlement == Some(if endedAt - openedAt >= c.minUptimeMs then Fulfilled(endedAt) else Rejected(ENDED_EARLY))
            && !t.connectArmed && !t.idleArmed && t.released == (if c.protected then 1 else 0)
  {
  }
}
