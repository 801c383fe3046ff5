/** The closure of `runOneConnection`: its variables and the callbacks that change them. */
module ConnectionAttempt {
  import opened Outcomes
  import opened Attempt

  class ConnectionAttempt {
    const c: Config
    var phase: Phase
    var settlement: Option<Settlement>
    var settlements: nat
    var hasOpened: bool
    var openedAt: real
    var connectArmed: bool
    var idleArmed: bool
    var holdsLease: bool
    var acquired: nat
    var released: nat
    var opens: nat
    var closed: bool
    var status: Status

    ghost function Model(): State
      reads this
    {
      State(phase, settlement, settlements, hasOpened, openedAt, connectArmed, idleArmed, holdsLease, acquired, released,
            opens, closed, status)
    }

    ghost predicate Valid()
      reads this
    {
      Inv(c, Model())
    }

    /** What holds whenever no callback runs. */
    lemma Promises()
      requires Valid()
      ensures settlements == (if settlement.Some? then 1 else 0)
      ensures acquired <= 1 && opens <= 1 && released == (if settlement.Some? then acquired else 0)
      ensures settlement.Some? ==> !connectArmed && !idleArmed
      ensures settlement.Some? && settlement.value.Fulfilled? ==> hasOpened && settlement.value.at - openedAt >= c.minUptimeMs
    {
    }

    constructor (config: Config, aborted: bool, shown: Status)
      ensures Valid() && c == config && Model() == Start(config, aborted, shown)
    {
      c := config;
      phase := if aborted then Over else if config.protected then Acquiring else Building;
      settlement := if aborted then Some(Rejected(ABORTED)) else None;
      settlements := if aborted then 1 else 0;
      hasOpened, openedAt, idleArmed, holdsLease := false, 0.0, false, false;
      connectArmed := !aborted;
      acquired, released, opens, closed, status := 0, 0, 0, aborted, shown;
    }

    /** `finish` with its `cleanup`. */
    method Settle(how: Settlement)
      modifies this`settlement, this`settlements, this`connectArmed, this`idleArmed, this`released
      ensures Model() == Finish(old(Model()), how)
    {
      if settlement.Some? { return; }
      settlement := Some(how);
      settlements := settlements + 1;
      connectArmed, idleArmed := false, false;
      if holdsLease { released := released + 1; }
    }

    /** Observers run one after the other, and may abort the attempt. */
    method Notify(interrupts: seq<Interrupt>)
      modifies this`settlement, this`settlements, this`connectArmed, this`idleArmed, this`released, this`closed, this`status
      ensures Model() == Interrupts(old(Model()), interrupts)
    {
      var i := 0;
      while i < |interrupts|
        invariant i <= |interrupts| && Model() == Interrupts(old(Model()), interrupts[..i])
      {
        assert interrupts[..i + 1][..i] == interrupts[..i];
        match interrupts[i] {
          case CallerAborts =>
            closed, status := true, Closed;
            Settle(Rejected(ABORTED));
          case LeaseAborts(reason) =>
            if holdsLease { Settle(Rejected(if reason.remote then reason else ABORTED)); }
        }
        i := i + 1;
      }
      assert interrupts[..i] == interrupts;
    }

    method ShowStatus(next: Status, interrupts: seq<Interrupt>)
      modifies this`settlement, this`settlements, this`connectArmed, this`idleArmed, this`released, this`closed, this`status
      ensures Model() == SetStatus(old(Model()), next, interrupts)
    {
      if status == next { return; }
      status := next;
      Notify(interrupts);
    }

    method Fail(fault: Fault, now: real, interrupts: seq<Interrupt>)
      modifies this`settlement, this`settlements, this`connectArmed, this`idleArmed, this`released, this`closed, this`status
      ensures Model() == EndWithFailure(c, old(Model()), fault, now, interrupts)
    {
      if fault.remote && fault.authentication {
        Settle(Rejected(fault));
        return;
      }
      if fault.retryable {
        if hasOpened && now - openedAt >= c.minUptimeMs && !fault.remote {
          Settle(Fulfilled(now));
          return;
        }
        if c.reconnect && !closed { ShowStatus(Reconnecting, interrupts); }
      }
      Settle(Rejected(fault));
    }

    method ArmIdleTimer()
      modifies this`idleArmed
      ensures Model() == ArmIdle(c, old(Model()))
    {
      if settlement.Some? || !c.idleTimeout { return; }
      idleArmed := true;
    }

    method LeaseArrived(leaseAborted: Option<Fault>)
      requires Valid()
      requires phase.Acquiring?
      modifies this
      ensures Valid() && Model() == Next(c, old(Model()), Acquired(leaseAborted))
      ensures old(settlement).Some? ==> settlement == old(settlement)
    {
      hide Inv;
      NextKeeps(c, Model(), Acquired(leaseAborted));
      acquired := acquired + 1;
      if settlement.Some? {
        released := released + 1;
        phase := Over;
        return;
      }
      holdsLease := true;
      phase := if leaseAborted.Some? then Over else Building;
      if leaseAborted.Some? { Notify([LeaseAborts(leaseAborted.value)]); }
    }

    method AdmissionRejected(fault: Fault)
      requires Valid()
      requires phase.Acquiring? || phase.Building?
      modifies this
      ensures Valid() && Model() == Next(c, old(Model()), AdmissionFailed(fault))
      ensures old(settlement).Some? ==> settlement == old(settlement)
    {
      hide Inv;
      NextKeeps(c, Model(), AdmissionFailed(fault));
      phase := Over;
      Settle(Rejected(fault));
    }

    method HeadersReady()
      requires Valid()
      requires phase.Building?
      modifies this
      ensures Valid() && Model() == Next(c, old(Model()), Admitted)
      ensures old(settlement).Some? ==> settlement == old(settlement)
    {
      hide Inv;
      NextKeeps(c, Model(), Admitted);
      if settlement.Some? {
        phase := Over;
        return;
      }
      phase := Streaming;
      opens := opens + 1;
    }

    method OnOpen(now: real, interrupts: seq<Interrupt>)
      requires Valid()
      requires opens > 0
      modifies this
      ensures Valid() && Model() == Next(c, old(Model()), Opened(now, interrupts))
      ensures old(settlement).Some? ==> settlement == old(settlement)
    {
      hide Inv;
      NextKeeps(c, Model(), Opened(now, interrupts));
      if settlement.Some? { return; }
      connectArmed := false;
      hasOpened := true;
      openedAt := now;
      ShowStatus(Open, interrupts);
      ArmIdleTimer();
    }

    /** A frame is dispatched to its listeners; a failure frame reaches them although its dispatch throws. */
    method OnFrame(heard: seq<Interrupt>, thrown: Option<Fault>, now: real, interrupts: seq<Interrupt>)
      requires Valid()
      requires opens > 0
      modifies this
      ensures Valid() && Model() == Next(c, old(Model()), Framed(heard, thrown, now, interrupts))
      ensures old(settlement).Some? ==> settlement == old(settlement)
    {
      hide Inv;
      NextKeeps(c, Model(), Framed(heard, thrown, now, interrupts));
      if settlement.Some? { return; }
      Notify(heard);
      if thrown.Some? {
        Fail(thrown.value, now, interrupts);
        return;
      }
      ArmIdleTimer();
    }

    method OnRetry(thrown: Option<Fault>, now: real, interrupts: seq<Interrupt>)
      requires Valid()
      requires opens > 0
      modifies this
      ensures Valid() && Model() == Next(c, old(Model()), Directed(thrown, now, interrupts))
      ensures old(settlement).Some? ==> settlement == old(settlement)
    {
      hide Inv;
      NextKeeps(c, Model(), Directed(thrown, now, interrupts));
      if settlement.Some? { return; }
      if thrown.Some? { Fail(thrown.value, now, interrupts); }
    }

    method ConnectTimedOut(now: real, interrupts: seq<Interrupt>)
      requires Valid()
      modifies this
      ensures Valid() && Model() == Next(c, old(Model()), ConnectElapsed(now, interrupts))
      ensures old(settlement).Some? ==> settlement == old(settlement)
    {
      hide Inv;
      NextKeeps(c, Model(), ConnectElapsed(now, interrupts));
      connectArmed := false;
      Fail(TIMEOUT, now, interrupts);
    }

    method IdleTimedOut(now: real, interrupts: seq<Interrupt>)
      requires Valid()
      requires hasOpened && c.idleTimeout
      modifies this
      ensures Valid() && Model() == Next(c, old(Model()), IdleElapsed(now, interrupts))
      ensures old(settlement).Some? ==> settlement == old(settlement)
    {
      hide Inv;
      NextKeeps(c, Model(), IdleElapsed(now, interrupts));
      idleArmed := false;
      Fail(TIMEOUT, now, interrupts);
    }

    /** A timer that broke. */
    method TimerBroke(now: real, interrupts: seq<Interrupt>)
      requires Valid()
      modifies this
      ensures Valid() && Model() == Next(c, old(Model()), TimerFailed(now, interrupts))
      ensures old(settlement).Some? ==> settlement == old(settlement)
    {
      hide Inv;
      NextKeeps(c, Model(), TimerFailed(now, interrupts));
      Fail(TIMER_BROKEN, now, interrupts);
    }

    /** The session or the lease is aborted. */
    method Aborted(interrupt: Interrupt)
      requires Valid()
      modifies this
      ensures Valid() && Model() == Next(c, old(Model()), Interrupted(interrupt))
      ensures old(settlement).Some? ==> settlement == old(settlement)
    {
      hide Inv;
      NextKeeps(c, Model(), Interrupted(interrupt));
      Notify([interrupt]);
    }

    method StreamEnded(now: real, interrupts: seq<Interrupt>)
      requires Valid()
      requires phase.Streaming?
      modifies this
      ensures Valid() && Model() == Next(c, old(Model()), TransportEnded(now, interrupts))
      ensures old(settlement).Some? ==> settlement == old(settlement)
    {
      hide Inv;
      NextKeeps(c, Model(), TransportEnded(now, interrupts));
      phase := Over;
      if hasOpened && now - openedAt >= c.minUptimeMs {
        Settle(Fulfilled(now));
      } else {
        Fail(ENDED_EARLY, now, interrupts);
      }
    }

    method StreamFailed(fault: Fault, now: real, interrupts: seq<Interrupt>)
      requires Valid()
      requires phase.Streaming?
      modifies this
      ensures Valid() && Model() == Next(c, old(Model()), TransportFailed(fault, now, interrupts))
      ensures old(settlement).Some? ==> settlement == old(settlement)
    {
      hide Inv;
      NextKeeps(c, Model(), TransportFailed(fault, now, interrupts));
      phase := Over;
      Fail(fault, now, interrupts);
    }
  }
}
