/** What the session store promises over every run: teardown, fencing, the queue and its proofs. */
module SessionTheorems {
  import opened Outcomes
  import opened SessionStore
  import opened SessionSafety

  // ---------------------------------------------------------------- credentials and status flights

  /**
   Whenever a credential is held, the snapshot is authenticated with its identity and expiry, the
   lifetime is live, exactly one expiry timer is armed and the store is not blocked. Without one, no
   timer is armed.
   */
  lemma CredentialIsPublishedAndTimed(initial: Snapshot, steps: seq<Step>)
    ensures var s := Run(Start(initial), steps);
            && (s.credential.Some? ==>
                  && s.snapshot == SignedIn(s.credential.value)
                  && !s.lifetimeAborted && !s.blocked
                  && s.expiry.Some? && s.armed == {s.expiry.value})
            && (s.credential.None? ==> s.armed == {})
  {
    RunKeeps(initial, steps);
  }

  /** `revalidate` never joins a status flight of an older generation. */
  lemma RevalidateJoinsCurrentFlight(initial: Snapshot, steps: seq<Step>)
    ensures var s := Run(Start(initial), steps);
            !s.blocked && s.statusFlight.Some? ==>
              s.statusFlight.value < |s.flights| && s.flights[s.statusFlight.value].epoch == s.generation
  {
    RunKeeps(initial, steps);
  }

  /** The block matters: expiry leaves a flight of the expired generation in place. */
  lemma ExpiryLeavesStaleFlight(initial: Snapshot, v: Session)
    ensures var signedIn := FlightAnswered(0, Got(Received(v, 1)), []);
            var steps := [Outside(RevalidateCall), signedIn, FlightForgotten(0), Outside(RevalidateCall), TimerFired(0, EXPIRED, [])];
            var s := Run(Start(initial), steps);
            s.blocked && s.statusFlight == Some(1) && |s.flights| == 2 && s.flights[1].epoch != s.generation
  {
    var signedIn := FlightAnswered(0, Got(Received(v, 1)), []);
    var steps := [Outside(RevalidateCall), signedIn, FlightForgotten(0), Outside(RevalidateCall), TimerFired(0, EXPIRED, [])];
    hide Next, Start;
    var s0 := Start(initial);
    assert steps[..0] == [] && steps[..5] == steps;
    RunStep(s0, steps, 0);
    RunStep(s0, steps, 1);
    RunStep(s0, steps, 2);
    RunStep(s0, steps, 3);
    RunStep(s0, steps, 4);
    var s2 := SignedInOnce(initial, v);
    ExpiresUnnoticed(s2);
  }

  lemma RunStep(s: Store, steps: seq<Step>, k: nat)
    requires k < |steps|
    ensures Run(s, steps[..k + 1]) == Next(Run(s, steps[..k]), steps[k])
  {
    hide Next;
    assert steps[..k + 1][..k] == steps[..k];
  }

  /** A check started after the adoption is still there when its session expires. */
  lemma ExpiresUnnoticed(s: Store)
    requires s.expiry == Some(0) && s.generation == 0 && s.flights == [Flight(0, 0, false, true)]
    requires s.statusFlight == Some(0) && !s.blocked
    ensures var t := Next(Next(Next(s, FlightForgotten(0)), Outside(RevalidateCall)), TimerFired(0, EXPIRED, []));
            t.blocked && t.statusFlight == Some(1) && |t.flights| == 2 && t.flights[1].epoch != t.generation
  {
    var forgotten := Next(s, FlightForgotten(0));
    var checking := Next(forgotten, Outside(RevalidateCall));
    assert checking == Revalidate(forgotten);
    assert Next(checking, TimerFired(0, EXPIRED, [])) == EndSession(checking, EXPIRED);
  }

  /** The state after one status check that adopted `v`. */
  lemma SignedInOnce(initial: Snapshot, v: Session) returns (s: Store)
    ensures s == Next(Next(Start(initial), Outside(RevalidateCall)), FlightAnswered(0, Got(Received(v, 1)), []))
    ensures s.expiry == Some(0) && s.generation == 0 && s.flights == [Flight(0, 0, false, true)]
    ensures s.statusFlight == Some(0) && !s.blocked
  {
    s := Next(Next(Start(initial), Outside(RevalidateCall)), FlightAnswered(0, Got(Received(v, 1)), []));
  }

  // ---------------------------------------------------------------- what calls leave alone

  /** Calls only append to the queue; they adopt, start and spend nothing. */
  ghost predicate OnlyQueues(s: Store, t: Store) {
    var h := s.history;
    && |t.mutations| >= |s.mutations| && t.mutations[..|s.mutations|] == s.mutations
    && (forall i :: |s.mutations| <= i < |t.mutations| ==> t.mutations[i].ticket >= s.nextTicket)
    && t.nextTicket >= s.nextTicket
    && t.history == h.(mark := t.history.mark, closedAt := t.history.closedAt)
    && (t.history.mark == h.mark
        || (t.history.mark.Some? && t.history.mark.value.ticket >= s.nextTicket
            && t.history.mark.value.adoptions == |h.adopted|))
  }

  lemma OnlyQueuesTransitive(s: Store, t: Store, u: Store)
    requires OnlyQueues(s, t) && OnlyQueues(t, u)
    ensures OnlyQueues(s, u)
  {
    assert u.mutations[..|s.mutations|] == u.mutations[..|t.mutations|][..|s.mutations|];
    forall i | |s.mutations| <= i < |u.mutations| ensures u.mutations[i].ticket >= s.nextTicket {
      if i < |t.mutations| {
        assert u.mutations[i] == u.mutations[..|t.mutations|][i];
      }
    }
  }

  lemma BeforeOnlyQueues(s: Store, c: Call)
    ensures OnlyQueues(s, Before(s, c)) && Before(s, c).pendingMutations == s.pendingMutations
  {
    hide TimerSet;
    match c
    case RevalidateCall =>
    case CloseCall =>
    case LoginCall(_) =>
    case LogoutCall(_) =>
    case InvalidateCall(_, _) =>
  }

  lemma {:induction false} ExecOnlyQueues(s: Store, c: Call)
    ensures OnlyQueues(s, Exec(s, c))
    decreases c
  {
    hide OnlyQueues, Before, Push;
    BeforeOnlyQueues(s, c);
    var b := Before(s, c);
    match c
    case RevalidateCall =>
    case CloseCall =>
    case InvalidateCall(_, reactions) =>
      ExecAllOnlyQueues(b, reactions);
      OnlyQueuesTransitive(s, b, ExecAll(b, reactions));
    case LoginCall(reactions) =>
      ExecAllOnlyQueues(b, reactions);
      OnlyQueuesTransitive(s, b, ExecAll(b, reactions));
      PushOnlyQueues(s, ExecAll(b, reactions), LoginKind, s.owner, s.calls.made);
      CaughtOnlyQueues(s);
    case LogoutCall(reactions) =>
      ExecAllOnlyQueues(b, reactions);
      OnlyQueuesTransitive(s, b, ExecAll(b, reactions));
      PushOnlyQueues(s, ExecAll(b, reactions), LogoutKind, s.owner, s.calls.made);
  }

  lemma PushOnlyQueues(s: Store, t: Store, kind: Kind, caller: nat, call: nat)
    requires OnlyQueues(s, t)
    ensures OnlyQueues(s, Push(t, kind, caller, call))
  {
  }

  lemma CaughtOnlyQueues(s: Store)
    ensures OnlyQueues(s, Called(s).(caught := s.caught + [Caught(s.owner, QUEUE_FULL)]))
  {
  }

  lemma {:induction false} ExecAllOnlyQueues(s: Store, calls: seq<Call>)
    ensures OnlyQueues(s, ExecAll(s, calls))
    decreases calls
  {
    if calls == [] {
    } else {
      ExecOnlyQueues(s, calls[0]);
      ExecAllOnlyQueues(Exec(s, calls[0]), calls[1..]);
      OnlyQueuesTransitive(s, Exec(s, calls[0]), ExecAll(s, calls));
    }
  }

  ghost predicate HistoryGrows(h: History, g: History, nextTicket: nat) {
    && |g.adopted| >= |h.adopted|
    && |g.proofs| >= |h.proofs| && g.proofs[..|h.proofs|] == h.proofs
    && (g.mark == h.mark
        || (g.mark.Some? && g.mark.value.ticket >= nextTicket && g.mark.value.adoptions >= |h.adopted|))
  }

  /** What every step respects: histories grow, and a mutation that has started never waits again. */
  ghost predicate Advances(s: Store, t: Store) {
    && t.nextTicket >= s.nextTicket
    && HistoryGrows(s.history, t.history, s.nextTicket)
    && forall ticket: nat :: ticket < s.nextTicket && Waiting(t.mutations, ticket) ==> Waiting(s.mutations, ticket)
  }

  lemma AdvancesTransitive(s: Store, t: Store, u: Store)
    requires Advances(s, t) && Advances(t, u)
    ensures Advances(s, u)
  {
    assert u.history.proofs[..|s.history.proofs|] == u.history.proofs[..|t.history.proofs|][..|s.history.proofs|];
  }

  lemma QueueingAdvances(s: Store, t: Store)
    requires OnlyQueues(s, t)
    ensures Advances(s, t)
  {
    forall ticket: nat | ticket < s.nextTicket && Waiting(t.mutations, ticket) ensures Waiting(s.mutations, ticket) {
      var i :| 0 <= i < |t.mutations| && t.mutations[i].ticket == ticket && t.mutations[i].phase == Queued;
      assert i < |s.mutations| && s.mutations[i] == t.mutations[..|s.mutations|][i];
    }
  }

  /** A step up to the point where it notifies subscribers; `true` when it does. */
  function Core(s: Store, a: Step): (Store, bool) {
    match a
    case LoginAnswered(answer, _) =>
      if s.mutations != [] && Head(s).phase == Running && Head(s).kind == LoginKind && answer.Got?
      then Respond(s, answer.received) else (Next(s, a), false)
    case LogoutAnswered(failure, _) =>
      if s.mutations != [] && Head(s).phase == Running && Head(s).kind == LogoutKind && Head(s).epoch == s.generation
      then (Clear(WithHead(s, Settling(failure)), failure, Some(if failure.None? then RevocationConfirmed else RevocationUnconfirmed)), true)
      else (Next(s, a), false)
    case LoginCaught(i, _) =>
      if i < |s.caught| && s.caught[i].caller == s.owner && s.pendingMutations == 0
      then (Clear(s.(caught := s.caught[..i] + s.caught[i + 1..]), Some(s.caught[i].cause), None), true)
      else (Next(s, a), false)
    case FlightAnswered(id, answer, _) =>
      if id < |s.flights| && !s.flights[id].settled && Answerable(s, id, answer) && s.flights[id].epoch == s.generation
      then (FlightResult(s.(flights := s.flights[id := s.flights[id].(settled := true)]), id, answer), true)
      else (Next(s, a), false)
    case TimerFired(timer, cause, _) =>
      if s.expiry == Some(timer) then (EndSession(s, cause), true) else (Next(s, a), false)
    case _ => (Next(s, a), false)
  }

  function Reactions(a: Step): seq<Call> {
    match a
    case LoginAnswered(_, r) => r
    case LogoutAnswered(_, r) => r
    case LoginCaught(_, r) => r
    case FlightAnswered(_, _, r) => r
    case TimerFired(_, _, r) => r
    case _ => []
  }

  lemma NextIsCore(s: Store, a: Step)
    ensures Next(s, a) == if Core(s, a).1 then ExecAll(Core(s, a).0, Reactions(a)) else Core(s, a).0
  {
  }

  // ---------------------------------------------------------------- what subscribers find

  /** The states in which some subscriber is told of a call: at its own notification, then at those of their calls. */
  function Seen(s: Store, c: Call): seq<Store>
    decreases c, 1
  {
    match c
    case RevalidateCall => []
    case CloseCall => []
    case InvalidateCall(_, reactions) => SeenBetween(Before(s, c), reactions)
    case LoginCall(reactions) => if Full(s) then [] else SeenBetween(Before(s, c), reactions)
    case LogoutCall(reactions) => SeenBetween(Before(s, c), reactions)
  }

  /** The subscribers of one notification are told one after the other, the later ones after the calls of the earlier. */
  function SeenBetween(s: Store, calls: seq<Call>): seq<Store>
    decreases calls, 0
  {
    [s] + if calls == [] then [] else Seen(s, calls[0]) + SeenBetween(Exec(s, calls[0]), calls[1..])
  }

  function SeenByStep(s: Store, a: Step): seq<Store> {
    if a.Outside? then Seen(s, a.call)
    else if Core(s, a).1 then SeenBetween(Core(s, a).0, Reactions(a))
    else []
  }

  ghost predicate AllKept(seen: seq<Store>) {
    forall i :: 0 <= i < |seen| ==> Inv(seen[i])
  }

  lemma AllKeptJoin(a: seq<Store>, b: seq<Store>)
    requires AllKept(a) && AllKept(b)
    ensures AllKept(a + b)
  {
    hide Inv;
  }

  lemma {:induction false} SeenIsKept(s: Store, c: Call)
    requires Inv(s)
    ensures AllKept(Seen(s, c))
    decreases c, 1
  {
    hide Inv, Before, Exec;
    if !c.RevalidateCall? && !c.CloseCall? {
      BeforeKeeps(s, c);
      SeenBetweenIsKept(Before(s, c), c.reactions);
    }
  }

  lemma {:induction false} SeenBetweenIsKept(s: Store, calls: seq<Call>)
    requires Inv(s)
    ensures AllKept(SeenBetween(s, calls))
    decreases calls, 0
  {
    hide Inv, Exec;
    if calls != [] {
      SeenIsKept(s, calls[0]);
      ExecKeeps(s, calls[0]);
      SeenBetweenIsKept(Exec(s, calls[0]), calls[1..]);
      AllKeptJoin(Seen(s, calls[0]), SeenBetween(Exec(s, calls[0]), calls[1..]));
      AllKeptJoin([s], Seen(s, calls[0]) + SeenBetween(Exec(s, calls[0]), calls[1..]));
    }
  }

  /** A step that notifies has restored the invariant by then. */
  lemma CoreKeeps(s: Store, a: Step)
    requires Inv(s) && !a.Outside? && Core(s, a).1
    ensures Inv(Core(s, a).0)
  {
    hide Inv;
    match a
    case LoginAnswered(answer, _) => RespondKeeps(s, answer.received);
    case LogoutAnswered(failure, _) =>
      HeadSettlesKeeps(s, failure);
      ClearKeeps(WithHead(s, Settling(failure)), failure, Some(if failure.None? then RevocationConfirmed else RevocationUnconfirmed));
    case LoginCaught(i, _) =>
      var caught := s.caught[..i] + s.caught[i + 1..];
      CaughtKeeps(s, caught);
      ClearKeeps(s.(caught := caught), Some(s.caught[i].cause), None);
    case FlightAnswered(id, answer, _) =>
      FlightSettledKeeps(s, id);
      FlightResultKeeps(s.(flights := s.flights[id := s.flights[id].(settled := true)]), id, answer);
    case TimerFired(timer, cause, _) => EndKeeps(s, cause, s.statusFlight);
  }

  /**
   The store as a subscriber may find it. A credential is published, alive and timed; where the snapshot
   says `authenticated` without one, `close` has run since that was published.
   */
  ghost predicate Presentable(s: Store) {
    && (s.credential.Some? ==>
          && s.snapshot == SignedIn(s.credential.value)
          && !s.lifetimeAborted && !s.blocked
          && s.expiry.Some? && s.armed == {s.expiry.value})
    && (s.credential.None? ==> s.expiry.None? && s.armed == {})
    && (s.snapshot.status == Authenticated ==> (s.credential.Some? <==> !s.unpublished))
  }

  /**
   In every notification of every run, an adoption's own and those nested in the reactions of other
   subscribers included, each subscriber, the first one and those after whatever the earlier ones called,
   finds credential, snapshot, lifetime, timer and block in agreement. One that is told `authenticated`
   finds the session if and only if `close` has not run since that was published.
   */
  lemma SubscribersSeeIt(initial: Snapshot, steps: seq<Step>, a: Step, i: nat)
    requires i < |SeenByStep(Run(Start(initial), steps), a)|
    ensures Presentable(SeenByStep(Run(Start(initial), steps), a)[i])
  {
    var s := Run(Start(initial), steps);
    RunKeeps(initial, steps);
    hide Run, Core, Seen, SeenBetween;
    if a.Outside? {
      SeenIsKept(s, a.call);
    } else if Core(s, a).1 {
      CoreKeeps(s, a);
      SeenBetweenIsKept(Core(s, a).0, Reactions(a));
    }
  }

  /** A notification is a publication, so its first subscriber finds the session it is told of. */
  lemma FirstSubscriberFindsIt(s: Store, a: Step)
    requires SeenByStep(s, a) != []
    ensures !SeenByStep(s, a)[0].unpublished
  {
    hide Exec, ExecAll, Core, Before, SeenBetween;
    if a.Outside? {
      BeforePublishes(s, a.call);
      SeenFirst(Before(s, a.call), a.call.reactions);
    } else {
      CorePublishes(s, a);
      SeenFirst(Core(s, a).0, Reactions(a));
    }
  }

  lemma SeenFirst(s: Store, calls: seq<Call>)
    ensures |SeenBetween(s, calls)| > 0 && SeenBetween(s, calls)[0] == s
  {
  }

  lemma BeforePublishes(s: Store, c: Call)
    requires !c.RevalidateCall? && !c.CloseCall?
    ensures !Before(s, c).unpublished
  {
  }

  lemma CorePublishes(s: Store, a: Step)
    requires !a.Outside? && Core(s, a).1
    ensures !Core(s, a).0.unpublished
  {
    hide Exec, ExecAll, Begin;
  }

  /** A later one need not: a subscriber that closes the store while it is told of an adoption publishes nothing. */
  lemma LaterSubscriberFindsNone(initial: Snapshot, v: Session)
    ensures var s := Run(Start(initial), [Outside(RevalidateCall)]);
            var seen := SeenByStep(s, FlightAnswered(0, Got(Received(v, 1)), [CloseCall]));
            && |seen| == 2
            && seen[0].snapshot.status == Authenticated && seen[0].credential == Some(v)
            && seen[1].snapshot.status == Authenticated && seen[1].credential.None? && seen[1].lifetimeAborted
  {
    var steps := [Outside(RevalidateCall)];
    assert steps[..0] == [];
    assert Run(Start(initial), []) == Start(initial);
    var s := Run(Start(initial), steps);
    assert s == Revalidate(Start(initial));
    var a := FlightAnswered(0, Got(Received(v, 1)), [CloseCall]);
    var t := Core(s, a).0;
    assert [CloseCall][1..] == [];
    assert SeenBetween(Close(t), []) == [Close(t)];
    assert SeenBetween(t, [CloseCall]) == [t] + (Seen(t, CloseCall) + SeenBetween(Close(t), []));
  }

  // ---------------------------------------------------------------- what steps leave alone

  lemma FlightGrows(s: Store, id: nat, answer: Answer)
    requires id < |s.flights|
    ensures var t := FlightResult(s, id, answer);
            t.nextTicket == s.nextTicket && HistoryGrows(s.history, t.history, s.nextTicket)
  {
  }

  lemma AnsweredGrows(s: Store, r: Received)
    requires s.mutations != []
    ensures var t := Answered(s, r).0;
            t.nextTicket == s.nextTicket && HistoryGrows(s.history, t.history, s.nextTicket)
  {
    hide Adoptable, SignedIn, TimerSet;
  }

  lemma RespondGrows(s: Store, r: Received)
    requires s.mutations != []
    ensures var t := Respond(s, r).0;
            t.nextTicket == s.nextTicket && HistoryGrows(s.history, t.history, s.nextTicket)
  {
    hide Answered, LogoutBehind;
    AnsweredGrows(s, r);
  }

  lemma BeginGrows(s: Store)
    requires s.mutations != []
    ensures Begin(s).nextTicket == s.nextTicket && HistoryGrows(s.history, Begin(s).history, s.nextTicket)
  {
  }

  lemma CoreGrows(s: Store, a: Step)
    requires !a.Outside?
    ensures var t := Core(s, a).0;
            t.nextTicket == s.nextTicket && HistoryGrows(s.history, t.history, s.nextTicket)
  {
    match a
    case LoginAnswered(answer, _) =>
      hide Exec, ExecAll, Respond, HistoryGrows;
      HistoryGrowsItself(s);
      if s.mutations != [] && answer.Got? { RespondGrows(s, answer.received); }
    case FlightAnswered(id, answer, _) =>
      hide Exec, ExecAll, FlightResult, HistoryGrows;
      HistoryGrowsItself(s);
      if id < |s.flights| {
        FlightGrows(s.(flights := s.flights[id := s.flights[id].(settled := true)]), id, answer);
      }
    case StartMutation =>
      hide Exec, ExecAll, Begin, HistoryGrows;
      HistoryGrowsItself(s);
      if s.mutations != [] { BeginGrows(s); }
    case _ => QuietGrows(s, a);
  }

  /** The other steps leave the history alone. */
  lemma QuietGrows(s: Store, a: Step)
    requires !a.Outside? && !a.LoginAnswered? && !a.FlightAnswered? && !a.StartMutation?
    ensures var t := Core(s, a).0;
            t.nextTicket == s.nextTicket && HistoryGrows(s.history, t.history, s.nextTicket)
  {
    hide Exec, ExecAll, HistoryGrows, TimerSet, Begin, FlightResult, Respond;
    HistoryGrowsItself(s);
    match a
    case LogoutAnswered(_, _) =>
    case LoginCaught(_, _) =>
    case TimerFired(_, _, _) =>
    case FinishMutation =>
    case FlightForgotten(_) =>
  }

  lemma HistoryGrowsItself(s: Store)
    ensures HistoryGrows(s.history, s.history, s.nextTicket)
  {
  }

  lemma CoreAdvances(s: Store, a: Step)
    ensures Advances(s, Core(s, a).0)
  {
    if a.Outside? {
      ExecOnlyQueues(s, a.call);
      hide OnlyQueues, Advances;
      QueueingAdvances(s, Core(s, a).0);
    } else {
      hide Core, HistoryGrows;
      CoreGrows(s, a);
      WaitingOnlyEnds(s, a);
    }
  }

  /** The queue after a step: the same, or its head settled, started or dropped. */
  ghost predicate QueueMoves(q: seq<Mutation>, q': seq<Mutation>) {
    || q' == q
    || (q != [] && q' == q[1..])
    || (q != [] && |q'| == |q| && q'[0].phase != Queued && forall i :: 0 < i < |q| ==> q'[i] == q[i])
  }

  lemma FlightFrame(s: Store, id: nat, answer: Answer)
    requires id < |s.flights|
    ensures var t := FlightResult(s, id, answer);
            && t.mutations == s.mutations && t.pendingMutations == s.pendingMutations
            && t.history.started == s.history.started && t.history.owed == s.history.owed
  {
  }

  lemma AnsweredFrame(s: Store, r: Received)
    requires s.mutations != []
    ensures var t := Answered(s, r).0;
            && t.mutations == s.mutations[0 := t.mutations[0]] && t.mutations[0].phase.Settling?
            && t.pendingMutations == s.pendingMutations && t.history.started == s.history.started
  {
    hide Adoptable, SignedIn, TimerSet;
  }

  lemma RespondFrame(s: Store, r: Received)
    requires s.mutations != []
    ensures var t := Respond(s, r).0;
            && t.mutations == s.mutations[0 := t.mutations[0]] && t.mutations[0].phase.Settling?
            && t.pendingMutations == s.pendingMutations && t.history.started == s.history.started
  {
    hide Answered, LogoutBehind;
    AnsweredFrame(s, r);
  }

  /** The books after a step: only a start is recorded, and only a login's answer makes a promise. */
  ghost predicate BooksMove(s: Store, a: Step, h: History) {
    && (h.started == s.history.started
        || (a.StartMutation? && s.mutations != [] && Head(s).owner == s.owner
            && h.started == s.history.started + [Head(s).ticket]))
    && (h.owed == s.history.owed || (a.LoginAnswered? && s.mutations != [] && Head(s).phase == Running))
  }

  /** What a step other than a call does to the queue and its books. */
  ghost predicate StepFrame(s: Store, a: Step, t: Store) {
    && QueueMoves(s.mutations, t.mutations)
    && t.pendingMutations <= s.pendingMutations
    && BooksMove(s, a, t.history)
  }

  lemma CoreFrame(s: Store, a: Step)
    requires !a.Outside?
    ensures StepFrame(s, a, Core(s, a).0)
  {
    if a.LoginAnswered? {
      LoginFrame(s, a);
    } else if a.FlightAnswered? {
      CheckFrame(s, a);
    } else if a.StartMutation? {
      StartFrame(s, a);
    } else if a.LogoutAnswered? {
      LogoutFrame(s, a);
    } else if a.FinishMutation? {
      FinishFrame(s, a);
    } else {
      hide Exec, ExecAll, Begin, Respond, FlightResult, BooksMove;
      assert BooksMove(s, a, s.history) by { BooksStay(s, a); }
    }
  }

  lemma BooksStay(s: Store, a: Step)
    ensures BooksMove(s, a, s.history)
  {
  }

  lemma BeginMoves(s: Store)
    requires s.mutations != []
    ensures var h := Begin(s).history;
            && Begin(s).pendingMutations == s.pendingMutations && h.owed == s.history.owed
            && h.started == if Head(s).owner == s.owner then s.history.started + [Head(s).ticket] else s.history.started
  {
  }

  lemma StartFrame(s: Store, a: Step)
    requires a.StartMutation?
    ensures StepFrame(s, a, Core(s, a).0)
  {
    hide Exec, ExecAll, Begin;
    if s.mutations != [] {
      BeginMoves(s);
      BeginSame(s);
    }
  }

  lemma ClearMoves(s: Store, error: Option<Cause>, revocation: Option<Revocation>)
    ensures var t := Clear(s, error, revocation);
            t.mutations == s.mutations && t.pendingMutations == s.pendingMutations && t.history == s.history
  {
  }

  lemma LogoutFrame(s: Store, a: Step)
    requires a.LogoutAnswered?
    ensures StepFrame(s, a, Core(s, a).0)
  {
    hide Exec, ExecAll, Clear;
    if s.mutations != [] {
      ClearMoves(WithHead(s, Settling(a.failure)), a.failure,
                 Some(if a.failure.None? then RevocationConfirmed else RevocationUnconfirmed));
    }
  }

  lemma FinishFrame(s: Store, a: Step)
    requires a.FinishMutation?
    ensures StepFrame(s, a, Core(s, a).0)
  {
    hide Exec, ExecAll;
  }

  lemma CheckFrame(s: Store, a: Step)
    requires a.FlightAnswered?
    ensures StepFrame(s, a, Core(s, a).0)
  {
    hide Exec, ExecAll, FlightResult, Respond, Begin;
    if a.id < |s.flights| {
      FlightFrame(s.(flights := s.flights[a.id := s.flights[a.id].(settled := true)]), a.id, a.answer);
    }
  }

  lemma LoginFrame(s: Store, a: Step)
    requires a.LoginAnswered?
    ensures StepFrame(s, a, Core(s, a).0)
  {
    hide Exec, ExecAll, Respond;
    if s.mutations != [] && a.answer.Got? { RespondFrame(s, a.answer.received); }
  }

  lemma WaitingOnlyEnds(s: Store, a: Step)
    requires !a.Outside?
    ensures forall ticket: nat :: Waiting(Core(s, a).0.mutations, ticket) ==> Waiting(s.mutations, ticket)
  {
    hide Core;
    var q := s.mutations;
    var q' := Core(s, a).0.mutations;
    CoreFrame(s, a);
    forall ticket: nat | Waiting(q', ticket) ensures Waiting(q, ticket) {
      var i :| 0 <= i < |q'| && q'[i].ticket == ticket && q'[i].phase == Queued;
      assert (i < |q| && q'[i] == q[i]) || (i + 1 < |q| && q'[i] == q[i + 1]);
    }
  }

  lemma NextAdvances(s: Store, a: Step)
    ensures Advances(s, Next(s, a))
  {
    hide Advances, Core, Next, OnlyQueues;
    NextIsCore(s, a);
    CoreAdvances(s, a);
    var t := Core(s, a).0;
    ExecAllOnlyQueues(t, Reactions(a));
    QueueingAdvances(t, ExecAll(t, Reactions(a)));
    AdvancesTransitive(s, t, ExecAll(t, Reactions(a)));
  }

  lemma {:induction false} RunAdvances(s: Store, steps: seq<Step>)
    ensures Advances(s, Run(s, steps))
    decreases |steps|
  {
    if steps != [] {
      var front := steps[..|steps| - 1];
      RunAdvances(s, front);
      NextAdvances(Run(s, front), steps[|steps| - 1]);
      AdvancesTransitive(s, Run(s, front), Run(s, steps));
    }
  }

  lemma {:induction false} RunSplits(s: Store, front: seq<Step>, back: seq<Step>)
    ensures Run(s, front + back) == Run(Run(s, front), back)
    decreases |back|
  {
    hide Next;
    if back == [] {
      assert front + back == front;
    } else {
      RunSplits(s, front, back[..|back| - 1]);
      assert (front + back)[..|front + back| - 1] == front + back[..|back| - 1];
    }
  }

  // ---------------------------------------------------------------- logout fencing

  /**
   Once `logout` has been called from outside, whatever else completes (earlier status flights and
   logins, a full queue, any reentrant subscriber), the published status is authenticated only if a login
   that was queued at or after that call has been adopted since. `SessionOrder` says which logins those
   are, and what holds of a `logout` that a subscriber calls.
   */
  lemma LogoutFences(initial: Snapshot, before: seq<Step>, reactions: seq<Call>, after: seq<Step>)
    ensures var s := Run(Start(initial), before);
            var t := Run(Next(s, Outside(LogoutCall(reactions))), after);
            t.snapshot.status == Authenticated ==>
              exists i :: |s.history.adopted| <= i < |t.history.adopted|
                          && t.history.adopted[i].ByLogin? && t.history.adopted[i].ticket >= s.nextTicket
  {
    var s := Run(Start(initial), before);
    var call := Outside(LogoutCall(reactions));
    var u := Next(s, call);
    var t := Run(u, after);
    RunSplits(Start(initial), before, [call] + after);
    RunSplits(s, [call], after);
    assert [call][..0] == [];
    assert Run(s, [call]) == u;
    RunKeeps(initial, before + ([call] + after));
    LogoutMarks(s, reactions);
    RunAdvances(u, after);
    hide Run, Next, Inv;
    assert MarkInv(t) by { InvMark(t); }
    if t.snapshot.status == Authenticated {
      assert LoginSince(t.history);
    }
  }

  lemma InvMark(s: Store)
    requires Inv(s)
    ensures MarkInv(s)
  {
  }

  lemma LogoutMarks(s: Store, reactions: seq<Call>)
    ensures var u := Next(s, Outside(LogoutCall(reactions)));
            && u.nextTicket >= s.nextTicket
            && |u.history.adopted| >= |s.history.adopted|
            && u.history.mark.Some?
            && u.history.mark.value.ticket >= s.nextTicket
            && u.history.mark.value.adoptions >= |s.history.adopted|
  {
    ExecAllOnlyQueues(Before(s, LogoutCall(reactions)), reactions);
  }

  // ---------------------------------------------------------------- the mutation queue

  /**
   Mutations are counted exactly; only the oldest one has started, and they start in the order of the
   queue, each at most once.
   */
  lemma MutationsRunInQueueOrder(initial: Snapshot, steps: seq<Step>)
    ensures var s := Run(Start(initial), steps);
            && s.pendingMutations == |s.mutations|
            && (forall i, j :: 0 <= i < j < |s.mutations| ==>
                  s.mutations[i].ticket < s.mutations[j].ticket && s.mutations[j].phase == Queued)
            && (forall i, j :: 0 <= i < j < |s.history.started| ==> s.history.started[i] < s.history.started[j])
  {
    RunKeeps(initial, steps);
  }

  /** A mutation that starts was queued after the last `close`; one queued before it is rejected. */
  lemma NothingQueuedBeforeCloseStarts(initial: Snapshot, steps: seq<Step>, a: Step)
    ensures var s := Run(Start(initial), steps);
            var t := Next(s, a);
            t.history.started != s.history.started ==>
              && a.StartMutation? && s.mutations != []
              && t.history.started == s.history.started + [Head(s).ticket]
              && Head(s).ticket >= s.history.closedAt
  {
    var s := Run(Start(initial), steps);
    RunKeeps(initial, steps);
    NextFrame(s, a);
    hide Run, Next;
  }

  /** The same frame for whole steps, reactions included. */
  lemma NextFrame(s: Store, a: Step)
    ensures var t := Next(s, a);
            && (t.history.started == s.history.started
                || (a.StartMutation? && s.mutations != [] && Head(s).owner == s.owner
                    && t.history.started == s.history.started + [Head(s).ticket]))
            && (t.history.owed == s.history.owed
                || (a.LoginAnswered? && s.mutations != [] && Head(s).phase == Running))
  {
    NextIsCore(s, a);
    if a.Outside? {
      ExecOnlyQueues(s, a.call);
    } else {
      CoreFrame(s, a);
    }
    ExecAllOnlyQueues(Core(s, a).0, Reactions(a));
    hide Core, Exec, ExecAll;
  }

  function Least(a: nat, b: nat): nat {
    if a <= b then a else b
  }

  /** The logins and logouts in a call and in everything its subscribers call. */
  function Demand(c: Call): nat
    decreases c
  {
    match c
    case RevalidateCall => 0
    case CloseCall => 0
    case InvalidateCall(_, reactions) => TotalDemand(reactions)
    case LoginCall(reactions) => TotalDemand(reactions) + 1
    case LogoutCall(reactions) => TotalDemand(reactions) + 1
  }

  function TotalDemand(calls: seq<Call>): nat
    decreases calls
  {
    if calls == [] then 0 else Demand(calls[0]) + TotalDemand(calls[1..])
  }

  /**
   A call made with `n` mutations pending stays within the bound: a login or logout does when it is
   refused or when all that its subscribers queue leaves room for it; others do when the calls that react
   to them do, one after the other.
   */
  predicate Fits(n: nat, c: Call)
    decreases c
  {
    match c
    case RevalidateCall => true
    case CloseCall => true
    case InvalidateCall(_, reactions) => AllFit(n, reactions)
    case LoginCall(reactions) => n >= MAX_PENDING || n + TotalDemand(reactions) < MAX_PENDING
    case LogoutCall(reactions) => n >= MAX_PENDING || n + TotalDemand(reactions) < MAX_PENDING
  }

  predicate AllFit(n: nat, calls: seq<Call>)
    decreases calls
  {
    calls == [] || (Fits(n, calls[0]) && AllFit(Least(n + Demand(calls[0]), MAX_PENDING), calls[1..]))
  }

  /** With room for all of them, calls fit. */
  lemma {:induction false} RoomFits(n: nat, c: Call)
    requires n + Demand(c) <= MAX_PENDING
    ensures Fits(n, c)
    decreases c
  {
    if c.InvalidateCall? { RoomFitsAll(n, c.reactions); }
  }

  lemma {:induction false} RoomFitsAll(n: nat, calls: seq<Call>)
    requires n + TotalDemand(calls) <= MAX_PENDING
    ensures AllFit(n, calls)
    decreases calls
  {
    if calls != [] {
      RoomFits(n, calls[0]);
      RoomFitsAll(n + Demand(calls[0]), calls[1..]);
    }
  }

  /** How many are pending after a call made within the bound, exactly so if it fits. */
  lemma {:induction false} ExecCounts(s: Store, c: Call)
    requires s.pendingMutations <= MAX_PENDING
    ensures Exec(s, c).pendingMutations >= Least(s.pendingMutations + Demand(c), MAX_PENDING)
    ensures Fits(s.pendingMutations, c) ==> Exec(s, c).pendingMutations == Least(s.pendingMutations + Demand(c), MAX_PENDING)
    ensures !Fits(s.pendingMutations, c) ==> Exec(s, c).pendingMutations > MAX_PENDING
    decreases c
  {
    BeforeOnlyQueues(s, c);
    hide Before, OnlyQueues;
    if !c.RevalidateCall? && !c.CloseCall? {
      ExecAllCounts(Before(s, c), c.reactions);
      if s.pendingMutations + TotalDemand(c.reactions) <= MAX_PENDING {
        RoomFitsAll(s.pendingMutations, c.reactions);
      }
      if Full(s) { FullStays(Before(s, c), c.reactions); }
    }
  }

  lemma {:induction false} ExecAllCounts(s: Store, calls: seq<Call>)
    requires s.pendingMutations <= MAX_PENDING
    ensures ExecAll(s, calls).pendingMutations >= Least(s.pendingMutations + TotalDemand(calls), MAX_PENDING)
    ensures AllFit(s.pendingMutations, calls) ==>
              ExecAll(s, calls).pendingMutations == Least(s.pendingMutations + TotalDemand(calls), MAX_PENDING)
    ensures !AllFit(s.pendingMutations, calls) ==> ExecAll(s, calls).pendingMutations > MAX_PENDING
    decreases calls
  {
    if calls != [] {
      ExecCounts(s, calls[0]);
      var t := Exec(s, calls[0]);
      if t.pendingMutations <= MAX_PENDING {
        ExecAllCounts(t, calls[1..]);
      } else {
        FullStays(t, calls[1..]);
      }
    }
  }

  /** A full queue stays as it is. */
  lemma {:induction false} FullStays(s: Store, calls: seq<Call>)
    requires Full(s)
    ensures ExecAll(s, calls).pendingMutations == s.pendingMutations
    decreases calls
  {
    if calls != [] {
      BeforeOnlyQueues(s, calls[0]);
      hide Before, OnlyQueues;
      match calls[0] {
        case InvalidateCall(_, reactions) => FullStays(Before(s, calls[0]), reactions);
        case LogoutCall(reactions) => FullStays(Before(s, calls[0]), reactions);
        case _ =>
      }
      FullStays(Exec(s, calls[0]), calls[1..]);
    }
  }

  /**
   The bound of a single call, exactly: a login or logout that is not refused keeps the queue within
   sixteen if and only if what its subscribers queue, to any depth, leaves room for it.
   */
  lemma BoundKeptExactly(c: Call, s: Store)
    requires c.LoginCall? || c.LogoutCall?
    requires s.pendingMutations < MAX_PENDING
    ensures Exec(s, c).pendingMutations <= MAX_PENDING <==> s.pendingMutations + TotalDemand(c.reactions) < MAX_PENDING
  {
    ExecCounts(s, c);
  }

  /** The calls made in reaction to a step that notifies fit as well. */
  predicate StepFits(s: Store, a: Step) {
    if a.Outside? then Fits(s.pendingMutations, a.call)
    else Core(s, a).1 ==> AllFit(Core(s, a).0.pendingMutations, Reactions(a))
  }

  lemma StepBound(s: Store, a: Step)
    requires s.pendingMutations <= MAX_PENDING
    ensures Next(s, a).pendingMutations <= MAX_PENDING <==> StepFits(s, a)
  {
    NextIsCore(s, a);
    hide Core, Next, Exec, ExecAll, Fits, AllFit;
    if a.Outside? {
      ExecCounts(s, a.call);
      OutsideIsExec(s, a);
    } else {
      CoreFrame(s, a);
      ExecAllCounts(Core(s, a).0, Reactions(a));
    }
  }

  lemma OutsideIsExec(s: Store, a: Step)
    requires a.Outside?
    ensures Core(s, a) == (Exec(s, a.call), false)
  {
  }

  /**
   The bound of a whole run, exactly: at most sixteen mutations are pending at every moment if and only
   if every call of the run fits when it is made.
   */
  lemma {:induction false} PendingIsBounded(initial: Snapshot, steps: seq<Step>)
    ensures (forall k :: 0 <= k <= |steps| ==> Run(Start(initial), steps[..k]).pendingMutations <= MAX_PENDING) <==>
            (forall k :: 0 <= k < |steps| ==> StepFits(Run(Start(initial), steps[..k]), steps[k]))
  {
    hide StepFits, Next, Start;
    var s0 := Start(initial);
    if forall k :: 0 <= k <= |steps| ==> Run(s0, steps[..k]).pendingMutations <= MAX_PENDING {
      forall k | 0 <= k < |steps| ensures StepFits(Run(s0, steps[..k]), steps[k]) {
        RunStep(s0, steps, k);
        assert Run(s0, steps[..k + 1]).pendingMutations <= MAX_PENDING;
        StepBound(Run(s0, steps[..k]), steps[k]);
      }
    }
    if forall k :: 0 <= k < |steps| ==> StepFits(Run(s0, steps[..k]), steps[k]) {
      forall k | 0 <= k <= |steps| ensures Run(s0, steps[..k]).pendingMutations <= MAX_PENDING {
        FittingStaysBounded(initial, steps, k);
      }
    }
  }

  lemma {:induction false} FittingStaysBounded(initial: Snapshot, steps: seq<Step>, k: nat)
    requires k <= |steps| && forall j :: 0 <= j < k ==> StepFits(Run(Start(initial), steps[..j]), steps[j])
    ensures Run(Start(initial), steps[..k]).pendingMutations <= MAX_PENDING
  {
    hide StepFits, Next;
    if k > 0 {
      FittingStaysBounded(initial, steps, k - 1);
      RunStep(Start(initial), steps, k - 1);
      StepBound(Run(Start(initial), steps[..k - 1]), steps[k - 1]);
    }
  }

  /** No login or logout is called while a login or logout notifies subscribers. */
  predicate Tame(c: Call)
    decreases c
  {
    match c
    case RevalidateCall => true
    case CloseCall => true
    case InvalidateCall(_, reactions) => forall i :: 0 <= i < |reactions| ==> Tame(reactions[i])
    case LoginCall(reactions) => TotalDemand(reactions) == 0
    case LogoutCall(reactions) => TotalDemand(reactions) == 0
  }

  /** Tame calls fit at any moment. */
  lemma {:induction false} TameFits(n: nat, c: Call)
    requires Tame(c)
    ensures Fits(n, c)
    decreases c
  {
    if c.InvalidateCall? { TameAllFit(n, c.reactions); }
  }

  lemma {:induction false} TameAllFit(n: nat, calls: seq<Call>)
    requires forall i :: 0 <= i < |calls| ==> Tame(calls[i])
    ensures AllFit(n, calls)
    decreases calls
  {
    if calls != [] {
      TameFits(n, calls[0]);
      TameAllFit(Least(n + Demand(calls[0]), MAX_PENDING), calls[1..]);
    }
  }

  predicate TameStep(a: Step) {
    (a.Outside? ==> Tame(a.call)) && forall i :: 0 <= i < |Reactions(a)| ==> Tame(Reactions(a)[i])
  }

  /** So the bound holds in every run in which no subscriber of a login or logout queues another. */
  lemma TameRunsAreBounded(initial: Snapshot, steps: seq<Step>)
    requires forall k :: 0 <= k < |steps| ==> TameStep(steps[k])
    ensures Run(Start(initial), steps).pendingMutations <= MAX_PENDING
  {
    hide Run, Core;
    forall k | 0 <= k < |steps| ensures StepFits(Run(Start(initial), steps[..k]), steps[k]) {
      var s := Run(Start(initial), steps[..k]);
      var a := steps[k];
      if a.Outside? { TameFits(s.pendingMutations, a.call); } else { TameAllFit(Core(s, a).0.pendingMutations, Reactions(a)); }
    }
    PendingIsBounded(initial, steps);
    assert steps[..|steps|] == steps;
  }

  /** At the brink, with fifteen pending, only a tame login or logout keeps the bound. */
  lemma BoundKeptExactlyWhenTame(c: Call, s: Store)
    requires c.LoginCall? || c.LogoutCall?
    requires s.pendingMutations == MAX_PENDING - 1
    ensures Exec(s, c).pendingMutations <= MAX_PENDING <==> Tame(c)
  {
    BoundKeptExactly(c, s);
  }

  lemma {:induction false} LoginsQueue(initial: Snapshot, n: nat)
    requires n <= MAX_PENDING
    ensures Run(Start(initial), seq(n, i => Outside(LoginCall([])))).pendingMutations == n
  {
    if n > 0 {
      var steps := seq(n, i => Outside(LoginCall([])));
      assert steps[..n - 1] == seq(n - 1, i => Outside(LoginCall([])));
      LoginsQueue(initial, n - 1);
      hide Start, Exec, OnlyQueues;
      LoginQueues(Run(Start(initial), steps[..n - 1]));
    }
  }

  /** Another login that no subscriber reacts to is queued, if there is room. */
  lemma LoginQueues(s: Store)
    requires !Full(s)
    ensures Exec(s, LoginCall([])).pendingMutations == s.pendingMutations + 1
  {
    hide Before, OnlyQueues;
    BeforeOnlyQueues(s, LoginCall([]));
  }

  /**
   Without that condition the bound fails: the queue is tested before the fence notifies subscribers,
   so a subscriber that logs in during a sixteenth login makes seventeen.
   */
  lemma NestedLoginExceedsBound(initial: Snapshot)
    ensures var logins := seq(15, i => Outside(LoginCall([])));
            Run(Start(initial), logins + [Outside(LoginCall([LoginCall([])]))]).pendingMutations == 17
  {
    var logins := seq(15, i => Outside(LoginCall([])));
    var nested := LoginCall([LoginCall([])]);
    LoginsQueue(initial, 15);
    var s := Run(Start(initial), logins);
    assert (logins + [Outside(nested)])[..15] == logins;
    var b := Before(s, nested);
    BeforeOnlyQueues(s, nested);
    BeforeOnlyQueues(b, LoginCall([]));
    assert [LoginCall([])][1..] == [];
    assert ExecAll(b, [LoginCall([])]) == Exec(b, LoginCall([]));
    assert Exec(b, LoginCall([])).pendingMutations == 16;
  }

  // ---------------------------------------------------------------- CSRF proofs

  /** Each stored proof is spent by at most one logout, oldest first. */
  lemma ProofsAreSpentOnce(initial: Snapshot, steps: seq<Step>)
    ensures var h := Run(Start(initial), steps).history;
            forall i, j :: 0 <= i < j < |h.spent| ==> h.spent[i].proof < h.spent[j].proof < |h.proofs|
  {
    RunKeeps(initial, steps);
  }

  /** While the logout that is owed a proof waits, nothing replaces the promise. */
  lemma PromiseStands(s: Store, a: Step, o: Spent)
    requires Inv(s) && s.history.owed == Some(o) && Waiting(s.mutations, o.ticket)
    ensures Next(s, a).history.owed == Some(o)
  {
    NextFrame(s, a);
    hide Next;
  }

  lemma {:induction false} PromiseStandsOverRun(s: Store, steps: seq<Step>, o: Spent)
    requires Inv(s) && s.history.owed == Some(o) && o.ticket < s.nextTicket
    requires Waiting(Run(s, steps).mutations, o.ticket)
    ensures Run(s, steps).history.owed == Some(o) && Inv(Run(s, steps))
    decreases |steps|
  {
    if steps != [] {
      hide Inv, Next;
      var front := steps[..|steps| - 1];
      var u := Run(s, front);
      RunAdvances(s, front);
      NextAdvances(u, steps[|steps| - 1]);
      PromiseStandsOverRun(s, front, o);
      PromiseStands(u, steps[|steps| - 1], o);
      NextKeeps(u, steps[|steps| - 1]);
    }
  }

  /**
   A login that answers, superseded or not, leaves its CSRF proof to the logout queued behind it:
   whatever happens until that logout starts, it spends exactly that proof.
   */
  lemma LoginLeavesItsProof(initial: Snapshot, steps: seq<Step>, r: Received, reactions: seq<Call>, more: seq<Step>)
    requires var s := Run(Start(initial), steps);
             && s.mutations != [] && Head(s).phase == Running && Head(s).kind.LoginKind? && LogoutBehind(s)
    requires var s := Run(Start(initial), steps);
             var u := Run(Next(s, LoginAnswered(Got(r), reactions)), more);
             && u.mutations != [] && Head(u).ticket == s.mutations[1].ticket
             && Head(u).phase == Queued && Head(u).owner == u.owner
    ensures var s := Run(Start(initial), steps);
            var u := Run(Next(s, LoginAnswered(Got(r), reactions)), more);
            && Begin(u).csrfForLogout.None?
            && exists proof: nat ::
                 && proof < |u.history.proofs| && u.history.proofs[proof] == r.session.csrf
                 && Begin(u).history.spent == u.history.spent + [Spent(Head(u).ticket, proof)]
  {
    var s := Run(Start(initial), steps);
    RunKeeps(initial, steps);
    var a := LoginAnswered(Got(r), reactions);
    var t := Next(s, a);
    var u := Run(t, more);
    ResponseLeavesProof(s, r, reactions);
    hide Run, Next, Respond;
    NextKeeps(s, a);
    var o := t.history.owed.value;
    assert Waiting(u.mutations, o.ticket);
    PromiseStandsOverRun(t, more, o);
    RunAdvances(t, more);
    assert u.history.proofs[o.proof] == u.history.proofs[..|t.history.proofs|][o.proof];
    OwedIsHeld(u, o);
  }

  /** The history of a login's answer: its proof is the last one stored, and promised. */
  lemma AnswerIsPromised(s: Store, r: Received)
    requires LogoutBehind(s)
    ensures var h := Respond(s, r).0.history;
            && h.proofs != [] && h.proofs[|h.proofs| - 1] == r.session.csrf
            && h.owed == Some(Spent(s.mutations[1].ticket, |h.proofs| - 1))
  {
    hide Adoptable, SignedIn, TimerSet;
  }

  lemma ResponseLeavesProof(s: Store, r: Received, reactions: seq<Call>)
    requires Inv(s) && s.mutations != [] && Head(s).phase == Running && Head(s).kind.LoginKind? && LogoutBehind(s)
    ensures var t := Next(s, LoginAnswered(Got(r), reactions));
            && t.history.owed.Some? && t.history.owed.value.ticket == s.mutations[1].ticket
            && t.history.owed.value.proof < |t.history.proofs|
            && t.history.proofs[t.history.owed.value.proof] == r.session.csrf
            && s.mutations[1].ticket < s.nextTicket <= t.nextTicket
  {
    assert s.mutations[1].ticket < s.nextTicket;
    AnswerIsPromised(s, r);
    RespondGrows(s, r);
    hide Inv, Respond, ExecAll;
    ExecAllOnlyQueues(Respond(s, r).0, reactions);
  }

  lemma OwedIsHeld(s: Store, o: Spent)
    requires Inv(s) && s.history.owed == Some(o) && s.mutations != [] && Head(s).ticket == o.ticket && Head(s).phase == Queued
    ensures s.history.held == Some(o.proof) && Head(s).kind.LogoutKind?
  {
    assert Waiting(s.mutations, o.ticket);
  }
}
