/**
 What the session store shows for each thing that can happen to it: the answers of status checks, logins and
 logouts, the calls, and the expiry. Each holds in every reachable state, and of what the first subscriber is
 told, whatever subscribers then call.
 */
module SessionOutcomes {
  import opened Outcomes
  import opened SessionStore
  import opened SessionSafety
  import opened SessionTheorems

  // ---------------------------------------------------------------- status checks

  /** A check of this generation that has not been answered, and may be. */
  predicate Current(s: Store, id: nat, answer: Answer) {
    id < |s.flights| && !s.flights[id].settled && s.flights[id].epoch == s.generation && Answerable(s, id, answer)
  }

  /** Signed out: nothing is known, protected work has ended, and only a login can follow. */
  ghost predicate SignedOut(t: Store, error: Option<Cause>) {
    && t.snapshot.status == Unauthenticated && t.snapshot.identity.None? && t.snapshot.expiresAt.None? && t.snapshot.error == error
    && t.credential.None? && t.lifetimeAborted && t.expiry.None? && t.armed == {}
  }

  /** Nobody is known to be signed in, but the last known identity is still shown and a check may confirm it. */
  ghost predicate Unsure(s: Store, t: Store, error: Cause) {
    && t.snapshot.status == Unconfirmed && t.snapshot.identity == s.snapshot.identity && t.snapshot.expiresAt.None?
    && t.snapshot.error == Some(error) && t.snapshot.revocation.None?
    && t.blocked == s.blocked
    && t.credential.None? && t.lifetimeAborted && t.expiry.None? && t.armed == {}
  }

  ghost predicate SignedInAs(t: Store, v: Session) {
    && t.snapshot.status == Authenticated && t.snapshot.identity == Some(v.identity) && t.snapshot.expiresAt == Some(v.expiresAt)
    && t.snapshot.error.None? && t.snapshot.revocation.None?
    && t.credential == Some(v) && t.csrfForLogout == Some(v.csrf) && !t.blocked && !t.lifetimeAborted && t.expiry.Some?
  }

  /** At most one hour remains, with five seconds of grace. */
  predicate WithinBounds(r: Received) {
    0 < r.remaining <= 3_605_000
  }

  lemma {:induction false} CheckResult(s: Store, id: nat, answer: Answer)
    requires CredentialInv(s) && id < |s.flights|
    ensures var t := FlightResult(s, id, answer);
            && (answer.Got? && WithinBounds(answer.received) ==> SignedInAs(t, answer.received.session))
            && (answer.Got? && !WithinBounds(answer.received) ==> SignedOut(t, Some(EXPIRED)) && t.blocked && t.snapshot.revocation.None?)
            && (answer.Failed? && answer.cause.couldNotConfirm ==> Unsure(s, t, answer.cause))
            && (answer.Failed? && !answer.cause.couldNotConfirm ==>
                  SignedOut(t, Some(answer.cause)) && t.blocked && t.snapshot.revocation.None?)
  {
  }

  /**
   What a current check's answer shows, exactly: the session, if it is within bounds; uncertainty, with the
   identity shown before and the block as it was, if and only if the cause could not confirm; otherwise the
   store is signed out and blocked, for a session out of bounds too.
   */
  lemma CheckOutcomes(initial: Snapshot, steps: seq<Step>, id: nat, answer: Answer, reactions: seq<Call>)
    requires Current(Run(Start(initial), steps), id, answer)
    ensures var s := Run(Start(initial), steps);
            var told := SeenByStep(s, FlightAnswered(id, answer, reactions));
            && told != []
            && (told[0].snapshot.status == Unconfirmed <==> answer.Failed? && answer.cause.couldNotConfirm)
            && (told[0].snapshot.status == Unconfirmed ==> Unsure(s, told[0], answer.cause))
            && (told[0].snapshot.status == Authenticated <==> answer.Got? && WithinBounds(answer.received))
            && (told[0].snapshot.status == Authenticated ==> SignedInAs(told[0], answer.received.session))
            && (told[0].snapshot.status == Unauthenticated ==>
                  told[0].blocked && SignedOut(told[0], Some(if answer.Got? then EXPIRED else answer.cause)))
  {
    var s := Run(Start(initial), steps);
    RunKeeps(initial, steps);
    hide Run, FlightResult, SeenBetween;
    var t := s.(flights := s.flights[id := s.flights[id].(settled := true)]);
    CheckResult(t, id, answer);
    SeenFirst(FlightResult(t, id, answer), reactions);
  }

  /** A check that is not current shows nothing. */
  lemma StaleCheckShowsNothing(s: Store, id: nat, answer: Answer, reactions: seq<Call>)
    requires !Current(s, id, answer)
    ensures var t := Next(s, FlightAnswered(id, answer, reactions));
            t.snapshot == s.snapshot && t.blocked == s.blocked && t.credential == s.credential && t.history == s.history
  {
    hide ExecAll, FlightResult;
  }

  // ---------------------------------------------------------------- blocked until a login

  /** Only the check in place can still be answered in this generation, and none can while the store is blocked. */
  ghost predicate ChecksInv(s: Store) {
    && (forall i :: 0 <= i < |s.flights| && s.flights[i].epoch == s.generation && !s.flights[i].settled ==>
          s.statusFlight == Some(i) && !s.blocked)
  }

  /** How the checks may change without one being started. */
  ghost predicate Ages(s: Store, t: Store) {
    && |t.flights| == |s.flights|
    && (forall i :: 0 <= i < |s.flights| ==>
          t.flights[i].epoch == s.flights[i].epoch && (s.flights[i].settled ==> t.flights[i].settled))
    && (t.generation == s.generation + 1
        || (t.generation == s.generation && t.statusFlight == s.statusFlight && t.blocked == s.blocked))
  }

  ghost predicate Checks(s: Store) {
    ChecksInv(s) && FlightsBefore(s.flights, s.generation + 1)
  }

  /** Whatever was blocked is blocked still, or the first session adopted since was brought by a login. */
  ghost predicate OnlyByLogin(s: Store, t: Store) {
    var n := |s.history.adopted|;
    && s.history.adopted <= t.history.adopted
    && (s.blocked ==> (t.blocked && t.history.adopted == s.history.adopted)
                      || (|t.history.adopted| > n && t.history.adopted[n].ByLogin?))
  }

  lemma OnlyByLoginTransitive(s: Store, t: Store, u: Store)
    requires OnlyByLogin(s, t) && OnlyByLogin(t, u)
    ensures OnlyByLogin(s, u)
  {
  }

  lemma AgesKeep(s: Store, t: Store)
    requires Checks(s) && Ages(s, t)
    ensures Checks(t)
  {
  }

  /** What ends or fences a generation. */
  lemma FenceAges(s: Store, revocation: Option<Revocation>)
    ensures var t := Fence(s, revocation);
            Ages(s, t) && t.generation == s.generation + 1 && t.blocked == s.blocked && t.history == s.history
  {
    hide TimerSet;
  }

  lemma EndAges(s: Store, cause: Cause, flight: Option<nat>)
    ensures var t := EndSession(s, cause).(statusFlight := flight);
            Ages(s, t) && t.blocked && t.history == s.history
  {
    hide TimerSet;
  }

  lemma CloseAges(s: Store)
    ensures Ages(s, Close(s)) && Close(s).blocked == s.blocked && Close(s).history.adopted == s.history.adopted
  {
    hide TimerSet;
  }

  lemma RevalidateChecks(s: Store)
    requires Checks(s)
    ensures Checks(Revalidate(s)) && OnlyByLogin(s, Revalidate(s))
  {
  }

  lemma BeforeChecks(s: Store, c: Call)
    requires Checks(s)
    ensures Checks(Before(s, c)) && OnlyByLogin(s, Before(s, c))
  {
    hide Close, Fence, EndSession, Revalidate, Checks;
    match c
    case RevalidateCall => RevalidateChecks(s);
    case CloseCall =>
      CloseAges(s);
      AgesKeep(s, Close(s));
    case InvalidateCall(cause, _) =>
      EndAges(s, cause, None);
      AgesKeep(s, EndSession(s, cause).(statusFlight := None));
    case LoginCall(_) =>
      FenceAges(Called(s), None);
      CalledChecks(s);
      AgesKeep(Called(s), Fence(Called(s), None));
    case LogoutCall(_) =>
      FenceAges(LoggedOut(s), Some(RevocationUnconfirmed));
      LoggedOutAges(s, Fence(LoggedOut(s), Some(RevocationUnconfirmed)));
  }

  lemma CalledChecks(s: Store)
    ensures Checks(Called(s)) == Checks(s) && Called(s).history == s.history && Called(s).blocked == s.blocked
  {
  }

  /** The block and the new generation come together. */
  lemma LoggedOutAges(s: Store, t: Store)
    requires Checks(s) && Ages(LoggedOut(s), t) && t.generation == s.generation + 1
    ensures Checks(t) && LoggedOut(s).blocked && LoggedOut(s).history.adopted == s.history.adopted
  {
  }

  lemma PushChecks(s: Store, kind: Kind, caller: nat, call: nat)
    ensures var t := Push(s, kind, caller, call);
            Checks(t) == Checks(s) && t.blocked == s.blocked && t.history == s.history
  {
  }

  lemma {:induction false} ExecChecks(s: Store, c: Call)
    requires Checks(s)
    ensures Checks(Exec(s, c)) && OnlyByLogin(s, Exec(s, c))
    decreases c
  {
    hide Checks, Before, Push, OnlyByLogin;
    BeforeChecks(s, c);
    var b := Before(s, c);
    if c.RevalidateCall? || c.CloseCall? {
    } else {
      ExecAllChecks(b, c.reactions);
      var t := ExecAll(b, c.reactions);
      OnlyByLoginTransitive(s, b, t);
      CalledQuietly(s);
      PushQuietly(s, t, LoginKind, s.owner, s.calls.made);
      PushQuietly(s, t, LogoutKind, s.owner, s.calls.made);
    }
  }

  lemma CalledQuietly(s: Store)
    ensures var t := Called(s).(caught := s.caught + [Caught(s.owner, QUEUE_FULL)]);
            (Checks(s) ==> Checks(t)) && OnlyByLogin(s, t)
  {
  }

  lemma PushQuietly(s: Store, t: Store, kind: Kind, caller: nat, call: nat)
    requires OnlyByLogin(s, t)
    ensures var u := Push(t, kind, caller, call);
            (Checks(t) ==> Checks(u)) && OnlyByLogin(s, u)
  {
    hide Checks, Push;
    PushChecks(t, kind, caller, call);
  }

  lemma {:induction false} ExecAllChecks(s: Store, calls: seq<Call>)
    requires Checks(s)
    ensures Checks(ExecAll(s, calls)) && OnlyByLogin(s, ExecAll(s, calls))
    decreases calls
  {
    hide Checks, Exec;
    if calls != [] {
      ExecChecks(s, calls[0]);
      ExecAllChecks(Exec(s, calls[0]), calls[1..]);
      OnlyByLoginTransitive(s, Exec(s, calls[0]), ExecAll(s, calls));
    }
  }

  /** A store whose checks, generation and block are as they were. */
  ghost predicate SameChecks(s: Store, t: Store) {
    && t.flights == s.flights && t.generation == s.generation && t.blocked == s.blocked && t.statusFlight == s.statusFlight
    && t.history.adopted == s.history.adopted
  }

  lemma SameChecksKeep(s: Store, t: Store)
    requires SameChecks(s, t)
    ensures (Checks(s) ==> Checks(t)) && OnlyByLogin(s, t)
  {
  }

  lemma AnsweredChecks(s: Store, r: Received)
    requires Checks(s) && s.mutations != []
    ensures var t := Answered(s, r).0;
            Checks(t) && OnlyByLogin(s, t)
  {
    hide Adoptable, SignedIn, TimerSet;
  }

  lemma RespondChecks(s: Store, r: Received)
    requires Checks(s) && s.mutations != []
    ensures Checks(Respond(s, r).0) && OnlyByLogin(s, Respond(s, r).0)
  {
    hide Answered, Checks, LogoutBehind;
    AnsweredChecks(s, r);
    var t := Answered(s, r).0;
    SameChecksKeep(t, Promise(s, t));
  }

  /** The answered check was the only one; behind it none can be answered in this generation. */
  lemma ResultChecks(s: Store, id: nat, answer: Answer)
    requires Checks(s) && id < |s.flights| && !s.flights[id].settled && s.flights[id].epoch == s.generation
    ensures var t := FlightResult(s.(flights := s.flights[id := s.flights[id].(settled := true)]), id, answer);
            Checks(t) && OnlyByLogin(s, t)
  {
    hide Adoptable, SignedIn, TimerSet;
  }

  lemma SettledChecks(s: Store, id: nat)
    requires Checks(s) && id < |s.flights|
    ensures var t := s.(flights := s.flights[id := s.flights[id].(settled := true)]);
            Checks(t) && OnlyByLogin(s, t)
  {
  }

  lemma ForgottenChecks(s: Store, id: nat)
    requires Checks(s)
    ensures Checks(Next(s, FlightForgotten(id))) && OnlyByLogin(s, Next(s, FlightForgotten(id)))
  {
  }

  lemma CoreChecks(s: Store, a: Step)
    requires Checks(s) && !a.Outside?
    ensures Checks(Core(s, a).0) && OnlyByLogin(s, Core(s, a).0)
  {
    hide Checks, OnlyByLogin, Exec, ExecAll, Begin, FlightResult, Respond, Clear, EndSession;
    SameChecksKeep(s, s);
    match a
    case LoginAnswered(answer, _) =>
      if s.mutations != [] {
        SameChecksKeep(s, Core(s, LoginAnswered(Failed(EXPIRED), [])).0);
        HeadSame(s, if answer.Failed? then Some(answer.cause) else None);
        if answer.Got? { RespondChecks(s, answer.received); }
      }
    case FlightAnswered(id, answer, _) =>
      if id < |s.flights| {
        SettledChecks(s, id);
        if !s.flights[id].settled && s.flights[id].epoch == s.generation { ResultChecks(s, id, answer); }
      }
    case FlightForgotten(id) => ForgottenChecks(s, id);
    case StartMutation => if s.mutations != [] { BeginSameChecks(s); }
    case FinishMutation => SameChecksKeep(s, Next(s, FinishMutation));
    case LogoutAnswered(failure, _) =>
      if s.mutations != [] {
        HeadSame(s, failure);
        ClearSame(s, WithHead(s, Settling(failure)), failure, Some(if failure.None? then RevocationConfirmed else RevocationUnconfirmed));
      }
    case LoginCaught(i, _) =>
      if i < |s.caught| {
        var t := s.(caught := s.caught[..i] + s.caught[i + 1..]);
        SameChecksKeep(s, t);
        ClearSame(s, t, Some(s.caught[i].cause), None);
      }
    case TimerFired(timer, cause, _) =>
      SameChecksKeep(s, s.(armed := s.armed - {timer}));
      EndChecks(s, cause);
  }

  lemma HeadSame(s: Store, failure: Option<Cause>)
    requires s.mutations != []
    ensures SameChecks(s, WithHead(s, Settling(failure)))
    ensures (Checks(s) ==> Checks(WithHead(s, Settling(failure)))) && OnlyByLogin(s, WithHead(s, Settling(failure)))
  {
  }

  lemma BeginSameChecks(s: Store)
    requires s.mutations != []
    ensures (Checks(s) ==> Checks(Begin(s))) && OnlyByLogin(s, Begin(s))
  {
    hide Checks;
    SameChecksKeep(s, Begin(s));
  }

  lemma ClearSame(s: Store, t: Store, error: Option<Cause>, revocation: Option<Revocation>)
    requires SameChecks(s, t)
    ensures (Checks(s) ==> Checks(Clear(t, error, revocation))) && OnlyByLogin(s, Clear(t, error, revocation))
  {
    hide TimerSet;
    SameChecksKeep(s, Clear(t, error, revocation));
  }

  lemma EndChecks(s: Store, cause: Cause)
    requires Checks(s)
    ensures Checks(EndSession(s, cause)) && OnlyByLogin(s, EndSession(s, cause))
  {
    hide Checks, EndSession;
    EndAges(s, cause, EndSession(s, cause).statusFlight);
    assert EndSession(s, cause).(statusFlight := EndSession(s, cause).statusFlight) == EndSession(s, cause);
    AgesKeep(s, EndSession(s, cause));
  }

  lemma NextChecks(s: Store, a: Step)
    requires Checks(s)
    ensures Checks(Next(s, a)) && OnlyByLogin(s, Next(s, a))
  {
    hide Checks, OnlyByLogin, Core, Next, Exec, ExecAll;
    NextIsCore(s, a);
    if a.Outside? {
      OutsideIsExec(s, a);
      ExecChecks(s, a.call);
    } else {
      CoreChecks(s, a);
      ExecAllChecks(Core(s, a).0, Reactions(a));
      OnlyByLoginTransitive(s, Core(s, a).0, ExecAll(Core(s, a).0, Reactions(a)));
    }
  }

  lemma {:induction false} RunChecks(s: Store, steps: seq<Step>)
    requires Checks(s)
    ensures Checks(Run(s, steps)) && OnlyByLogin(s, Run(s, steps))
    decreases |steps|
  {
    if steps != [] {
      hide Checks, OnlyByLogin, Next;
      var front := steps[..|steps| - 1];
      RunChecks(s, front);
      NextChecks(Run(s, front), steps[|steps| - 1]);
      OnlyByLoginTransitive(s, Run(s, front), Run(s, steps));
    } else {
      SameChecksKeep(s, s);
    }
  }

  /**
   Once the store is blocked, by a logout, an expiry, `invalidate` or a check that failed for good, the first
   session that it adopts afterwards, in any continuation, is one that a login brought: no check still under
   way or started later signs the user in.
   */
  lemma BlockedUntilLogin(initial: Snapshot, before: seq<Step>, more: seq<Step>)
    requires Run(Start(initial), before).blocked
    ensures var s := Run(Start(initial), before);
            var t := Run(s, more);
            && s.history.adopted <= t.history.adopted
            && (t.history.adopted == s.history.adopted || t.history.adopted[|s.history.adopted|].ByLogin?)
            && (t.history.adopted == s.history.adopted ==> t.blocked && t.credential.None?)
  {
    var s := Run(Start(initial), before);
    RunChecks(Start(initial), before);
    RunChecks(s, more);
    RunSplits(Start(initial), before, more);
    RunKeeps(initial, before + more);
    hide Run, Checks;
  }

  // ---------------------------------------------------------------- logins and logouts

  /** The head of the queue is under way, and of this kind. */
  predicate UnderWay(s: Store, kind: Kind) {
    s.mutations != [] && Head(s).phase == Running && Head(s).kind == kind
  }

  /** Nothing has fenced it since it was queued. */
  predicate UpToDate(s: Store)
    requires s.mutations != []
  {
    Head(s).epoch == s.generation
  }

  lemma ShowsNothing(s: Store, a: Step)
    requires !a.Outside? && !Core(s, a).1
    ensures Next(s, a).snapshot == s.snapshot && Next(s, a).credential == s.credential && Next(s, a).blocked == s.blocked
  {
    hide ExecAll, Exec, FlightResult, TimerSet, Adoptable;
    if a.StartMutation? && s.mutations != [] { BeginOnlyStarts(s); }
    hide Begin;
  }

  /**
   What a logout's answer shows: a confirmed revocation if and only if the logout succeeded, and an
   unconfirmed one with the failure otherwise; nothing when the logout has been superseded.
   */
  lemma LogoutOutcomes(initial: Snapshot, steps: seq<Step>, failure: Option<Cause>, reactions: seq<Call>)
    requires UnderWay(Run(Start(initial), steps), LogoutKind)
    ensures var s := Run(Start(initial), steps);
            var a := LogoutAnswered(failure, reactions);
            var told := SeenByStep(s, a);
            && (told != [] <==> UpToDate(s))
            && (told != [] ==>
                  && SignedOut(told[0], failure)
                  && told[0].blocked == s.blocked
                  && (told[0].snapshot.revocation == Some(RevocationConfirmed) <==> failure.None?)
                  && (told[0].snapshot.revocation == Some(RevocationUnconfirmed) <==> failure.Some?))
            && (told == [] ==> Next(s, a).snapshot == s.snapshot && Next(s, a).credential == s.credential)
  {
    var s := Run(Start(initial), steps);
    var a := LogoutAnswered(failure, reactions);
    RunKeeps(initial, steps);
    hide Run, SeenBetween, ExecAll;
    if UpToDate(s) {
      var t := Clear(WithHead(s, Settling(failure)), failure, Some(if failure.None? then RevocationConfirmed else RevocationUnconfirmed));
      SeenFirst(t, reactions);
      ClearSignsOut(WithHead(s, Settling(failure)), failure, Some(if failure.None? then RevocationConfirmed else RevocationUnconfirmed));
    } else {
      ShowsNothing(s, a);
    }
  }

  lemma ClearSignsOut(s: Store, error: Option<Cause>, revocation: Option<Revocation>)
    requires s.armed == TimerSet(s.expiry)
    ensures var t := Clear(s, error, revocation);
            SignedOut(t, error) && t.snapshot.revocation == revocation && t.blocked == s.blocked && t.history == s.history
  {
  }

  /**
   What a login's answer shows: the session, if and only if the login was not superseded and the session is
   within bounds. Otherwise nothing is shown yet; a failure is left to the login's own handler, and the proof
   the answer carries is stored in any case.
   */
  lemma LoginOutcomes(initial: Snapshot, steps: seq<Step>, answer: Answer, reactions: seq<Call>)
    requires UnderWay(Run(Start(initial), steps), LoginKind)
    ensures var s := Run(Start(initial), steps);
            var a := LoginAnswered(answer, reactions);
            var told := SeenByStep(s, a);
            var t := Next(s, a);
            && (told != [] <==> answer.Got? && UpToDate(s) && WithinBounds(answer.received))
            && (told != [] ==> SignedInAs(told[0], answer.received.session))
            && (told == [] ==>
                  && t.snapshot == s.snapshot && t.credential == s.credential && t.blocked == s.blocked
                  && t.csrfForLogout == (if answer.Got? then Some(answer.received.session.csrf) else s.csrfForLogout)
                  && t.mutations != [] && Head(t).phase == Settling(Fault(s, answer)))
  {
    var s := Run(Start(initial), steps);
    var a := LoginAnswered(answer, reactions);
    RunKeeps(initial, steps);
    hide Run, SeenBetween, ExecAll, Respond;
    if answer.Got? {
      AnswerShows(s, answer.received);
      SeenFirst(Respond(s, answer.received).0, reactions);
    }
  }

  /** What goes wrong with a login that is not superseded: its own failure, or a session out of bounds. */
  function Fault(s: Store, answer: Answer): Option<Cause>
    requires s.mutations != []
  {
    match answer
    case Failed(cause) => Some(cause)
    case Got(r) => if UpToDate(s) && !WithinBounds(r) then Some(EXPIRED) else None
  }

  lemma AnswerShows(s: Store, r: Received)
    requires s.mutations != []
    ensures var (t, adopted) := Respond(s, r);
            && (adopted <==> UpToDate(s) && WithinBounds(r))
            && (adopted ==> SignedInAs(t, r.session))
            && (!adopted ==>
                  && t.snapshot == s.snapshot && t.credential == s.credential && t.blocked == s.blocked
                  && t.csrfForLogout == Some(r.session.csrf)
                  && t.mutations != [] && Head(t).phase == Settling(Fault(s, Got(r))))
  {
    hide LogoutBehind, TimerSet;
  }

  /** A failed login is shown as a failure if it was the last mutation and its owner is open; otherwise not at all. */
  lemma CaughtOutcomes(initial: Snapshot, steps: seq<Step>, i: nat, reactions: seq<Call>)
    requires i < |Run(Start(initial), steps).caught|
    ensures var s := Run(Start(initial), steps);
            var a := LoginCaught(i, reactions);
            var told := SeenByStep(s, a);
            && (told != [] <==> s.caught[i].caller == s.owner && s.mutations == [])
            && (told != [] ==> SignedOut(told[0], Some(s.caught[i].cause)) && told[0].snapshot.revocation.None? && told[0].blocked == s.blocked)
            && (told == [] ==> Next(s, a).snapshot == s.snapshot && Next(s, a).credential == s.credential)
  {
    var s := Run(Start(initial), steps);
    var a := LoginCaught(i, reactions);
    RunKeeps(initial, steps);
    CountsItself(s);
    hide Run, SeenBetween, ExecAll;
    var t := s.(caught := s.caught[..i] + s.caught[i + 1..]);
    if s.caught[i].caller == s.owner && s.pendingMutations == 0 {
      SeenFirst(Clear(t, Some(s.caught[i].cause), None), reactions);
      ClearSignsOut(t, Some(s.caught[i].cause), None);
    } else {
      ShowsNothing(s, a);
    }
  }

  /** The expiry signs out with its cause and blocks; a timer that is no longer the expiry shows nothing. */
  lemma TimerOutcomes(initial: Snapshot, steps: seq<Step>, timer: nat, cause: Cause, reactions: seq<Call>)
    ensures var s := Run(Start(initial), steps);
            var a := TimerFired(timer, cause, reactions);
            var told := SeenByStep(s, a);
            && (told != [] <==> s.expiry == Some(timer))
            && (told != [] ==> SignedOut(told[0], Some(cause)) && told[0].blocked && told[0].snapshot.revocation.None?)
            && (told == [] ==> Next(s, a) == s)
  {
    var s := Run(Start(initial), steps);
    RunKeeps(initial, steps);
    hide Run, SeenBetween, ExecAll;
    if s.expiry == Some(timer) {
      SeenFirst(EndSession(s, cause), reactions);
      EndSignsOut(s, cause);
    } else {
      StaleTimer(s, timer);
    }
  }

  lemma EndSignsOut(s: Store, cause: Cause)
    requires s.armed == TimerSet(s.expiry)
    ensures var t := EndSession(s, cause);
            SignedOut(t, Some(cause)) && t.blocked && t.snapshot.revocation.None?
  {
  }

  // ---------------------------------------------------------------- calls

  /**
   What calls show. A login signs out, without an error, unless it is refused; a logout signs out at once and
   blocks, its revocation unconfirmed, even if it is refused; `invalidate` signs out with its cause and
   blocks. `close` ends protected work and shows nothing, and a revalidation changes nothing that is shown.
   */
  lemma CallOutcomes(initial: Snapshot, steps: seq<Step>, c: Call)
    ensures var s := Run(Start(initial), steps);
            var told := Seen(s, c);
            && (told == [] <==> c.RevalidateCall? || c.CloseCall? || (c.LoginCall? && |s.mutations| >= 16))
            && (told == [] ==> Exec(s, c).snapshot == s.snapshot && Exec(s, c).blocked == s.blocked)
            && (c.CloseCall? ==> Exec(s, c).credential.None? && Exec(s, c).lifetimeAborted && Exec(s, c).armed == {} && Exec(s, c).statusFlight.None?)
            && (told == [] && !c.CloseCall? ==> Exec(s, c).credential == s.credential)
            && (told != [] && c.LoginCall? ==> SignedOut(told[0], None) && told[0].snapshot.revocation.None? && told[0].blocked == s.blocked)
            && (c.LogoutCall? ==> SignedOut(told[0], None) && told[0].snapshot.revocation == Some(RevocationUnconfirmed) && told[0].blocked)
            && (c.InvalidateCall? ==> SignedOut(told[0], Some(c.cause)) && told[0].snapshot.revocation.None? && told[0].blocked)
  {
    var s := Run(Start(initial), steps);
    RunKeeps(initial, steps);
    CountsItself(s);
    hide Run, SeenBetween, ExecAll;
    match c
    case RevalidateCall =>
    case CloseCall => CloseEnds(s);
    case LoginCall(reactions) =>
      SeenFirst(Before(s, c), reactions);
      FenceSignsOut(Called(s), None);
    case LogoutCall(reactions) =>
      SeenFirst(Before(s, c), reactions);
      FenceSignsOut(LoggedOut(s), Some(RevocationUnconfirmed));
    case InvalidateCall(cause, reactions) =>
      SeenFirst(Before(s, c), reactions);
      EndSignsOut(s, cause);
  }

  lemma FenceSignsOut(s: Store, revocation: Option<Revocation>)
    requires s.armed == TimerSet(s.expiry)
    ensures var t := Fence(s, revocation);
            SignedOut(t, None) && t.snapshot.revocation == revocation && t.blocked == s.blocked
  {
  }

  lemma CloseEnds(s: Store)
    requires s.armed == TimerSet(s.expiry)
    ensures var t := Close(s);
            && t.snapshot == s.snapshot && t.blocked == s.blocked
            && t.credential.None? && t.lifetimeAborted && t.armed == {} && t.statusFlight.None?
  {
  }

  // ---------------------------------------------------------------- a confirmed revocation

  lemma {:induction false} CallsConfirmNothing(s: Store, calls: seq<Call>)
    ensures ExecAll(s, calls).snapshot == s.snapshot || ExecAll(s, calls).snapshot.revocation != Some(RevocationConfirmed)
    decreases calls
  {
    if calls != [] {
      CallConfirmsNothing(s, calls[0]);
      CallsConfirmNothing(Exec(s, calls[0]), calls[1..]);
    }
  }

  lemma {:induction false} CallConfirmsNothing(s: Store, c: Call)
    ensures Exec(s, c).snapshot == s.snapshot || Exec(s, c).snapshot.revocation != Some(RevocationConfirmed)
    decreases c
  {
    BeforeConfirmsNothing(s, c);
    hide Before;
    if !c.RevalidateCall? && !c.CloseCall? { CallsConfirmNothing(Before(s, c), c.reactions); }
  }

  lemma BeforeConfirmsNothing(s: Store, c: Call)
    ensures Before(s, c).snapshot == s.snapshot || Before(s, c).snapshot.revocation != Some(RevocationConfirmed)
  {
    hide TimerSet;
  }

  /** A revocation is shown as confirmed, in any run, by nothing but a logout that succeeds and has not been superseded. */
  lemma OnlyLogoutConfirms(s: Store, a: Step)
    requires Next(s, a).snapshot != s.snapshot && Next(s, a).snapshot.revocation == Some(RevocationConfirmed)
    ensures a.LogoutAnswered? && a.failure.None? && UnderWay(s, LogoutKind) && UpToDate(s)
  {
    hide Core, Next, Exec, ExecAll;
    NextIsCore(s, a);
    if a.Outside? {
      OutsideIsExec(s, a);
      CallConfirmsNothing(s, a.call);
    } else {
      CallsConfirmNothing(Core(s, a).0, Reactions(a));
      CoreConfirms(s, a);
    }
  }

  lemma CoreConfirms(s: Store, a: Step)
    requires !a.Outside?
    ensures var t := Core(s, a).0;
            t.snapshot == s.snapshot || t.snapshot.revocation != Some(RevocationConfirmed)
            || (a.LogoutAnswered? && a.failure.None? && UnderWay(s, LogoutKind) && UpToDate(s))
  {
    hide ExecAll, Exec, TimerSet, Adoptable;
    match a
    case LoginAnswered(answer, _) =>
      if s.mutations != [] && answer.Got? { AnswerShows(s, answer.received); }
      hide Respond;
    case FlightAnswered(id, answer, _) =>
    case StartMutation => if s.mutations != [] { BeginOnlyStarts(s); } hide Begin;
    case LogoutAnswered(_, _) =>
    case LoginCaught(_, _) =>
    case TimerFired(_, _, _) =>
    case FinishMutation =>
    case FlightForgotten(_) =>
  }
}
