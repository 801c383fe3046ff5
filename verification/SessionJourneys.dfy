/**
 What becomes of a whole login, logout or status check when nothing interferes, and what a fence or an
 expiry leaves of the work it ends: cancelled requests and a lifetime that never comes back.
 */
module SessionJourneys {
  import opened Outcomes
  import opened SessionOutcomes
  import opened SessionSafety
  import opened SessionStore
  import opened SessionTheorems

  // ---------------------------------------------------------------- checks that are outdated are cancelled

  /** A check that waits for its answer is the one in place, or has been cancelled; only outdated ones are. */
  ghost predicate CancelInv(s: Store) {
    && (forall i :: 0 <= i < |s.flights| ==> s.flights[i].epoch <= s.generation)
    && (forall i :: 0 <= i < |s.flights| && s.flights[i].cancelled ==> s.flights[i].epoch < s.generation)
    && (forall i :: 0 <= i < |s.flights| && !s.flights[i].settled ==>
          if s.flights[i].epoch == s.generation
          then s.statusController == Some(i) && s.statusFlight == Some(i)
          else s.flights[i].cancelled)
  }

  /** The checks are as they were, or a generation has ended and the check in place was cancelled. */
  ghost predicate EndsOrKeeps(s: Store, t: Store) {
    || (&& t.generation == s.generation && t.flights == s.flights
        && t.statusController == s.statusController && t.statusFlight == s.statusFlight)
    || (t.generation == s.generation + 1 && t.flights == CancelStatus(s).flights)
  }

  lemma EndsOrKeepsCancels(s: Store, t: Store)
    requires CancelInv(s) && EndsOrKeeps(s, t)
    ensures CancelInv(t)
  {
  }

  lemma BeforeCancels(s: Store, c: Call)
    requires CancelInv(s)
    ensures CancelInv(Before(s, c))
  {
    if c.RevalidateCall? {
      RevalidateCancels(s);
    } else {
      BeforeEnds(s, c);
      hide Before, CancelInv;
      EndsOrKeepsCancels(s, Before(s, c));
    }
  }

  lemma BeforeEnds(s: Store, c: Call)
    requires !c.RevalidateCall?
    ensures EndsOrKeeps(s, Before(s, c)) && Before(s, c).generation == s.generation + 1
  {
    hide TimerSet;
  }

  lemma RevalidateCancels(s: Store)
    requires CancelInv(s)
    ensures CancelInv(Revalidate(s))
  {
  }

  lemma PushCancels(s: Store, kind: Kind, caller: nat, call: nat)
    ensures CancelInv(Push(s, kind, caller, call)) == CancelInv(s)
    ensures CancelInv(Called(s).(caught := s.caught + [Caught(caller, QUEUE_FULL)])) == CancelInv(s)
  {
  }

  lemma {:induction false} ExecCancels(s: Store, c: Call)
    requires CancelInv(s)
    ensures CancelInv(Exec(s, c))
    decreases c
  {
    hide CancelInv, Before, Push;
    BeforeCancels(s, c);
    if !c.RevalidateCall? && !c.CloseCall? {
      ExecAllCancels(Before(s, c), c.reactions);
      PushCancels(ExecAll(Before(s, c), c.reactions), LoginKind, s.owner, s.calls.made);
      PushCancels(ExecAll(Before(s, c), c.reactions), LogoutKind, s.owner, s.calls.made);
      PushCancels(s, LoginKind, s.owner, s.calls.made);
    }
  }

  lemma {:induction false} ExecAllCancels(s: Store, calls: seq<Call>)
    requires CancelInv(s)
    ensures CancelInv(ExecAll(s, calls))
    decreases calls
  {
    hide CancelInv, Exec;
    if calls != [] {
      ExecCancels(s, calls[0]);
      ExecAllCancels(Exec(s, calls[0]), calls[1..]);
    }
  }

  /** Nothing about the checks changes. */
  ghost predicate SameFlights(s: Store, t: Store) {
    && t.generation == s.generation && t.flights == s.flights
    && t.statusController == s.statusController && t.statusFlight == s.statusFlight
  }

  lemma BeginSameFlights(s: Store)
    requires s.mutations != []
    ensures SameFlights(s, Begin(s)) && NoNewLife(s, Begin(s))
  {
  }

  lemma AnsweredSameFlights(s: Store, r: Received)
    requires s.mutations != []
    ensures SameFlights(s, Respond(s, r).0) && LivesOn(s, Respond(s, r).0)
  {
    hide TimerSet, Adoptable, SignedIn, LogoutBehind;
  }

  lemma ClearSameFlights(s: Store, error: Option<Cause>, revocation: Option<Revocation>)
    ensures SameFlights(s, Clear(s, error, revocation)) && NoNewLife(s, Clear(s, error, revocation))
  {
    hide TimerSet;
  }

  lemma EndEnds(s: Store, cause: Cause)
    ensures EndsOrKeeps(s, EndSession(s, cause)) && NoNewLife(s, EndSession(s, cause))
  {
    hide TimerSet;
  }

  lemma CoreEnds(s: Store, a: Step)
    requires !a.Outside? && !a.FlightAnswered? && !a.FlightForgotten?
    ensures EndsOrKeeps(s, Core(s, a).0) && LivesOn(s, Core(s, a).0)
  {
    hide ExecAll, Exec, Begin, Respond, Clear, EndSession, CancelStatus;
    match a
    case StartMutation => if s.mutations != [] { BeginSameFlights(s); }
    case LoginAnswered(answer, _) => if s.mutations != [] && answer.Got? { AnsweredSameFlights(s, answer.received); }
    case LogoutAnswered(failure, _) =>
      if s.mutations != [] {
        ClearSameFlights(WithHead(s, Settling(failure)), failure, Some(if failure.None? then RevocationConfirmed else RevocationUnconfirmed));
      }
    case LoginCaught(i, _) =>
      if i < |s.caught| { ClearSameFlights(s.(caught := s.caught[..i] + s.caught[i + 1..]), Some(s.caught[i].cause), None); }
    case TimerFired(_, cause, _) => EndEnds(s, cause);
    case FinishMutation =>
  }

  lemma ResultSameFlights(s: Store, id: nat, answer: Answer)
    requires id < |s.flights|
    ensures SameFlights(s, FlightResult(s, id, answer)) && LivesOn(s, FlightResult(s, id, answer))
  {
    hide TimerSet, Adoptable, SignedIn;
  }

  lemma AnswerCancels(s: Store, id: nat, answer: Answer, reactions: seq<Call>)
    requires CancelInv(s)
    ensures CancelInv(Core(s, FlightAnswered(id, answer, reactions)).0)
  {
    hide ExecAll, Exec, FlightResult, Answerable, CancelInv;
    if id < |s.flights| {
      var t := s.(flights := s.flights[id := s.flights[id].(settled := true)]);
      SettledCancels(s, id);
      ResultSameFlights(t, id, answer);
      SameFlightsCancel(t, FlightResult(t, id, answer));
    }
  }

  lemma SettledCancels(s: Store, id: nat)
    requires CancelInv(s) && id < |s.flights|
    ensures CancelInv(s.(flights := s.flights[id := s.flights[id].(settled := true)]))
  {
  }

  lemma SameFlightsCancel(s: Store, t: Store)
    requires CancelInv(s) && SameFlights(s, t)
    ensures CancelInv(t)
  {
  }

  lemma ForgottenCancels(s: Store, id: nat)
    requires CancelInv(s)
    ensures CancelInv(Core(s, FlightForgotten(id)).0)
  {
  }

  lemma NextCancels(s: Store, a: Step)
    requires CancelInv(s)
    ensures CancelInv(Next(s, a))
  {
    hide CancelInv, Core, Next, Exec, ExecAll, EndsOrKeeps;
    NextIsCore(s, a);
    if a.Outside? {
      OutsideIsExec(s, a);
      ExecCancels(s, a.call);
    } else {
      if a.FlightAnswered? {
        AnswerCancels(s, a.id, a.answer, a.reactions);
      } else if a.FlightForgotten? {
        ForgottenCancels(s, a.id);
      } else {
        CoreEnds(s, a);
        EndsOrKeepsCancels(s, Core(s, a).0);
      }
      ExecAllCancels(Core(s, a).0, Reactions(a));
    }
  }

  /**
   Whatever ends a generation (a login, a logout, `invalidate`, an expiry or `close`) cancels the check under
   way, and nothing else cancels one: in every run a check that still waits for its answer is either of the
   current generation and not cancelled, or outdated and cancelled.
   */
  lemma {:induction false} OutdatedChecksAreCancelled(initial: Snapshot, steps: seq<Step>)
    ensures var s := Run(Start(initial), steps);
            forall i :: 0 <= i < |s.flights| && !s.flights[i].settled ==>
              (s.flights[i].cancelled <==> s.flights[i].epoch != s.generation)
    ensures CancelInv(Run(Start(initial), steps))
    decreases |steps|
  {
    if steps != [] {
      hide Next;
      OutdatedChecksAreCancelled(initial, steps[..|steps| - 1]);
      NextCancels(Run(Start(initial), steps[..|steps| - 1]), steps[|steps| - 1]);
    }
  }

  // ---------------------------------------------------------------- lifetimes of protected work

  /** The lifetime of protected work goes on or ends, or a new one begins after the last has ended. */
  ghost predicate LivesOn(s: Store, t: Store) {
    || (t.lifetime == s.lifetime && (s.lifetimeAborted ==> t.lifetimeAborted))
    || (t.lifetime == s.lifetime + 1 && s.lifetimeAborted)
  }

  ghost predicate NoNewLife(s: Store, t: Store) {
    t.lifetime == s.lifetime && (s.lifetimeAborted ==> t.lifetimeAborted)
  }

  lemma BeforeLives(s: Store, c: Call)
    ensures NoNewLife(s, Before(s, c))
  {
    hide TimerSet;
  }

  lemma {:induction false} ExecLives(s: Store, c: Call)
    ensures NoNewLife(s, Exec(s, c))
    decreases c
  {
    hide Before;
    BeforeLives(s, c);
    if !c.RevalidateCall? && !c.CloseCall? { ExecAllLives(Before(s, c), c.reactions); }
  }

  lemma {:induction false} ExecAllLives(s: Store, calls: seq<Call>)
    ensures NoNewLife(s, ExecAll(s, calls))
    decreases calls
  {
    hide Exec;
    if calls != [] {
      ExecLives(s, calls[0]);
      ExecAllLives(Exec(s, calls[0]), calls[1..]);
    }
  }

  lemma AnswerLives(s: Store, id: nat, answer: Answer, reactions: seq<Call>)
    ensures LivesOn(s, Core(s, FlightAnswered(id, answer, reactions)).0)
  {
    hide ExecAll, Exec, FlightResult, Answerable;
    if id < |s.flights| { ResultSameFlights(s.(flights := s.flights[id := s.flights[id].(settled := true)]), id, answer); }
  }

  lemma CoreLives(s: Store, a: Step)
    requires !a.Outside?
    ensures LivesOn(s, Core(s, a).0)
  {
    hide Core, ExecAll, Exec;
    if a.FlightAnswered? {
      AnswerLives(s, a.id, a.answer, a.reactions);
    } else if a.FlightForgotten? {
      ForgottenLives(s, a.id);
    } else {
      CoreEnds(s, a);
    }
  }

  lemma ForgottenLives(s: Store, id: nat)
    ensures LivesOn(s, Core(s, FlightForgotten(id)).0)
  {
  }

  /**
   One step of any state: a session that is adopted while another is held keeps the lifetime of protected
   work; one that is adopted after it has ended begins the next.
   */
  lemma NextLives(s: Store, a: Step)
    ensures LivesOn(s, Next(s, a))
  {
    hide Core, Next, Exec, ExecAll;
    NextIsCore(s, a);
    if a.Outside? {
      OutsideIsExec(s, a);
      ExecLives(s, a.call);
    } else {
      CoreLives(s, a);
      ExecAllLives(Core(s, a).0, Reactions(a));
    }
  }

  /** Lifetimes are used once: work that has been stopped stays stopped, whatever session follows. */
  lemma {:induction false} LifetimesEndOnce(s: Store, more: seq<Step>)
    ensures var t := Run(s, more);
            t.lifetime >= s.lifetime && (t.lifetime == s.lifetime && s.lifetimeAborted ==> t.lifetimeAborted)
    decreases |more|
  {
    if more != [] {
      hide Next;
      LifetimesEndOnce(s, more[..|more| - 1]);
      NextLives(Run(s, more[..|more| - 1]), more[|more| - 1]);
    }
  }

  // ---------------------------------------------------------------- journeys

  /** Nothing is queued; as many mutations count as pending. */
  predicate Idle(s: Store) {
    s.mutations == []
  }

  lemma RunThree(s: Store, a: Step, b: Step, c: Step)
    ensures Run(s, [a, b, c]) == Next(Next(Next(s, a), b), c)
  {
    hide Next;
    RunTwo(s, a, b);
    assert [a, b, c][..2] == [a, b];
  }

  lemma RunTwo(s: Store, a: Step, b: Step)
    ensures Run(s, [a, b]) == Next(Next(s, a), b)
  {
    hide Next;
    assert [a][..0] == [];
    assert Run(s, [a]) == Next(s, a);
    assert [a, b][..1] == [a];
  }

  function CallOf(kind: Kind): Call {
    if kind.LoginKind? then LoginCall([]) else LogoutCall([])
  }

  /** The store once a login or logout has been queued alone. */
  ghost predicate QueuedAlone(s: Store, t: Store, kind: Kind) {
    && t.mutations == [Mutation(s.nextTicket, kind, t.generation, t.owner, t.owner, Queued)]
    && t.pendingMutations == 1 && t.owner == s.owner && t.caught == s.caught
    && (t.blocked <==> s.blocked || kind.LogoutKind?)
    && t.armed == s.armed - TimerSet(s.expiry) && t.expiry.None?
  }

  /** What a fence leaves for the mutation behind it. */
  lemma FenceLeaves(s: Store, revocation: Option<Revocation>)
    ensures var t := Fence(s, revocation);
            && t.mutations == s.mutations && t.pendingMutations == s.pendingMutations && t.nextTicket == s.nextTicket
            && t.owner == s.owner && t.caught == s.caught && t.blocked == s.blocked
            && t.armed == s.armed - TimerSet(s.expiry) && t.expiry.None?
  {
    hide TimerSet;
  }

  /** Both kinds join the queue right behind their fence. */
  lemma ExecAlone(s: Store, kind: Kind)
    requires s.pendingMutations == 0
    ensures var c := CallOf(kind);
            Exec(s, c) == Push(Before(s, c), kind, s.owner, s.calls.made)
  {
    hide Before, Push;
    NoCalls(Before(s, CallOf(kind)));
    hide ExecAll;
  }

  lemma BeforeLeaves(s: Store, kind: Kind)
    ensures var t := Before(s, CallOf(kind));
            && t.mutations == s.mutations && t.pendingMutations == s.pendingMutations && t.nextTicket == s.nextTicket
            && t.owner == s.owner && t.caught == s.caught && (t.blocked <==> s.blocked || kind.LogoutKind?)
            && t.armed == s.armed - TimerSet(s.expiry) && t.expiry.None?
  {
    hide TimerSet, Fence;
    FenceLeaves(Called(s), None);
    FenceLeaves(LoggedOut(s), Some(RevocationUnconfirmed));
  }

  lemma QueuesAlone(s: Store, kind: Kind)
    requires Idle(s) && s.pendingMutations == 0
    ensures QueuedAlone(s, Exec(s, CallOf(kind)), kind)
  {
    hide TimerSet, Exec, Before;
    ExecAlone(s, kind);
    BeforeLeaves(s, kind);
  }

  lemma BeginsAlone(s: Store, t: Store, kind: Kind)
    requires QueuedAlone(s, t, kind)
    ensures var u := Next(t, StartMutation);
            && UnderWay(u, kind) && |u.mutations| == 1 && UpToDate(u) && u.pendingMutations == 1
            && Head(u).caller == u.owner == s.owner && u.caught == s.caught && (u.blocked <==> t.blocked)
            && u.armed == t.armed && u.expiry.None?
            && (kind.LogoutKind? ==> u.csrfForLogout.None?)
  {
    hide TimerSet;
  }

  /** A login or logout is queued alone, and starts. */
  lemma StartsAlone(s: Store, kind: Kind)
    requires Idle(s) && s.pendingMutations == 0
    ensures var t := Next(Next(s, Outside(CallOf(kind))), StartMutation);
            && UnderWay(t, kind) && |t.mutations| == 1 && UpToDate(t) && t.pendingMutations == 1
            && Head(t).caller == t.owner == s.owner && t.caught == s.caught
            && (t.blocked <==> s.blocked || kind.LogoutKind?)
            && t.armed == s.armed - TimerSet(s.expiry) && t.expiry.None?
            && (kind.LogoutKind? ==> t.csrfForLogout.None?)
  {
    hide TimerSet, Exec, Begin;
    QueuesAlone(s, kind);
    OutsideIsExec(s, Outside(CallOf(kind)));
    BeginsAlone(s, Exec(s, CallOf(kind)), kind);
  }

  /** A login that nothing interferes with signs the user in as the session it was answered with. */
  lemma LoginSignsIn(initial: Snapshot, steps: seq<Step>, r: Received)
    requires Idle(Run(Start(initial), steps)) && WithinBounds(r)
    ensures var s := Run(Start(initial), steps);
            SignedInAs(Run(s, [Outside(LoginCall([])), StartMutation, LoginAnswered(Got(r), [])]), r.session)
  {
    var s := Run(Start(initial), steps);
    RunKeeps(initial, steps);
    CountsItself(s);
    hide Run, Next, Exec, ExecAll, Begin;
    RunThree(s, Outside(LoginCall([])), StartMutation, LoginAnswered(Got(r), []));
    StartsAlone(s, LoginKind);
    var t := Next(Next(s, Outside(LoginCall([]))), StartMutation);
    AnswerShows(t, r);
    NextIsCore(t, LoginAnswered(Got(r), []));
    assert ExecAll(Respond(t, r).0, []) == Respond(t, r).0 by { NoCalls(Respond(t, r).0); }
  }

  lemma NoCalls(s: Store)
    ensures ExecAll(s, []) == s
  {
  }

  /** A login that fails, and that nothing interferes with, shows its failure. */
  lemma FailedLoginIsShown(initial: Snapshot, steps: seq<Step>, cause: Cause)
    requires Idle(Run(Start(initial), steps))
    ensures var s := Run(Start(initial), steps);
            var started := Run(s, [Outside(LoginCall([])), StartMutation, LoginAnswered(Failed(cause), [])]);
            var t := Run(started, [FinishMutation, LoginCaught(|s.caught|, [])]);
            SignedOut(t, Some(cause)) && Idle(t) && t.caught == s.caught
  {
    var s := Run(Start(initial), steps);
    RunKeeps(initial, steps);
    CountsItself(s);
    hide Run, Next, Exec, ExecAll, Begin;
    RunThree(s, Outside(LoginCall([])), StartMutation, LoginAnswered(Failed(cause), []));
    StartsAlone(s, LoginKind);
    var t := Next(Next(s, Outside(LoginCall([]))), StartMutation);
    var failed := Next(t, LoginAnswered(Failed(cause), []));
    RunTwo(failed, FinishMutation, LoginCaught(|s.caught|, []));
    FailureIsShown(t, s.caught, cause);
  }

  lemma FailureIsShown(t: Store, caught: seq<Caught>, cause: Cause)
    requires UnderWay(t, LoginKind) && |t.mutations| == 1 && t.pendingMutations == 1
    requires Head(t).caller == t.owner && t.caught == caught && t.armed == {} && t.expiry.None?
    ensures var shown := Next(Next(Next(t, LoginAnswered(Failed(cause), [])), FinishMutation), LoginCaught(|caught|, []));
            SignedOut(shown, Some(cause)) && Idle(shown) && shown.caught == caught
  {
    hide TimerSet;
  }

  /** A logout that succeeds, and that nothing interferes with, shows a confirmed revocation and blocks. */
  lemma LogoutRevokes(initial: Snapshot, steps: seq<Step>)
    requires Idle(Run(Start(initial), steps))
    ensures var s := Run(Start(initial), steps);
            var t := Run(s, [Outside(LogoutCall([])), StartMutation, LogoutAnswered(None, [])]);
            SignedOut(t, None) && t.snapshot.revocation == Some(RevocationConfirmed) && t.blocked && t.csrfForLogout.None?
  {
    var s := Run(Start(initial), steps);
    RunKeeps(initial, steps);
    CountsItself(s);
    hide Run, Next, Exec, ExecAll, Begin;
    RunThree(s, Outside(LogoutCall([])), StartMutation, LogoutAnswered(None, []));
    StartsAlone(s, LogoutKind);
    var t := Next(Next(s, Outside(LogoutCall([]))), StartMutation);
    NextIsCore(t, LogoutAnswered(None, []));
    NoCalls(Core(t, LogoutAnswered(None, [])).0);
    ClearSignsOut(WithHead(t, Settling(None)), None, Some(RevocationConfirmed));
  }

  /** A check of a store that is not blocked, and has none under way, signs the user in as the session it finds. */
  lemma CheckSignsIn(initial: Snapshot, steps: seq<Step>, r: Received)
    requires var s := Run(Start(initial), steps);
             !s.blocked && s.statusFlight.None? && Idle(s) && WithinBounds(r)
    ensures var s := Run(Start(initial), steps);
            SignedInAs(Run(s, [Outside(RevalidateCall), FlightAnswered(|s.flights|, Got(r), [])]), r.session)
  {
    var s := Run(Start(initial), steps);
    RunKeeps(initial, steps);
    hide Run, Exec, ExecAll;
    RunTwo(s, Outside(RevalidateCall), FlightAnswered(|s.flights|, Got(r), []));
    CheckAdopts(s, r);
  }

  lemma CheckAdopts(s: Store, r: Received)
    requires !s.blocked && s.statusFlight.None? && Idle(s) && WithinBounds(r) && s.armed == TimerSet(s.expiry)
    ensures SignedInAs(Next(Next(s, Outside(RevalidateCall)), FlightAnswered(|s.flights|, Got(r), [])), r.session)
  {
  }
}
