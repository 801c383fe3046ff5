/**
 The order in which logins and logouts are called, against the order in which they run. A call is numbered
 when it is made and takes its place in the queue only after the subscribers of its fence have run, so
 calls that subscribers make meanwhile come first.
 */
module SessionOrder {
  import opened Outcomes
  import opened SessionStore
  import opened SessionSafety
  import opened SessionTheorems

  // ---------------------------------------------------------------- the books of the calls

  /** The places in the queue were taken in the order of the calls. */
  ghost predicate InCallOrder(places: seq<Place>) {
    forall i, j :: 0 <= i < j < |places| ==> places[i].call < places[j].call
  }

  /** Every ticket is a place, of the kind of the mutation that holds it; only logins adopt under one. */
  ghost predicate BookedIn(c: Calls, nextTicket: nat, q: seq<Mutation>, adopted: seq<Adopter>) {
    && |c.places| == nextTicket
    && (forall i :: 0 <= i < |c.places| ==> c.places[i].call < c.made)
    && (forall i :: 0 <= i < |q| ==> q[i].ticket < |c.places| && c.places[q[i].ticket].kind == q[i].kind)
    && (forall i :: 0 <= i < |adopted| && adopted[i].ByLogin? ==>
          adopted[i].ticket < |c.places| && c.places[adopted[i].ticket].kind.LoginKind?)
  }

  ghost predicate Booked(s: Store) {
    BookedIn(s.calls, s.nextTicket, s.mutations, s.history.adopted)
  }

  /** A place taken by a call after the logout numbered `call`, or by that logout itself. */
  predicate SinceLogout(p: Place, call: nat) {
    p.call > call || (p.call == call && p.kind.LogoutKind?)
  }

  /** The last logout is marked, and every place behind the mark was taken by that logout or a later call. */
  ghost predicate MarkedIn(c: Calls, mark: Option<Mark>, adoptions: nat) {
    && (mark.None? ==> c.logouts == [])
    && (mark.Some? ==>
          && c.logouts != []
          && var last := c.logouts[|c.logouts| - 1];
             && last.call < c.made
             && last.adoptions == mark.value.adoptions <= adoptions
             && (forall i :: 0 <= i < |c.logouts| ==> c.logouts[i].call <= last.call && c.logouts[i].adoptions <= last.adoptions)
             && (forall i :: mark.value.ticket <= i < |c.places| ==> SinceLogout(c.places[i], last.call)))
  }

  ghost predicate Marked(s: Store) {
    MarkedIn(s.calls, s.history.mark, |s.history.adopted|)
  }

  /** What calls do to the books: each place goes to a call made meanwhile, and is a mutation more. */
  ghost predicate Follows(s: Store, t: Store) {
    var n := |s.calls.places|;
    && s.calls.made <= t.calls.made
    && s.calls.places <= t.calls.places
    && (forall i :: n <= i < |t.calls.places| ==> s.calls.made <= t.calls.places[i].call < t.calls.made)
    && |t.calls.places| - n == t.pendingMutations - s.pendingMutations
  }

  lemma FollowsTransitive(s: Store, t: Store, u: Store)
    requires Follows(s, t) && Follows(t, u)
    ensures Follows(s, u)
  {
    forall i | |s.calls.places| <= i < |u.calls.places| ensures s.calls.made <= u.calls.places[i].call < u.calls.made {
      if i < |t.calls.places| {
        assert u.calls.places[i] == t.calls.places[i];
      }
    }
  }

  /** A call is numbered before it notifies, and nothing is queued by then. */
  lemma BeforeNumbers(s: Store, c: Call)
    ensures var t := Before(s, c);
            && t.calls.places == s.calls.places && t.pendingMutations == s.pendingMutations && t.nextTicket == s.nextTicket
            && t.mutations == s.mutations && t.history.adopted == s.history.adopted
            && t.calls.made == s.calls.made + (if c.LoginCall? || c.LogoutCall? then 1 else 0)
            && t.calls.logouts == s.calls.logouts + (if c.LogoutCall? then [LogoutCalled(s.calls.made, |s.history.adopted|)] else [])
            && t.history.mark == if c.LogoutCall? then Some(Mark(s.nextTicket, |s.history.adopted|)) else s.history.mark
  {
    hide TimerSet;
    match c
    case RevalidateCall =>
    case CloseCall =>
    case LoginCall(_) =>
    case LogoutCall(_) =>
    case InvalidateCall(_, _) =>
  }

  lemma BeforeFollows(s: Store, c: Call)
    ensures Follows(s, Before(s, c))
    ensures Booked(s) ==> Booked(Before(s, c))
  {
    hide Before;
    BeforeNumbers(s, c);
  }

  lemma PushFollows(s: Store, t: Store, kind: Kind, caller: nat, call: nat)
    requires Follows(s, t) && s.calls.made <= call < t.calls.made
    ensures Follows(s, Push(t, kind, caller, call))
    ensures Booked(t) ==> Booked(Push(t, kind, caller, call))
  {
  }

  lemma {:induction false} ExecFollows(s: Store, c: Call)
    ensures Follows(s, Exec(s, c))
    ensures Booked(s) ==> Booked(Exec(s, c))
    decreases c
  {
    hide Before, Push, Booked, Follows;
    BeforeFollows(s, c);
    BeforeNumbers(s, c);
    var b := Before(s, c);
    match c
    case RevalidateCall =>
    case CloseCall =>
    case InvalidateCall(_, reactions) =>
      ExecAllFollows(b, reactions);
      FollowsTransitive(s, b, ExecAll(b, reactions));
    case LoginCall(reactions) =>
      RefusedFollows(s);
      QueuedFollows(s, c, LoginKind);
    case LogoutCall(reactions) =>
      QueuedFollows(s, c, LogoutKind);
      ExecAllFollows(b, reactions);
      FollowsTransitive(s, b, ExecAll(b, reactions));
  }

  lemma RefusedFollows(s: Store)
    ensures var t := Called(s).(caught := s.caught + [Caught(s.owner, QUEUE_FULL)]);
            Follows(s, t) && (Booked(s) ==> Booked(t))
  {
  }

  lemma {:induction false} QueuedFollows(s: Store, c: Call, kind: Kind)
    requires c.LoginCall? || c.LogoutCall?
    ensures var t := Push(ExecAll(Before(s, c), c.reactions), kind, s.owner, s.calls.made);
            Follows(s, t) && (Booked(s) ==> Booked(t))
    decreases c, 0
  {
    hide Before, Push, Booked;
    BeforeFollows(s, c);
    BeforeNumbers(s, c);
    ExecAllFollows(Before(s, c), c.reactions);
    FollowsTransitive(s, Before(s, c), ExecAll(Before(s, c), c.reactions));
    PushFollows(s, ExecAll(Before(s, c), c.reactions), kind, s.owner, s.calls.made);
  }

  lemma {:induction false} ExecAllFollows(s: Store, calls: seq<Call>)
    ensures Follows(s, ExecAll(s, calls))
    ensures Booked(s) ==> Booked(ExecAll(s, calls))
    decreases calls
  {
    if calls == [] {
    } else {
      hide Exec, Booked;
      ExecFollows(s, calls[0]);
      ExecAllFollows(Exec(s, calls[0]), calls[1..]);
      FollowsTransitive(s, Exec(s, calls[0]), ExecAll(s, calls));
    }
  }

  // ---------------------------------------------------------------- which place a call takes

  /**
   The exact condition, which a caller can check beforehand: a login or logout that is not refused takes
   the next place in the queue if and only if its subscribers call no login or logout, to any depth.
   */
  lemma TakesNextPlace(s: Store, c: Call)
    requires (c.LoginCall? || c.LogoutCall?) && !Full(s)
    ensures var places := Exec(s, c).calls.places;
            && |places| > |s.calls.places|
            && (places[|s.calls.places|].call == s.calls.made <==> TotalDemand(c.reactions) == 0)
  {
    hide Before, Exec, ExecAll;
    BeforeNumbers(s, c);
    var b := Before(s, c);
    var t := ExecAll(b, c.reactions);
    ExecAllFollows(b, c.reactions);
    ExecAllCounts(b, c.reactions);
    if TotalDemand(c.reactions) == 0 { RoomFitsAll(b.pendingMutations, c.reactions); }
    ExecIsPush(s, c);
  }

  lemma ExecIsPush(s: Store, c: Call)
    requires (c.LoginCall? || c.LogoutCall?) && !Full(s)
    ensures Exec(s, c).calls.places
            == ExecAll(Before(s, c), c.reactions).calls.places
               + [Place(s.calls.made, if c.LoginCall? then LoginKind else LogoutKind)]
  {
    hide Before, ExecAll;
  }

  /** A call made with `n` mutations pending is queued in call order, with all that its subscribers queue. */
  predicate Ordered(n: nat, c: Call)
    decreases c
  {
    match c
    case RevalidateCall => true
    case CloseCall => true
    case InvalidateCall(_, reactions) => AllOrdered(n, reactions)
    case LoginCall(reactions) => n >= MAX_PENDING || TotalDemand(reactions) == 0
    case LogoutCall(reactions) => n >= MAX_PENDING || TotalDemand(reactions) == 0
  }

  predicate AllOrdered(n: nat, calls: seq<Call>)
    decreases calls
  {
    calls == [] || (Ordered(n, calls[0]) && AllOrdered(Least(n + Demand(calls[0]), MAX_PENDING), calls[1..]))
  }

  lemma {:induction false} OrderedFits(n: nat, c: Call)
    requires Ordered(n, c)
    ensures Fits(n, c)
    decreases c
  {
    if c.InvalidateCall? { AllOrderedFit(n, c.reactions); }
  }

  lemma {:induction false} AllOrderedFit(n: nat, calls: seq<Call>)
    requires AllOrdered(n, calls)
    ensures AllFit(n, calls)
    decreases calls
  {
    if calls != [] {
      OrderedFits(n, calls[0]);
      AllOrderedFit(Least(n + Demand(calls[0]), MAX_PENDING), calls[1..]);
    }
  }

  /** With a full queue nothing is queued, so nothing out of order. */
  lemma {:induction false} FullIsOrdered(n: nat, calls: seq<Call>)
    requires n >= MAX_PENDING
    ensures AllOrdered(n, calls)
    decreases calls
  {
    if calls != [] {
      if calls[0].InvalidateCall? { FullIsOrdered(n, calls[0].reactions); }
      FullIsOrdered(Least(n + Demand(calls[0]), MAX_PENDING), calls[1..]);
    }
  }

  // ---------------------------------------------------------------- call order, exactly

  lemma PlacesStay(places: seq<Place>, more: seq<Place>)
    requires places <= more && InCallOrder(more)
    ensures InCallOrder(places)
  {
    assert forall i :: 0 <= i < |places| ==> places[i] == more[i];
  }

  lemma {:induction false} ExecOrdered(s: Store, c: Call)
    requires Booked(s) && InCallOrder(s.calls.places) && s.pendingMutations <= MAX_PENDING
    ensures InCallOrder(Exec(s, c).calls.places) <==> Ordered(s.pendingMutations, c)
    decreases c
  {
    BeforeNumbers(s, c);
    BeforeFollows(s, c);
    hide Before, Booked, InCallOrder;
    match c
    case RevalidateCall =>
    case CloseCall =>
    case InvalidateCall(_, reactions) => ExecAllOrdered(Before(s, c), reactions);
    case LoginCall(reactions) => if !Full(s) { PlaceOrdered(s, c); }
    case LogoutCall(reactions) =>
      if Full(s) { FullQueuesNothing(Before(s, c), reactions); } else { PlaceOrdered(s, c); }
  }

  lemma FullQueuesNothing(s: Store, calls: seq<Call>)
    requires Full(s)
    ensures ExecAll(s, calls).calls.places == s.calls.places
  {
    FullStays(s, calls);
    ExecAllFollows(s, calls);
  }

  /** A place is out of order exactly if one was taken in front of it meanwhile. */
  lemma PlaceOrdered(s: Store, c: Call)
    requires Booked(s) && InCallOrder(s.calls.places)
    requires (c.LoginCall? || c.LogoutCall?) && !Full(s)
    ensures InCallOrder(Exec(s, c).calls.places) <==> TotalDemand(c.reactions) == 0
  {
    hide Before, Exec, ExecAll;
    TakesNextPlace(s, c);
    BeforeNumbers(s, c);
    var b := Before(s, c);
    ExecAllFollows(b, c.reactions);
    ExecIsPush(s, c);
    ExecAllCounts(b, c.reactions);
    if TotalDemand(c.reactions) == 0 { RoomFitsAll(b.pendingMutations, c.reactions); }
    var n := |s.calls.places|;
    var places := Exec(s, c).calls.places;
    var taken := ExecAll(b, c.reactions).calls.places;
    if TotalDemand(c.reactions) == 0 {
      assert taken == s.calls.places;
    } else {
      assert places[n].call > places[|taken|].call;
    }
  }

  lemma {:induction false} ExecAllOrdered(s: Store, calls: seq<Call>)
    requires Booked(s) && InCallOrder(s.calls.places) && s.pendingMutations <= MAX_PENDING
    ensures InCallOrder(ExecAll(s, calls).calls.places) <==> AllOrdered(s.pendingMutations, calls)
    decreases calls
  {
    hide Booked, InCallOrder, Exec;
    if calls != [] {
      var t := Exec(s, calls[0]);
      ExecOrdered(s, calls[0]);
      ExecFollows(s, calls[0]);
      ExecAllFollows(t, calls[1..]);
      if Ordered(s.pendingMutations, calls[0]) {
        OrderedFits(s.pendingMutations, calls[0]);
        ExecCounts(s, calls[0]);
        ExecAllOrdered(t, calls[1..]);
      } else if InCallOrder(ExecAll(t, calls[1..]).calls.places) {
        PlacesStay(t.calls.places, ExecAll(t, calls[1..]).calls.places);
      }
    }
  }

  // ---------------------------------------------------------------- steps and runs

  /** The queue after a step that is no call: every ticket it still holds it held before, with its kind. */
  ghost predicate SameTickets(q: seq<Mutation>, q': seq<Mutation>) {
    || q' == q
    || (q != [] && q' == q[1..])
    || (|q'| == |q| && forall i :: 0 <= i < |q| ==> q'[i].ticket == q[i].ticket && q'[i].kind == q[i].kind)
  }

  /** Only the login at the head adopts under a ticket. */
  ghost predicate AdoptsByHead(s: Store, adopted: seq<Adopter>) {
    || adopted == s.history.adopted
    || (|adopted| == |s.history.adopted| + 1 && adopted[..|s.history.adopted|] == s.history.adopted
        && (adopted[|s.history.adopted|].ByLogin? ==>
              s.mutations != [] && adopted[|s.history.adopted|].ticket == Head(s).ticket && Head(s).kind.LoginKind?))
  }

  /** A step that is no call, up to its notification: no call is made and no place taken. */
  ghost predicate MakesNoCall(s: Store, t: Store) {
    && t.calls == s.calls && t.nextTicket == s.nextTicket
    && t.history.mark == s.history.mark
    && SameTickets(s.mutations, t.mutations)
    && AdoptsByHead(s, t.history.adopted)
  }

  lemma MakesNoCallItself(s: Store)
    ensures MakesNoCall(s, s)
  {
  }

  lemma AnsweredMakesNoCall(s: Store, r: Received)
    requires s.mutations != [] && Head(s).kind.LoginKind?
    ensures MakesNoCall(s, Answered(s, r).0)
  {
    hide Adoptable, SignedIn, TimerSet;
  }

  lemma RespondMakesNoCall(s: Store, r: Received)
    requires s.mutations != [] && Head(s).kind.LoginKind?
    ensures MakesNoCall(s, Respond(s, r).0)
  {
    hide Answered, LogoutBehind, SameTickets, AdoptsByHead;
    AnsweredMakesNoCall(s, r);
  }

  lemma BeginMakesNoCall(s: Store)
    requires s.mutations != []
    ensures MakesNoCall(s, Begin(s))
  {
  }

  lemma ResultMakesNoCall(s: Store, id: nat, answer: Answer)
    requires id < |s.flights|
    ensures MakesNoCall(s, FlightResult(s, id, answer))
  {
    hide Adoptable, SignedIn, TimerSet;
  }

  lemma CoreMakesNoCall(s: Store, a: Step)
    requires !a.Outside?
    ensures MakesNoCall(s, Core(s, a).0)
  {
    match a
    case LoginAnswered(answer, _) =>
      hide Exec, ExecAll, Respond, MakesNoCall;
      MakesNoCallItself(s);
      SettlesWithoutCall(s, if answer.Failed? then Some(answer.cause) else None);
      if s.mutations != [] && Head(s).kind.LoginKind? && answer.Got? { RespondMakesNoCall(s, answer.received); }
    case FlightAnswered(id, answer, _) =>
      hide Exec, ExecAll, FlightResult, SameTickets, AdoptsByHead;
      MakesNoCallItself(s);
      if id < |s.flights| {
        ResultMakesNoCall(s.(flights := s.flights[id := s.flights[id].(settled := true)]), id, answer);
      }
    case StartMutation =>
      hide Exec, ExecAll, Begin, MakesNoCall;
      MakesNoCallItself(s);
      if s.mutations != [] { BeginMakesNoCall(s); }
    case _ => QuietMakesNoCall(s, a);
  }

  lemma SettlesWithoutCall(s: Store, failure: Option<Cause>)
    ensures s.mutations != [] ==> MakesNoCall(s, WithHead(s, Settling(failure)))
  {
  }

  lemma QuietMakesNoCall(s: Store, a: Step)
    requires !a.Outside? && !a.LoginAnswered? && !a.FlightAnswered? && !a.StartMutation?
    ensures MakesNoCall(s, Core(s, a).0)
  {
    hide Exec, ExecAll, Clear, MakesNoCall;
    MakesNoCallItself(s);
    match a
    case LogoutAnswered(failure, _) =>
      SettlesWithoutCall(s, failure);
      if s.mutations != [] {
        ClearMakesNoCall(s, WithHead(s, Settling(failure)), failure,
                         Some(if failure.None? then RevocationConfirmed else RevocationUnconfirmed));
      }
    case LoginCaught(i, _) =>
      if i < |s.caught| {
        var t := s.(caught := s.caught[..i] + s.caught[i + 1..]);
        OnlyCaught(s, t.caught);
        ClearMakesNoCall(s, t, Some(s.caught[i].cause), None);
      }
    case TimerFired(timer, cause, _) => EndMakesNoCall(s, timer, cause);
    case FinishMutation => FinishMakesNoCall(s);
    case FlightForgotten(_) => ForgettingMakesNoCall(s);
  }

  lemma ClearMakesNoCall(s: Store, t: Store, error: Option<Cause>, revocation: Option<Revocation>)
    requires MakesNoCall(s, t)
    ensures MakesNoCall(s, Clear(t, error, revocation))
  {
    hide SameTickets, AdoptsByHead;
  }

  lemma OnlyCaught(s: Store, caught: seq<Caught>)
    ensures MakesNoCall(s, s.(caught := caught))
  {
  }

  lemma EndMakesNoCall(s: Store, timer: nat, cause: Cause)
    ensures MakesNoCall(s, EndSession(s, cause)) && MakesNoCall(s, s.(armed := s.armed - {timer}))
  {
  }

  lemma FinishMakesNoCall(s: Store)
    ensures MakesNoCall(s, Next(s, FinishMutation))
  {
  }

  lemma ForgettingMakesNoCall(s: Store)
    ensures MakesNoCall(s, s.(statusFlight := None, statusController := None))
  {
  }

  lemma NoCallKeeps(s: Store, t: Store)
    requires MakesNoCall(s, t)
    ensures Booked(s) ==> Booked(t)
    ensures Marked(s) ==> Marked(t)
  {
  }

  /** A step is in call order if the calls made in it are. */
  predicate StepOrdered(s: Store, a: Step) {
    if a.Outside? then Ordered(s.pendingMutations, a.call)
    else Core(s, a).1 ==> AllOrdered(Core(s, a).0.pendingMutations, Reactions(a))
  }

  lemma NextBooked(s: Store, a: Step)
    requires Booked(s)
    ensures Booked(Next(s, a)) && s.calls.places <= Next(s, a).calls.places && s.calls.made <= Next(s, a).calls.made
    ensures forall i :: |s.calls.places| <= i < |Next(s, a).calls.places| ==> Next(s, a).calls.places[i].call >= s.calls.made
  {
    hide Core, Booked, Next, Exec, ExecAll, SameTickets, AdoptsByHead;
    NextIsCore(s, a);
    if a.Outside? {
      OutsideIsExec(s, a);
      ExecFollows(s, a.call);
    } else {
      CoreMakesNoCall(s, a);
      NoCallKeeps(s, Core(s, a).0);
      ExecAllFollows(Core(s, a).0, Reactions(a));
    }
  }

  lemma StepOrder(s: Store, a: Step)
    requires Booked(s) && InCallOrder(s.calls.places) && s.pendingMutations <= MAX_PENDING
    ensures InCallOrder(Next(s, a).calls.places) <==> StepOrdered(s, a)
    ensures StepOrdered(s, a) ==> StepFits(s, a)
  {
    hide Core, Booked, Next, Exec, ExecAll, SameTickets, AdoptsByHead, InCallOrder, Ordered, AllOrdered, Fits, AllFit;
    NextIsCore(s, a);
    if a.Outside? {
      OutsideIsExec(s, a);
      ExecOrdered(s, a.call);
      if Ordered(s.pendingMutations, a.call) { OrderedFits(s.pendingMutations, a.call); }
    } else {
      var t := Core(s, a).0;
      CoreMakesNoCall(s, a);
      CoreFrame(s, a);
      NoCallKeeps(s, t);
      ExecAllOrdered(t, Reactions(a));
      if AllOrdered(t.pendingMutations, Reactions(a)) { AllOrderedFit(t.pendingMutations, Reactions(a)); }
    }
  }

  lemma {:induction false} RunBooked(initial: Snapshot, steps: seq<Step>)
    ensures Booked(Run(Start(initial), steps))
    decreases |steps|
  {
    if steps != [] {
      hide Booked, Next, Start;
      var front := steps[..|steps| - 1];
      RunBooked(initial, front);
      NextBooked(Run(Start(initial), front), steps[|steps| - 1]);
    }
  }

  /** Every call of the run is made in order. */
  predicate RunOrdered(initial: Snapshot, steps: seq<Step>) {
    forall k :: 0 <= k < |steps| ==> StepOrdered(Run(Start(initial), steps[..k]), steps[k])
  }

  /** A run is in order if it was before its last step and that step is. */
  lemma RunOrderedLast(initial: Snapshot, steps: seq<Step>)
    requires steps != []
    ensures var front := steps[..|steps| - 1];
            RunOrdered(initial, steps) <==>
              RunOrdered(initial, front) && StepOrdered(Run(Start(initial), front), steps[|steps| - 1])
  {
    hide StepOrdered, Start, Run;
    var front := steps[..|steps| - 1];
    assert forall k :: 0 <= k < |front| ==> front[..k] == steps[..k] && front[k] == steps[k];
  }

  /**
   Call order, exactly: the places in the queue are taken in the order in which logins and logouts were
   called, over the whole run, if and only if every call of it is ordered when it is made. An ordered run
   also keeps the bound on pending mutations.
   */
  lemma {:induction false} CallOrderExactly(initial: Snapshot, steps: seq<Step>)
    ensures InCallOrder(Run(Start(initial), steps).calls.places) <==> RunOrdered(initial, steps)
    ensures RunOrdered(initial, steps) ==> Run(Start(initial), steps).pendingMutations <= MAX_PENDING
    decreases |steps|
  {
    if steps != [] {
      hide StepOrdered, StepFits, Next, Start, Booked, InCallOrder, RunOrdered;
      var front := steps[..|steps| - 1];
      var s := Run(Start(initial), front);
      var a := steps[|steps| - 1];
      CallOrderExactly(initial, front);
      RunBooked(initial, front);
      NextBooked(s, a);
      RunOrderedLast(initial, steps);
      if RunOrdered(initial, front) {
        StepOrder(s, a);
        StepBound(s, a);
      } else if InCallOrder(Next(s, a).calls.places) {
        PlacesStay(s.calls.places, Next(s, a).calls.places);
      }
    }
  }

  /** In such a run logins and logouts also start in the order in which they were called. */
  lemma MutationsStartInCallOrder(initial: Snapshot, steps: seq<Step>)
    requires RunOrdered(initial, steps)
    ensures var s := Run(Start(initial), steps);
            forall i, j :: 0 <= i < j < |s.history.started| ==>
              && s.history.started[i] < s.history.started[j] < |s.calls.places|
              && s.calls.places[s.history.started[i]].call < s.calls.places[s.history.started[j]].call
  {
    hide Run, RunOrdered;
    RunKeeps(initial, steps);
    RunBooked(initial, steps);
    CallOrderExactly(initial, steps);
  }

  // ---------------------------------------------------------------- logout fencing, by call

  /** Calls that bring no login or logout make none, and adopt nothing. */
  lemma {:induction false} IdleCalls(s: Store, calls: seq<Call>)
    requires TotalDemand(calls) == 0
    ensures var t := ExecAll(s, calls);
            t.calls == s.calls && t.history.mark == s.history.mark && t.history.adopted == s.history.adopted
    decreases calls
  {
    hide Before;
    if calls != [] {
      BeforeNumbers(s, calls[0]);
      if calls[0].InvalidateCall? { IdleCalls(Before(s, calls[0]), calls[0].reactions); }
      IdleCalls(Exec(s, calls[0]), calls[1..]);
    }
  }

  lemma BeforeMarked(s: Store, c: Call)
    requires Booked(s) && Marked(s)
    ensures Marked(Before(s, c)) && (c.LogoutCall? ==> Before(s, c).history.mark.Some?)
  {
    hide Before;
    BeforeNumbers(s, c);
  }

  /** A call that took the next place leaves the mark with the last logout. */
  lemma PushMarked(s: Store, b: Store, t: Store, c: Call)
    requires Booked(s) && Marked(s) && (c.LoginCall? || c.LogoutCall?)
    requires b == Before(s, c) && t.calls == b.calls && t.history.mark == b.history.mark && t.history.adopted == b.history.adopted
    ensures Marked(Push(t, if c.LoginCall? then LoginKind else LogoutKind, s.owner, s.calls.made))
  {
    hide Before;
    BeforeMarked(s, c);
    BeforeNumbers(s, c);
  }

  lemma {:induction false} ExecMarked(s: Store, c: Call)
    requires Booked(s) && Marked(s) && s.pendingMutations <= MAX_PENDING && Ordered(s.pendingMutations, c)
    ensures Marked(Exec(s, c))
    decreases c
  {
    hide Before, Push, Booked, Marked;
    BeforeMarked(s, c);
    BeforeFollows(s, c);
    BeforeNumbers(s, c);
    var b := Before(s, c);
    match c
    case RevalidateCall =>
    case CloseCall =>
    case InvalidateCall(_, reactions) => ExecAllMarked(b, reactions);
    case LoginCall(reactions) =>
      RefusedMarked(s);
      if !Full(s) {
        IdleCalls(b, reactions);
        PushMarked(s, b, ExecAll(b, reactions), c);
      }
    case LogoutCall(reactions) =>
      if Full(s) {
        FullIsOrdered(b.pendingMutations, reactions);
        ExecAllMarked(b, reactions);
      } else {
        IdleCalls(b, reactions);
        PushMarked(s, b, ExecAll(b, reactions), c);
      }
  }

  lemma RefusedMarked(s: Store)
    requires Marked(s)
    ensures Marked(Called(s).(caught := s.caught + [Caught(s.owner, QUEUE_FULL)]))
  {
  }

  lemma {:induction false} ExecAllMarked(s: Store, calls: seq<Call>)
    requires Booked(s) && Marked(s) && s.pendingMutations <= MAX_PENDING && AllOrdered(s.pendingMutations, calls)
    ensures Marked(ExecAll(s, calls))
    decreases calls
  {
    hide Booked, Marked, Exec;
    if calls != [] {
      ExecMarked(s, calls[0]);
      ExecFollows(s, calls[0]);
      OrderedFits(s.pendingMutations, calls[0]);
      ExecCounts(s, calls[0]);
      ExecAllMarked(Exec(s, calls[0]), calls[1..]);
    }
  }

  lemma NextMarked(s: Store, a: Step)
    requires Booked(s) && Marked(s) && s.pendingMutations <= MAX_PENDING && StepOrdered(s, a)
    ensures Marked(Next(s, a))
  {
    hide Core, Booked, Marked, Next, Exec, ExecAll, SameTickets, AdoptsByHead, Ordered, AllOrdered;
    NextIsCore(s, a);
    if a.Outside? {
      OutsideIsExec(s, a);
      ExecMarked(s, a.call);
    } else {
      CoreMakesNoCall(s, a);
      CoreFrame(s, a);
      NoCallKeeps(s, Core(s, a).0);
      if Core(s, a).1 { ExecAllMarked(Core(s, a).0, Reactions(a)); }
    }
  }

  lemma {:induction false} RunMarked(initial: Snapshot, steps: seq<Step>)
    requires RunOrdered(initial, steps)
    ensures Marked(Run(Start(initial), steps))
    decreases |steps|
  {
    if steps != [] {
      hide Booked, Marked, Next, Start, StepOrdered, RunOrdered;
      var front := steps[..|steps| - 1];
      RunOrderedLast(initial, steps);
      RunMarked(initial, front);
      RunBooked(initial, front);
      CallOrderExactly(initial, front);
      NextMarked(Run(Start(initial), front), steps[|steps| - 1]);
    }
  }

  /** A login that was called after the logout `l` has been adopted since. */
  ghost predicate LaterLogin(s: Store, l: LogoutCalled, i: nat) {
    && l.adoptions <= i < |s.history.adopted|
    && s.history.adopted[i].ByLogin?
    && s.history.adopted[i].ticket < |s.calls.places|
    && s.calls.places[s.history.adopted[i].ticket].call > l.call
  }

  /**
   In a run whose calls are ordered every `logout`, called from outside or by a subscriber, at any depth and
   even when it is refused, fences: the published status is authenticated only if a login called after it
   has been adopted since.
   */
  lemma EveryLogoutFences(initial: Snapshot, steps: seq<Step>, k: nat)
    requires RunOrdered(initial, steps) && k < |Run(Start(initial), steps).calls.logouts|
    ensures var s := Run(Start(initial), steps);
            s.snapshot.status == Authenticated ==> exists i :: LaterLogin(s, s.calls.logouts[k], i)
  {
    var s := Run(Start(initial), steps);
    hide Run, RunOrdered, EpochInv, OwedInv, ChecksWait, CredentialInv;
    RunKeeps(initial, steps);
    RunBooked(initial, steps);
    RunMarked(initial, steps);
    if s.snapshot.status == Authenticated {
      assert LoginSince(s.history);
      var h := s.history;
      var i :| h.mark.value.adoptions <= i < |h.adopted| && h.adopted[i].ByLogin? && h.adopted[i].ticket >= h.mark.value.ticket;
      assert LaterLogin(s, s.calls.logouts[k], i);
    }
  }

  lemma {:induction false} RunNumbers(s: Store, steps: seq<Step>)
    requires Booked(s)
    ensures var t := Run(s, steps);
            && Booked(t) && s.calls.made <= t.calls.made && s.calls.places <= t.calls.places
            && forall i :: |s.calls.places| <= i < |t.calls.places| ==> t.calls.places[i].call >= s.calls.made
    decreases |steps|
  {
    if steps != [] {
      hide Booked, Next;
      RunNumbers(s, steps[..|steps| - 1]);
      NextBooked(Run(s, steps[..|steps| - 1]), steps[|steps| - 1]);
    }
  }

  /** The places taken while `logout` notifies are of later calls, and behind them stands its own. */
  lemma LogoutPlaces(s: Store, reactions: seq<Call>)
    requires Booked(s)
    ensures var t := Exec(s, LogoutCall(reactions));
            && t.calls.made > s.calls.made
            && forall i :: |s.calls.places| <= i < |t.calls.places| ==> SinceLogout(t.calls.places[i], s.calls.made)
  {
    var c := LogoutCall(reactions);
    BeforeNumbers(s, c);
    BeforeFollows(s, c);
    hide Before, ExecAll, Booked;
    ExecAllFollows(Before(s, c), reactions);
  }

  /**
   A `logout` called from outside fences in every run, whatever subscribers call and however the calls are
   ordered: the published status is authenticated only if a login called after it has been adopted since.
   */
  lemma LogoutFencesLaterCalls(initial: Snapshot, before: seq<Step>, reactions: seq<Call>, after: seq<Step>)
    ensures var s := Run(Start(initial), before);
            var t := Run(Next(s, Outside(LogoutCall(reactions))), after);
            t.snapshot.status == Authenticated ==>
              exists i :: LaterLogin(t, LogoutCalled(s.calls.made, |s.history.adopted|), i)
  {
    var s := Run(Start(initial), before);
    var u := Next(s, Outside(LogoutCall(reactions)));
    var t := Run(u, after);
    LogoutFences(initial, before, reactions, after);
    RunBooked(initial, before);
    NextBooked(s, Outside(LogoutCall(reactions)));
    LogoutPlaces(s, reactions);
    assert u == Exec(s, LogoutCall(reactions));
    RunNumbers(u, after);
    hide Run, Next, Exec;
    if t.snapshot.status == Authenticated {
      var h := t.history;
      var i :| |s.history.adopted| <= i < |h.adopted| && h.adopted[i].ByLogin? && h.adopted[i].ticket >= s.nextTicket;
      var p := t.calls.places[h.adopted[i].ticket];
      assert h.adopted[i].ticket < |u.calls.places| ==> p == u.calls.places[h.adopted[i].ticket];
      assert LaterLogin(t, LogoutCalled(s.calls.made, |s.history.adopted|), i);
    }
  }

  /**
   The condition matters. A subscriber that logs out while a login notifies is queued in front of that
   login, which was called first: the logout completes, and the login that it came after signs the user in.
   */
  lemma EarlierLoginOvertakesLogout(initial: Snapshot, v: Session)
    ensures var steps := [Outside(LoginCall([LogoutCall([])])),
                          StartMutation, LogoutAnswered(None, []), FinishMutation,
                          StartMutation, LoginAnswered(Got(Received(v, 1)), [])];
            var s := Run(Start(initial), steps);
            && s.snapshot.status == Authenticated && s.credential == Some(v)
            && s.calls.places == [Place(1, LogoutKind), Place(0, LoginKind)]
            && s.calls.logouts == [LogoutCalled(1, 0)]
            && s.history.started == [0, 1] && s.history.adopted == [ByLogin(1)]
  {
    var nested := LoginCall([LogoutCall([])]);
    var steps := [Outside(nested), StartMutation, LogoutAnswered(None, []), FinishMutation,
                  StartMutation, LoginAnswered(Got(Received(v, 1)), [])];
    hide Next, Start;
    var s0 := Start(initial);
    assert steps[..0] == [] && steps[..6] == steps;
    RunStep(s0, steps, 0);
    RunStep(s0, steps, 1);
    RunStep(s0, steps, 2);
    RunStep(s0, steps, 3);
    RunStep(s0, steps, 4);
    RunStep(s0, steps, 5);
    var s1 := NestedLogoutQueued(initial);
    LogoutCompletes(s1);
    LoginSignsIn(Next(Next(Next(s1, StartMutation), LogoutAnswered(None, [])), FinishMutation), v);
  }

  lemma NestedLogoutQueued(initial: Snapshot) returns (s: Store)
    ensures s == Next(Start(initial), Outside(LoginCall([LogoutCall([])])))
    ensures s.generation == 2 && s.owner == 0 && s.pendingMutations == 2
    ensures s.mutations == [Mutation(0, LogoutKind, 2, 0, 0, Queued), Mutation(1, LoginKind, 2, 0, 0, Queued)]
    ensures s.calls.places == [Place(1, LogoutKind), Place(0, LoginKind)] && s.calls.logouts == [LogoutCalled(1, 0)]
    ensures s.history.started == [] && s.history.adopted == []
  {
    var nested := LoginCall([LogoutCall([])]);
    s := Next(Start(initial), Outside(nested));
    var b := Before(Start(initial), nested);
    var c := Before(b, LogoutCall([]));
    assert ExecAll(c, []) == c;
    assert Exec(b, LogoutCall([])) == Push(c, LogoutKind, b.owner, b.calls.made);
    assert [LogoutCall([])][1..] == [];
    assert ExecAll(b, [LogoutCall([])]) == Exec(b, LogoutCall([]));
  }

  lemma LogoutCompletes(s: Store)
    requires s.generation == 2 && s.owner == 0 && s.pendingMutations == 2
    requires s.mutations == [Mutation(0, LogoutKind, 2, 0, 0, Queued), Mutation(1, LoginKind, 2, 0, 0, Queued)]
    requires s.history.started == [] && s.history.adopted == []
    ensures var t := Next(Next(Next(s, StartMutation), LogoutAnswered(None, [])), FinishMutation);
            && t.generation == 2 && t.owner == 0 && t.mutations == [Mutation(1, LoginKind, 2, 0, 0, Queued)]
            && t.calls == s.calls && t.history.started == [0] && t.history.adopted == []
  {
    var running := Next(s, StartMutation);
    assert running.mutations == [Mutation(0, LogoutKind, 2, 0, 0, Running), Mutation(1, LoginKind, 2, 0, 0, Queued)];
    var settled := Next(running, LogoutAnswered(None, []));
    assert settled.mutations == [Mutation(0, LogoutKind, 2, 0, 0, Settling(None)), Mutation(1, LoginKind, 2, 0, 0, Queued)];
  }

  lemma LoginSignsIn(s: Store, v: Session)
    requires s.generation == 2 && s.owner == 0 && s.mutations == [Mutation(1, LoginKind, 2, 0, 0, Queued)]
    requires s.history.started == [0] && s.history.adopted == []
    ensures var t := Next(Next(s, StartMutation), LoginAnswered(Got(Received(v, 1)), []));
            && t.snapshot.status == Authenticated && t.credential == Some(v) && t.calls == s.calls
            && t.history.started == [0, 1] && t.history.adopted == [ByLogin(1)]
  {
    var running := Next(s, StartMutation);
    assert running.mutations == [Mutation(1, LoginKind, 2, 0, 0, Running)];
    var t := Answered(running, Received(v, 1)).0;
    assert t.snapshot.status == Authenticated && t.history.adopted == [ByLogin(1)];
  }
}
