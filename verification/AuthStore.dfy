/**
 `createAuthStore` as an object whose fields its callbacks change in place. Each method is proved to do
 to the fields what the function of the same name in `SessionStore` does to values, and each entry point
 keeps the object valid: subscribers are notified, and promises settle, in states that satisfy the
 invariant of `SessionSafety`. Abort controllers appear as numbers: the current owner, the current
 lifetime, and the armed timers.
 */
module AuthStore {
  import opened Outcomes
  import Safety = SessionSafety
  import Spec = SessionStore

  class AuthStore {
    var generation: nat
    var blocked: bool
    var owner: nat
    var credential: Option<Spec.Session>
    var csrfForLogout: Option<string>
    var lifetime: nat
    var lifetimeAborted: bool
    var expiry: Option<nat>
    var armed: set<nat>
    var nextTimer: nat
    var statusController: Option<nat>
    var statusFlight: Option<nat>
    var flights: seq<Spec.Flight>
    var pendingMutations: nat
    var mutations: seq<Spec.Mutation>
    var nextTicket: nat
    var caught: seq<Spec.Caught>
    var snapshot: Spec.Snapshot
    ghost var unpublished: bool
    ghost var calls: Spec.Calls
    ghost var history: Spec.History

    ghost function State(): Spec.Store
      reads this
    {
      Spec.Store(generation, blocked, owner, credential, csrfForLogout, lifetime, lifetimeAborted, expiry, armed,
                 nextTimer, statusController, statusFlight, flights, pendingMutations, mutations, nextTicket, caught,
                 snapshot, unpublished, calls, history)
    }

    ghost predicate Valid()
      reads this
    {
      Safety.Inv(State())
    }

    /** What a caller can rely on at any time, and a subscriber when it is notified. */
    lemma Promises()
      requires Valid()
      ensures credential.Some? ==>
                && snapshot == Spec.SignedIn(credential.value) && !lifetimeAborted && !blocked
                && expiry.Some? && armed == {expiry.value}
      ensures credential.None? ==> expiry.None? && armed == {}
      ensures !blocked && statusFlight.Some? ==>
                statusFlight.value < |flights| && flights[statusFlight.value].epoch == generation
      ensures pendingMutations == |mutations|
      ensures forall i :: 0 < i < |mutations| ==> mutations[i].phase == Spec.Queued
    {
    }

    constructor (initial: Spec.Snapshot)
      ensures Valid() && State() == Spec.Start(initial)
    {
      generation, blocked, owner := 0, false, 0;
      credential, csrfForLogout := None, None;
      lifetime, lifetimeAborted := 0, false;
      expiry, armed, nextTimer := None, {}, 0;
      statusController, statusFlight, flights := None, None, [];
      pendingMutations, mutations, nextTicket, caught := 0, [], 0, [];
      snapshot := initial;
      unpublished := true;
      calls, history := Spec.Start(initial).calls, Spec.Start(initial).history;
      new;
      assert Spec.Run(Spec.Start(initial), []) == Spec.Start(initial);
      Safety.RunKeeps(initial, []);
    }

    method AbortTimer()
      modifies this`armed, this`expiry
      ensures armed == old(armed) - Spec.TimerSet(old(expiry)) && expiry == None
    {
      if expiry.Some? { armed := armed - {expiry.value}; }
      expiry := None;
    }

    method StopProtectedWork()
      modifies this
      ensures State() == Spec.StopProtectedWork(old(State()))
    {
      credential := None;
      lifetimeAborted := true;
      AbortTimer();
    }

    method Clear(error: Option<Spec.Cause>, revocation: Option<Spec.Revocation>)
      modifies this
      ensures State() == Spec.Clear(old(State()), error, revocation)
    {
      StopProtectedWork();
      snapshot, unpublished := Spec.Snapshot(Spec.Unauthenticated, None, None, error, revocation), false;
    }

    method AbortStatus()
      modifies this`flights
      ensures flights == Spec.CancelStatus(old(State())).flights
    {
      if statusController.Some? && statusController.value < |flights| {
        var id := statusController.value;
        flights := flights[id := flights[id].(cancelled := true)];
      }
    }

    /** The same, as what it does to the whole state. */
    method CancelCheck()
      modifies this`flights
      ensures State() == Spec.CancelStatus(old(State()))
    {
      AbortStatus();
    }

    /** The status check is cancelled and no longer joined. */
    method ForgetStatus()
      modifies this`flights, this`statusFlight
      ensures State() == Spec.CancelStatus(old(State())).(statusFlight := None)
    {
      AbortStatus();
      statusFlight := None;
    }

    method SettleFailedStatus(cause: Spec.Cause)
      modifies this
      ensures State() == Spec.SettleFailedStatus(old(State()), cause)
    {
      var identity := snapshot.identity;
      if cause.couldNotConfirm {
        StopProtectedWork();
        snapshot, unpublished := Spec.Snapshot(Spec.Unconfirmed, identity, None, Some(cause), None), false;
        return;
      }
      blocked := true;
      Clear(Some(cause), None);
    }

    method Fence(revocation: Option<Spec.Revocation>)
      modifies this
      ensures State() == Spec.Fence(old(State()), revocation)
    {
      hide Spec.CancelStatus, Spec.Clear;
      generation := generation + 1;
      ForgetStatus();
      Clear(None, revocation);
    }

    method StoreProof(csrf: string)
      modifies this`csrfForLogout, this`history
      ensures csrfForLogout == Some(csrf)
      ensures history == old(history).(proofs := old(history).proofs + [csrf], held := Some(|old(history).proofs|))
    {
      csrfForLogout := Some(csrf);
      history := history.(proofs := history.proofs + [csrf], held := Some(|history.proofs|));
    }

    /** The expiry of the session before is aborted and a timer for the new one armed. */
    method ArmExpiry()
      modifies this`armed, this`expiry, this`nextTimer
      ensures armed == old(armed) - Spec.TimerSet(old(expiry)) + {old(nextTimer)}
      ensures expiry == Some(old(nextTimer)) && nextTimer == old(nextTimer) + 1
    {
      AbortTimer();
      var timer := nextTimer;
      nextTimer := nextTimer + 1;
      expiry := Some(timer);
      armed := armed + {timer};
    }

    /** A live lifetime for the new session, whose credential replaces the old one. */
    method HoldCredential(session: Spec.Session)
      modifies this`lifetime, this`lifetimeAborted, this`credential, this`blocked, this`snapshot, this`unpublished
      ensures lifetime == (if old(lifetimeAborted) then old(lifetime) + 1 else old(lifetime)) && !lifetimeAborted
      ensures credential == Some(session) && !blocked && snapshot == Spec.SignedIn(session) && !unpublished
    {
      if lifetimeAborted {
        lifetime, lifetimeAborted := lifetime + 1, false;
      }
      credential := Some(session);
      blocked := false;
      snapshot, unpublished := Spec.SignedIn(session), false;
    }

    /** Adopts the session, or reports that its lifetime is out of bounds and changes nothing. */
    method Adopt(received: Spec.Received, who: Spec.Adopter) returns (adopted: bool)
      modifies this`armed, this`expiry, this`nextTimer, this`lifetime, this`lifetimeAborted, this`credential, this`blocked,
               this`csrfForLogout, this`snapshot, this`unpublished, this`history
      ensures adopted == Spec.Adoptable(received)
      ensures State() == if adopted then Spec.Adopt(old(State()), received.session, who) else old(State())
    {
      hide Spec.SignedIn, Spec.TimerSet;
      if received.remaining <= 0 || received.remaining > Spec.SESSION_LIFETIME_MS + Spec.SERVER_DATE_LAG_MS {
        return false;
      }
      ArmExpiry();
      StoreProof(received.session.csrf);
      HoldCredential(received.session);
      history := history.(adopted := history.adopted + [who]);
      adopted := true;
    }

    /** The part of expiry and `invalidate` that they share. */
    method EndSession(cause: Spec.Cause)
      modifies this
      ensures State() == Spec.EndSession(old(State()), cause)
    {
      hide Spec.CancelStatus, Spec.Clear;
      generation := generation + 1;
      blocked := true;
      CancelCheck();
      Clear(Some(cause), None);
    }

    /** A new owner and generation, and no status check to join. */
    method Disown()
      modifies this`owner, this`generation, this`flights, this`statusFlight
      ensures State() == Spec.CancelStatus(old(State()).(owner := old(owner) + 1, generation := old(generation) + 1)).(statusFlight := None)
    {
      hide Spec.CancelStatus;
      owner := owner + 1;
      generation := generation + 1;
      ForgetStatus();
    }

    method Close()
      requires Valid()
      modifies this
      ensures Valid() && State() == Spec.Close(old(State()))
    {
      hide Safety.Inv, Spec.CancelStatus, Spec.StopProtectedWork;
      Disown();
      StopProtectedWork();
      unpublished := true;
      history := history.(closedAt := nextTicket);
      CloseIsRecorded(old(State()));
      Safety.CloseKeeps(old(State()));
    }

    /** What `close` records: the next ticket, which stopping the protected work does not change. */
    static lemma CloseIsRecorded(s: Spec.Store)
      ensures var t := Spec.CancelStatus(s.(owner := s.owner + 1, generation := s.generation + 1)).(statusFlight := None);
              var u := Spec.StopProtectedWork(t);
              Spec.Close(s) == u.(unpublished := true, history := u.history.(closedAt := u.nextTicket))
    {
    }

    /** Joins the status flight, or starts one; `false` is the rejection of a blocked store. */
    method Revalidate() returns (joined: bool)
      requires Valid()
      modifies this`flights, this`statusController, this`statusFlight
      ensures Valid() && State() == Spec.Revalidate(old(State()))
      ensures joined == !old(blocked)
      ensures joined ==> statusFlight.Some? && statusFlight.value < |flights| && flights[statusFlight.value].epoch == generation
    {
      hide Safety.Inv;
      Safety.RevalidateKeeps(State());
      if blocked { return false; }
      if statusFlight.None? {
        statusController, statusFlight := Some(|flights|), Some(|flights|);
        flights := flights + [Spec.Flight(generation, nextTicket, false, false)];
      }
      joined := true;
      Promises();
    }

    /** The queueing half of `enqueue`, after the fence and its subscribers. */
    method Append(kind: Spec.Kind, caller: nat, ghost call: nat)
      modifies this`pendingMutations, this`mutations, this`nextTicket, this`calls
      ensures State() == Spec.Push(old(State()), kind, caller, call)
    {
      calls := calls.(places := calls.places + [Spec.Place(call, kind)]);
      pendingMutations := pendingMutations + 1;
      mutations := mutations + [Spec.Mutation(nextTicket, kind, generation, owner, caller, Spec.Queued)];
      nextTicket := nextTicket + 1;
    }

    method Login(reactions: seq<Spec.Call>)
      requires Valid()
      modifies this
      ensures Valid() && State() == Spec.Exec(old(State()), Spec.LoginCall(reactions))
      decreases reactions, 1
    {
      hide Safety.Inv;
      Safety.BeforeKeeps(State(), Spec.LoginCall(reactions));
      Safety.ExecKeeps(State(), Spec.LoginCall(reactions));
      ghost var call := calls.made;
      calls := Spec.Called(State()).calls;
      var lifetimeOwner := owner;
      if pendingMutations >= Spec.MAX_PENDING {
        caught := caught + [Spec.Caught(lifetimeOwner, Spec.QUEUE_FULL)];
        return;
      }
      Fence(None);
      Notify(reactions);
      Append(Spec.LoginKind, lifetimeOwner, call);
    }

    method BlockForLogout()
      modifies this`blocked, this`calls, this`history
      ensures State() == Spec.LoggedOut(old(State()))
    {
      blocked := true;
      calls, history := Spec.LoggedOut(State()).calls, Spec.LoggedOut(State()).history;
    }

    method Logout(reactions: seq<Spec.Call>)
      requires Valid()
      modifies this
      ensures Valid() && State() == Spec.Exec(old(State()), Spec.LogoutCall(reactions))
      decreases reactions, 1
    {
      hide Safety.Inv, Spec.Fence, Spec.Push, Spec.LoggedOut;
      Safety.BeforeKeeps(State(), Spec.LogoutCall(reactions));
      Safety.ExecKeeps(State(), Spec.LogoutCall(reactions));
      var caller := owner;
      var full := pendingMutations >= Spec.MAX_PENDING;
      ghost var call := calls.made;
      BlockForLogout();
      Fence(Some(Spec.RevocationUnconfirmed));
      Notify(reactions);
      if full { return; }
      Append(Spec.LogoutKind, caller, call);
    }

    method Invalidate(cause: Spec.Cause, reactions: seq<Spec.Call>)
      requires Valid()
      modifies this
      ensures Valid() && State() == Spec.Exec(old(State()), Spec.InvalidateCall(cause, reactions))
      decreases reactions, 1
    {
      hide Safety.Inv;
      Safety.BeforeKeeps(State(), Spec.InvalidateCall(cause, reactions));
      Safety.ExecKeeps(State(), Spec.InvalidateCall(cause, reactions));
      EndSession(cause);
      statusFlight := None;
      Notify(reactions);
    }

    method RevalidateCallback()
      requires Valid()
      modifies this`flights, this`statusController, this`statusFlight
      ensures Valid() && State() == Spec.Exec(old(State()), Spec.RevalidateCall)
    {
      var joined := Revalidate();
    }

    method CloseCallback()
      requires Valid()
      modifies this
      ensures Valid() && State() == Spec.Exec(old(State()), Spec.CloseCall)
    {
      Close();
    }

    /** `setState` tells every subscriber, which finds the store valid, and these are the calls they make. */
    method Notify(reactions: seq<Spec.Call>)
      requires Valid()
      modifies this
      ensures Valid() && State() == Spec.ExecAll(old(State()), reactions)
      decreases reactions, 0
    {
      hide Safety.Inv, Spec.Before, Spec.Push, Spec.Full;
      if reactions == [] { return; }
      match reactions[0] {
        case RevalidateCall => RevalidateCallback();
        case CloseCall => CloseCallback();
        case LoginCall(nested) => Login(nested);
        case LogoutCall(nested) => Logout(nested);
        case InvalidateCall(cause, nested) => Invalidate(cause, nested);
      }
      Notify(reactions[1..]);
    }

    /** The stored proof leaves with the logout. */
    method SpendProof(ticket: nat)
      modifies this`csrfForLogout, this`history
      ensures State() == Spec.SpendProof(old(State()), ticket)
    {
      csrfForLogout := None;
      history := Spec.SpendProof(State(), ticket).history;
    }

    /** The head of the promise chain runs, unless its owner was closed. */
    method StartMutation()
      requires Valid()
      requires mutations != [] && mutations[0].phase == Spec.Queued
      modifies this
      ensures Valid() && State() == Spec.Next(old(State()), Spec.StartMutation)
    {
      hide Safety.Inv, Spec.SpendProof;
      Safety.NextKeeps(State(), Spec.StartMutation);
      var m := mutations[0];
      if m.owner != owner {
        mutations := mutations[0 := m.(phase := Spec.Settling(Some(Spec.ABORTED)))];
        return;
      }
      mutations := mutations[0 := m.(phase := Spec.Running)];
      history := history.(started := history.started + [m.ticket]);
      if m.kind == Spec.LogoutKind {
        SpendProof(m.ticket);
      }
    }

    /** The continuation of the login request, up to the promise of the proof it stored. */
    method Respond(received: Spec.Received) returns (adopted: bool)
      requires mutations != []
      modifies this
      ensures (State(), adopted) == Spec.Answered(old(State()), received)
    {
      hide Spec.SignedIn, Spec.TimerSet;
      var m := mutations[0];
      ghost var queue := mutations;
      StoreProof(received.session.csrf);
      mutations := mutations[0 := m.(phase := Spec.Settling(None))];
      adopted := false;
      if m.epoch == generation {
        adopted := Adopt(received, Spec.ByLogin(m.ticket));
        if !adopted {
          mutations := mutations[0 := m.(phase := Spec.Settling(Some(Spec.EXPIRED)))];
          assert mutations == queue[0 := m.(phase := Spec.Settling(Some(Spec.EXPIRED)))];
        }
      }
    }

    static lemma PromiseIsRecorded(s: Spec.Store, t: Spec.Store)
      ensures Spec.Promise(s, t) == t.(history := Spec.Promise(s, t).history)
    {
    }

    /** The login request answered. */
    method LoginAnswered(answer: Spec.Answer, reactions: seq<Spec.Call>)
      requires Valid()
      requires mutations != [] && mutations[0].phase == Spec.Running && mutations[0].kind == Spec.LoginKind
      modifies this
      ensures Valid() && State() == Spec.Next(old(State()), Spec.LoginAnswered(answer, reactions))
    {
      hide Safety.Inv, Spec.ExecAll, Spec.Answered, Spec.Promise;
      Safety.NextKeeps(State(), Spec.LoginAnswered(answer, reactions));
      if answer.Failed? {
        mutations := mutations[0 := mutations[0].(phase := Spec.Settling(Some(answer.cause)))];
        return;
      }
      Safety.RespondKeeps(State(), answer.received);
      var adopted := Respond(answer.received);
      history := Spec.Promise(old(State()), State()).history;
      PromiseIsRecorded(old(State()), Spec.Answered(old(State()), answer.received).0);
      if adopted {
        Notify(reactions);
      }
    }

    /** A status check answered. */
    method FlightAnswered(id: nat, answer: Spec.Answer, reactions: seq<Spec.Call>)
      requires Valid()
      requires id < |flights| && !flights[id].settled && Spec.Answerable(State(), id, answer)
      modifies this
      ensures Valid() && State() == Spec.Next(old(State()), Spec.FlightAnswered(id, answer, reactions))
    {
      hide Safety.Inv;
      Safety.NextKeeps(State(), Spec.FlightAnswered(id, answer, reactions));
      var epoch := flights[id].epoch;
      flights := flights[id := flights[id].(settled := true)];
      if epoch != generation { return; }
      Safety.FlightSettledKeeps(old(State()), id);
      Safety.FlightResultKeeps(State(), id, answer);
      match answer {
        case Failed(cause) => SettleFailedStatus(cause);
        case Got(received) =>
          var adopted := Adopt(received, Spec.ByFlight(id));
          if !adopted { SettleFailedStatus(Spec.EXPIRED); }
      }
      Notify(reactions);
    }

    /** The expiry timer elapsed, or failed with `cause`. */
    method TimerFired(timer: nat, cause: Spec.Cause, reactions: seq<Spec.Call>)
      requires Valid()
      modifies this
      ensures Valid() && State() == Spec.Next(old(State()), Spec.TimerFired(timer, cause, reactions))
    {
      hide Safety.Inv;
      Safety.NextKeeps(State(), Spec.TimerFired(timer, cause, reactions));
      if expiry != Some(timer) {
        armed := armed - {timer};
        return;
      }
      Safety.EndKeeps(State(), cause, statusFlight);
      EndSession(cause);
      Notify(reactions);
    }

    /** The logout request settled. */
    method LogoutAnswered(failure: Option<Spec.Cause>, reactions: seq<Spec.Call>)
      requires Valid()
      requires mutations != [] && mutations[0].phase == Spec.Running && mutations[0].kind == Spec.LogoutKind
      modifies this
      ensures Valid() && State() == Spec.Next(old(State()), Spec.LogoutAnswered(failure, reactions))
    {
      hide Safety.Inv;
      Safety.NextKeeps(State(), Spec.LogoutAnswered(failure, reactions));
      var m := mutations[0];
      mutations := mutations[0 := m.(phase := Spec.Settling(failure))];
      if m.epoch != generation { return; }
      Safety.HeadSettlesKeeps(old(State()), failure);
      Safety.ClearKeeps(State(), failure, Some(if failure.None? then Spec.RevocationConfirmed else Spec.RevocationUnconfirmed));
      Clear(failure, Some(if failure.None? then Spec.RevocationConfirmed else Spec.RevocationUnconfirmed));
      Notify(reactions);
    }

    /** `finally` on the head of the chain; a failed login's own handler is still to come. */
    method FinishMutation()
      requires Valid()
      requires mutations != [] && mutations[0].phase.Settling?
      modifies this
      ensures Valid() && State() == Spec.Next(old(State()), Spec.FinishMutation)
    {
      hide Safety.Inv;
      Safety.NextKeeps(State(), Spec.FinishMutation);
      Promises();
      var m := mutations[0];
      pendingMutations := pendingMutations - 1;
      mutations := mutations[1..];
      if m.kind == Spec.LoginKind && m.phase.failure.Some? {
        caught := caught + [Spec.Caught(m.caller, m.phase.failure.value)];
      }
    }

    /** The rejection handler of `login`. */
    method LoginCaught(index: nat, reactions: seq<Spec.Call>)
      requires Valid()
      requires index < |caught|
      modifies this
      ensures Valid() && State() == Spec.Next(old(State()), Spec.LoginCaught(index, reactions))
    {
      hide Safety.Inv;
      Safety.NextKeeps(State(), Spec.LoginCaught(index, reactions));
      var it := caught[index];
      caught := caught[..index] + caught[index + 1..];
      if it.caller == owner && pendingMutations == 0 {
        Safety.CaughtKeeps(old(State()), caught);
        Safety.ClearKeeps(State(), Some(it.cause), None);
        Clear(Some(it.cause), None);
        Notify(reactions);
      }
    }
  }
}
