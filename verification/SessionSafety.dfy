/** Safety of the session store over every interleaving and every reentrant subscriber. */
module SessionSafety {
  import opened Outcomes
  import opened SessionStore

  // ---------------------------------------------------------------- invariants

  /** A held credential is published, alive and timed; without one no timer is armed. */
  ghost predicate CredentialInv(s: Store) {
    && (s.credential.Some? ==>
          && s.snapshot == SignedIn(s.credential.value)
          && !s.lifetimeAborted
          && !s.blocked)
    && (s.expiry.Some? <==> s.credential.Some?)
    && s.armed == TimerSet(s.expiry)
    && (s.snapshot.status == Authenticated ==> (s.credential.Some? <==> !s.unpublished))
  }

  ghost predicate FlightsBefore(flights: seq<Flight>, generation: nat) {
    forall i :: 0 <= i < |flights| ==> flights[i].epoch < generation
  }

  ghost predicate MutationsBefore(mutations: seq<Mutation>, generation: nat) {
    forall i :: 0 <= i < |mutations| ==> mutations[i].epoch < generation
  }

  ghost predicate FlightIsCurrent(s: Store) {
    s.statusFlight.Some? ==>
      s.statusFlight.value < |s.flights| && s.flights[s.statusFlight.value].epoch == s.generation
  }

  /** A status flight in place is of this generation, or nothing that could unblock the store is. */
  ghost predicate EpochInv(s: Store) {
    && FlightsBefore(s.flights, s.generation + 1)
    && MutationsBefore(s.mutations, s.generation + 1)
    && (|| FlightIsCurrent(s)
        || (s.blocked && FlightsBefore(s.flights, s.generation) && MutationsBefore(s.mutations, s.generation)))
  }

  /** A login queued at or after the last `logout` call has been adopted since that call. */
  ghost predicate LoginSince(h: History)
    requires h.mark.Some?
  {
    exists i :: h.mark.value.adoptions <= i < |h.adopted| && h.adopted[i].ByLogin?
                && h.adopted[i].ticket >= h.mark.value.ticket
  }

  /** Nothing but a login queued at or after the last `logout` call can be adopted next. */
  ghost predicate Fenced(s: Store)
    requires s.history.mark.Some?
  {
    && s.blocked
    && s.snapshot.status != Authenticated
    && FlightsBefore(s.flights, s.generation)
    && forall i :: 0 <= i < |s.mutations| && s.mutations[i].ticket < s.history.mark.value.ticket
                   ==> s.mutations[i].epoch < s.generation
  }

  ghost predicate MarkInv(s: Store) {
    s.history.mark.Some? ==>
      && s.history.mark.value.ticket <= s.nextTicket
      && s.history.mark.value.adoptions <= |s.history.adopted|
      && (LoginSince(s.history) || Fenced(s))
  }

  /** The queue is counted exactly, in call order, and only its head has started. */
  ghost predicate QueueInv(q: seq<Mutation>, pending: nat, nextTicket: nat, started: seq<nat>, adopted: seq<Adopter>) {
    && pending == |q|
    && (forall i, j :: 0 <= i < j < |q| ==> q[i].ticket < q[j].ticket)
    && (forall i :: 0 <= i < |q| ==> q[i].ticket < nextTicket)
    && (forall i :: 0 < i < |q| ==> q[i].phase == Queued)
    && (forall i, j :: 0 <= i < j < |started| ==> started[i] < started[j])
    && (forall i, j :: 0 <= i < |started| && 0 <= j < |q| && q[j].phase == Queued ==> started[i] < q[j].ticket)
    && (forall i :: 0 <= i < |started| ==> started[i] < nextTicket)
    && (q != [] && q[0].phase == Running ==> q[0].ticket in started)
    && (forall i :: 0 <= i < |adopted| && adopted[i].ByLogin? ==> adopted[i].ticket in started)
  }

  /** A queued mutation's owner is the current one exactly when it was queued after the last `close`. */
  ghost predicate OwnerInv(q: seq<Mutation>, owner: nat, closedAt: nat, nextTicket: nat) {
    && closedAt <= nextTicket
    && (forall i :: 0 <= i < |q| ==>
          && q[i].owner <= owner
          && (q[i].owner == owner <==> q[i].ticket >= closedAt))
  }

  /** The stored proof is the last one stored, unless it is spent; proofs are spent in order. */
  ghost predicate ProofInv(csrf: Option<string>, held: Option<nat>, proofs: seq<string>, spent: seq<Spent>) {
    && (held.Some? ==> held.value == |proofs| - 1)
    && csrf == (if held.Some? && held.value < |proofs| then Some(proofs[held.value]) else None)
    && (forall i, j :: 0 <= i < j < |spent| ==> spent[i].proof < spent[j].proof)
    && (forall i :: 0 <= i < |spent| ==> spent[i].proof < |proofs|)
    && (held.Some? ==> forall i :: 0 <= i < |spent| ==> spent[i].proof < held.value)
  }

  /** The logout with this ticket has not started. */
  ghost predicate Waiting(q: seq<Mutation>, ticket: nat) {
    exists i :: 0 <= i < |q| && q[i].ticket == ticket && q[i].phase == Queued
  }

  ghost predicate NextInLine(q: seq<Mutation>, ticket: nat) {
    || (|q| > 0 && q[0].ticket == ticket && q[0].phase == Queued)
    || (|q| > 1 && q[1].ticket == ticket && q[1].phase == Queued && q[0].phase.Settling?)
  }

  /** A logout that is owed a proof and has not started is next in line, and the proof is kept for it. */
  ghost predicate OwedInv(s: Store) {
    s.history.owed.Some? ==>
      && s.history.owed.value.ticket < s.nextTicket
      && (forall i :: 0 <= i < |s.mutations| && s.mutations[i].ticket == s.history.owed.value.ticket ==>
            s.mutations[i].kind.LogoutKind?)
      && (Waiting(s.mutations, s.history.owed.value.ticket) ==>
            && NextInLine(s.mutations, s.history.owed.value.ticket)
            && s.history.held == Some(s.history.owed.value.proof))
  }

  /** A current check that may still be answered waits for every logout in the queue. */
  ghost predicate ChecksWait(s: Store) {
    forall i, j :: 0 <= i < |s.flights| && s.flights[i].epoch == s.generation
                   && 0 <= j < |s.mutations| && s.mutations[j].kind.LogoutKind?
                   ==> s.mutations[j].ticket < s.flights[i].after
  }

  /** No check is current and none can start. */
  ghost predicate Quiet(s: Store) {
    s.blocked && FlightsBefore(s.flights, s.generation)
  }

  ghost predicate Inv(s: Store) {
    && CredentialInv(s)
    && EpochInv(s)
    && MarkInv(s)
    && BooksInv(s)
    && OwedInv(s)
    && ChecksWait(s)
  }

  ghost predicate BooksInv(s: Store) {
    var h := s.history;
    && QueueInv(s.mutations, s.pendingMutations, s.nextTicket, h.started, h.adopted)
    && OwnerInv(s.mutations, s.owner, h.closedAt, s.nextTicket)
    && ProofInv(s.csrfForLogout, h.held, h.proofs, h.spent)
  }

  // ---------------------------------------------------------------- calls keep them

  lemma RevalidateKeeps(s: Store)
    requires Inv(s)
    ensures Inv(Revalidate(s)) && (FlightIsCurrent(s) ==> FlightIsCurrent(Revalidate(s)))
    ensures Quiet(s) ==> Quiet(Revalidate(s))
  {
  }

  lemma ClearKeeps(s: Store, error: Option<Cause>, revocation: Option<Revocation>)
    requires Inv(s)
    ensures Inv(Clear(s, error, revocation))
  {
  }

  /** The generation moves on, so that no epoch is current any more. */
  ghost predicate Aged(s: Store, t: Store) {
    && t.generation == s.generation + 1
    && |t.flights| == |s.flights|
    && (forall i :: 0 <= i < |s.flights| ==> t.flights[i].epoch == s.flights[i].epoch)
    && t.mutations == s.mutations
    && (s.blocked ==> t.blocked)
    && (t.blocked || t.statusFlight.None?)
    && t.history == s.history.(closedAt := t.history.closedAt)
    && t.nextTicket == s.nextTicket
  }

  lemma AgeKeeps(s: Store, t: Store)
    requires EpochInv(s) && Aged(s, t)
    ensures EpochInv(t)
    ensures FlightsBefore(t.flights, t.generation) && MutationsBefore(t.mutations, t.generation)
    ensures ChecksWait(t) && (OwedInv(s) ==> OwedInv(t))
  {
  }

  lemma FenceKeeps(s: Store, revocation: Option<Revocation>)
    requires EpochInv(s) && BooksInv(s) && OwedInv(s)
    requires s.armed == TimerSet(s.expiry)
    requires s.history.mark.Some? ==>
               && s.history.mark.value.ticket <= s.nextTicket
               && s.history.mark.value.adoptions <= |s.history.adopted|
               && (s.blocked || LoginSince(s.history))
    ensures Inv(Fence(s, revocation)) && (s.blocked ==> Quiet(Fence(s, revocation)))
  {
    hide EpochInv, OwedInv, BooksInv, ChecksWait;
    AgeKeeps(s, Fence(s, revocation));
    SameBooks(s, Fence(s, revocation));
  }

  lemma EndKeeps(s: Store, cause: Cause, flight: Option<nat>)
    requires Inv(s) && (flight == s.statusFlight || flight == None)
    ensures Inv(EndSession(s, cause).(statusFlight := flight)) && Quiet(EndSession(s, cause).(statusFlight := flight))
  {
    hide EpochInv, OwedInv, BooksInv, ChecksWait;
    var t := EndSession(s, cause).(statusFlight := flight);
    AgeKeeps(s, t);
    SameBooks(s, t);
  }

  lemma {:induction false} CloseKeeps(s: Store)
    requires Inv(s)
    ensures Inv(Close(s)) && (s.blocked ==> Quiet(Close(s)))
  {
    hide EpochInv, OwedInv, BooksInv, ChecksWait;
    AgeKeeps(s, Close(s));
    CloseBooks(s);
    assert s.history.mark.Some? ==> LoginSince(Close(s).history) == LoginSince(s.history);
  }

  lemma SameBooks(s: Store, t: Store)
    requires BooksInv(s) && t.mutations == s.mutations && t.pendingMutations == s.pendingMutations
    requires t.nextTicket == s.nextTicket && t.owner == s.owner && t.csrfForLogout == s.csrfForLogout
    requires t.history == s.history
    ensures BooksInv(t)
  {
  }

  lemma CloseBooks(s: Store)
    requires BooksInv(s)
    ensures BooksInv(Close(s))
  {
  }

  lemma {:induction false} BeforeKeeps(s: Store, c: Call)
    requires Inv(s)
    ensures Inv(Before(s, c))
    ensures FlightIsCurrent(s) || !c.RevalidateCall? ==> FlightIsCurrent(Before(s, c))
    ensures Quiet(s) || c.LogoutCall? ==> Quiet(Before(s, c))
  {
    match c
    case RevalidateCall => RevalidateKeeps(s);
    case CloseCall => CloseKeeps(s);
    case InvalidateCall(cause, _) => EndKeeps(s, cause, None);
    case LoginCall(_) => FenceKeeps(Called(s), None);
    case LogoutCall(_) =>
      FenceKeeps(LoggedOut(s), Some(RevocationUnconfirmed));
  }

  lemma PushBooks(s: Store, kind: Kind, caller: nat, call: nat)
    requires BooksInv(s)
    ensures BooksInv(Push(s, kind, caller, call))
  {
  }

  lemma PushOwed(s: Store, kind: Kind, caller: nat, call: nat)
    requires OwedInv(s)
    ensures OwedInv(Push(s, kind, caller, call))
  {
  }

  lemma PushMark(s: Store, kind: Kind, caller: nat, call: nat)
    requires MarkInv(s)
    ensures MarkInv(Push(s, kind, caller, call))
  {
    hide LoginSince;
  }

  lemma PushKeeps(s: Store, kind: Kind, caller: nat, call: nat)
    requires Inv(s) && FlightIsCurrent(s) && (kind.LogoutKind? ==> Quiet(s))
    ensures Inv(Push(s, kind, caller, call)) && FlightIsCurrent(Push(s, kind, caller, call))
    ensures Quiet(s) ==> Quiet(Push(s, kind, caller, call))
  {
    hide BooksInv, OwedInv, MarkInv;
    PushBooks(s, kind, caller, call);
    PushOwed(s, kind, caller, call);
    PushMark(s, kind, caller, call);
  }

  lemma {:induction false} ExecKeeps(s: Store, c: Call)
    requires Inv(s)
    ensures Inv(Exec(s, c))
    ensures FlightIsCurrent(s) ==> FlightIsCurrent(Exec(s, c))
    ensures Quiet(s) ==> Quiet(Exec(s, c))
    decreases c
  {
    hide Inv, FlightIsCurrent, Quiet, Before, Push;
    BeforeKeeps(s, c);
    match c
    case RevalidateCall =>
    case CloseCall =>
    case InvalidateCall(_, reactions) =>
      ExecAllKeeps(Before(s, c), reactions);
    case LoginCall(reactions) =>
      if Full(s) {
        FullKeeps(s);
      } else {
        ExecAllKeeps(Before(s, c), reactions);
        PushKeeps(ExecAll(Before(s, c), reactions), LoginKind, s.owner, s.calls.made);
      }
    case LogoutCall(reactions) =>
      ExecAllKeeps(Before(s, c), reactions);
      PushKeeps(ExecAll(Before(s, c), reactions), LogoutKind, s.owner, s.calls.made);
  }

  lemma FullKeeps(s: Store)
    requires Inv(s)
    ensures var t := Called(s).(caught := s.caught + [Caught(s.owner, QUEUE_FULL)]);
            Inv(t) && (FlightIsCurrent(s) ==> FlightIsCurrent(t)) && (Quiet(s) ==> Quiet(t))
  {
  }

  lemma {:induction false} ExecAllKeeps(s: Store, calls: seq<Call>)
    requires Inv(s)
    ensures Inv(ExecAll(s, calls))
    ensures FlightIsCurrent(s) ==> FlightIsCurrent(ExecAll(s, calls))
    ensures Quiet(s) ==> Quiet(ExecAll(s, calls))
    decreases calls
  {
    hide Inv, FlightIsCurrent, Quiet, Exec;
    if calls != [] {
      ExecKeeps(s, calls[0]);
      ExecAllKeeps(Exec(s, calls[0]), calls[1..]);
    }
  }

  // ---------------------------------------------------------------- steps keep them

  /** The adopter is of the current generation, and no logout is waiting for the stored proof. */
  ghost predicate MayAdopt(s: Store, who: Adopter) {
    && (match who
        case ByFlight(id) => id < |s.flights| && s.flights[id].epoch == s.generation
        case ByLogin(ticket) =>
          s.mutations != [] && s.mutations[0].ticket == ticket && s.mutations[0].epoch == s.generation
          && ticket in s.history.started)
    && (s.history.owed.Some? ==> !Waiting(s.mutations, s.history.owed.value.ticket))
  }

  lemma StoreProofBooks(s: Store, csrf: string)
    requires BooksInv(s)
    ensures BooksInv(StoreProof(s, csrf))
  {
  }

  lemma AdoptBooks(s: Store, v: Session, who: Adopter)
    requires BooksInv(s) && (who.ByLogin? ==> who.ticket in s.history.started)
    ensures BooksInv(Adopt(s, v, who))
  {
    StoreProofBooks(s, v.csrf);
  }

  /** Unless the fence is already lifted, only a login after the last logout may adopt; that lifts it. */
  lemma AdoptMark(s: Store, v: Session, who: Adopter)
    requires MarkInv(s) && MayAdopt(s, who)
    ensures MarkInv(Adopt(s, v, who))
  {
    var h := s.history;
    var h' := Adopt(s, v, who).history;
    if h.mark.Some? {
      if LoginSince(h) {
        var i :| h.mark.value.adoptions <= i < |h.adopted| && h.adopted[i].ByLogin?
                 && h.adopted[i].ticket >= h.mark.value.ticket;
        assert h'.adopted[i] == h.adopted[i];
      } else {
        assert h'.adopted[|h.adopted|] == who;
      }
    }
  }

  lemma AdoptKeeps(s: Store, v: Session, who: Adopter)
    requires EpochInv(s) && MarkInv(s) && BooksInv(s) && OwedInv(s) && ChecksWait(s) && MayAdopt(s, who)
    requires s.armed == TimerSet(s.expiry)
    ensures Inv(Adopt(s, v, who))
  {
    AdoptBooks(s, v, who);
    AdoptMark(s, v, who);
    hide BooksInv, MarkInv;
  }

  lemma SettleFailedKeeps(s: Store, id: nat, cause: Cause)
    requires Inv(s) && id < |s.flights| && s.flights[id].epoch == s.generation
    ensures Inv(SettleFailedStatus(s, cause))
  {
    hide BooksInv, OwedInv, ChecksWait, LoginSince;
    assert BooksInv(SettleFailedStatus(s, cause)) by { SameBooks(s, SettleFailedStatus(s, cause)); }
    assert OwedInv(SettleFailedStatus(s, cause)) && ChecksWait(SettleFailedStatus(s, cause)) by { SameWaits(s, SettleFailedStatus(s, cause)); }
  }

  lemma SameWaits(s: Store, t: Store)
    requires OwedInv(s) && ChecksWait(s)
    requires t.mutations == s.mutations && t.nextTicket == s.nextTicket && t.history == s.history
    requires t.flights == s.flights && t.generation == s.generation
    ensures OwedInv(t) && ChecksWait(t)
  {
  }

  /** A check that reports a session has waited for the logout that is owed a proof. */
  lemma AnswerOwesNothing(s: Store, id: nat, answer: Answer)
    requires OwedInv(s) && ChecksWait(s)
    requires id < |s.flights| && s.flights[id].epoch == s.generation && answer.Got? && Answerable(s, id, answer)
    ensures s.history.owed.Some? ==> !Waiting(s.mutations, s.history.owed.value.ticket)
  {
  }

  lemma FlightResultKeeps(s: Store, id: nat, answer: Answer)
    requires Inv(s) && id < |s.flights| && s.flights[id].epoch == s.generation && Answerable(s, id, answer)
    ensures Inv(FlightResult(s, id, answer))
  {
    match answer
    case Failed(cause) => SettleFailedKeeps(s, id, cause);
    case Got(r) =>
      if Adoptable(r) {
        AnswerOwesNothing(s, id, answer);
        AdoptKeeps(s, r.session, ByFlight(id));
      } else {
        SettleFailedKeeps(s, id, EXPIRED);
      }
  }

  lemma FlightSettledKeeps(s: Store, id: nat)
    requires Inv(s) && id < |s.flights|
    ensures Inv(s.(flights := s.flights[id := s.flights[id].(settled := true)]))
  {
  }

  /** Starting the head keeps the start order: every earlier start was of an earlier ticket. */
  lemma BeginQueue(q: seq<Mutation>, phase: Phase, nextTicket: nat, started: seq<nat>, adopted: seq<Adopter>)
    requires QueueInv(q, |q|, nextTicket, started, adopted) && q != [] && q[0].phase == Queued
    requires phase == Running || phase.Settling?
    ensures var started' := if phase == Running then started + [q[0].ticket] else started;
            QueueInv(q[0 := q[0].(phase := phase)], |q|, nextTicket, started', adopted)
  {
    var q' := q[0 := q[0].(phase := phase)];
    assert forall i :: 0 < i < |q| ==> q'[i] == q[i];
    if phase == Running {
      assert (started + [q[0].ticket])[|started|] == q[0].ticket;
    }
  }

  lemma SpendKeeps(s: Store, ticket: nat)
    requires BooksInv(s)
    ensures BooksInv(SpendProof(s, ticket))
  {
    var h := s.history;
    hide QueueInv, OwnerInv;
    if h.held.Some? {
      assert (h.spent + [Spent(ticket, h.held.value)])[|h.spent|].proof == h.held.value;
    }
  }

  lemma CountsItself(s: Store)
    requires BooksInv(s)
    ensures s.pendingMutations == |s.mutations|
  {
  }

  lemma BeginBooks(s: Store)
    requires BooksInv(s) && s.mutations != [] && Head(s).phase.Queued?
    ensures BooksInv(Begin(s))
  {
    hide QueueInv, ProofInv;
    var h := s.history;
    var m := Head(s);
    var phase := if m.owner == s.owner then Running else Settling(Some(ABORTED));
    assert s.pendingMutations == |s.mutations| by { CountsItself(s); }
    BeginQueue(s.mutations, phase, s.nextTicket, h.started, h.adopted);
    var t := WithHead(s, phase).(history := h.(started := if m.owner == s.owner then h.started + [m.ticket] else h.started));
    assert BooksInv(t);
    SpendKeeps(t, m.ticket);
  }

  /** Starting the head changes nothing in the queue but the phase of the head. */
  lemma BeginSame(s: Store)
    requires s.mutations != []
    ensures var q, q' := s.mutations, Begin(s).mutations;
            && |q'| == |q| && q'[0].ticket == q[0].ticket && q'[0].kind == q[0].kind && q'[0].phase != Queued
            && (forall i :: 0 < i < |q| ==> q'[i] == q[i])
    ensures Begin(s).nextTicket == s.nextTicket && Begin(s).history.owed == s.history.owed
  {
  }

  lemma TicketsDiffer(s: Store)
    requires BooksInv(s)
    ensures forall i, j :: 0 <= i < j < |s.mutations| ==> s.mutations[i].ticket < s.mutations[j].ticket
  {
  }

  lemma BeginOwed(s: Store)
    requires BooksInv(s) && OwedInv(s) && s.mutations != [] && Head(s).phase.Queued?
    ensures OwedInv(Begin(s))
  {
    hide Begin, BooksInv;
    BeginSame(s);
    TicketsDiffer(s);
  }

  lemma BeginMark(s: Store)
    requires MarkInv(s) && s.mutations != [] && Head(s).phase.Queued?
    ensures MarkInv(Begin(s))
  {
    assert s.history.mark.Some? ==> LoginSince(Begin(s).history) == LoginSince(s.history);
    hide LoginSince;
  }

  lemma BeginEpoch(s: Store)
    requires EpochInv(s) && CredentialInv(s) && s.mutations != [] && Head(s).phase.Queued?
    ensures EpochInv(Begin(s)) && CredentialInv(Begin(s))
  {
    hide Begin, CredentialInv;
    BeginOnlyStarts(s);
    assert CredentialInv(Begin(s)) by { CredentialStays(s, Begin(s)); }
  }

  lemma BeginOnlyStarts(s: Store)
    requires s.mutations != []
    ensures var t := Begin(s);
            && t.generation == s.generation && t.blocked == s.blocked && t.flights == s.flights && t.statusFlight == s.statusFlight
            && t.credential == s.credential && t.snapshot == s.snapshot && t.lifetimeAborted == s.lifetimeAborted
            && t.expiry == s.expiry && t.armed == s.armed && t.unpublished == s.unpublished
            && |t.mutations| == |s.mutations|
            && forall i :: 0 <= i < |s.mutations| ==> t.mutations[i].epoch == s.mutations[i].epoch
  {
  }

  lemma CredentialStays(s: Store, t: Store)
    requires CredentialInv(s) && t.credential == s.credential && t.snapshot == s.snapshot && t.lifetimeAborted == s.lifetimeAborted
    requires t.expiry == s.expiry && t.armed == s.armed && t.blocked == s.blocked && t.unpublished == s.unpublished
    ensures CredentialInv(t)
  {
  }

  lemma BeginKeeps(s: Store)
    requires Inv(s) && s.mutations != [] && Head(s).phase.Queued?
    ensures Inv(Begin(s))
  {
    hide BooksInv, OwedInv, MarkInv, EpochInv, CredentialInv, ChecksWait;
    BeginBooks(s);
    BeginOwed(s);
    BeginMark(s);
    BeginEpoch(s);
    BeginChecks(s);
  }

  lemma BeginChecks(s: Store)
    requires ChecksWait(s) && s.mutations != []
    ensures ChecksWait(Begin(s))
  {
  }

  /** The running head is done; nobody has been told yet. */
  lemma HeadSettlesKeeps(s: Store, failure: Option<Cause>)
    requires Inv(s) && s.mutations != [] && Head(s).phase == Running
    ensures Inv(WithHead(s, Settling(failure)))
  {
  }

  lemma StoreProofKeeps(s: Store, csrf: string)
    requires Inv(s) && s.mutations != [] && Head(s).phase == Running
    ensures Inv(StoreProof(s, csrf))
    ensures s.history.owed.Some? ==> !Waiting(s.mutations, s.history.owed.value.ticket)
  {
    StoreProofBooks(s, csrf);
    assert s.history.mark.Some? ==> LoginSince(StoreProof(s, csrf).history) == LoginSince(s.history);
    assert BooksInv(s);
    hide BooksInv;
  }

  /** The proof just stored is promised to the logout behind the head. */
  lemma PromiseKeeps(s: Store, t: Store)
    requires Inv(t) && BooksInv(s) && s.mutations != [] && Head(s).phase == Running
    requires |t.mutations| == |s.mutations| && t.mutations[0].phase.Settling? && t.nextTicket == s.nextTicket
    requires t.mutations[0].ticket == s.mutations[0].ticket && t.mutations[1..] == s.mutations[1..]
    ensures Inv(Promise(s, t))
  {
    hide BooksInv, LoginSince;
    assert OwedInv(Promise(s, t)) by { PromiseIsOwed(s, t); }
    assert BooksInv(Promise(s, t)) by { PromiseBooks(s, t); }
    assert t.history.mark.Some? ==> LoginSince(Promise(s, t).history) == LoginSince(t.history) by {
      PromiseAdoptsNothing(s, t);
    }
    hide EpochInv, CredentialInv, ChecksWait, OwedInv;
  }

  lemma PromiseAdoptsNothing(s: Store, t: Store)
    ensures Promise(s, t).history.mark == t.history.mark
    ensures t.history.mark.Some? ==> LoginSince(Promise(s, t).history) == LoginSince(t.history)
  {
  }

  lemma PromiseBooks(s: Store, t: Store)
    requires BooksInv(t)
    ensures BooksInv(Promise(s, t))
  {
  }

  lemma PromiseIsOwed(s: Store, t: Store)
    requires OwedInv(t) && BooksInv(s) && BooksInv(t) && s.mutations != []
    requires |t.mutations| == |s.mutations| && t.mutations[0].phase.Settling? && t.nextTicket == s.nextTicket
    requires t.mutations[0].ticket == s.mutations[0].ticket && t.mutations[1..] == s.mutations[1..]
    ensures OwedInv(Promise(s, t))
  {
    if LogoutBehind(s) {
      assert t.mutations[1] == t.mutations[1..][0] == s.mutations[1];
    }
    hide OwnerInv;
  }

  lemma AnsweredKeeps(s: Store, r: Received)
    requires Inv(s) && s.mutations != [] && Head(s).phase == Running && Head(s).kind.LoginKind?
    ensures Inv(Answered(s, r).0)
  {
    StoreProofKeeps(s, r.session.csrf);
    var stored := StoreProof(s, r.session.csrf);
    if Head(s).epoch != s.generation {
      HeadSettlesKeeps(stored, None);
    } else if !Adoptable(r) {
      HeadSettlesKeeps(stored, Some(EXPIRED));
    } else {
      HeadSettlesKeeps(stored, None);
      AdoptKeeps(WithHead(stored, Settling(None)), r.session, ByLogin(Head(s).ticket));
    }
  }

  lemma AnsweredQueue(s: Store, r: Received)
    requires s.mutations != []
    ensures var t := Answered(s, r).0;
            && |t.mutations| == |s.mutations| && t.mutations[0].phase.Settling? && t.nextTicket == s.nextTicket
            && t.mutations[0].ticket == s.mutations[0].ticket && t.mutations[1..] == s.mutations[1..]
  {
  }

  lemma RespondKeeps(s: Store, r: Received)
    requires Inv(s) && s.mutations != [] && Head(s).phase == Running && Head(s).kind.LoginKind?
    ensures Inv(Respond(s, r).0)
  {
    assert BooksInv(s);
    hide Answered, Inv, BooksInv, Promise;
    AnsweredKeeps(s, r);
    AnsweredQueue(s, r);
    PromiseKeeps(s, Answered(s, r).0);
  }

  /** The store without its settled head. */
  function Finished(s: Store): Store
    requires s.mutations != []
  {
    Next(s, FinishMutation).(caught := s.caught)
  }

  lemma FinishBooks(s: Store)
    requires BooksInv(s) && s.mutations != [] && Head(s).phase.Settling?
    ensures BooksInv(Finished(s))
  {
  }

  lemma FinishOwed(s: Store)
    requires OwedInv(s) && s.mutations != [] && Head(s).phase.Settling?
    ensures OwedInv(Finished(s))
  {
    assert forall i :: 0 <= i < |s.mutations| - 1 ==> Finished(s).mutations[i] == s.mutations[i + 1];
  }

  lemma FinishRest(s: Store)
    requires CredentialInv(s) && EpochInv(s) && MarkInv(s) && ChecksWait(s) && s.mutations != [] && Head(s).phase.Settling?
    ensures CredentialInv(Finished(s)) && EpochInv(Finished(s)) && MarkInv(Finished(s)) && ChecksWait(Finished(s))
  {
    assert s.history.mark.Some? ==> LoginSince(Finished(s).history) == LoginSince(s.history);
    hide LoginSince, OwedInv, BooksInv;
  }

  lemma FinishKeeps(s: Store)
    requires Inv(s) && s.mutations != [] && Head(s).phase.Settling?
    ensures Inv(Next(s, FinishMutation))
  {
    hide BooksInv, OwedInv, MarkInv, EpochInv, CredentialInv, ChecksWait;
    FinishBooks(s);
    FinishOwed(s);
    FinishRest(s);
    assert Inv(Finished(s));
    CaughtKeeps(Finished(s), Next(s, FinishMutation).caught);
  }

  lemma MutationStepKeeps(s: Store, a: Step)
    requires Inv(s) && (a.LoginAnswered? || a.LogoutAnswered?)
    ensures Inv(Next(s, a))
  {
    hide Inv;
    if s.mutations != [] && Head(s).phase == Running {
      match a
      case LoginAnswered(answer, reactions) =>
        if Head(s).kind == LoginKind {
          if answer.Failed? {
            HeadSettlesKeeps(s, Some(answer.cause));
          } else {
            RespondKeeps(s, answer.received);
            ExecAllKeeps(Respond(s, answer.received).0, reactions);
          }
        }
      case LogoutAnswered(failure, reactions) =>
        var revocation := Some(if failure.None? then RevocationConfirmed else RevocationUnconfirmed);
        var t := WithHead(s, Settling(failure));
        HeadSettlesKeeps(s, failure);
        ClearKeeps(t, failure, revocation);
        ExecAllKeeps(Clear(t, failure, revocation), reactions);
    }
  }

  lemma FlightStepKeeps(s: Store, id: nat, answer: Answer, reactions: seq<Call>)
    requires Inv(s)
    ensures Inv(Next(s, FlightAnswered(id, answer, reactions)))
  {
    hide Inv;
    if id < |s.flights| {
      var t := s.(flights := s.flights[id := s.flights[id].(settled := true)]);
      FlightSettledKeeps(s, id);
      if s.flights[id].epoch == s.generation && Answerable(s, id, answer) {
        FlightResultKeeps(t, id, answer);
        ExecAllKeeps(FlightResult(t, id, answer), reactions);
      }
    }
  }

  lemma CaughtStepKeeps(s: Store, i: nat, reactions: seq<Call>)
    requires Inv(s)
    ensures Inv(Next(s, LoginCaught(i, reactions)))
  {
    hide Inv;
    if i < |s.caught| {
      var t := s.(caught := s.caught[..i] + s.caught[i + 1..]);
      CaughtKeeps(s, t.caught);
      ClearKeeps(t, Some(s.caught[i].cause), None);
      ExecAllKeeps(Clear(t, Some(s.caught[i].cause), None), reactions);
    }
  }

  lemma TimerStepKeeps(s: Store, timer: nat, cause: Cause, reactions: seq<Call>)
    requires Inv(s)
    ensures Inv(Next(s, TimerFired(timer, cause, reactions)))
  {
    hide Inv;
    if s.expiry != Some(timer) {
      StaleTimer(s, timer);
    } else {
      EndKeeps(s, cause, s.statusFlight);
      ExecAllKeeps(EndSession(s, cause), reactions);
    }
  }

  lemma NextKeeps(s: Store, a: Step)
    requires Inv(s)
    ensures Inv(Next(s, a))
  {
    hide Inv;
    match a
    case Outside(call) => ExecKeeps(s, call);
    case StartMutation => if s.mutations != [] && Head(s).phase.Queued? { BeginKeeps(s); }
    case LoginAnswered(_, _) => MutationStepKeeps(s, a);
    case LogoutAnswered(_, _) => MutationStepKeeps(s, a);
    case FinishMutation => if s.mutations != [] && Head(s).phase.Settling? { FinishKeeps(s); }
    case LoginCaught(i, reactions) => CaughtStepKeeps(s, i, reactions);
    case FlightAnswered(id, answer, reactions) => FlightStepKeeps(s, id, answer, reactions);
    case FlightForgotten(id) => ForgottenKeeps(s);
    case TimerFired(timer, cause, reactions) => TimerStepKeeps(s, timer, cause, reactions);
  }

  lemma CaughtKeeps(s: Store, caught: seq<Caught>)
    requires Inv(s)
    ensures Inv(s.(caught := caught))
  {
  }

  lemma ForgottenKeeps(s: Store)
    requires Inv(s)
    ensures Inv(s.(statusFlight := None, statusController := None))
  {
  }

  /** A timer that was superseded or cancelled is no longer armed, so its firing changes nothing. */
  lemma StaleTimer(s: Store, timer: nat)
    requires Inv(s) && s.expiry != Some(timer)
    ensures s.armed - {timer} == s.armed && s.(armed := s.armed - {timer}) == s
  {
  }

  lemma {:induction false} RunKeeps(initial: Snapshot, steps: seq<Step>)
    ensures Inv(Run(Start(initial), steps))
    decreases |steps|
  {
    if steps != [] {
      RunKeeps(initial, steps[..|steps| - 1]);
      hide Inv;
      NextKeeps(Run(Start(initial), steps[..|steps| - 1]), steps[|steps| - 1]);
    }
  }
}
