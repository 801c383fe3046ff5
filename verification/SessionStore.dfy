/**
 `auth/session/store.ts` as a transition system. A step is one synchronous stretch of the program: a
 call from outside or one promise continuation. Every `setState` notifies subscribers synchronously,
 and a subscriber may call the store again; the environment chooses those calls, to any depth.
 */
module SessionStore {
  import opened Outcomes

  const MAX_PENDING: nat := 16
  const SESSION_LIFETIME_MS: int := 3_600_000
  const SERVER_DATE_LAG_MS: int := 5_000

  // ---------------------------------------------------------------- values

  /** An error as far as the store looks into it: could a later check still confirm the session? */
  datatype Cause = Cause(name: string, couldNotConfirm: bool)

  const EXPIRED := Cause("auth/session-expired", false)
  const ABORTED := Cause("std/aborted", false)
  const QUEUE_FULL := Cause("auth/config", false)

  datatype Session = Session(identity: string, expiresAt: string, csrf: string)

  /** A decoded session and how long it lasts on the server's clock. */
  datatype Received = Received(session: Session, remaining: int)

  predicate Adoptable(r: Received) {
    0 < r.remaining <= SESSION_LIFETIME_MS + SERVER_DATE_LAG_MS
  }

  datatype Answer = Got(received: Received) | Failed(cause: Cause)

  datatype Status = Authenticated | Unconfirmed | Unauthenticated
  datatype Revocation = RevocationConfirmed | RevocationUnconfirmed

  datatype Snapshot = Snapshot(
    status: Status,
    identity: Option<string>,
    expiresAt: Option<string>,
    error: Option<Cause>,
    revocation: Option<Revocation>)

  function SignedIn(v: Session): Snapshot {
    Snapshot(Authenticated, Some(v.identity), Some(v.expiresAt), None, None)
  }

  // ---------------------------------------------------------------- state

  /**
   A status check: its epoch, the next ticket when it started (it asks the server only after every
   mutation queued by then), whether it was cancelled, and whether its answer was handled.
   */
  datatype Flight = Flight(epoch: nat, after: nat, cancelled: bool, settled: bool)

  datatype Kind = LoginKind | LogoutKind

  datatype Phase = Queued | Running | Settling(failure: Option<Cause>)

  /**
   A queued login or logout. `epoch` and `owner` are what it captured when it was queued, `caller` the
   owner when `login` was called, and `ticket` its place in the queue, which is handed out after the
   subscribers of its fence have run.
   */
  datatype Mutation = Mutation(ticket: nat, kind: Kind, epoch: nat, owner: nat, caller: nat, phase: Phase)

  /** A failed login whose own rejection handler has not run yet. */
  datatype Caught = Caught(caller: nat, cause: Cause)

  datatype Adopter = ByFlight(id: nat) | ByLogin(ticket: nat)

  /** The last `logout` call: the next ticket at that moment, and how many sessions were adopted before. */
  datatype Mark = Mark(ticket: nat, adoptions: nat)

  /** A place in the queue: the number of the call that took it, in the order of the calls, and its kind. */
  datatype Place = Place(call: nat, kind: Kind)

  /** A `logout` call: its number, and how many sessions were adopted before. */
  datatype LogoutCalled = LogoutCalled(call: nat, adoptions: nat)

  /**
   The order of the calls: how many logins and logouts have been called, at any depth, which of them took
   each place in the queue, and the calls of `logout`.
   */
  datatype Calls = Calls(made: nat, places: seq<Place>, logouts: seq<LogoutCalled>)

  datatype Spent = Spent(ticket: nat, proof: nat)

  /**
   What happened so far: adoptions in order, the last logout call, tickets in the order they started,
   every stored CSRF proof, which of them is still stored, which logout spent which, the next ticket
   at the last `close`, and the proof the last login left to a logout right behind it.
   */
  datatype History = History(
    adopted: seq<Adopter>,
    mark: Option<Mark>,
    started: seq<nat>,
    proofs: seq<string>,
    held: Option<nat>,
    spent: seq<Spent>,
    closedAt: nat,
    owed: Option<Spent>)

  /** `unpublished` says that `close` has run since the last publication, or that there was none. */
  datatype Store = Store(
    generation: nat,
    blocked: bool,
    owner: nat,
    credential: Option<Session>,
    csrfForLogout: Option<string>,
    lifetime: nat,
    lifetimeAborted: bool,
    expiry: Option<nat>,
    armed: set<nat>,
    nextTimer: nat,
    statusController: Option<nat>,
    statusFlight: Option<nat>,
    flights: seq<Flight>,
    pendingMutations: nat,
    mutations: seq<Mutation>,
    nextTicket: nat,
    caught: seq<Caught>,
    snapshot: Snapshot,
    unpublished: bool,
    calls: Calls,
    history: History)

  function Start(initial: Snapshot): Store {
    Store(0, false, 0, None, None, 0, false, None, {}, 0, None, None, [], 0, [], 0, [], initial, true,
          Calls(0, [], []), History([], None, [], [], None, [], 0, None))
  }

  // ---------------------------------------------------------------- pieces

  function TimerSet(timer: Option<nat>): set<nat> {
    if timer.Some? then {timer.value} else {}
  }

  function StopProtectedWork(s: Store): Store {
    s.(credential := None, lifetimeAborted := true, armed := s.armed - TimerSet(s.expiry), expiry := None)
  }

  /** `clear`, up to the notification of subscribers. */
  function Clear(s: Store, error: Option<Cause>, revocation: Option<Revocation>): Store {
    StopProtectedWork(s).(snapshot := Snapshot(Unauthenticated, None, None, error, revocation), unpublished := false)
  }

  function CancelStatus(s: Store): Store {
    if s.statusController.Some? && s.statusController.value < |s.flights| then
      var id := s.statusController.value;
      s.(flights := s.flights[id := s.flights[id].(cancelled := true)])
    else s
  }

  /** `fence`, up to the notification of subscribers. */
  function Fence(s: Store, revocation: Option<Revocation>): Store {
    Clear(CancelStatus(s.(generation := s.generation + 1)).(statusFlight := None), None, revocation)
  }

  function StoreProof(s: Store, csrf: string): Store {
    s.(csrfForLogout := Some(csrf),
       history := s.history.(proofs := s.history.proofs + [csrf], held := Some(|s.history.proofs|)))
  }

  /** `adopt` of an adoptable session, up to the notification of subscribers. */
  function Adopt(s: Store, v: Session, who: Adopter): Store {
    StoreProof(s, v.csrf).(
      lifetime := if s.lifetimeAborted then s.lifetime + 1 else s.lifetime,
      lifetimeAborted := false,
      credential := Some(v),
      blocked := false,
      armed := s.armed - TimerSet(s.expiry) + {s.nextTimer},
      expiry := Some(s.nextTimer),
      nextTimer := s.nextTimer + 1,
      snapshot := SignedIn(v),
      unpublished := false,
      history := StoreProof(s, v.csrf).history.(adopted := s.history.adopted + [who]))
  }

  /** `settleFailedStatus`, up to the notification of subscribers. */
  function SettleFailedStatus(s: Store, cause: Cause): Store {
    if cause.couldNotConfirm then
      StopProtectedWork(s).(snapshot := Snapshot(Unconfirmed, s.snapshot.identity, None, Some(cause), None), unpublished := false)
    else Clear(s.(blocked := true), Some(cause), None)
  }

  /** The body shared by expiry and `invalidate`; only the latter forgets the status flight. */
  function EndSession(s: Store, cause: Cause): Store {
    Clear(CancelStatus(s.(generation := s.generation + 1, blocked := true)), Some(cause), None)
  }

  function Close(s: Store): Store {
    StopProtectedWork(CancelStatus(s.(owner := s.owner + 1, generation := s.generation + 1)).(statusFlight := None)).(
      unpublished := true,
      history := s.history.(closedAt := s.nextTicket))
  }

  function Revalidate(s: Store): Store {
    if s.blocked || s.statusFlight.Some? then s
    else
      s.(flights := s.flights + [Flight(s.generation, s.nextTicket, false, false)],
         statusController := Some(|s.flights|),
         statusFlight := Some(|s.flights|))
  }

  // ---------------------------------------------------------------- calls, with their reactions

  /** A call into the store, with the calls subscribers make while it notifies them. */
  datatype Call =
    | RevalidateCall
    | CloseCall
    | LoginCall(reactions: seq<Call>)
    | LogoutCall(reactions: seq<Call>)
    | InvalidateCall(cause: Cause, reactions: seq<Call>)

  /** A login or logout is called, and numbered. */
  function Called(s: Store): Store {
    s.(calls := s.calls.(made := s.calls.made + 1))
  }

  function LoggedOut(s: Store): Store {
    s.(blocked := true,
       calls := s.calls.(made := s.calls.made + 1,
                         logouts := s.calls.logouts + [LogoutCalled(s.calls.made, |s.history.adopted|)]),
       history := s.history.(mark := Some(Mark(s.nextTicket, |s.history.adopted|))))
  }

  function Push(s: Store, kind: Kind, caller: nat, call: nat): Store {
    s.(calls := s.calls.(places := s.calls.places + [Place(call, kind)]),
       pendingMutations := s.pendingMutations + 1,
       mutations := s.mutations + [Mutation(s.nextTicket, kind, s.generation, s.owner, caller, Queued)],
       nextTicket := s.nextTicket + 1)
  }

  /** The state in which a call notifies subscribers; calls that notify nobody are complete there. */
  function Before(s: Store, c: Call): Store {
    match c
    case RevalidateCall => Revalidate(s)
    case CloseCall => Close(s)
    case InvalidateCall(cause, _) => EndSession(s, cause).(statusFlight := None)
    case LoginCall(_) => Fence(Called(s), None)
    case LogoutCall(_) => Fence(LoggedOut(s), Some(RevocationUnconfirmed))
  }

  predicate Full(s: Store) {
    s.pendingMutations >= MAX_PENDING
  }

  /**
   One call. The queue bound is tested before the fence; the epoch and the owner are read after it, so
   after the subscribers have run. A full queue still fences a logout, and leaves a login's rejection
   to its handler.
   */
  function Exec(s: Store, c: Call): Store
    decreases c
  {
    match c
    case RevalidateCall => Before(s, c)
    case CloseCall => Before(s, c)
    case InvalidateCall(_, reactions) => ExecAll(Before(s, c), reactions)
    case LoginCall(reactions) =>
      if Full(s) then Called(s).(caught := s.caught + [Caught(s.owner, QUEUE_FULL)])
      else Push(ExecAll(Before(s, c), reactions), LoginKind, s.owner, s.calls.made)
    case LogoutCall(reactions) =>
      var t := ExecAll(Before(s, c), reactions);
      if Full(s) then t else Push(t, LogoutKind, s.owner, s.calls.made)
  }

  function ExecAll(s: Store, calls: seq<Call>): Store
    decreases calls
  {
    if calls == [] then s else ExecAll(Exec(s, calls[0]), calls[1..])
  }

  // ---------------------------------------------------------------- steps

  datatype Step =
    | Outside(call: Call)
    | StartMutation
    | LoginAnswered(answer: Answer, reactions: seq<Call>)
    | LogoutAnswered(failure: Option<Cause>, reactions: seq<Call>)
    | FinishMutation
    | LoginCaught(index: nat, reactions: seq<Call>)
    | FlightAnswered(id: nat, answer: Answer, reactions: seq<Call>)
    | FlightForgotten(id: nat)
    | TimerFired(timer: nat, cause: Cause, reactions: seq<Call>)

  function Head(s: Store): Mutation
    requires s.mutations != []
  {
    s.mutations[0]
  }

  function WithHead(s: Store, phase: Phase): Store
    requires s.mutations != []
  {
    s.(mutations := s.mutations[0 := Head(s).(phase := phase)])
  }

  /** The head of the chain starts, unless the owner it was queued under has been closed. */
  function Begin(s: Store): Store
    requires s.mutations != []
  {
    var m := Head(s);
    if m.owner != s.owner then WithHead(s, Settling(Some(ABORTED)))
    else
      var running := WithHead(s, Running).(history := s.history.(started := s.history.started + [m.ticket]));
      if m.kind.LoginKind? then running else SpendProof(running, m.ticket)
  }

  /** A logout takes the stored proof with it; without one it fetches a fresh one. */
  function SpendProof(s: Store, ticket: nat): Store {
    s.(csrfForLogout := None,
       history := s.history.(
         held := None,
         spent := if s.history.held.Some? then s.history.spent + [Spent(ticket, s.history.held.value)]
                  else s.history.spent))
  }

  /** A logout is queued right behind the head. */
  predicate LogoutBehind(s: Store) {
    |s.mutations| > 1 && s.mutations[1].kind.LogoutKind?
  }

  /** What the answer of the login at the head of `s` has stored is owed to a logout right behind it. */
  function Promise(s: Store, t: Store): Store {
    if LogoutBehind(s) && t.history.held.Some?
    then t.(history := t.history.(owed := Some(Spent(s.mutations[1].ticket, t.history.held.value))))
    else t
  }

  /** The session that a login brought is adopted, unless the login is superseded or the session out of bounds. */
  function Answered(s: Store, r: Received): (Store, bool)
    requires s.mutations != []
  {
    var m := Head(s);
    var stored := StoreProof(s, r.session.csrf);
    if m.epoch != s.generation then (WithHead(stored, Settling(None)), false)
    else if !Adoptable(r) then (WithHead(stored, Settling(Some(EXPIRED))), false)
    else (Adopt(WithHead(stored, Settling(None)), r.session, ByLogin(m.ticket)), true)
  }

  /** A login's response, before anybody is notified; `true` when it adopted the session. */
  function Respond(s: Store, r: Received): (Store, bool)
    requires s.mutations != []
  {
    var (t, adopted) := Answered(s, r);
    (Promise(s, t), adopted)
  }

  /** A check can fail at any time, but has a session to report only after the mutations it waited for. */
  predicate Answerable(s: Store, id: nat, answer: Answer)
    requires id < |s.flights|
  {
    answer.Got? ==> forall i :: 0 <= i < |s.mutations| ==> s.flights[id].after <= s.mutations[i].ticket
  }

  function FlightResult(s: Store, id: nat, answer: Answer): Store
    requires id < |s.flights|
  {
    match answer
    case Failed(cause) => SettleFailedStatus(s, cause)
    case Got(r) => if Adoptable(r) then Adopt(s, r.session, ByFlight(id)) else SettleFailedStatus(s, EXPIRED)
  }

  /** One step; a step that is not enabled changes nothing. */
  function Next(s: Store, a: Step): Store {
    match a
    case Outside(call) => Exec(s, call)
    case StartMutation => if s.mutations != [] && Head(s).phase.Queued? then Begin(s) else s
    case LoginAnswered(answer, reactions) =>
      if s.mutations == [] || Head(s).phase != Running || Head(s).kind != LoginKind then s
      else if answer.Failed? then WithHead(s, Settling(Some(answer.cause)))
      else
        var (t, adopted) := Respond(s, answer.received);
        if adopted then ExecAll(t, reactions) else t
    case LogoutAnswered(failure, reactions) =>
      if s.mutations == [] || Head(s).phase != Running || Head(s).kind != LogoutKind then s
      else
        var t := WithHead(s, Settling(failure));
        if Head(s).epoch != s.generation then t
        else ExecAll(Clear(t, failure, Some(if failure.None? then RevocationConfirmed else RevocationUnconfirmed)), reactions)
    case FinishMutation =>
      if s.mutations == [] || !Head(s).phase.Settling? then s
      else
        s.(mutations := s.mutations[1..],
           pendingMutations := if s.pendingMutations > 0 then s.pendingMutations - 1 else 0,
           caught := if Head(s).kind.LoginKind? && Head(s).phase.failure.Some?
                     then s.caught + [Caught(Head(s).caller, Head(s).phase.failure.value)] else s.caught)
    case LoginCaught(i, reactions) =>
      if i >= |s.caught| then s
      else
        var t := s.(caught := s.caught[..i] + s.caught[i + 1..]);
        if s.caught[i].caller == s.owner && s.pendingMutations == 0
        then ExecAll(Clear(t, Some(s.caught[i].cause), None), reactions) else t
    case FlightAnswered(id, answer, reactions) =>
      if id >= |s.flights| || s.flights[id].settled || !Answerable(s, id, answer) then s
      else
        var t := s.(flights := s.flights[id := s.flights[id].(settled := true)]);
        if s.flights[id].epoch != s.generation then t
        else ExecAll(FlightResult(t, id, answer), reactions)
    case FlightForgotten(id) =>
      if s.statusFlight == Some(id) && id < |s.flights| && s.flights[id].settled
      then s.(statusFlight := None, statusController := None) else s
    case TimerFired(timer, cause, reactions) =>
      if s.expiry != Some(timer) then s.(armed := s.armed - {timer})
      else ExecAll(EndSession(s, cause), reactions)
  }

  function Run(s: Store, steps: seq<Step>): Store
    decreases |steps|
  {
    if steps == [] then s else Next(Run(s, steps[..|steps| - 1]), steps[|steps| - 1])
  }
}
