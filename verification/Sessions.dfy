/**
 The session half of `createChannel`: `connect`, `close` and the ends of the reconnect loop, which may all
 nest in the notifications they make. A step is one synchronous stretch of a session's loop or attempt,
 or a call from outside.
 */
module Sessions {
  import opened Outcomes

  datatype Status = Idle | Connecting | Open | Reconnecting | Closing | Closed

  /** Where a session's loop stands: inside an attempt, before its next turn, or returned. */
  datatype Phase = Attempting | Waiting | Over

  /** `closings` counts how often the session was marked closed, `live` whether its attempt is unsettled. */
  datatype Session = Session(closed: bool, closings: nat, live: bool, phase: Phase)

  datatype Config = Config(reconnect: bool, admits: bool)

  datatype Channel = Channel(
    sessions: seq<Session>,
    active: Option<nat>,
    status: Status,
    error: Option<string>,
    generation: nat,
    cursor: Option<string>,
    attemptsStarted: nat)

  /** A call into the channel, with the calls its observers make when it notifies them. */
  datatype Call =
    | Connect(onStatus: seq<Call>, onError: seq<Call>)
    | Close(onClosing: seq<Call>, onClosed: seq<Call>)
    | Acknowledge(id: string)
    | ResetCursor

  const EXHAUSTED := "channel/closed"

  function Start(cursor: Option<string>): Channel {
    Channel([], None, Idle, None, 0, cursor, 0)
  }

  function With(s: Channel, i: nat, session: Session): Channel
    requires i < |s.sessions|
  {
    s.(sessions := s.sessions[i := session])
  }

  predicate Busy(s: Channel) {
    s.active.Some? && s.active.value < |s.sessions|
  }

  /** `connect` up to the start of its loop. */
  function Install(s: Channel): Channel {
    s.(error := None, attemptsStarted := 0, active := Some(|s.sessions|),
       sessions := s.sessions + [Session(false, 0, false, Waiting)])
  }

  /** Marks a session closed; its attempt settles on the abort that follows or has settled before. */
  function Mark(s: Channel, i: nat): Channel
    requires i < |s.sessions|
  {
    With(s, i, s.sessions[i].(closed := true, closings := s.sessions[i].closings + 1))
  }

  function Exec(c: Config, s: Channel, call: Call): (t: Channel)
    ensures |t.sessions| >= |s.sessions|
    decreases call, 2
  {
    match call
    case Connect(onStatus, onError) =>
      if s.active.Some? then s
      else if c.admits then StartAttempt(c, Install(s), |s.sessions|, onStatus)
      else ExecAll(c, Retire(c, Install(s), |s.sessions|, Some(EXHAUSTED), onStatus), onError).(active := None)
    case Close(onClosing, onClosed) =>
      if !Busy(s) || s.sessions[s.active.value].closed then s
      else
        var i := s.active.value;
        var closing := SetStatus(c, Mark(s, i), Closing, onClosing);
        var aborted := With(closing, i, closing.sessions[i].(live := false)).(generation := closing.generation + 1, active := None);
        SetStatus(c, aborted, Closed, onClosed)
    case Acknowledge(id) => s.(cursor := if id == "" then None else Some(id))
    case ResetCursor => s.(generation := s.generation + 1, cursor := None)
  }

  function ExecAll(c: Config, s: Channel, calls: seq<Call>): (t: Channel)
    ensures |t.sessions| >= |s.sessions|
    decreases calls, 0
  {
    if calls == [] then s else ExecAll(c, Exec(c, s, calls[0]), calls[1..])
  }

  /** `setStatus` notifies only of a change. */
  function SetStatus(c: Config, s: Channel, next: Status, reactions: seq<Call>): (t: Channel)
    ensures |t.sessions| >= |s.sessions|
    decreases reactions, 1
  {
    if s.status == next then s else ExecAll(c, s.(status := next), reactions)
  }

  /** The synchronous start of `runOneConnection`; a session closed by then settles the attempt at once. */
  function StartAttempt(c: Config, s: Channel, i: nat, reactions: seq<Call>): (t: Channel)
    requires i < |s.sessions|
    ensures |t.sessions| >= |s.sessions|
    decreases reactions, 2
  {
    var t := SetStatus(c, s, if s.attemptsStarted == 0 then Connecting else Reconnecting, reactions);
    With(t, i, t.sessions[i].(live := !t.sessions[i].closed, phase := Attempting)).(attemptsStarted := t.attemptsStarted + 1)
  }

  /** The active session settles what can be observed; it stays installed while observers react. */
  function Retire(c: Config, s: Channel, i: nat, error: Option<string>, onClosed: seq<Call>): (t: Channel)
    requires i < |s.sessions|
    ensures |t.sessions| >= |s.sessions|
    decreases onClosed, 2
  {
    var over := With(s, i, s.sessions[i].(phase := Over));
    SetStatus(c, Mark(over, i).(generation := s.generation + 1, error := error), Closed, onClosed)
  }

  /** The end of `runReconnectLoop`. A superseded loop changes nothing that can be observed. */
  function EndLoop(c: Config, s: Channel, i: nat, error: Option<string>, onClosed: seq<Call>, onError: seq<Call>): Channel
    requires i < |s.sessions|
  {
    if s.active != Some(i) then With(s, i, s.sessions[i].(phase := Over))
    else
      var t := Retire(c, s, i, error, onClosed);
      (if error.Some? then ExecAll(c, t, onError) else t).(active := None)
  }

  // ---------------------------------------------------------------- steps

  datatype Step =
    | Outside(call: Call)
    | AttemptOpened(i: nat, reactions: seq<Call>)
    | AttemptFramed(i: nat, reset: bool, reactions: seq<Call>)
    | AttemptFailed(i: nat, retryable: bool, reactions: seq<Call>)
    | AttemptSettled(i: nat)
    | LoopContinued(i: nat, reactions: seq<Call>)
    | LoopTurned(i: nat, reactions: seq<Call>)
    | LoopEnded(i: nat, error: Option<string>, onClosed: seq<Call>, onError: seq<Call>)

  function Settle(s: Channel, i: nat): Channel
    requires i < |s.sessions|
  {
    With(s, i, s.sessions[i].(live := false))
  }

  /** One step; a step that is not enabled changes nothing. */
  function Next(c: Config, s: Channel, a: Step): Channel {
    if a.Outside? then Exec(c, s, a.call)
    else if a.i >= |s.sessions| then s
    else
      var me := s.sessions[a.i];
      match a
      case AttemptOpened(i, reactions) => if me.live then SetStatus(c, s, Open, reactions) else s
      case AttemptFramed(i, reset, reactions) =>
        if !me.live then s
        else ExecAll(c, if reset then s.(generation := s.generation + 1, cursor := None) else s, reactions)
      case AttemptFailed(i, retryable, reactions) =>
        if retryable && c.reconnect && !me.closed then Settle(SetStatus(c, s, Reconnecting, reactions), i)
        else Settle(s, i)
      case AttemptSettled(i) => Settle(s, i)
      case LoopContinued(i, reactions) =>
        if me.live || !me.phase.Attempting? then s
        else if !c.reconnect || me.closed then s
        else
          var t := SetStatus(c, s, Reconnecting, reactions);
          With(t, i, t.sessions[i].(phase := Waiting))
      case LoopTurned(i, reactions) =>
        if me.live || !me.phase.Waiting? || me.closed then s else StartAttempt(c, s, i, reactions)
      case LoopEnded(i, error, onClosed, onError) =>
        if me.live || me.phase.Over? then s else EndLoop(c, s, i, error, onClosed, onError)
  }

  function Run(c: Config, s: Channel, steps: seq<Step>): Channel {
    if steps == [] then s else Next(c, Run(c, s, steps[..|steps| - 1]), steps[|steps| - 1])
  }

  // ---------------------------------------------------------------- what calls and steps keep

  /** Every session but the active one is closed, closed sessions have settled, and each was closed once. */
  ghost predicate Inv(s: Channel) {
    && (s.active.Some? ==> s.active.value < |s.sessions|)
    && forall i :: 0 <= i < |s.sessions| ==>
         && s.sessions[i].closings == (if s.sessions[i].closed then 1 else 0)
         && (!s.sessions[i].closed <==> s.active == Some(i))
         && (s.sessions[i].closed ==> !s.sessions[i].live)
  }

  /** The active session has been marked closed and is still installed. */
  predicate Ending(s: Channel) {
    Busy(s) && s.sessions[s.active.value].closed
  }

  /** Everything observable except the cursor, which the application may move at any time. */
  ghost predicate SameLifecycle(s: Channel, t: Channel) {
    t.sessions == s.sessions && t.active == s.active && t.status == s.status && t.error == s.error
  }

  /** While a session ends, its observers can neither connect nor close. */
  lemma {:induction false} EndingIsInert(c: Config, s: Channel, calls: seq<Call>)
    requires Ending(s)
    ensures SameLifecycle(s, ExecAll(c, s, calls))
    decreases |calls|
  {
    if calls != [] {
      EndingIsInert(c, Exec(c, s, calls[0]), calls[1..]);
    }
  }

  /** Sessions once closed stay closed; nothing else about the past is undone. */
  ghost predicate Extends(s: Channel, t: Channel) {
    |t.sessions| >= |s.sessions| && forall i :: 0 <= i < |s.sessions| && s.sessions[i].closed ==> t.sessions[i].closed
  }

  lemma {:induction false} ExecKeeps(c: Config, s: Channel, call: Call)
    requires Inv(s)
    ensures Inv(Exec(c, s, call)) && Extends(s, Exec(c, s, call))
    decreases call, 2
  {
    match call
    case Connect(onStatus, onError) =>
      if s.active.None? {
        if c.admits {
          StartKeeps(c, Install(s), |s.sessions|, onStatus);
        } else {
          RetireIs(c, Install(s), |s.sessions|, Some(EXHAUSTED), onStatus);
          EndingIsInert(c, Retire(c, Install(s), |s.sessions|, Some(EXHAUSTED), onStatus), onError);
        }
      }
    case Close(onClosing, onClosed) =>
      if s.active.Some? {
        var i := s.active.value;
        var marked := Mark(s, i).(status := Closing);
        EndingIsInert(c, marked, onClosing);
        var closing := SetStatus(c, Mark(s, i), Closing, onClosing);
        var aborted := With(closing, i, closing.sessions[i].(live := false)).(generation := closing.generation + 1, active := None);
        assert Inv(aborted);
        SetStatusKeeps(c, aborted, Closed, onClosed);
      }
    case Acknowledge(_) =>
    case ResetCursor =>
  }

  lemma {:induction false} ExecAllKeeps(c: Config, s: Channel, calls: seq<Call>)
    requires Inv(s)
    ensures Inv(ExecAll(c, s, calls)) && Extends(s, ExecAll(c, s, calls))
    decreases calls, 0
  {
    if calls != [] {
      ExecKeeps(c, s, calls[0]);
      ExecAllKeeps(c, Exec(c, s, calls[0]), calls[1..]);
    }
  }

  lemma SetStatusKeeps(c: Config, s: Channel, next: Status, reactions: seq<Call>)
    requires Inv(s)
    ensures Inv(SetStatus(c, s, next, reactions)) && Extends(s, SetStatus(c, s, next, reactions))
    decreases reactions, 1
  {
    ExecAllKeeps(c, s.(status := next), reactions);
  }

  lemma StartKeeps(c: Config, s: Channel, i: nat, reactions: seq<Call>)
    requires Inv(s) && i < |s.sessions|
    ensures Inv(StartAttempt(c, s, i, reactions)) && Extends(s, StartAttempt(c, s, i, reactions))
    decreases reactions, 2
  {
    SetStatusKeeps(c, s, if s.attemptsStarted == 0 then Connecting else Reconnecting, reactions);
  }

  /** What the end of the active session's loop leaves: that session closed and still installed. */
  lemma RetireIs(c: Config, s: Channel, i: nat, error: Option<string>, onClosed: seq<Call>)
    requires Inv(s) && s.active == Some(i)
    ensures var t := Retire(c, s, i, error, onClosed);
            && t.active == Some(i) && t.status == Closed && t.error == error
            && t.sessions == s.sessions[i := s.sessions[i].(phase := Over, closed := true, closings := 1)]
            && Ending(t)
  {
    var over := With(s, i, s.sessions[i].(phase := Over));
    var marked := Mark(over, i).(generation := s.generation + 1, error := error);
    EndingIsInert(c, marked.(status := Closed), onClosed);
  }

  lemma SettleKeeps(s: Channel, i: nat)
    requires Inv(s) && i < |s.sessions|
    ensures Inv(Settle(s, i)) && Extends(s, Settle(s, i)) && |Settle(s, i).sessions| == |s.sessions|
  {
  }

  lemma NextKeeps(c: Config, s: Channel, a: Step)
    requires Inv(s)
    ensures Inv(Next(c, s, a)) && Extends(s, Next(c, s, a))
  {
    hide Exec, ExecAll, SetStatus, StartAttempt, Retire, Settle;
    match a
    case Outside(call) => ExecKeeps(c, s, call);
    case AttemptOpened(i, reactions) => SetStatusKeeps(c, s, Open, reactions);
    case AttemptFramed(i, reset, reactions) =>
      ExecAllKeeps(c, if reset then s.(generation := s.generation + 1, cursor := None) else s, reactions);
    case AttemptFailed(i, _, reactions) =>
      SetStatusKeeps(c, s, Reconnecting, reactions);
      if i < |s.sessions| {
        SettleKeeps(s, i);
        SettleKeeps(SetStatus(c, s, Reconnecting, reactions), i);
      }
    case AttemptSettled(i) => if i < |s.sessions| { SettleKeeps(s, i); }
    case LoopContinued(i, reactions) => SetStatusKeeps(c, s, Reconnecting, reactions);
    case LoopTurned(i, reactions) => if i < |s.sessions| { StartKeeps(c, s, i, reactions); }
    case LoopEnded(i, error, onClosed, onError) =>
      hide EndLoop;
      if i < |s.sessions| && !s.sessions[i].live { EndLoopKeeps(c, s, i, error, onClosed, onError); }
  }

  lemma EndLoopKeeps(c: Config, s: Channel, i: nat, error: Option<string>, onClosed: seq<Call>, onError: seq<Call>)
    requires Inv(s) && i < |s.sessions| && !s.sessions[i].live
    ensures Inv(EndLoop(c, s, i, error, onClosed, onError)) && Extends(s, EndLoop(c, s, i, error, onClosed, onError))
  {
    hide Exec, ExecAll, SetStatus, Retire;
    if s.active == Some(i) {
      RetireIs(c, s, i, error, onClosed);
      EndingIsInert(c, Retire(c, s, i, error, onClosed), onError);
    }
  }

  lemma {:induction false} RunKeeps(c: Config, cursor: Option<string>, steps: seq<Step>)
    ensures Inv(Run(c, Start(cursor), steps))
    decreases |steps|
  {
    if steps != [] {
      RunKeeps(c, cursor, steps[..|steps| - 1]);
      NextKeeps(c, Run(c, Start(cursor), steps[..|steps| - 1]), steps[|steps| - 1]);
    }
  }

  // ---------------------------------------------------------------- the promises

  /** At most one session is open, it is the installed one, and each session is closed at most once. */
  lemma AtMostOneSession(c: Config, cursor: Option<string>, steps: seq<Step>)
    ensures var s := Run(c, Start(cursor), steps);
            && (forall i, j :: 0 <= i < |s.sessions| && 0 <= j < |s.sessions| && !s.sessions[i].closed && !s.sessions[j].closed ==> i == j)
            && (forall i :: 0 <= i < |s.sessions| ==> (s.sessions[i].closed <==> s.active != Some(i)))
            && (forall i :: 0 <= i < |s.sessions| ==> s.sessions[i].closings == if s.sessions[i].closed then 1 else 0)
  {
    RunKeeps(c, cursor, steps);
  }

  /** The session a step belongs to, if it is a step of a session's loop or attempt. */
  predicate StepOf(a: Step, i: nat) {
    !a.Outside? && a.i == i
  }

  /** All that can be observed of the channel and of its open session. */
  ghost predicate Unmoved(s: Channel, t: Channel) {
    && t.status == s.status && t.error == s.error && t.cursor == s.cursor && t.generation == s.generation
    && t.active == s.active && |t.sessions| == |s.sessions|
    && forall j :: 0 <= j < |s.sessions| ==>
         if s.sessions[j].closed then t.sessions[j] == s.sessions[j].(phase := t.sessions[j].phase)
         else t.sessions[j] == s.sessions[j]
  }

  /** A step of a closed session moves nothing, whatever its observers would do. */
  lemma ClosedSessionIsInert(c: Config, s: Channel, a: Step, i: nat)
    requires Inv(s) && i < |s.sessions| && s.sessions[i].closed && StepOf(a, i)
    ensures Unmoved(s, Next(c, s, a))
  {
  }

  lemma UnmovedTransitive(s: Channel, t: Channel, u: Channel)
    requires Unmoved(s, t) && Unmoved(t, u)
    ensures Unmoved(s, u)
  {
  }

  /**
   Once sessions are closed, by the caller or by the end of their loop, no run of later steps of their
   loops and attempts changes the status, the terminal error, the cursor, the generation or a newer
   session.
   */
  lemma {:induction false} ClosedSessionsStayInert(c: Config, cursor: Option<string>, steps: seq<Step>, after: seq<Step>)
    requires var s := Run(c, Start(cursor), steps);
             forall k :: 0 <= k < |after| ==> !after[k].Outside? && after[k].i < |s.sessions| && s.sessions[after[k].i].closed
    ensures Unmoved(Run(c, Start(cursor), steps), Run(c, Run(c, Start(cursor), steps), after))
    ensures Inv(Run(c, Run(c, Start(cursor), steps), after))
    decreases |after|
  {
    var s := Run(c, Start(cursor), steps);
    RunKeeps(c, cursor, steps);
    if after != [] {
      hide Next;
      var front := after[..|after| - 1];
      var a := after[|after| - 1];
      ClosedSessionsStayInert(c, cursor, steps, front);
      var t := Run(c, s, front);
      ClosedSessionIsInert(c, t, a, a.i);
      NextKeeps(c, t, a);
      UnmovedTransitive(s, t, Next(c, t, a));
    }
  }

  /** `close` closes the installed session, whatever its observers do; left alone they see it closed. */
  lemma CloseClosesTheSession(c: Config, cursor: Option<string>, steps: seq<Step>, onClosing: seq<Call>, onClosed: seq<Call>)
    ensures var s := Run(c, Start(cursor), steps);
            var t := Exec(c, s, Close(onClosing, onClosed));
            s.active.Some? ==>
              && s.active.value < |t.sessions| && t.sessions[s.active.value].closed
              && (onClosed == [] ==> t.active.None? && t.status == Closed && t.error == s.error)
  {
    var s := Run(c, Start(cursor), steps);
    RunKeeps(c, cursor, steps);
    ExecKeeps(c, s, Close(onClosing, onClosed));
    if s.active.Some? {
      hide Run;
      var i := s.active.value;
      EndingIsInert(c, Mark(s, i).(status := Closing), onClosing);
      var closing := SetStatus(c, Mark(s, i), Closing, onClosing);
      var aborted := With(closing, i, closing.sessions[i].(live := false)).(generation := closing.generation + 1, active := None);
      SetStatusKeeps(c, aborted, Closed, onClosed);
    }
  }

  /** A session whose loop ends by itself is closed with its terminal error, which no observer can replace. */
  lemma LoopEndIsAtomic(c: Config, cursor: Option<string>, steps: seq<Step>, i: nat, error: Option<string>, onClosed: seq<Call>, onError: seq<Call>)
    requires var s := Run(c, Start(cursor), steps);
             i < |s.sessions| && s.active == Some(i) && !s.sessions[i].live && !s.sessions[i].phase.Over?
    ensures var t := Next(c, Run(c, Start(cursor), steps), LoopEnded(i, error, onClosed, onError));
            && t.sessions[i].closed && t.active.None? && t.status == Closed && t.error == error
            && |t.sessions| == |Run(c, Start(cursor), steps).sessions|
  {
    var s := Run(c, Start(cursor), steps);
    RunKeeps(c, cursor, steps);
    hide Run;
    RetireIs(c, s, i, error, onClosed);
    EndingIsInert(c, Retire(c, s, i, error, onClosed), onError);
  }
}
