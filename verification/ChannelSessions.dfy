/** `connect`, `close` and the loop's steps over the variables of `createChannel`. */
module ChannelSessions {
  import opened Outcomes
  import Spec = Sessions

  class ChannelSessions {
    const c: Spec.Config
    var sessions: seq<Spec.Session>
    var activeSession: Option<nat>
    var status: Spec.Status
    var terminalFailure: Option<string>
    var generation: nat
    var lastEventId: Option<string>
    var attemptsStarted: nat

    ghost function Model(): Spec.Channel
      reads this
    {
      Spec.Channel(sessions, activeSession, status, terminalFailure, generation, lastEventId, attemptsStarted)
    }

    ghost predicate Valid()
      reads this
    {
      Spec.Inv(Model())
    }

    /** What holds whenever no session is being closed. */
    lemma Promises()
      requires Valid()
      ensures forall i :: 0 <= i < |sessions| ==> (sessions[i].closed <==> activeSession != Some(i))
      ensures forall i :: 0 <= i < |sessions| ==> sessions[i].closings == if sessions[i].closed then 1 else 0
    {
    }

    constructor (config: Spec.Config, cursor: Option<string>)
      ensures Valid() && c == config && Model() == Spec.Start(cursor)
    {
      c := config;
      sessions, activeSession, status, terminalFailure := [], None, Spec.Idle, None;
      generation, lastEventId, attemptsStarted := 0, cursor, 0;
    }

    /** The observers of a notification call the channel again, one after the other. */
    method Notify(calls: seq<Spec.Call>)
      modifies this
      ensures Model() == Spec.ExecAll(c, old(Model()), calls) && (old(Valid()) ==> Valid())
      decreases calls, 0
    {
      if Valid() { Spec.ExecAllKeeps(c, Model(), calls); }
      if calls == [] { return; }
      match calls[0] {
        case Connect(onStatus, onError) => Connect(onStatus, onError);
        case Close(onClosing, onClosed) => Close(onClosing, onClosed);
        case Acknowledge(id) => lastEventId := if id == "" then None else Some(id);
        case ResetCursor => generation, lastEventId := generation + 1, None;
      }
      Notify(calls[1..]);
    }

    method ShowStatus(next: Spec.Status, reactions: seq<Spec.Call>)
      modifies this
      ensures Model() == Spec.SetStatus(c, old(Model()), next, reactions)
      decreases reactions, 1
    {
      if status == next { return; }
      status := next;
      Notify(reactions);
    }

    method Connect(onStatus: seq<Spec.Call>, onError: seq<Spec.Call>)
      modifies this
      ensures Model() == Spec.Exec(c, old(Model()), Spec.Connect(onStatus, onError)) && (old(Valid()) ==> Valid())
      decreases Spec.Connect(onStatus, onError), 2
    {
      if Valid() { Spec.ExecKeeps(c, Model(), Spec.Connect(onStatus, onError)); }
      if activeSession.Some? { return; }
      terminalFailure := None;
      attemptsStarted := 0;
      var session := |sessions|;
      sessions := sessions + [Spec.Session(false, 0, false, Spec.Waiting)];
      activeSession := Some(session);
      if c.admits {
        RunOneConnection(session, onStatus);
      } else {
        Retire(session, Some(Spec.EXHAUSTED), onStatus);
        Notify(onError);
        activeSession := None;
      }
    }

    method Close(onClosing: seq<Spec.Call>, onClosed: seq<Spec.Call>)
      modifies this
      ensures Model() == Spec.Exec(c, old(Model()), Spec.Close(onClosing, onClosed)) && (old(Valid()) ==> Valid())
      decreases Spec.Close(onClosing, onClosed), 2
    {
      if Valid() { Spec.ExecKeeps(c, Model(), Spec.Close(onClosing, onClosed)); }
      if activeSession.None? || activeSession.value >= |sessions| || sessions[activeSession.value].closed { return; }
      var session := activeSession.value;
      var me := sessions[session];
      sessions := sessions[session := me.(closed := true, closings := me.closings + 1)];
      ShowStatus(Spec.Closing, onClosing);
      generation := generation + 1;
      sessions := sessions[session := sessions[session].(live := false)];
      activeSession := None;
      ShowStatus(Spec.Closed, onClosed);
    }

    /** The synchronous start of an attempt. */
    method RunOneConnection(session: nat, reactions: seq<Spec.Call>)
      requires session < |sessions|
      modifies this
      ensures Model() == Spec.StartAttempt(c, old(Model()), session, reactions)
      decreases reactions, 2
    {
      ShowStatus(if attemptsStarted == 0 then Spec.Connecting else Spec.Reconnecting, reactions);
      attemptsStarted := attemptsStarted + 1;
      var me := sessions[session];
      sessions := sessions[session := me.(live := !me.closed, phase := Spec.Attempting)];
    }

    method Retire(session: nat, error: Option<string>, onClosed: seq<Spec.Call>)
      requires session < |sessions|
      modifies this
      ensures Model() == Spec.Retire(c, old(Model()), session, error, onClosed)
      decreases onClosed, 2
    {
      var me := sessions[session];
      sessions := sessions[session := me.(phase := Spec.Over, closed := true, closings := me.closings + 1)];
      generation := generation + 1;
      terminalFailure := error;
      assert sessions == old(sessions)[session := me.(phase := Spec.Over)][session := me.(phase := Spec.Over, closed := true, closings := me.closings + 1)];
      ShowStatus(Spec.Closed, onClosed);
    }

    /** The end of the reconnect loop. */
    method LoopEnded(session: nat, error: Option<string>, onClosed: seq<Spec.Call>, onError: seq<Spec.Call>)
      requires Valid()
      requires session < |sessions| && !sessions[session].live && !sessions[session].phase.Over?
      modifies this
      ensures Valid() && Model() == Spec.Next(c, old(Model()), Spec.LoopEnded(session, error, onClosed, onError))
    {
      Spec.NextKeeps(c, Model(), Spec.LoopEnded(session, error, onClosed, onError));
      if activeSession != Some(session) {
        sessions := sessions[session := sessions[session].(phase := Spec.Over)];
        return;
      }
      Retire(session, error, onClosed);
      if error.Some? { Notify(onError); }
      activeSession := None;
    }

    /** The loop goes on after an attempt, up to the wait. */
    method LoopContinued(session: nat, reactions: seq<Spec.Call>)
      requires Valid()
      requires session < |sessions| && !sessions[session].live && sessions[session].phase.Attempting?
      modifies this
      ensures Valid() && Model() == Spec.Next(c, old(Model()), Spec.LoopContinued(session, reactions))
    {
      Spec.NextKeeps(c, Model(), Spec.LoopContinued(session, reactions));
      if !c.reconnect || sessions[session].closed { return; }
      ShowStatus(Spec.Reconnecting, reactions);
      sessions := sessions[session := sessions[session].(phase := Spec.Waiting)];
    }

    /** The next turn of the loop after its wait. */
    method LoopTurned(session: nat, reactions: seq<Spec.Call>)
      requires Valid()
      requires session < |sessions| && !sessions[session].live && sessions[session].phase.Waiting?
      modifies this
      ensures Valid() && Model() == Spec.Next(c, old(Model()), Spec.LoopTurned(session, reactions))
    {
      Spec.NextKeeps(c, Model(), Spec.LoopTurned(session, reactions));
      if sessions[session].closed { return; }
      RunOneConnection(session, reactions);
    }

    /** What a failing attempt shows before it settles. */
    method AttemptFailed(session: nat, retryable: bool, reactions: seq<Spec.Call>)
      requires Valid()
      requires session < |sessions|
      modifies this
      ensures Valid() && Model() == Spec.Next(c, old(Model()), Spec.AttemptFailed(session, retryable, reactions))
    {
      Spec.NextKeeps(c, Model(), Spec.AttemptFailed(session, retryable, reactions));
      if retryable && c.reconnect && !sessions[session].closed { ShowStatus(Spec.Reconnecting, reactions); }
      sessions := sessions[session := sessions[session].(live := false)];
    }
  }
}
