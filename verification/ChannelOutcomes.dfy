/**
 What each call and each step of a session shows. An observer that acknowledges an id leaves a trace in the
 cursor, so the observers here are ones that do, which says when they are told and which are told last.
 */
module ChannelOutcomes {
  import opened Outcomes
  import opened Sessions

  /** What the cursor is once this id has been acknowledged. */
  function Trace(id: string): Option<string> {
    if id == "" then None else Some(id)
  }

  lemma ToldOnce(c: Config, s: Channel, id: string)
    ensures ExecAll(c, s, [Acknowledge(id)]) == s.(cursor := Trace(id))
    ensures ExecAll(c, s, []) == s
  {
    assert [Acknowledge(id)][1..] == [];
    assert ExecAll(c, s.(cursor := Trace(id)), []) == s.(cursor := Trace(id));
  }

  /** An observer of this status is told exactly if it is a change. */
  lemma ShowsChange(c: Config, s: Channel, next: Status, id: string)
    ensures SetStatus(c, s, next, [Acknowledge(id)]) == s.(status := next, cursor := if s.status == next then s.cursor else Trace(id))
    ensures SetStatus(c, s, next, []) == s.(status := next)
  {
    ToldOnce(c, s.(status := next), id);
  }

  // ---------------------------------------------------------------- connect

  /**
   `connect` does nothing while a session is installed. Otherwise it forgets the last error and starts the
   first attempt of a new session, shown as `connecting`; without a budget to admit one, it ends that session
   at once, exhausted, and tells so after it has shown `closed`.
   */
  lemma ConnectOutcomes(c: Config, s: Channel, a: string, b: string)
    ensures var t := Exec(c, s, Connect([Acknowledge(a)], [Acknowledge(b)]));
            if s.active.Some? then t == s
            else if c.admits then
              t == s.(active := Some(|s.sessions|), sessions := s.sessions + [Session(false, 0, true, Attempting)],
                      status := Connecting, error := None, attemptsStarted := 1,
                      cursor := if s.status == Connecting then s.cursor else Trace(a))
            else
              t == s.(sessions := s.sessions + [Session(true, 1, false, Over)], status := Closed, error := Some("channel/closed"),
                      attemptsStarted := 0, generation := s.generation + 1, cursor := Trace(b))
  {
    hide ExecAll, SetStatus;
    if s.active.None? {
      var installed := Install(s);
      ShowsChange(c, installed, Connecting, a);
      RetiresWith(c, installed, |s.sessions|, Some(EXHAUSTED), a);
      ToldOnce(c, Retire(c, installed, |s.sessions|, Some(EXHAUSTED), [Acknowledge(a)]), b);
      InstallsLast(s);
    }
  }

  lemma InstallsLast(s: Channel)
    ensures var all := Install(s).sessions;
            && all[|s.sessions|] == Session(false, 0, false, Waiting)
            && forall last: Session :: all[|s.sessions| := last] == s.sessions + [last]
  {
  }

  lemma RetiresWith(c: Config, s: Channel, i: nat, error: Option<string>, id: string)
    requires i < |s.sessions|
    ensures Retire(c, s, i, error, [Acknowledge(id)]) ==
              s.(sessions := s.sessions[i := Session(true, s.sessions[i].closings + 1, s.sessions[i].live, Over)],
                 generation := s.generation + 1, error := error, status := Closed,
                 cursor := if s.status == Closed then s.cursor else Trace(id))
    ensures Retire(c, s, i, error, []) ==
              s.(sessions := s.sessions[i := Session(true, s.sessions[i].closings + 1, s.sessions[i].live, Over)],
                 generation := s.generation + 1, error := error, status := Closed)
  {
    hide SetStatus;
    var over := With(s, i, s.sessions[i].(phase := Over));
    ShowsChange(c, Mark(over, i).(generation := s.generation + 1, error := error), Closed, id);
  }

  // ---------------------------------------------------------------- close

  /**
   `close` does nothing without an open session. Otherwise it marks the session closed, shows `closing`,
   outdates the generation, aborts the attempt, and shows `closed` last; the error stays as it was.
   */
  lemma CloseOutcomes(c: Config, s: Channel, a: string, b: string)
    ensures var t := Exec(c, s, Close([Acknowledge(a)], [Acknowledge(b)]));
            var u := Exec(c, s, Close([Acknowledge(a)], []));
            if s.active.None? || s.active.value >= |s.sessions| || s.sessions[s.active.value].closed then t == s
            else
              var i := s.active.value;
              && t == s.(sessions := s.sessions[i := Session(true, s.sessions[i].closings + 1, false, s.sessions[i].phase)],
                         active := None, generation := s.generation + 1, status := Closed, cursor := Trace(b))
              && u == t.(cursor := if s.status == Closing then s.cursor else Trace(a))
  {
    hide ExecAll, SetStatus;
    if Busy(s) && !s.sessions[s.active.value].closed {
      var i := s.active.value;
      ShowsChange(c, Mark(s, i), Closing, a);
      var closing := SetStatus(c, Mark(s, i), Closing, [Acknowledge(a)]);
      ShowsChange(c, With(closing, i, closing.sessions[i].(live := false)).(generation := closing.generation + 1, active := None), Closed, b);
    }
  }

  // ---------------------------------------------------------------- steps of a session

  /** The status of the next attempt: the first one of a session connects, later ones reconnect. */
  function Attempted(s: Channel): Status {
    if s.attemptsStarted == 0 then Connecting else Reconnecting
  }

  /**
   An attempt under way shows `open` when its transport opens; one that is over shows nothing. A retryable
   failure of an open session shows `reconnecting` where reconnection is on, and no other failure shows
   anything; either way the attempt is over.
   */
  lemma AttemptOutcomes(c: Config, s: Channel, i: nat, retryable: bool, id: string)
    requires i < |s.sessions|
    ensures var shown := Next(c, s, AttemptOpened(i, [Acknowledge(id)]));
            shown == if s.sessions[i].live then s.(status := Open, cursor := if s.status == Open then s.cursor else Trace(id)) else s
    ensures var failed := Next(c, s, AttemptFailed(i, retryable, [Acknowledge(id)]));
            var over := s.(sessions := s.sessions[i := s.sessions[i].(live := false)]);
            failed == if retryable && c.reconnect && !s.sessions[i].closed
                      then over.(status := Reconnecting, cursor := if s.status == Reconnecting then s.cursor else Trace(id))
                      else over
  {
    hide ExecAll, SetStatus;
    ShowsChange(c, s, Open, id);
    ShowsChange(c, s, Reconnecting, id);
  }

  /**
   Behind an attempt that is over, the loop of an open session waits, showing `reconnecting`, and then starts
   the next attempt; the loop of a closed one, or with reconnection off, does neither.
   */
  lemma LoopOutcomes(c: Config, s: Channel, i: nat, id: string)
    requires i < |s.sessions|
    ensures var me := s.sessions[i];
            var waiting := Next(c, s, LoopContinued(i, [Acknowledge(id)]));
            waiting == if !me.live && me.phase.Attempting? && c.reconnect && !me.closed
                       then s.(sessions := s.sessions[i := me.(phase := Waiting)], status := Reconnecting,
                               cursor := if s.status == Reconnecting then s.cursor else Trace(id))
                       else s
    ensures var me := s.sessions[i];
            var turned := Next(c, s, LoopTurned(i, [Acknowledge(id)]));
            turned == if !me.live && me.phase.Waiting? && !me.closed
                      then s.(sessions := s.sessions[i := me.(live := true, phase := Attempting)], status := Attempted(s),
                              attemptsStarted := s.attemptsStarted + 1, cursor := if s.status == Attempted(s) then s.cursor else Trace(id))
                      else s
  {
    hide ExecAll, SetStatus;
    ShowsChange(c, s, Reconnecting, id);
    ShowsChange(c, s, Attempted(s), id);
  }

  /**
   The loop of the installed session ends it: closed once more, the generation outdated, its error kept and
   told last, after `closed`, and nothing installed. The loop of any other session changes nothing to see.
   */
  lemma LoopEndOutcomes(c: Config, s: Channel, i: nat, error: Option<string>, a: string, b: string)
    requires i < |s.sessions| && !s.sessions[i].live && !s.sessions[i].phase.Over?
    ensures var me := s.sessions[i];
            var t := Next(c, s, LoopEnded(i, error, [Acknowledge(a)], [Acknowledge(b)]));
            t == if s.active == Some(i)
                 then s.(sessions := s.sessions[i := Session(true, me.closings + 1, false, Over)], active := None,
                         generation := s.generation + 1, status := Closed, error := error,
                         cursor := if error.Some? then Trace(b) else if s.status == Closed then s.cursor else Trace(a))
                 else s.(sessions := s.sessions[i := me.(phase := Over)])
  {
    hide ExecAll, SetStatus, Retire;
    if s.active == Some(i) {
      RetiresWith(c, s, i, error, a);
      ToldOnce(c, Retire(c, s, i, error, [Acknowledge(a)]), b);
    }
  }

  // ---------------------------------------------------------------- a session that reconnects

  lemma RunsOn(c: Config, s: Channel, steps: seq<Step>, a: Step)
    ensures Run(c, s, steps + [a]) == Next(c, Run(c, s, steps), a)
  {
    hide Next;
    assert (steps + [a])[..|steps|] == steps;
  }

  /**
   A channel that connects, opens, is dropped with a retryable failure and opens again: `connecting`, `open`,
   `reconnecting` until the second attempt opens, and `open` again, in one session.
   */
  lemma DroppedSessionReopens(c: Config, cursor: Option<string>)
    requires c.admits && c.reconnect
    ensures var s := Start(cursor);
            var first := [Outside(Connect([], [])), AttemptOpened(0, [])];
            var dropped := first + [AttemptFailed(0, true, []), LoopContinued(0, []), LoopTurned(0, [])];
            && Run(c, s, first[..1]).status == Connecting
            && Run(c, s, first).status == Open
            && Run(c, s, dropped).status == Reconnecting && Run(c, s, dropped).attemptsStarted == 2
            && var t := Run(c, s, dropped + [AttemptOpened(0, [])]);
               t.status == Open && t.active == Some(0) && t.sessions == [Session(false, 0, true, Attempting)] && t.error.None?
  {
    hide Next, Run;
    var s := Start(cursor);
    RunsNothing(c, s);
    var connected := Run(c, s, [Outside(Connect([], []))]);
    RunsOn(c, s, [], Outside(Connect([], [])));
    assert [] + [Outside(Connect([], []))] == [Outside(Connect([], []))];
    Connects(c, s);
    var first := [Outside(Connect([], [])), AttemptOpened(0, [])];
    assert first == [Outside(Connect([], []))] + [AttemptOpened(0, [])] && first[..1] == [Outside(Connect([], []))];
    RunsOn(c, s, [Outside(Connect([], []))], AttemptOpened(0, []));
    var failed := first + [AttemptFailed(0, true, [])];
    var waiting := failed + [LoopContinued(0, [])];
    var turned := waiting + [LoopTurned(0, [])];
    RunsOn(c, s, first, AttemptFailed(0, true, []));
    RunsOn(c, s, failed, LoopContinued(0, []));
    RunsOn(c, s, waiting, LoopTurned(0, []));
    RunsOn(c, s, turned, AttemptOpened(0, []));
    assert turned == first + [AttemptFailed(0, true, []), LoopContinued(0, []), LoopTurned(0, [])];
    Reopens(c, connected);
  }

  lemma RunsNothing(c: Config, s: Channel)
    ensures Run(c, s, []) == s
  {
  }

  lemma Connects(c: Config, s: Channel)
    requires c.admits && s.active.None? && s.sessions == []
    ensures var t := Next(c, s, Outside(Connect([], [])));
            && t.sessions == [Session(false, 0, true, Attempting)] && t.active == Some(0)
            && t.status == Connecting && t.attemptsStarted == 1 && t.error.None?
  {
  }

  lemma Reopens(c: Config, s: Channel)
    requires c.reconnect && s.sessions == [Session(false, 0, true, Attempting)] && s.active == Some(0)
    requires s.status == Connecting && s.attemptsStarted == 1 && s.error.None?
    ensures var shown := Next(c, s, AttemptOpened(0, []));
            var turned := Next(c, Next(c, Next(c, shown, AttemptFailed(0, true, [])), LoopContinued(0, [])), LoopTurned(0, []));
            var t := Next(c, turned, AttemptOpened(0, []));
            && shown.status == Open && turned.status == Reconnecting && turned.attemptsStarted == 2
            && t.status == Open && t.active == Some(0) && t.sessions == [Session(false, 0, true, Attempting)] && t.error.None?
  {
    var shown := Next(c, s, AttemptOpened(0, []));
    var failed := Next(c, shown, AttemptFailed(0, true, []));
    assert failed.sessions == [Session(false, 0, false, Attempting)];
    var waiting := Next(c, failed, LoopContinued(0, []));
    assert waiting.sessions == [Session(false, 0, false, Waiting)];
    var turned := Next(c, waiting, LoopTurned(0, []));
    assert turned.sessions == [Session(false, 0, true, Attempting)];
  }
}
