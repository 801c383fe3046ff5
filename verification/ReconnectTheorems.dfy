/**
 When the reconnect loop goes on and how it ends, as the rounds alone decide it: which attempts failed, how
 long everything took and what the server asked for. The loop's own variables do not occur here.
 */
module ReconnectTheorems {
  import opened Outcomes
  import opened Reconnect

  // ---------------------------------------------------------------- what the rounds say

  /** Failed attempts at the end of the script, behind the last one that resolved. */
  function InARow(script: seq<Round>): nat {
    if script == [] || script[|script| - 1].attempt.result.Resolved? then 0
    else 1 + InARow(script[..|script| - 1])
  }

  /** What the server asked for in this round: the longer of a retry directive and its failure's own wait. */
  function Asked(r: Round): Duration {
    var directive: Duration := if r.retryDirective.Some? then r.retryDirective.value as real else 0.0;
    match r.attempt.result
    case Rejected(Failure(_, Some(own))) => if own > directive then own else directive
    case _ => directive
  }

  /** The wait before the next attempt: no shorter than the server asked for. */
  function WaitOf(r: Round): Duration {
    if r.backoff > Asked(r) then r.backoff else Asked(r)
  }

  /** The part of an attempt that counts: if it stayed open long enough, the time up to its opening only. */
  function Counted(c: Config, a: Attempt): Duration {
    match a.openedAfter
    case None => a.lasted + a.reread
    case Some(opening) => if a.lasted < c.minUptimeMs then opening + a.lasted + a.reread else opening
  }

  /** Time counted against the budget when the script is over; none behind an attempt that resolved. */
  function Spent(c: Config, script: seq<Round>): Duration
    decreases |script|, 0
  {
    if InARow(script) == 0 then 0.0
    else
      var r := script[|script| - 1];
      SpentByWait(c, script[..|script| - 1], r) + WaitOf(r) + if r.sleep.Slept? then r.sleep.overrun else 0.0
  }

  /** When the next round asks for admission; the clock of a first attempt starts with its round. */
  function SpentByStart(c: Config, front: seq<Round>, r: Round): Duration
    decreases |front|, 1
  {
    r.reading + if InARow(front) == 0 then 0.0 else Spent(c, front) + r.idle
  }

  /** When it is about to wait. */
  function SpentByWait(c: Config, front: seq<Round>, r: Round): Duration
    decreases |front|, 2
  {
    if r.attempt.result.Resolved? then 0.0
    else SpentByStart(c, front, r) + Counted(c, r.attempt) + r.handling + if c.protected then r.revalidation else 0.0
  }

  /** What an attempt is given: the connect timeout, or what is left of the budget. */
  function Given(c: Config, front: seq<Round>, r: Round): real {
    if c.connectTimeoutMs < c.retryBudgetMs - SpentByStart(c, front, r) then c.connectTimeoutMs
    else c.retryBudgetMs - SpentByStart(c, front, r)
  }

  // ---------------------------------------------------------------- the course of a round

  /** The round starts an attempt. */
  predicate Attempts(c: Config, front: seq<Round>, r: Round) {
    !r.closedBefore && c.connectTimeoutMs > 0.0 && SpentByStart(c, front, r) < c.retryBudgetMs
  }

  /** Its attempt is rejected in a way that may be tried again. */
  predicate Retryable(c: Config, r: Round) {
    r.attempt.result.Rejected? && !r.attempt.closed && c.reconnect && r.attempt.result.failure.retryable
  }

  /** The loop does not stop at how the attempt ended: another one is wanted and allowed. */
  predicate WantsAnother(c: Config, front: seq<Round>, r: Round) {
    && c.reconnect && !r.attempt.closed
    && (r.attempt.result.Rejected? ==> r.attempt.result.failure.retryable && InARow(front) < c.maxRetries)
  }

  /** Nothing stands in the way of the wait but the budget. */
  predicate MayWait(c: Config, front: seq<Round>, r: Round) {
    Attempts(c, front, r) && WantsAnother(c, front, r) && (c.protected ==> r.revalidated)
  }

  predicate WaitFits(c: Config, front: seq<Round>, r: Round) {
    WaitOf(r) < c.retryBudgetMs - SpentByWait(c, front, r)
  }

  /** The round leads to another one. */
  predicate GoesOn(c: Config, front: seq<Round>, r: Round) {
    MayWait(c, front, r) && WaitFits(c, front, r) && r.sleep.Slept?
  }

  function AtLeastOne(n: nat): nat {
    if n == 0 then 1 else n
  }

  // ---------------------------------------------------------------- the loop's variables stand for the rounds

  ghost predicate Stands(c: Config, script: seq<Round>, l: Loop) {
    && l.failures == InARow(script)
    && (l.failureStartedAt.Some? <==> InARow(script) > 0)
    && (l.failureStartedAt.Some? ==> l.now - l.failureStartedAt.value == Spent(c, script))
    && l.serverRetryMs == None
  }

  /** What a round records: the attempt, how it ended, and the wait. */
  function Records(c: Config, front: seq<Round>, r: Round): seq<Event> {
    [Attempted(Given(c, front, r)), if r.attempt.result.Resolved? then Ended else Failed, Waited(WaitOf(r), Asked(r))]
  }

  lemma AdmitIs(c: Config, front: seq<Round>, r: Round, l: Loop)
    requires l.ending.None? && Stands(c, front, l)
    ensures var t := Admit(c, l, r);
            && (t.ending.None? <==> Attempts(c, front, r))
            && (r.closedBefore ==> t.ending == Some(Finished))
            && (!r.closedBefore && !Attempts(c, front, r) ==> t.ending == Some(Terminated(Exhausted(AtLeastOne(InARow(front))))))
            && (Attempts(c, front, r) ==>
                  && t.failures == InARow(front) && t.serverRetryMs == None && t.trace == l.trace + [Attempted(Given(c, front, r))]
                  && t.failureStartedAt.Some? && t.now - t.failureStartedAt.value == SpentByStart(c, front, r))
  {
  }

  lemma ConcludeIs(c: Config, front: seq<Round>, r: Round, l: Loop)
    requires l.ending.None? && l.failures == InARow(front) <= c.maxRetries && l.serverRetryMs == None && l.failureStartedAt.Some?
    requires l.now - l.failureStartedAt.value == SpentByStart(c, front, r)
    ensures var t := Conclude(c, l, r);
            && (r.attempt.result.Resolved? ==> t.ending.None? && t.failures == 0 && t.failureStartedAt.None? && t.trace == l.trace + [Ended])
            && (r.attempt.result.Rejected? && r.attempt.closed ==> t.ending == Some(Finished))
            && (r.attempt.result.Rejected? && !r.attempt.closed && !Retryable(c, r) ==> t.ending == Some(Terminated(Fatal)))
            && (Retryable(c, r) ==>
                  && t.failures == InARow(front) + 1 && t.trace == l.trace + [Failed]
                  && t.ending == (if InARow(front) < c.maxRetries then None else Some(Terminated(Exhausted(InARow(front) + 1))))
                  && t.failureStartedAt.Some?
                  && t.now - t.failureStartedAt.value == SpentByStart(c, front, r) + Counted(c, r.attempt))
            && t.serverRetryMs == if r.retryDirective.Some? then Some(r.retryDirective.value as real) else None
  {
  }

  lemma PauseIs(c: Config, front: seq<Round>, r: Round, l: Loop)
    requires l.ending.None? && (r.attempt.result.Rejected? ==> Retryable(c, r))
    requires l.serverRetryMs == if r.retryDirective.Some? then Some(r.retryDirective.value as real) else None
    requires l.failures == (if r.attempt.result.Resolved? then 0 else InARow(front) + 1)
    requires l.failureStartedAt.Some? <==> r.attempt.result.Rejected?
    requires l.failureStartedAt.Some? ==> l.now - l.failureStartedAt.value == SpentByStart(c, front, r) + Counted(c, r.attempt)
    ensures var t := Pause(c, l, r);
            && (!c.reconnect || r.attempt.closed ==> t.ending == Some(Finished))
            && (c.reconnect && !r.attempt.closed && c.protected && !r.revalidated ==>
                  t.ending == Some(if r.closedRevalidating then Finished else Terminated(Unconfirmed)))
            && (c.reconnect && !r.attempt.closed && (c.protected ==> r.revalidated) ==>
                  && (!WaitFits(c, front, r) ==> t.ending == Some(Terminated(Exhausted(AtLeastOne(l.failures)))))
                  && (WaitFits(c, front, r) ==>
                        && t.trace == l.trace + [Waited(WaitOf(r), Asked(r))]
                        && t.ending == (if r.sleep.Slept? then None
                                        else Some(if r.closedAsleep then Finished else Terminated(TimerBroken)))
                        && (r.sleep.Slept? ==> Stands(c, front + [r], t))))
  {
    assert (front + [r])[..|front|] == front;
    assert MinimumWait(l.serverRetryMs, r) == Asked(r);
  }

  /** One turn: where it stops, it says why; where it does not, the loop stands for one round more. */
  lemma TurnIs(c: Config, front: seq<Round>, r: Round, l: Loop)
    requires l.ending.None? && Stands(c, front, l) && InARow(front) <= c.maxRetries
    ensures var t := Turn(c, l, r);
            && (t.ending.None? <==> GoesOn(c, front, r))
            && (GoesOn(c, front, r) ==> Stands(c, front + [r], t) && InARow(front + [r]) <= c.maxRetries && t.trace == l.trace + Records(c, front, r))
            && (t.ending == Some(Terminated(Fatal)) <==> EndsFatal(c, front, r))
            && (t.ending.Some? && t.ending.value.Terminated? && t.ending.value.terminal.Exhausted? <==> EndsExhausted(c, front, r))
            && (EndsExhausted(c, front, r) ==> t.ending == Some(Terminated(Exhausted(FailedBy(c, front, r)))))
            && (t.ending == Some(Terminated(Unconfirmed)) <==> EndsUnconfirmed(c, front, r))
            && (t.ending == Some(Terminated(TimerBroken)) <==> EndsBroken(c, front, r))
  {
    hide Stands, Spent, SpentByStart, SpentByWait, Admit, Conclude, Pause, InARow, WaitFits;
    AdmitIs(c, front, r, l);
    CountsOneMore(front, r);
    var admitted := Admit(c, l, r);
    if admitted.ending.None? {
      AdmitStarts(c, l, r);
      ConcludeIs(c, front, r, admitted);
      var concluded := Conclude(c, admitted, r);
      if concluded.ending.None? { PauseIs(c, front, r, concluded); }
    }
  }

  lemma CountsOneMore(front: seq<Round>, r: Round)
    ensures InARow(front + [r]) == if r.attempt.result.Resolved? then 0 else InARow(front) + 1
  {
    assert (front + [r])[..|front|] == front;
  }

  /** The attempt was rejected while its session was open, and must not or shall not be tried again. */
  predicate EndsFatal(c: Config, front: seq<Round>, r: Round) {
    && Attempts(c, front, r) && r.attempt.result.Rejected? && !r.attempt.closed
    && (!c.reconnect || !r.attempt.result.failure.retryable)
  }

  /** One failure too many, or no budget left for the attempt or for the wait. */
  predicate EndsExhausted(c: Config, front: seq<Round>, r: Round) {
    || (!r.closedBefore && !Attempts(c, front, r))
    || (Attempts(c, front, r) && Retryable(c, r) && InARow(front) >= c.maxRetries)
    || (MayWait(c, front, r) && !WaitFits(c, front, r))
  }

  /** The failures the loop reports then: those counted so far, and one if there were none. */
  function FailedBy(c: Config, front: seq<Round>, r: Round): nat {
    AtLeastOne(if Attempts(c, front, r) then InARow(front + [r]) else InARow(front))
  }

  /** The session could not be confirmed before the wait. */
  predicate EndsUnconfirmed(c: Config, front: seq<Round>, r: Round) {
    Attempts(c, front, r) && WantsAnother(c, front, r) && c.protected && !r.revalidated && !r.closedRevalidating
  }

  predicate EndsBroken(c: Config, front: seq<Round>, r: Round) {
    MayWait(c, front, r) && WaitFits(c, front, r) && r.sleep.Broken? && !r.closedAsleep
  }

  // ---------------------------------------------------------------- whole scripts

  /** Every round of the script leads to another one. */
  ghost predicate AllGoOn(c: Config, script: seq<Round>) {
    forall k :: 0 <= k < |script| ==> GoesOn(c, script[..k], script[k])
  }

  lemma AllGoOnLast(c: Config, script: seq<Round>)
    requires script != []
    ensures var front := script[..|script| - 1];
            AllGoOn(c, script) <==> AllGoOn(c, front) && GoesOn(c, front, script[|script| - 1])
  {
    hide GoesOn;
    var front := script[..|script| - 1];
    assert forall k :: 0 <= k < |front| ==> front[..k] == script[..k] && front[k] == script[k];
  }

  lemma {:induction false} PlayStands(c: Config, script: seq<Round>)
    ensures Play(c, script).ending.None? <==> AllGoOn(c, script)
    ensures AllGoOn(c, script) ==> Stands(c, script, Play(c, script)) && InARow(script) <= c.maxRetries
  {
    if script != [] {
      var front, r := script[..|script| - 1], script[|script| - 1];
      PlayStands(c, front);
      AllGoOnLast(c, script);
      hide GoesOn, Stands, AllGoOn, EndsFatal, EndsExhausted, EndsUnconfirmed, EndsBroken, InARow;
      assert script == front + [r];
      if AllGoOn(c, front) {
        hide Turn;
        TurnIs(c, front, r, Play(c, front));
        assert Play(c, script) == Turn(c, Play(c, front), r);
      }
    }
  }

  /**
   The loop goes on exactly as long as each round lets it: a session that is open, an attempt that resolves
   or fails in a way that may be tried again within the limit, a session that is confirmed where there is
   one, a wait that fits into the budget and a timer that works. Then it records the attempt, how it ended
   and the wait of every round, and starts the next one.
   */
  lemma LoopGoesOnExactly(c: Config, script: seq<Round>)
    ensures Play(c, script).ending.None? <==> forall k :: 0 <= k < |script| ==> GoesOn(c, script[..k], script[k])
  {
    PlayStands(c, script);
  }

  /** What it has recorded by then, round for round. */
  function AllRecords(c: Config, script: seq<Round>): seq<Event> {
    if script == [] then []
    else AllRecords(c, script[..|script| - 1]) + Records(c, script[..|script| - 1], script[|script| - 1])
  }

  lemma {:induction false} EveryRoundIsRecorded(c: Config, script: seq<Round>)
    requires AllGoOn(c, script)
    ensures Play(c, script).trace == AllRecords(c, script)
  {
    if script != [] {
      var front, r := script[..|script| - 1], script[|script| - 1];
      AllGoOnLast(c, script);
      EveryRoundIsRecorded(c, front);
      PlayStands(c, front);
      hide GoesOn, Stands, AllGoOn, Turn, Records, EndsFatal, EndsExhausted, EndsUnconfirmed, EndsBroken, InARow;
      TurnIs(c, front, r, Play(c, front));
    }
  }

  /**
   How the loop ends, exactly, in the last round of a script that it has not ended in before: as a fatal
   failure, with its retries or its budget exhausted, for a session that could not be confirmed, for a timer
   that broke, or, when none of these applies and it does not go on, because its session was closed or no
   reconnection is wanted.
   */
  lemma LoopEndsExactly(c: Config, front: seq<Round>, r: Round)
    requires Play(c, front).ending.None?
    ensures var ending := Play(c, front + [r]).ending;
            && (ending == Some(Terminated(Fatal)) <==> EndsFatal(c, front, r))
            && ((exists n :: ending == Some(Terminated(Exhausted(n)))) <==> EndsExhausted(c, front, r))
            && (EndsExhausted(c, front, r) ==> ending == Some(Terminated(Exhausted(FailedBy(c, front, r)))))
            && (ending == Some(Terminated(Unconfirmed)) <==> EndsUnconfirmed(c, front, r))
            && (ending == Some(Terminated(TimerBroken)) <==> EndsBroken(c, front, r))
            && (ending.None? <==> GoesOn(c, front, r))
  {
    PlayStands(c, front);
    hide GoesOn, Stands, AllGoOn, Turn, EndsFatal, EndsExhausted, EndsUnconfirmed, EndsBroken, InARow;
    assert (front + [r])[..|front|] == front;
    assert Play(c, front + [r]) == Turn(c, Play(c, front), r);
    TurnIs(c, front, r, Play(c, front));
    var ending := Play(c, front + [r]).ending;
    if ending.Some? && ending.value.Terminated? && ending.value.terminal.Exhausted? {
      assert ending == Some(Terminated(Exhausted(ending.value.terminal.attempts)));
    }
  }

  /** So a failure that may be tried again is followed by its wait and by another attempt, if the budget has room for both. */
  lemma RetryableFailureIsRetried(c: Config, front: seq<Round>, r: Round, next: Round)
    requires Play(c, front).ending.None?
    requires Attempts(c, front, r) && Retryable(c, r) && InARow(front) < c.maxRetries
    requires (c.protected ==> r.revalidated) && r.sleep.Slept? && WaitFits(c, front, r) && Attempts(c, front + [r], next)
    ensures var l := Play(c, front + [r]);
            && l.ending.None? && l.trace == Play(c, front).trace + [Attempted(Given(c, front, r)), Failed, Waited(WaitOf(r), Asked(r))]
            && l.trace + [Attempted(Given(c, front + [r], next))] <= Play(c, front + [r, next]).trace
  {
    hide Stands, AllGoOn, Turn, EndsFatal, EndsExhausted, EndsUnconfirmed, EndsBroken, InARow, Spent, SpentByStart, SpentByWait, WaitFits, Attempts;
    PlayStands(c, front);
    PlayStands(c, front + [r]);
    assert (front + [r])[..|front|] == front && (front + [r, next])[..|front| + 1] == front + [r];
    TurnIs(c, front, r, Play(c, front));
    StartsAttempt(c, front + [r], next, Play(c, front + [r]));
  }

  /** A round that starts an attempt records it first. */
  lemma StartsAttempt(c: Config, front: seq<Round>, r: Round, l: Loop)
    requires l.ending.None? && Stands(c, front, l) && Attempts(c, front, r)
    ensures var t := Turn(c, l, r);
            l.trace + [Attempted(Given(c, front, r))] <= t.trace
  {
    hide Stands, SpentByStart, Admit, Conclude, Pause;
    AdmitIs(c, front, r, l);
    var admitted := Admit(c, l, r);
    AdmitStarts(c, l, r);
    ConcludeRecords(c, admitted, r);
    PauseRecords(c, Conclude(c, admitted, r), r);
  }

  lemma ConcludeRecords(c: Config, l: Loop, r: Round)
    requires l.failureStartedAt.Some?
    ensures l.trace <= Conclude(c, l, r).trace
  {
  }

  lemma PauseRecords(c: Config, l: Loop, r: Round)
    ensures l.trace <= Pause(c, l, r).trace
  {
  }
}
