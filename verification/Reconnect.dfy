/**
 The reconnect loop of `createChannel`: attempts, backoff waits and the budget of a failure burst.
 The environment decides how each attempt ends and how much time everything takes; clock readings are
 given as the time that passes between them, so the clock never runs backwards.
 */
module Reconnect {
  import opened Outcomes

  type Duration = ms: real | 0.0 <= ms witness 0.0

  datatype Config = Config(
    reconnect: bool,
    maxRetries: nat,
    retryBudgetMs: Duration,
    connectTimeoutMs: Duration,
    minUptimeMs: Duration,
    protected: bool)

  /** A rejected attempt's error, as far as the loop looks into it. */
  datatype Failure = Failure(retryable: bool, retryAfterMs: Option<Duration>)

  datatype Result = Resolved | Rejected(failure: Failure)

  /**
   How long after its start an attempt opened, how long after that (or after its start) the loop looked
   at it, how much later it read the clock again, and whether the session had been closed by then.
   */
  datatype Attempt = Attempt(openedAfter: Option<Duration>, lasted: Duration, reread: Duration, result: Result, closed: bool)

  datatype Sleep = Slept(overrun: Duration) | Broken

  /** One turn of the loop as the environment plays it. */
  datatype Round = Round(
    closedBefore: bool,
    idle: Duration,
    reading: Duration,
    attempt: Attempt,
    retryDirective: Option<nat>,
    handling: Duration,
    closedRevalidating: bool,
    revalidated: bool,
    revalidation: Duration,
    backoff: Duration,
    sleep: Sleep,
    closedAsleep: bool)

  datatype Terminal = Exhausted(attempts: nat) | Fatal | Unconfirmed | TimerBroken

  datatype Ending = Finished | Terminated(terminal: Terminal)

  datatype Event =
    | Attempted(budget: real)
    | Ended
    | Failed
    | Waited(ms: Duration, minimum: Duration)

  datatype Loop = Loop(
    now: real,
    failures: nat,
    failureStartedAt: Option<real>,
    serverRetryMs: Option<Duration>,
    ending: Option<Ending>,
    trace: seq<Event>)

  function Start(): Loop {
    Loop(0.0, 0, None, None, None, [])
  }

  function Min(a: real, b: real): real {
    if a <= b then a else b
  }

  function Max(a: Duration, b: Duration): Duration {
    if a >= b then a else b
  }

  function Stop(l: Loop, terminal: Terminal): Loop {
    l.(ending := Some(Terminated(terminal)))
  }

  /** What is left of the burst's budget. */
  function Remaining(c: Config, l: Loop): real {
    c.retryBudgetMs - (if l.failureStartedAt.Some? then l.now - l.failureStartedAt.value else 0.0)
  }

  /** The top of the loop: the burst starts if none is running, and admission gets what it has left. */
  function Admit(c: Config, l: Loop, r: Round): Loop {
    if r.closedBefore then l.(ending := Some(Finished))
    else
      var t := l.now + r.idle;
      var started := l.(now := t + r.reading, failureStartedAt := if l.failureStartedAt.Some? then l.failureStartedAt else Some(t));
      var budget := Min(c.connectTimeoutMs, Remaining(c, started));
      if budget <= 0.0 then Stop(started, Exhausted(if l.failures > 1 then l.failures else 1))
      else started.(trace := l.trace + [Attempted(budget)])
  }

  function AttemptTook(a: Attempt): Duration {
    (if a.openedAfter.Some? then a.openedAfter.value else 0.0) + a.lasted + a.reread
  }

  /** Healthy uptime of a failed attempt: all of it once it reached the minimum, otherwise none. */
  function Healthy(c: Config, a: Attempt): Duration {
    if a.openedAfter.Some? && a.lasted >= c.minUptimeMs then a.lasted + a.reread else 0.0
  }

  /** The attempt ends; a healthy stretch inside a failed attempt does not count against the budget. */
  function Conclude(c: Config, l: Loop, r: Round): Loop
    requires l.failureStartedAt.Some?
  {
    var t := l.now + AttemptTook(r.attempt);
    var directed := l.(now := t, serverRetryMs := if r.retryDirective.Some? then Some(r.retryDirective.value as real) else l.serverRetryMs);
    match r.attempt.result
    case Resolved => directed.(failures := 0, failureStartedAt := None, trace := l.trace + [Ended])
    case Rejected(failure) =>
      if r.attempt.closed then directed.(ending := Some(Finished))
      else if !c.reconnect || !failure.retryable then Stop(directed, Fatal)
      else
        var failed := directed.(
          failures := l.failures + 1,
          failureStartedAt := Some(l.failureStartedAt.value + Healthy(c, r.attempt)),
          trace := l.trace + [Failed]);
        if failed.failures > c.maxRetries then Stop(failed, Exhausted(failed.failures)) else failed
  }

  /** What the server asked for, in a directive or with its failure. */
  function MinimumWait(serverRetryMs: Option<Duration>, r: Round): Duration {
    Max(if serverRetryMs.Some? then serverRetryMs.value else 0.0,
        if r.attempt.result.Rejected? && r.attempt.result.failure.retryAfterMs.Some?
        then r.attempt.result.failure.retryAfterMs.value else 0.0)
  }

  /** Between attempts: revalidation, then a wait that has to fit into the budget. */
  function Pause(c: Config, l: Loop, r: Round): Loop {
    if !c.reconnect || r.attempt.closed then l.(ending := Some(Finished))
    else
      var u := l.(now := l.now + r.handling + if c.protected then r.revalidation else 0.0);
      if c.protected && !r.revalidated then
        if r.closedRevalidating then u.(ending := Some(Finished)) else Stop(u, Unconfirmed)
      else
        var wait := Max(MinimumWait(u.serverRetryMs, r), r.backoff);
        if wait >= Remaining(c, u) then Stop(u, Exhausted(if u.failures > 1 then u.failures else 1))
        else
          var waited := u.(serverRetryMs := None, trace := u.trace + [Waited(wait, MinimumWait(u.serverRetryMs, r))]);
          match r.sleep
          case Slept(overrun) => waited.(now := u.now + wait + overrun)
          case Broken => if r.closedAsleep then waited.(ending := Some(Finished)) else Stop(waited, TimerBroken)
  }

  /** One turn of the loop. */
  function Turn(c: Config, l: Loop, r: Round): (t: Loop) {
    if l.ending.Some? then l
    else
      var admitted := Admit(c, l, r);
      if admitted.ending.Some? then admitted
      else
        AdmitStarts(c, l, r);
        var concluded := Conclude(c, admitted, r);
        if concluded.ending.Some? then concluded else Pause(c, concluded, r)
  }

  function Play(c: Config, script: seq<Round>): Loop {
    if script == [] then Start() else Turn(c, Play(c, script[..|script| - 1]), script[|script| - 1])
  }

  // ---------------------------------------------------------------- bursts

  /** Failed attempts since the last one that resolved. */
  function Failures(trace: seq<Event>): nat {
    if trace == [] then 0
    else
      var front := trace[..|trace| - 1];
      match trace[|trace| - 1]
      case Ended => 0
      case Failed => Failures(front) + 1
      case _ => Failures(front)
  }

  /** Time waited after failures since the last attempt that resolved. */
  function Waits(trace: seq<Event>): Duration {
    if trace == [] then 0.0
    else
      var front := trace[..|trace| - 1];
      match trace[|trace| - 1]
      case Ended => 0.0
      case Waited(ms, _) => if Failures(front) > 0 then Waits(front) + ms else Waits(front)
      case _ => Waits(front)
  }

  /** The bound at one moment of a run. */
  ghost predicate Bounded(c: Config, trace: seq<Event>) {
    && Failures(trace) <= c.maxRetries + 1
    && (Waits(trace) == 0.0 || Waits(trace) < c.retryBudgetMs)
  }

  ghost predicate AlwaysBounded(c: Config, trace: seq<Event>) {
    forall k :: 0 <= k <= |trace| ==> Bounded(c, trace[..k])
  }

  /** What the loop keeps: its counters are those of the burst, and the burst has lasted at least its waits. */
  ghost predicate Accounted(c: Config, l: Loop) {
    && AlwaysBounded(c, l.trace)
    && (l.ending.None? ==>
          && l.failures == Failures(l.trace) <= c.maxRetries
          && (l.failures == 0 ==> Waits(l.trace) == 0.0)
          && (l.failureStartedAt.Some? ==> Waits(l.trace) <= l.now - l.failureStartedAt.value)
          && (l.failureStartedAt.None? ==> l.failures == 0))
    && (forall k :: 0 <= k < |l.trace| && l.trace[k].Waited? ==> l.trace[k].minimum <= l.trace[k].ms < c.retryBudgetMs)
  }

  lemma ExtendBounded(c: Config, trace: seq<Event>, e: Event)
    requires AlwaysBounded(c, trace) && Bounded(c, trace + [e])
    ensures AlwaysBounded(c, trace + [e])
    ensures (trace + [e])[..|trace|] == trace
  {
    var longer := trace + [e];
    assert longer[..|trace|] == trace && longer[..|longer|] == longer;
    forall k | 0 <= k <= |longer| ensures Bounded(c, longer[..k]) {
      if k <= |trace| {
        assert longer[..k] == trace[..k];
      }
    }
  }

  lemma AdmitAccounted(c: Config, l: Loop, r: Round)
    requires Accounted(c, l) && l.ending.None?
    ensures Accounted(c, Admit(c, l, r)) && (Admit(c, l, r).ending.None? ==> Admit(c, l, r).failureStartedAt.Some?)
  {
    hide Failures, Waits, AlwaysBounded;
    var t := Admit(c, l, r);
    if t.trace != l.trace {
      EventAccounted(c, l, t.trace[|l.trace|], t);
    }
  }

  /** Recording an attempt or how it ended keeps the account. */
  lemma EventAccounted(c: Config, l: Loop, e: Event, t: Loop)
    requires Accounted(c, l) && l.ending.None? && !e.Waited?
    requires t.trace == l.trace + [e]
    requires t.ending.None? ==>
               if e.Ended? then t.failures == 0 && t.failureStartedAt.None?
               else && t.failures == l.failures + (if e.Failed? then 1 else 0) <= c.maxRetries
                    && t.failureStartedAt.Some?
                    && t.now - t.failureStartedAt.value
                       >= if l.failureStartedAt.Some? then l.now - l.failureStartedAt.value else 0.0
    ensures Accounted(c, t)
  {
    assert t.trace[..|l.trace|] == l.trace;
    assert l.trace[..|l.trace|] == l.trace;
    assert Bounded(c, l.trace);
    assert Failures(t.trace) == if e.Ended? then 0 else if e.Failed? then Failures(l.trace) + 1 else Failures(l.trace);
    assert Waits(t.trace) == if e.Ended? then 0.0 else Waits(l.trace);
    hide Failures, Waits;
    assert Bounded(c, t.trace);
    ExtendBounded(c, l.trace, e);
  }

  lemma ConcludeAccounted(c: Config, l: Loop, r: Round)
    requires Accounted(c, l) && l.ending.None? && l.failureStartedAt.Some?
    ensures Accounted(c, Conclude(c, l, r))
  {
    hide Failures, Waits, AlwaysBounded;
    var t := Conclude(c, l, r);
    if t.trace != l.trace {
      EventAccounted(c, l, if r.attempt.result.Resolved? then Ended else Failed, t);
    }
  }

  /** A wait that fits into the budget keeps the account, whenever the loop wakes up after it. */
  lemma WaitAccounted(c: Config, l: Loop, ms: Duration, minimum: Duration, t: Loop)
    requires Accounted(c, l) && l.ending.None? && minimum <= ms < Remaining(c, l)
    requires t.trace == l.trace + [Waited(ms, minimum)]
    requires t.ending.None? ==> t.failures == l.failures && t.failureStartedAt == l.failureStartedAt && t.now >= l.now + ms
    ensures Accounted(c, t)
  {
    var e := Waited(ms, minimum);
    assert t.trace[..|l.trace|] == l.trace;
    assert l.trace[..|l.trace|] == l.trace;
    assert Bounded(c, l.trace);
    assert Failures(t.trace) == Failures(l.trace);
    assert Waits(t.trace) == if Failures(l.trace) > 0 then Waits(l.trace) + ms else Waits(l.trace);
    hide Failures, Waits;
    assert Bounded(c, t.trace);
    ExtendBounded(c, l.trace, e);
  }

  lemma PauseAccounted(c: Config, l: Loop, r: Round)
    requires Accounted(c, l) && l.ending.None?
    ensures Accounted(c, Pause(c, l, r))
  {
    hide Failures, Waits, AlwaysBounded;
    var u := l.(now := l.now + r.handling + if c.protected then r.revalidation else 0.0);
    var wait := Max(MinimumWait(u.serverRetryMs, r), r.backoff);
    if Pause(c, l, r).trace != l.trace {
      WaitAccounted(c, u, wait, MinimumWait(u.serverRetryMs, r), Pause(c, l, r));
    }
  }

  lemma {:induction false} PlayAccounted(c: Config, script: seq<Round>)
    ensures Accounted(c, Play(c, script))
  {
    if script != [] {
      var l := Play(c, script[..|script| - 1]);
      var r := script[|script| - 1];
      PlayAccounted(c, script[..|script| - 1]);
      hide Accounted, Admit, Conclude, Pause;
      if l.ending.None? {
        AdmitAccounted(c, l, r);
        var admitted := Admit(c, l, r);
        if admitted.ending.None? {
          ConcludeAccounted(c, admitted, r);
          var concluded := Conclude(c, admitted, r);
          if concluded.ending.None? { PauseAccounted(c, concluded, r); }
        }
      }
    }
  }

  /**
   Between two attempts that resolve, at most `maxRetries + 1` attempts fail, and the waits taken after
   failures add up to less than the retry budget, however much healthy uptime is credited and however
   large the server's minimums are. Every single wait, the one after an attempt that resolved included,
   is shorter than the budget and no shorter than the server asked for.
   */
  lemma {:induction false} BurstsAreBounded(c: Config, script: seq<Round>)
    ensures var trace := Play(c, script).trace;
            && (forall k :: 0 <= k <= |trace| ==>
                  && Failures(trace[..k]) <= c.maxRetries + 1
                  && (Waits(trace[..k]) == 0.0 || Waits(trace[..k]) < c.retryBudgetMs))
            && (forall k :: 0 <= k < |trace| && trace[k].Waited? ==> trace[k].minimum <= trace[k].ms < c.retryBudgetMs)
  {
    PlayAccounted(c, script);
    var trace := Play(c, script).trace;
    forall k | 0 <= k <= |trace|
      ensures Failures(trace[..k]) <= c.maxRetries + 1 && (Waits(trace[..k]) == 0.0 || Waits(trace[..k]) < c.retryBudgetMs)
    {
      assert Bounded(c, trace[..k]);
    }
  }

  /** When no attempt resolves, the loop ends by itself after at most `maxRetries + 1` turns. */
  lemma {:induction false} FailingLoopEnds(c: Config, script: seq<Round>)
    requires forall k :: 0 <= k < |script| ==> script[k].attempt.result.Rejected?
    ensures var l := Play(c, script);
            l.ending.Some? || (l.failures == |script| && |script| <= c.maxRetries)
  {
    if script != [] {
      FailingLoopEnds(c, script[..|script| - 1]);
    }
  }

  // ---------------------------------------------------------------- the loop as written

  lemma {:induction false} EndedStays(c: Config, script: seq<Round>, i: nat)
    requires i <= |script| && Play(c, script[..i]).ending.Some?
    ensures Play(c, script) == Play(c, script[..i])
    decreases |script| - i
  {
    if i < |script| {
      assert script[..i + 1][..i] == script[..i];
      EndedStays(c, script, i + 1);
    } else {
      assert script[..i] == script;
    }
  }

  /** The variables of `runReconnectLoop`, and the clock it reads. */
  class ReconnectLoop {
    const c: Config
    var now: real
    var failures: nat
    var failureStartedAt: Option<real>
    var serverRetryMs: Option<Duration>
    var ending: Option<Ending>
    var trace: seq<Event>

    ghost function Model(): Loop
      reads this
    {
      Loop(now, failures, failureStartedAt, serverRetryMs, ending, trace)
    }

    constructor (config: Config)
      ensures c == config && Model() == Start()
    {
      c := config;
      now, failures, failureStartedAt, serverRetryMs, ending, trace := 0.0, 0, None, None, None, [];
    }

    method Admission(r: Round)
      modifies this
      ensures Model() == Admit(c, old(Model()), r)
    {
      if r.closedBefore {
        ending := Some(Finished);
        return;
      }
      now := now + r.idle;
      if failureStartedAt.None? { failureStartedAt := Some(now); }
      now := now + r.reading;
      var budget := Min(c.connectTimeoutMs, c.retryBudgetMs - (now - failureStartedAt.value));
      if budget <= 0.0 {
        ending := Some(Terminated(Exhausted(if failures > 1 then failures else 1)));
        return;
      }
      trace := trace + [Attempted(budget)];
    }

    method AttemptEnded(r: Round)
      requires failureStartedAt.Some?
      modifies this
      ensures Model() == Conclude(c, old(Model()), r)
    {
      var burstStartedAt := failureStartedAt.value;
      now := now + AttemptTook(r.attempt);
      if r.retryDirective.Some? { serverRetryMs := Some(r.retryDirective.value as real); }
      match r.attempt.result
      case Resolved =>
        failures, failureStartedAt, trace := 0, None, trace + [Ended];
      case Rejected(failure) =>
        if r.attempt.closed {
          ending := Some(Finished);
          return;
        }
        if !c.reconnect || !failure.retryable {
          ending := Some(Terminated(Fatal));
          return;
        }
        if r.attempt.openedAfter.Some? && r.attempt.lasted >= c.minUptimeMs {
          failureStartedAt := Some(burstStartedAt + (r.attempt.lasted + r.attempt.reread));
        }
        failures, trace := failures + 1, trace + [Failed];
        if failures > c.maxRetries { ending := Some(Terminated(Exhausted(failures))); }
    }

    method WaitForNext(r: Round)
      modifies this
      ensures Model() == Pause(c, old(Model()), r)
    {
      if !c.reconnect || r.attempt.closed {
        ending := Some(Finished);
        return;
      }
      now := now + r.handling;
      if c.protected {
        now := now + r.revalidation;
        if !r.revalidated {
          ending := Some(if r.closedRevalidating then Finished else Terminated(Unconfirmed));
          return;
        }
      }
      var minimum := MinimumWait(serverRetryMs, r);
      var wait := Max(minimum, r.backoff);
      var remaining := c.retryBudgetMs - (if failureStartedAt.Some? then now - failureStartedAt.value else 0.0);
      if wait >= remaining {
        ending := Some(Terminated(Exhausted(if failures > 1 then failures else 1)));
        return;
      }
      serverRetryMs, trace := None, trace + [Waited(wait, minimum)];
      match r.sleep
      case Slept(overrun) => now := now + wait + overrun;
      case Broken => ending := Some(if r.closedAsleep then Finished else Terminated(TimerBroken));
    }
  }

  /** `runReconnectLoop` over the rounds the environment plays, up to its end or the end of the script. */
  method RunReconnectLoop(c: Config, script: seq<Round>) returns (trace: seq<Event>, ending: Option<Ending>)
    ensures trace == Play(c, script).trace && ending == Play(c, script).ending
  {
    hide Admit, Conclude, Pause;
    var loop := new ReconnectLoop(c);
    var i := 0;
    while i < |script| && loop.ending.None?
      invariant i <= |script| && loop.c == c && loop.Model() == Play(c, script[..i])
      decreases |script| - i
    {
      var r := script[i];
      ghost var l := loop.Model();
      assert script[..i + 1][..i] == script[..i];
      loop.Admission(r);
      if loop.ending.None? {
        AdmitStarts(c, l, r);
        loop.AttemptEnded(r);
        if loop.ending.None? { loop.WaitForNext(r); }
      }
      i := i + 1;
    }
    if loop.ending.Some? { EndedStays(c, script, i); }
    assert script[..|script|] == script;
    return loop.trace, loop.ending;
  }

  lemma AdmitStarts(c: Config, l: Loop, r: Round)
    ensures l.ending.None? && Admit(c, l, r).ending.None? ==> Admit(c, l, r).failureStartedAt.Some?
  {
  }
}
