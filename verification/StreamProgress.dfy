/** The drain is never stuck: what the router owes is settled as soon as its sinks apply it. */
module StreamProgress {
  import opened Outcomes
  import opened Stream
  import opened StreamSafety

  // ---------------------------------------------------------------- how much the drain has left to do

  function ItemWork(s: System): nat
    requires s.router.drain.Delivering? ==> s.router.drain.sink < s.config.sinks
  {
    match s.router.drain
    case Handed(_) => s.config.sinks + 1
    case Delivering(_, k) => s.config.sinks - k
    case _ => 0
  }

  ghost function Work(s: System): nat
    requires s.router.drain.Delivering? ==> s.router.drain.sink < s.config.sinks
  {
    if !Busy(s.router) then 0 else |s.router.queue| * (s.config.sinks + 2) + ItemWork(s)
  }

  /** The continuation that is due: the pop, or the sink's promise, which an abort rejects. */
  function Due(s: System): Action {
    if s.router.drain.Delivering? then (if Aborted(s.router, s.router.drain.item) then Cancelled else Resolve) else Resume
  }

  predicate Continues(a: Action) {
    a == Resume || a == Resolve || a == Cancelled
  }

  /** The drain went on: what it still has to do is less, and nothing was accepted or reset meanwhile. */
  ghost predicate GoesOn(s: System, t: System) {
    && (t.router.drain.Delivering? ==> t.router.drain.sink < t.config.sinks)
    && (s.router.drain.Delivering? ==> s.router.drain.sink < s.config.sinks)
    && Work(t) < Work(s)
    && Untouched(s, t)
  }

  ghost predicate Untouched(s: System, t: System) {
    && t.config == s.config && t.history.log == s.history.log
    && t.router.closed == s.router.closed && t.router.generation == s.router.generation
  }

  /** Anything under way is more work than the queue behind it; the head of a queue is less than the queue. */
  lemma BusyWork(s: System)
    requires Busy(s.router) && (s.router.drain.Delivering? ==> s.router.drain.sink < s.config.sinks)
    ensures Work(s) > |s.router.queue| * (s.config.sinks + 2)
  {
  }

  lemma PulledWork(s: System, r: Router)
    requires s.router == Pull(r)
    ensures !s.router.drain.Delivering? && Work(s) <= |r.queue| * (s.config.sinks + 2)
  {
    var n, m := |r.queue|, s.config.sinks + 2;
    if n > 0 { assert (n - 1) * m + m == n * m; }
  }

  /** The next turn of the loop is less work than any item under way. */
  lemma PullGoesOn(s: System, t: System, r: Router)
    requires Busy(s.router) && (s.router.drain.Delivering? ==> s.router.drain.sink < s.config.sinks)
    requires Untouched(s, t) && t.router == Pull(r) && r.queue == s.router.queue
    ensures GoesOn(s, t)
  {
    hide Work, Pull;
    BusyWork(s);
    PulledWork(t, r);
  }

  lemma FinishGoesOn(s: System, it: Item, applied: bool, from: System)
    requires Busy(from.router) && (from.router.drain.Delivering? ==> from.router.drain.sink < from.config.sinks)
    requires Untouched(from, s) && s.router.queue == from.router.queue
    ensures GoesOn(from, Finish(s, it, applied))
  {
    hide GoesOn;
    var t := Finish(s, it, applied);
    var cleared := s.router.(pendingIds := s.router.pendingIds - IdSet(it.frame.id));
    assert t.router == Pull(s.router) || t.router == Pull(cleared);
    PullGoesOn(from, t, if t.router == Pull(s.router) then s.router else cleared);
  }

  lemma FromSinkGoesOn(s: System, it: Item, k: nat, from: System)
    requires Busy(from.router) && (from.router.drain.Delivering? ==> from.router.drain.sink < from.config.sinks)
    requires Untouched(from, s) && s.router.queue == from.router.queue
    requires if from.router.drain.Delivering? then k > from.router.drain.sink else true
    ensures GoesOn(from, FromSink(s, it, k))
  {
    hide Finish;
    FinishGoesOn(s, it, true, from);
    FinishGoesOn(s, it, false, from);
  }

  lemma DueGoesOn(s: System)
    requires Busy(s.router) && (s.router.drain.Delivering? ==> s.router.drain.sink < s.config.sinks)
    ensures GoesOn(s, Next(s, Due(s)))
  {
    hide GoesOn, Finish, FromSink, Pull;
    var it := s.router.drain.item;
    if s.router.drain.Delivering? {
      if Aborted(s.router, it) {
        FinishGoesOn(s, it, false, s);
      } else {
        var k := s.router.drain.sink;
        FromSinkGoesOn(s.(history := s.history.(applied := s.history.applied + {Applied(k, s.history.done, it)})), it, k + 1, s);
      }
    } else {
      PopGoesOn(s);
    }
  }

  lemma PopGoesOn(s: System)
    requires s.router.drain.Handed?
    ensures GoesOn(s, ResumePop(s, s.router.drain.item))
  {
    hide GoesOn, FromSink;
    var it := s.router.drain.item;
    var t := ResumePop(s, it);
    if it.generation == s.router.generation && it.event.Some? {
      FromSinkGoesOn(s, it, 0, s);
    } else {
      var cleared := s.router.(pendingIds := s.router.pendingIds - IdSet(it.frame.id));
      assert t.router == Pull(s.router) || t.router == Pull(cleared);
      PullGoesOn(s, t, if t.router == Pull(s.router) then s.router else cleared);
    }
  }

  // ---------------------------------------------------------------- until it waits

  lemma {:induction false} RunsFromFront(s: System, a: Action, rest: seq<Action>)
    ensures Run(s, [a] + rest) == Run(Next(s, a), rest)
    decreases |rest|
  {
    hide Next;
    if rest == [] {
      assert [a] + rest == [a] && [a][..0] == [];
      assert Run(s, [a]) == Next(Run(s, []), a);
    } else {
      RunsFromFront(s, a, rest[..|rest| - 1]);
      assert ([a] + rest)[..|rest|] == [a] + rest[..|rest| - 1];
    }
  }

  /** The drain waits, and nothing is owed. */
  ghost predicate CaughtUp(s: System) {
    s.router.drain.Waiting? && s.history.done == |s.history.log| && s.router.pendingIds == {}
  }

  /** Due continuations after which the drain has caught up, or has stopped with its router. */
  ghost predicate DrainedBy(s: System, steps: seq<Action>) {
    && (forall i :: 0 <= i < |steps| ==> Continues(steps[i]))
    && var t := Run(s, steps);
       Untouched(s, t) && !Busy(t.router) && (!t.router.closed ==> CaughtUp(t))
  }

  lemma ReadyDelivers(s: System)
    requires RouterInv(s)
    ensures s.router.drain.Delivering? ==> s.router.drain.sink < s.config.sinks
    ensures !Busy(s.router) && !s.router.closed ==> CaughtUp(s)
  {
    if !Busy(s.router) && !s.router.closed {
      assert Live(s.router) == [];
    }
  }

  lemma {:induction false} DrainFinishes(s: System) returns (steps: seq<Action>)
    requires RouterInv(s) && (s.router.drain.Delivering? ==> s.router.drain.sink < s.config.sinks)
    ensures forall i :: 0 <= i < |steps| ==> Continues(steps[i])
    ensures var t := Run(s, steps);
            RouterInv(t) && Untouched(s, t) && !Busy(t.router)
    decreases Work(s)
  {
    hide RouterInv, Next;
    if !Busy(s.router) {
      steps := [];
    } else {
      var t := Next(s, Due(s));
      DueGoesOn(s);
      ReadyOn(s);
      var rest := DrainFinishes(t);
      RunsFromFront(s, Due(s), rest);
      steps := [Due(s)] + rest;
    }
  }

  lemma ReadyOn(s: System)
    requires RouterInv(s)
    ensures RouterInv(Next(s, Due(s)))
  {
    hide RouterInv, Next;
    NextKeepsRouter(s, Due(s));
  }

  /**
   From every reachable state the continuations that are due, with each sink applying what it is handed,
   bring the drain to wait, or to stop if the router is closed; and of an open router everything it has
   accepted is settled then.
   */
  lemma DrainIsNeverStuck(config: Config, seed: Option<string>, actions: seq<Action>)
    requires config.capacity >= 1
    ensures exists steps :: DrainedBy(Run(Start(config, seed), actions), steps)
  {
    var s := Run(Start(config, seed), actions);
    RunKeeps(config, seed, actions);
    hide Run, Start, RouterInv, CaughtUp;
    ReadyDelivers(s);
    var steps := DrainFinishes(s);
    ReadyDelivers(Run(s, steps));
    assert DrainedBy(s, steps);
  }
}
