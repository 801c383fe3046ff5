/**
 Runs over any number of sessions: the caller closes and connects again while the router stays. No
 served entry is left out, but one may be delivered twice.
 */
module StreamAcrossCloses {
  import opened Outcomes
  import opened Stream
  import opened StreamDelivery
  import opened StreamResume
  import opened StreamSafety
  import EventCursor

  // ---------------------------------------------------------------- how far the accepted entries reach

  /** The id of the entry at `p` of the served log. */
  ghost predicate Served(v: Server, id: Option<string>, p: nat) {
    p < |v.log| && id == Some(Id(v, v.log[p]))
  }

  function Larger(a: nat, b: nat): nat {
    if a >= b then a else b
  }

  /** The id of some entry; a replay that is sent it starts just past that entry. */
  ghost predicate IsEntry(v: Server, id: Option<string>) {
    ReplayFrom(v, id) > 0 && Served(v, id, ReplayFrom(v, id) - 1)
  }

  /** Just past the furthest accepted entry. */
  function Frontier(v: Server, first: nat, log: seq<Entry>): nat
    decreases |log|
  {
    if log == [] then first
    else Larger(Frontier(v, first, log[..|log| - 1]), ReplayFrom(v, log[|log| - 1].item.frame.id))
  }

  /** Each accepted entry is at most one past those accepted before it. */
  ghost predicate NoGaps(v: Server, first: nat, log: seq<Entry>)
    decreases |log|
  {
    log == [] ||
    var front, id := log[..|log| - 1], log[|log| - 1].item.frame.id;
    NoGaps(v, first, front) && IsEntry(v, id) && ReplayFrom(v, id) <= Frontier(v, first, front) + 1
  }

  lemma ReplayAt(v: Server, id: Option<string>, p: nat)
    requires ValidServer(v) && Served(v, id, p)
    ensures ReplayFrom(v, id) == p + 1 && IsEntry(v, id)
  {
    IdParses(v, v.log[p]);
    CoveredAt(v.log, p + 1);
  }

  lemma GapsGrow(v: Server, first: nat, log: seq<Entry>, e: Entry, p: nat)
    requires ValidServer(v) && NoGaps(v, first, log) && Served(v, e.item.frame.id, p) && p <= Frontier(v, first, log)
    ensures NoGaps(v, first, log + [e]) && Frontier(v, first, log + [e]) == Larger(Frontier(v, first, log), p + 1)
  {
    ReplayAt(v, e.item.frame.id, p);
    hide ReplayFrom, IsEntry, Served;
    assert (log + [e])[..|log|] == log;
  }

  lemma {:induction false} BelowFrontier(v: Server, first: nat, log: seq<Entry>, i: nat)
    requires i < |log|
    ensures ReplayFrom(v, log[i].item.frame.id) <= Frontier(v, first, log)
    ensures NoGaps(v, first, log) ==> IsEntry(v, log[i].item.frame.id)
    decreases |log|
  {
    hide ReplayFrom, IsEntry;
    if i < |log| - 1 { BelowFrontier(v, first, log[..|log| - 1], i); }
  }

  lemma {:induction false} FrontierStarts(v: Server, first: nat, log: seq<Entry>)
    ensures first <= Frontier(v, first, log)
    decreases |log|
  {
    hide ReplayFrom;
    if log != [] { FrontierStarts(v, first, log[..|log| - 1]); }
  }

  /** Entry `p` is among the accepted ones. */
  ghost predicate Holds(v: Server, log: seq<Entry>, p: nat) {
    exists i :: 0 <= i < |log| && Served(v, log[i].item.frame.id, p)
  }

  /** All entries up to the furthest are there. */
  lemma {:induction false} AllAccepted(v: Server, first: nat, log: seq<Entry>, p: nat)
    requires NoGaps(v, first, log) && first <= p < Frontier(v, first, log)
    ensures Holds(v, log, p)
    decreases |log|
  {
    var front, last := log[..|log| - 1], log[|log| - 1];
    if p < Frontier(v, first, front) {
      AllAccepted(v, first, front, p);
      hide ReplayFrom, Served;
      var i :| 0 <= i < |front| && Served(v, front[i].item.frame.id, p);
      assert log[i] == front[i];
    } else {
      hide ReplayFrom, Served, Frontier;
      assert Served(v, last.item.frame.id, p);
    }
  }

  lemma {:induction false} NoGapsBefore(v: Server, first: nat, log: seq<Entry>, n: nat)
    requires NoGaps(v, first, log) && n <= |log|
    ensures NoGaps(v, first, log[..n])
    decreases |log|
  {
    hide ReplayFrom, IsEntry, Frontier;
    if n == |log| {
      assert log[..n] == log;
    } else {
      NoGapsBefore(v, first, log[..|log| - 1], n);
      assert log[..|log| - 1][..n] == log[..n];
    }
  }

  // ---------------------------------------------------------------- what every run without a router reset keeps

  /** The cursor is forgotten, the seed, or the id of an accepted frame. */
  ghost predicate CursorKnown(v: Server, seed: Option<nat>, last: Option<string>, log: seq<Entry>) {
    last.None? || last == SeedId(v, seed) || exists i :: 0 <= i < |log| && log[i].item.frame.id == last
  }

  ghost predicate Gapless(v: Server, seed: Option<nat>, w: Wire) {
    var s := w.system;
    && NoGaps(v, First(v, seed), s.history.log)
    && CursorKnown(v, seed, s.channel.lastEventId, s.history.log)
    && (w.position.Some? && !s.router.closed ==> w.position.value <= Frontier(v, First(v, seed), s.history.log))
  }

  /** So a new connection replays from no later than the frontier. */
  lemma KnownCursorReplays(v: Server, seed: Option<nat>, last: Option<string>, log: seq<Entry>)
    requires ValidServer(v) && ValidSeed(seed) && CursorKnown(v, seed, last, log)
    ensures ReplayFrom(v, last) <= Frontier(v, First(v, seed), log)
  {
    var first := First(v, seed);
    FrontierStarts(v, first, log);
    if last.Some? && last == SeedId(v, seed) { IdParses(v, seed.value); }
    if i :| 0 <= i < |log| && log[i].item.frame.id == last { BelowFrontier(v, first, log, i); }
  }

  /** What the channel takes for a replay is behind the frontier. */
  lemma ReplayedIsBehind(v: Server, seed: Option<nat>, last: Option<string>, log: seq<Entry>, p: nat)
    requires ValidServer(v) && ValidSeed(seed) && CursorKnown(v, seed, last, log) && NoGaps(v, First(v, seed), log)
    requires p < |v.log| && Compare(last, Some(Id(v, v.log[p]))) == Replayed
    ensures p < Frontier(v, First(v, seed), log)
  {
    var first := First(v, seed);
    FrontierStarts(v, first, log);
    if last == SeedId(v, seed) {
      BehindCursor(v, last, seed.value, p);
    } else {
      var i :| 0 <= i < |log| && log[i].item.frame.id == last;
      BelowFrontier(v, first, log, i);
      IdParses(v, v.log[ReplayFrom(v, last) - 1]);
      BehindCursor(v, last, v.log[ReplayFrom(v, last) - 1], p);
    }
  }

  lemma BehindCursor(v: Server, last: Option<string>, n: nat, p: nat)
    requires ValidServer(v) && n <= EventCursor.MAX_SEQUENCE && last == Some(Id(v, n))
    requires p < |v.log| && Compare(last, Some(Id(v, v.log[p]))) == Replayed
    ensures p < Covered(v.log, n) == ReplayFrom(v, last)
  {
    CompareIds(v, n, v.log[p]);
    CoveredSplits(v.log, n);
    IdParses(v, n);
  }

  lemma KnownStays(v: Server, seed: Option<nat>, last: Option<string>, last': Option<string>, log: seq<Entry>, log': seq<Entry>)
    requires CursorKnown(v, seed, last, log) && log <= log' && (last' == last || last'.None?)
    ensures CursorKnown(v, seed, last', log')
  {
    if i :| 0 <= i < |log| && log[i].item.frame.id == last { assert log'[i] == log[i]; }
  }

  lemma AcceptingGrows(v: Server, first: nat, log: seq<Entry>, log': seq<Entry>, f: Frame, p: nat)
    requires ValidServer(v) && NoGaps(v, first, log) && Accepts(log, log', f) && Served(v, f.id, p)
    requires log' != log ==> p <= Frontier(v, first, log)
    ensures log <= log' && NoGaps(v, first, log') && (|log'| == |log| + 1 ==> p < Frontier(v, first, log'))
    ensures Frontier(v, first, log') >= Frontier(v, first, log)
  {
    hide NoGaps, Frontier, ReplayFrom, Served, ValidServer;
    if log' != log {
      var e := log'[|log|];
      assert log' == log'[..|log|] + [e];
      GapsGrow(v, first, log, e, p);
    }
  }

  /** A frame the channel does not emit, or the router owes already, is behind the frontier. */
  lemma SilentIsBehind(v: Server, seed: Option<nat>, s: System, f: Frame, p: nat)
    requires ValidServer(v) && ValidSeed(seed) && RouterInv(s) && !s.router.closed && !IsControl(f) && Served(v, f.id, p)
    requires NoGaps(v, First(v, seed), s.history.log) && CursorKnown(v, seed, s.channel.lastEventId, s.history.log)
    ensures Dispatch(s.channel, f).1.Ignored? ==> p < Frontier(v, First(v, seed), s.history.log)
    ensures f.id.value in s.router.pendingIds ==> p < Frontier(v, First(v, seed), s.history.log)
  {
    hide RouterInv, ReplayFrom, CursorKnown, NoGaps, Frontier, Compare, First;
    JudgedBy(s.channel, f);
    hide Dispatch;
    if Dispatch(s.channel, f).1.Ignored? { ReplayedIsBehind(v, seed, s.channel.lastEventId, s.history.log, p); }
    if f.id.value in s.router.pendingIds { OwedIsBehind(v, First(v, seed), s, p); }
  }

  /** The next entry of a live connection is accepted, owed already, applied already, or meets a closed router. */
  lemma ServeStaysGapless(v: Server, seed: Option<nat>, w: Wire, a: Action, p: nat)
    requires ValidServer(v) && ValidSeed(seed) && Gapless(v, seed, w) && RouterInv(w.system)
    requires a.Arrive? && !IsControl(a.frame) && w.position == Some(p) && Served(v, a.frame.id, p)
    requires Next(w.system, a).router.generation == w.system.router.generation
    ensures Gapless(v, seed, Transport(v, w, a, Some(p + 1)))
  {
    hide RouterInv, Dispatch, ReplayFrom, CursorKnown, NoGaps, Frontier, Next, First, ValidServer, IsControl;
    var s := w.system;
    var t := Next(s, a);
    ArrivalHears(s, a);
    AcceptingGrows(v, First(v, seed), s.history.log, t.history.log, a.frame, p);
    KnownStays(v, seed, s.channel.lastEventId, t.channel.lastEventId, s.history.log, t.history.log);
    if !s.router.closed { SilentIsBehind(v, seed, s, a.frame, p); }
  }

  lemma OwedIsBehind(v: Server, first: nat, s: System, p: nat)
    requires ValidServer(v) && RouterInv(s) && !s.router.closed
    requires p < |v.log| && Id(v, v.log[p]) in s.router.pendingIds
    ensures p < Frontier(v, first, s.history.log)
  {
    var id := Id(v, v.log[p]);
    assert Owes(s.history, id);
    var i :| s.history.done <= i < |s.history.log| && s.history.log[i].item.frame.id == Some(id);
    ReplayAt(v, Some(id), p);
    BelowFrontier(v, first, s.history.log, i);
  }

  lemma ControlStaysGapless(v: Server, seed: Option<nat>, w: Wire, a: Action)
    requires Gapless(v, seed, w) && a.Arrive? && IsControl(a.frame)
    requires Next(w.system, a).router.generation == w.system.router.generation
    ensures Gapless(v, seed, Transport(v, w, a, w.position))
  {
    var s := w.system;
    var t := Next(s, a);
    ArrivalHears(s, a);
    KnownStays(v, seed, s.channel.lastEventId, t.channel.lastEventId, s.history.log, t.history.log);
    hide Dispatch, CursorKnown, NoGaps, Next, First, IsControl;
  }

  /** A step of the drain accepts nothing, and moves the cursor at most to the entry it settles. */
  lemma LocalMoves(s: System, a: Action)
    requires RouterInv(s) && s.router.generation == 0 && !a.Arrive? && Next(s, a).router.generation == 0
    ensures var t := Next(s, a);
            && t.history.log == s.history.log
            && (s.router.closed ==> t.router.closed)
            && (t.channel.lastEventId == s.channel.lastEventId || t.channel.lastEventId.None?
                || exists i :: 0 <= i < |s.history.log| && s.history.log[i].item.frame.id == t.channel.lastEventId)
  {
    if Busy(s.router) { BusyHoldsOldest(s); }
    if a.RejectSink? { ReenterAllHears(s, a.notified); }
    hide RouterInv, ReenterAll;
  }

  lemma LocalStaysGapless(v: Server, seed: Option<nat>, w: Wire, a: Action)
    requires Gapless(v, seed, w) && RouterInv(w.system) && w.system.router.generation == 0
    requires !a.Arrive? && Next(w.system, a).router.generation == 0
    ensures Gapless(v, seed, w.(system := Next(w.system, a)))
  {
    LocalMoves(w.system, a);
    hide RouterInv, Next, NoGaps, First;
  }

  lemma NextStaysGapless(v: Server, seed: Option<nat>, w: Wire, a: WireAction)
    requires ValidServer(v) && ValidSeed(seed) && Gapless(v, seed, w) && RouterInv(w.system)
    requires w.system.router.generation == 0 && NextWire(v, w, a).system.router.generation == 0
    ensures Gapless(v, seed, NextWire(v, w, a))
  {
    match a
    case Open => KnownCursorReplays(v, seed, w.system.channel.lastEventId, w.system.history.log);
    case Drop =>
    case Serve(kind, retry, decoded, before, during, notified) =>
      hide Gapless, RouterInv, Next, Dispatch;
      if w.position.Some? && w.position.value < |v.log| {
        var f := Frame(w.nextRef, kind, NotJson, Some(Id(v, v.log[w.position.value])), retry);
        if !IsControl(f) {
          ServeStaysGapless(v, seed, w, Arrive(f, decoded, before, during, notified), w.position.value);
        }
      }
    case Control(frame, before) =>
      hide Gapless, RouterInv, Next, Dispatch;
      if w.position.Some? && IsControl(frame) {
        ControlStaysGapless(v, seed, w, Arrive(frame.(ref := w.nextRef), DecodeFailed, before, [], []));
      }
    case Local(action) =>
      hide Gapless, RouterInv, Next;
      if !action.Arrive? { LocalStaysGapless(v, seed, w, action); }
  }

  lemma {:induction false} RunStaysGapless(config: Config, v: Server, seed: Option<nat>, actions: seq<WireAction>)
    requires config.capacity >= 1 && ValidServer(v) && ValidSeed(seed)
    ensures var w := RunWire(v, StartWire(config, v, seed), actions);
            w.system.router.generation == 0 ==> Gapless(v, seed, w)
    decreases |actions|
  {
    if actions != [] {
      hide RouterInv, ChannelInv, NextWire, Handing, Gapless;
      var front := actions[..|actions| - 1];
      RunStaysGapless(config, v, seed, front);
      RunWireKeeps(config, v, seed, front);
      var w := RunWire(v, StartWire(config, v, seed), front);
      NextWireKeeps(config, v, w, actions[|actions| - 1]);
      if NextWire(v, w, actions[|actions| - 1]).system.router.generation == 0 {
        NextStaysGapless(v, seed, w, actions[|actions| - 1]);
      }
    }
  }

  // ---------------------------------------------------------------- at least once

  /** The first `n` accepted entries are exactly the served ones from `first` to just before `end`, some more than once. */
  ghost predicate Complete(v: Server, first: nat, log: seq<Entry>, n: nat, end: nat)
    requires n <= |log|
  {
    && first <= end
    && (forall i :: 0 <= i < n ==> IsEntry(v, log[i].item.frame.id) && ReplayFrom(v, log[i].item.frame.id) <= end)
    && (forall p :: first <= p < end ==> Holds(v, log[..n], p))
  }

  /**
   Delivery is at least once over any number of sessions. As long as the router does not reset, whatever
   the caller closes, connects and resets on the channel, each sink is handed the events of a prefix of
   the accepted entries, and that prefix leaves out no served entry up to the furthest one it holds.
   */
  lemma NoEntryIsLeftOut(config: Config, v: Server, seed: Option<nat>, actions: seq<WireAction>, k: nat)
    requires config.capacity >= 1 && ValidServer(v) && ValidSeed(seed) && k < config.sinks
    ensures var s := RunWire(v, StartWire(config, v, seed), actions).system;
            s.router.generation == 0 ==>
              exists n: nat, end: nat :: n <= |s.history.log| && HandedTo(s.history.calls, k) == EventsOf(s.history.log, n)
                                         && Complete(v, First(v, seed), s.history.log, n, end)
  {
    RunWireKeeps(config, v, seed, actions);
    RunStaysGapless(config, v, seed, actions);
    hide RunWire, StartWire, RouterInv, ChannelInv;
    var s := RunWire(v, StartWire(config, v, seed), actions).system;
    if s.router.generation == 0 {
      var log, first := s.history.log, First(v, seed);
      assert Delivered(s.history.calls, log, s.history.done, s.router.drain, k);
      var n: nat :| n <= |log| && HandedTo(s.history.calls, k) == EventsOf(log, n);
      PrefixIsComplete(v, first, log, n);
    }
  }

  lemma PrefixIsComplete(v: Server, first: nat, log: seq<Entry>, n: nat)
    requires ValidServer(v) && NoGaps(v, first, log) && n <= |log|
    ensures Complete(v, first, log, n, Frontier(v, first, log[..n]))
  {
    var front := log[..n];
    var end := Frontier(v, first, front);
    NoGapsBefore(v, first, log, n);
    FrontierStarts(v, first, front);
    hide NoGaps, Frontier, Holds, ReplayFrom, IsEntry;
    forall i | 0 <= i < n ensures IsEntry(v, log[i].item.frame.id) && ReplayFrom(v, log[i].item.frame.id) <= end {
      assert front[i] == log[i];
      BelowFrontier(v, first, front, i);
    }
    forall p | first <= p < end ensures Holds(v, front, p) {
      AllAccepted(v, first, front, p);
    }
  }

  // ---------------------------------------------------------------- a close forfeits what it finds in flight

  /** No frame numbered up to `n` can be acknowledged any more. */
  ghost predicate Forfeited(c: Channel, n: nat) {
    c.order >= n && forall ref :: ref in c.deliveries && c.deliveries[ref].order <= n ==> c.deliveries[ref].generation < c.generation
  }

  /** No frame carries a generation that the channel has not reached. */
  ghost predicate Behind(c: Channel) {
    forall ref :: ref in c.deliveries ==> c.deliveries[ref].generation <= c.generation
  }

  /** Frames numbered up to `n` stay forfeited, and the cursor moves to later ones only. */
  ghost predicate StaysForfeited(c: Channel, c': Channel, n: nat) {
    && (Behind(c) ==> Behind(c'))
    && (Forfeited(c, n) ==> Forfeited(c', n) && (c'.acknowledgedOrder == c.acknowledgedOrder || c'.acknowledgedOrder > n))
  }

  lemma DispatchForfeits(c: Channel, f: Frame, n: nat)
    ensures StaysForfeited(c, Dispatch(c, f).0, n)
  {
    hide Compare, ValidControl;
  }

  lemma AcknowledgeForfeits(c: Channel, f: Frame, n: nat)
    ensures StaysForfeited(c, Acknowledge(c, f), n)
  {
  }

  lemma {:induction false} ReenterAllForfeits(s: System, calls: seq<Reentry>, n: nat)
    ensures StaysForfeited(s.channel, ReenterAll(s, calls).channel, n)
    ensures ReenterAll(s, calls).channel.acknowledgedOrder == s.channel.acknowledgedOrder
    decreases |calls|
  {
    if calls != [] { ReenterAllForfeits(Reenter(s, calls[0]), calls[1..], n); }
  }

  lemma OnFrameForfeits(s: System, f: Frame, decoded: Decoded, during: seq<Reentry>, notified: seq<Reentry>, n: nat)
    ensures StaysForfeited(s.channel, OnFrame(s, f, decoded, during, notified).channel, n)
  {
    var t := ReenterAll(s, during);
    ReenterAllForfeits(s, during, n);
    if decoded.DecodeFailed? {
      ReenterAllForfeits(if t.router.closed then t else Record(t, Item(f, None, t.router.generation), true), notified, n);
    } else {
      PushForfeits(t.(router := t.router.(pendingIds := t.router.pendingIds + IdSet(f.id))),
                   Item(f, decoded.event, t.router.generation), notified, n);
    }
    hide ReenterAll, Push;
  }

  lemma PushForfeits(s: System, it: Item, notified: seq<Reentry>, n: nat)
    ensures StaysForfeited(s.channel, Push(s, it, notified).channel, n)
    ensures Push(s, it, notified).channel.acknowledgedOrder == s.channel.acknowledgedOrder
  {
    var r := s.router;
    ReenterAllForfeits(Record(s, it, true), notified, n);
    if |r.queue| > 0 {
      ReenterAllForfeits(Record(s, it, false).(router := r.(queue := r.queue[1..] + [it])), notified, n);
    }
    hide ReenterAll;
  }

  lemma NextForfeits(s: System, a: Action, n: nat)
    ensures StaysForfeited(s.channel, Next(s, a).channel, n)
  {
    hide Acknowledge, Dispatch, OnFrame, ReenterAll, Forfeited, Behind;
    match a
    case Arrive(f, decoded, before, during, notified) =>
      var t := AfterDispatch(s, f);
      DispatchForfeits(s.channel, f, n);
      ReenterAllForfeits(t, before, n);
      OnFrameForfeits(ReenterAll(t, before), f, decoded, during, notified, n);
    case RejectSink(notified) => RejectForfeits(s, notified, n);
    case Outside(call) => OutsideForfeits(s, call, n);
    case _ => if Busy(s.router) { AcknowledgeForfeits(s.channel, s.router.drain.item.frame, n); }
  }

  lemma OutsideForfeits(s: System, call: Reentry, n: nat)
    ensures StaysForfeited(s.channel, Reenter(s, call).channel, n)
  {
  }

  lemma RejectForfeits(s: System, notified: seq<Reentry>, n: nat)
    ensures StaysForfeited(s.channel, Next(s, RejectSink(notified)).channel, n)
  {
    ReenterAllForfeits(s, notified, n);
    hide ReenterAll, Acknowledge;
  }

  lemma {:induction false} RunForfeits(s: System, actions: seq<Action>, n: nat)
    requires Forfeited(s.channel, n)
    ensures Forfeited(Run(s, actions).channel, n)
    decreases |actions|
  {
    if actions != [] {
      hide Forfeited, Next;
      RunForfeits(s, actions[..|actions| - 1], n);
      NextForfeits(Run(s, actions[..|actions| - 1]), actions[|actions| - 1], n);
    }
  }

  lemma {:induction false} RunStaysBehind(config: Config, seed: Option<string>, actions: seq<Action>)
    ensures Behind(Run(Start(config, seed), actions).channel)
    decreases |actions|
  {
    if actions != [] {
      hide Behind, Next, Forfeited, Start;
      RunStaysBehind(config, seed, actions[..|actions| - 1]);
      NextForfeits(Run(Start(config, seed), actions[..|actions| - 1]), actions[|actions| - 1], 0);
    }
  }

  /**
   A caller's close forfeits every frame numbered by then: whatever is settled afterwards, in that session
   or a later one, the cursor only ever moves to frames dispatched after the close.
   */
  lemma CloseForfeitsCursor(config: Config, seed: Option<string>, before: seq<Action>, after: seq<Action>, a: Action)
    ensures var s := Run(Start(config, seed), before);
            var t := Run(Reenter(s, CloseChannel), after);
            var u := Next(t, a);
            u.channel.acknowledgedOrder != t.channel.acknowledgedOrder ==> u.channel.acknowledgedOrder > s.channel.order
  {
    var s := Run(Start(config, seed), before);
    RunStaysBehind(config, seed, before);
    RunForfeits(Reenter(s, CloseChannel), after, s.channel.order);
    hide Run, Next;
    NextForfeits(Run(Reenter(s, CloseChannel), after), a, s.channel.order);
  }

  // ---------------------------------------------------------------- and what it finds in flight is delivered twice

  /** The state of one sink's stream once its first event has been handed over, at frame object `n`. */
  ghost predicate HandedFirst(w: Wire, v: Server, n: nat, calls: nat) {
    var s := w.system;
    && v.log != [] && s.config.sinks == 1 && s.config.capacity >= 1
    && s.channel.lastEventId.None? && !s.router.closed && s.router.queue == []
    && s.router.drain.Delivering? && s.router.drain.sink == 0
    && s.router.drain.item.generation == s.router.generation
    && s.router.drain.item.frame.ref == n && s.router.drain.item.frame.id == Some(Id(v, v.log[0]))
    && s.router.pendingIds == {Id(v, v.log[0])}
    && |s.history.calls| == calls && w.nextRef == n + 1
  }

  /** A sink that waits is handed the first event of the log by a connection opened without a cursor. */
  lemma ServesFirst(v: Server, w: Wire)
    requires v.log != [] && w.system.config.sinks == 1 && w.system.config.capacity >= 1
    requires w.system.channel.lastEventId.None? && w.system.router.drain.Waiting? && !w.system.router.closed
    requires w.system.router.queue == [] && w.system.router.pendingIds == {}
    ensures var serve := Serve("tick", None, Decoded(Some("event")), [], [], []);
            var t := NextWire(v, NextWire(v, NextWire(v, w, Open), serve), Local(Resume));
            && HandedFirst(t, v, w.nextRef, |w.system.history.calls| + 1)
            && t.system.channel.deliveries == w.system.channel.deliveries[w.nextRef := Delivery(w.system.channel.generation, w.system.channel.order + 1)]
            && t.system.channel.generation == w.system.channel.generation
            && t.system.history.calls[|w.system.history.calls|].item.frame.id == Some(Id(v, v.log[0]))
            && t.system.history.calls[..|w.system.history.calls|] == w.system.history.calls
  {
    hide EventCursor.Format, EventCursor.Parse, EventCursor.HasEpochPrefix, ValidControl;
    var serve := Serve("tick", None, Decoded(Some("event")), [], [], []);
    var live := NextWire(v, w, Open);
    var served := NextWire(v, live, serve);
    var f := Frame(w.nextRef, "tick", NotJson, Some(Id(v, v.log[0])), None);
    assert served.system == Next(live.system, Arrive(f, Decoded(Some("event")), [], [], []));
    assert served.system.router.drain == Handed(Item(f, Some("event"), w.system.router.generation));
  }

  /** After a caller's close the settled item no longer moves the cursor, and its id is forgotten. */
  lemma SettlesUnnoticed(v: Server, w: Wire, n: nat, calls: nat)
    requires v.log != [] && HandedFirst(w, v, n, calls)
    requires n in w.system.channel.deliveries && w.system.channel.deliveries[n].generation <= w.system.channel.generation
    ensures var t := NextWire(v, NextWire(v, w, Local(Outside(CloseChannel))), Local(Resolve));
            && t.system.config == w.system.config && t.system.history.calls == w.system.history.calls
            && t.system.channel.lastEventId.None? && t.system.router.drain.Waiting? && !t.system.router.closed
            && t.system.router.queue == [] && t.system.router.pendingIds == {}
  {
    hide EventCursor.Format, EventCursor.Parse, EventCursor.HasEpochPrefix, Id;
    var closed := NextWire(v, w, Local(Outside(CloseChannel)));
    assert !Acknowledgeable(closed.system.channel, closed.system.router.drain.item.frame);
  }

  /**
   A run in which a close finds an event owed: a sink applies it after the caller has closed the channel, and
   the next session delivers it to that sink again. `StreamRedelivery` says which closes do that.
   */
  lemma CloseRedelivers(v: Server)
    requires v.log != []
    ensures var config := Config(1, DropOldest, 1);
            var serve := Serve("tick", None, Decoded(Some("event")), [], [], []);
            var first := [Open, serve, Local(Resume)];
            var steps := first + [Local(Outside(CloseChannel)), Local(Resolve)] + first;
            var calls := RunWire(v, StartWire(config, v, None), steps).system.history.calls;
            |calls| == 2 && calls[0].item.frame.id == calls[1].item.frame.id == Some(Id(v, v.log[0]))
  {
    hide NextWire, Id;
    var config := Config(1, DropOldest, 1);
    var serve := Serve("tick", None, Decoded(Some("event")), [], [], []);
    var first := [Open, serve, Local(Resume)];
    var steps := first + [Local(Outside(CloseChannel)), Local(Resolve)] + first;
    var w0 := StartWire(config, v, None);
    ServesFirst(v, w0);
    var w1 := NextWire(v, NextWire(v, NextWire(v, w0, Open), serve), Local(Resume));
    SettlesUnnoticed(v, w1, 0, 1);
    var w2 := NextWire(v, NextWire(v, w1, Local(Outside(CloseChannel))), Local(Resolve));
    ServesFirst(v, w2);
    RunsOn(v, w0, steps, 0);
    RunsOn(v, w0, steps, 1);
    RunsOn(v, w0, steps, 2);
    RunsOn(v, w0, steps, 3);
    RunsOn(v, w0, steps, 4);
    RunsOn(v, w0, steps, 5);
    RunsOn(v, w0, steps, 6);
    RunsOn(v, w0, steps, 7);
    assert steps[..0] == [] && steps[..8] == steps;
    hide StartWire, HandedFirst;
    var t := RunWire(v, w0, steps);
    assert t == NextWire(v, NextWire(v, NextWire(v, w2, Open), serve), Local(Resume));
    assert t.system.history.calls[..1][0] == w2.system.history.calls[0];
  }

  lemma RunsOn(v: Server, w: Wire, steps: seq<WireAction>, k: nat)
    requires k < |steps|
    ensures RunWire(v, w, steps[..k + 1]) == NextWire(v, RunWire(v, w, steps[..k]), steps[k])
  {
    hide NextWire;
    assert steps[..k + 1][..k] == steps[..k];
  }
}
