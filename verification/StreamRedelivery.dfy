/**
 When a caller's close costs exactly-once delivery. `StreamResume` shows that a close which finds nothing
 owed costs nothing; here any other close, of an open router, has a continuation within the next session
 that accepts an entry again, and hands it to a sink again if it carries an event.
 */
module StreamRedelivery {
  import opened Outcomes
  import opened Stream
  import opened StreamAcrossCloses
  import opened StreamDelivery
  import opened StreamResume
  import opened StreamSafety

  // ---------------------------------------------------------------- runs in parts

  lemma {:induction false} RunWireSplits(v: Server, w: Wire, front: seq<WireAction>, back: seq<WireAction>)
    ensures RunWire(v, w, front + back) == RunWire(v, RunWire(v, w, front), back)
    decreases |back|
  {
    hide NextWire;
    if back == [] {
      assert front + back == front;
    } else {
      RunWireSplits(v, w, front, back[..|back| - 1]);
      assert (front + back)[..|front + back| - 1] == front + back[..|back| - 1];
    }
  }

  lemma RunWireOne(v: Server, w: Wire, a: WireAction)
    ensures RunWire(v, w, [a]) == NextWire(v, w, a)
  {
    hide NextWire;
    assert [a][..0] == [];
  }

  lemma {:induction false} RunWireLater(config: Config, v: Server, w: Wire, actions: seq<WireAction>)
    requires WireInv(config, w.system)
    ensures WireInv(config, RunWire(v, w, actions).system) && Later(w.system, RunWire(v, w, actions).system)
    decreases |actions|
  {
    if actions != [] {
      hide WireInv, NextWire;
      RunWireLater(config, v, w, actions[..|actions| - 1]);
      NextWireKeeps(config, v, RunWire(v, w, actions[..|actions| - 1]), actions[|actions| - 1]);
    }
  }

  /** The run neither closes nor resets the channel, so it is part of one session. */
  ghost predicate OneSession(v: Server, w: Wire, actions: seq<WireAction>) {
    RunWire(v, w, actions).system.channel.generation == w.system.channel.generation
  }

  lemma OneSessionBeforeLast(config: Config, v: Server, w: Wire, actions: seq<WireAction>)
    requires WireInv(config, w.system) && OneSession(v, w, actions) && actions != []
    ensures var front := actions[..|actions| - 1];
            && OneSession(v, w, front)
            && NextWire(v, RunWire(v, w, front), actions[|actions| - 1]).system.channel.generation == w.system.channel.generation
            && RunWire(v, w, actions).system.router.generation == w.system.router.generation
            && RunWire(v, w, front).system.router.generation == w.system.router.generation
  {
    hide NextWire, RouterInv, ChannelInv, Handing;
    var front := actions[..|actions| - 1];
    RunWireLater(config, v, w, front);
    NextWireKeeps(config, v, RunWire(v, w, front), actions[|actions| - 1]);
  }

  lemma {:induction false} OneSessionIsClean(config: Config, v: Server, w: Wire, actions: seq<WireAction>)
    requires WireInv(config, w.system) && OneSession(v, w, actions)
    ensures ClosesCleanly(v, w, actions)
    decreases |actions|
  {
    if actions != [] {
      hide WireInv, NextWire, RunWire, ClosesCleanly;
      var front := actions[..|actions| - 1];
      OneSessionBeforeLast(config, v, w, actions);
      OneSessionIsClean(config, v, w, front);
      CleanExtends(v, w, actions);
    }
  }

  lemma CleanExtends(v: Server, w: Wire, actions: seq<WireAction>)
    requires actions != [] && ClosesCleanly(v, w, actions[..|actions| - 1])
    requires ForfeitsNothing(v, RunWire(v, w, actions[..|actions| - 1]), actions[|actions| - 1])
    ensures ClosesCleanly(v, w, actions)
  {
    hide ForfeitsNothing, RunWire;
    var front := actions[..|actions| - 1];
    assert forall k :: 0 <= k < |front| ==> front[..k] == actions[..k] && front[k] == actions[k];
  }

  // ---------------------------------------------------------------- what is owed settles unnoticed

  /** No delivery can move the cursor: the channel has been closed since the last dispatch. */
  ghost predicate Outdated(c: Channel) {
    forall ref :: ref in c.deliveries ==> c.deliveries[ref].generation < c.generation
  }

  /** How many sinks the drain's item has still to pass. */
  function Rank(s: System): nat {
    match s.router.drain
    case Handed(_) => s.config.sinks + 1
    case Delivering(_, k) => if k <= s.config.sinks then s.config.sinks - k else 0
    case _ => 0
  }

  /** The drain goes on: nothing is accepted, and the channel does not notice. */
  ghost predicate Unnoticed(s: System, t: System) {
    && t.config == s.config && t.channel == s.channel && t.history.log == s.history.log
    && t.router.generation == s.router.generation && t.router.closed == s.router.closed
  }

  lemma DrainGoesOn(s: System)
    requires HoldsOldest(s) && !s.router.closed && s.router.generation == 0 && Outdated(s.channel)
    requires s.router.drain.Delivering? ==> s.router.drain.sink < s.config.sinks
    ensures var t := Next(s, if s.router.drain.Handed? then Resume else Resolve);
            && Unnoticed(s, t)
            && (t.history.done == s.history.done + 1 || (t.history.done == s.history.done && Rank(t) < Rank(s)))
  {
    assert Acknowledge(s.channel, s.router.drain.item.frame) == s.channel;
    hide Acknowledge;
  }

  /** An open router that waits owes nothing. */
  lemma WaitingOwesNothing(s: System)
    requires RouterInv(s) && !s.router.closed && s.router.drain.Waiting?
    ensures s.history.done == |s.history.log| && s.router.queue == [] && s.router.pendingIds == {}
  {
    assert forall id :: !Owes(s.history, id);
  }

  lemma OpenNeverStops(s: System)
    requires RouterInv(s) && !s.router.closed
    ensures s.router.drain.Waiting? || Busy(s.router)
    ensures s.history.done <= |s.history.log|
  {
  }

  /** An open router whose channel has been closed settles everything it owes, and waits. */
  lemma {:induction false} Drains(config: Config, v: Server, w: Wire) returns (more: seq<WireAction>)
    requires WireInv(config, w.system) && w.system.router.generation == 0 && !w.system.router.closed
    requires Outdated(w.system.channel)
    ensures var t := RunWire(v, w, more);
            && WireInv(config, t.system) && Unnoticed(w.system, t.system)
            && t.position == w.position && t.nextRef == w.nextRef && t.system.router.drain.Waiting?
    decreases if w.system.history.done <= |w.system.history.log| then |w.system.history.log| - w.system.history.done else 0, Rank(w.system)
  {
    hide RouterInv, ChannelInv, Handing, Outdated, Rank;
    var s := w.system;
    OpenNeverStops(s);
    if s.router.drain.Waiting? {
      more := [];
    } else {
      var a := Local(if s.router.drain.Handed? then Resume else Resolve);
      var u := NextWire(v, w, a);
      BusyHoldsOldest(s);
      DrainGoesOn(s);
      NextWireKeeps(config, v, w, a);
      OpenNeverStops(u.system);
      hide NextWire, Next;
      var rest := Drains(config, v, u);
      more := [a] + rest;
      RunWireSplits(v, w, [a], rest);
      RunWireOne(v, w, a);
    }
  }

  // ---------------------------------------------------------------- and is served again

  /** Nothing is owed, and the live connection serves entry `p` next, where the cursor stands. */
  ghost predicate Ready(v: Server, seed: Option<nat>, w: Wire, p: nat) {
    var s := w.system;
    && s.router.generation == 0 && !s.router.closed && s.router.drain.Waiting?
    && s.router.queue == [] && s.router.pendingIds == {}
    && s.channel.acknowledgedOrder <= s.channel.order
    && First(v, seed) <= p <= |v.log| && w.position == Some(p)
    && s.channel.lastEventId == CursorAt(v, seed, p)
  }

  /** The entry that serving position `p` to `w` puts into the log. */
  function ServedEntry(v: Server, w: Wire, p: nat, event: Option<Event>): Entry
    requires p < |v.log|
  {
    Entry(Item(Frame(w.nextRef, "tick", NotJson, Some(Id(v, v.log[p])), None), event, 0), false)
  }

  function Serving(event: Option<Event>): WireAction {
    Serve("tick", None, Decoded(event), [], [], [])
  }

  /** A waiting drain takes the entry at once. */
  lemma ServesFresh(v: Server, seed: Option<nat>, w: Wire, p: nat, event: Option<Event>)
    requires ValidServer(v) && ValidSeed(seed) && Ready(v, seed, w, p) && p < |v.log|
    ensures var e := ServedEntry(v, w, p, event);
            var s := w.system;
            var c := s.channel.(order := s.channel.order + 1,
                                deliveries := s.channel.deliveries[w.nextRef := Delivery(s.channel.generation, s.channel.order + 1)]);
            NextWire(v, w, Serving(event)) ==
              Wire(System(s.config, c, s.router.(pendingIds := {Id(v, v.log[p])}, drain := Handed(e.item)),
                          s.history.(log := s.history.log + [e],
                                     dispatched := s.history.dispatched + [Numbered(w.nextRef, s.channel.generation)])),
                   Some(p + 1), w.nextRef + 1)
  {
    hide Compare, CursorAt, First, Id, ReplayFrom, ValidControl, Reset, ValidServer;
    ReplayMeetsCursor(v, seed, p);
    assert Compare(w.system.channel.lastEventId, Some(Id(v, v.log[p]))) == Fresh;
  }

  /** An entry without an event is acknowledged by the pop, and the cursor moves past it. */
  lemma ServesNext(v: Server, seed: Option<nat>, w: Wire, p: nat)
    requires ValidServer(v) && ValidSeed(seed) && Ready(v, seed, w, p) && p < |v.log|
    ensures var t := RunWire(v, w, [Serving(None), Local(Resume)]);
            && Ready(v, seed, t, p + 1)
            && t.system.channel.generation == w.system.channel.generation
            && t.system.history.log == w.system.history.log + [ServedEntry(v, w, p, None)]
  {
    ServesFresh(v, seed, w, p, None);
    IdParses(v, v.log[p]);
    var u := NextWire(v, w, Serving(None));
    RunWireSplits(v, w, [Serving(None)], [Local(Resume)]);
    RunWireOne(v, w, Serving(None));
    RunWireOne(v, u, Local(Resume));
    assert [Serving(None), Local(Resume)] == [Serving(None)] + [Local(Resume)];
    hide RunWire, Id, Dispatch, First;
    assert u.system.router.pendingIds - IdSet(Some(Id(v, v.log[p]))) == {};
  }

  lemma {:induction false} ServesUpTo(v: Server, seed: Option<nat>, w: Wire, p: nat, q: nat) returns (more: seq<WireAction>)
    requires ValidServer(v) && ValidSeed(seed) && Ready(v, seed, w, p) && p <= q <= |v.log|
    ensures var t := RunWire(v, w, more);
            && Ready(v, seed, t, q)
            && t.system.channel.generation == w.system.channel.generation
            && w.system.history.log <= t.system.history.log
    decreases q - p
  {
    hide Ready, NextWire, ValidServer;
    if p == q {
      more := [];
    } else {
      var step := [Serving(None), Local(Resume)];
      var u := RunWire(v, w, step);
      ServesNext(v, seed, w, p);
      hide RunWire;
      var rest := ServesUpTo(v, seed, u, p + 1, q);
      more := step + rest;
      RunWireSplits(v, w, step, rest);
    }
  }

  /** With a sink and an event, the drain hands the first sink the entry. */
  lemma HandsServed(v: Server, seed: Option<nat>, w: Wire, p: nat, event: Event)
    requires ValidServer(v) && ValidSeed(seed) && Ready(v, seed, w, p) && p < |v.log| && w.system.config.sinks > 0
    ensures var e := ServedEntry(v, w, p, Some(event));
            var t := RunWire(v, w, [Serving(Some(event)), Local(Resume)]).system;
            && t.channel.generation == w.system.channel.generation && t.router.generation == 0
            && t.history.log == w.system.history.log + [e] && t.history.done == w.system.history.done
            && t.router.drain == Delivering(e.item, 0) && t.config == w.system.config
  {
    ServesFresh(v, seed, w, p, Some(event));
    var u := NextWire(v, w, Serving(Some(event)));
    RunWireSplits(v, w, [Serving(Some(event))], [Local(Resume)]);
    RunWireOne(v, w, Serving(Some(event)));
    RunWireOne(v, u, Local(Resume));
    assert [Serving(Some(event)), Local(Resume)] == [Serving(Some(event))] + [Local(Resume)];
    hide RunWire, Id, Dispatch, First;
  }

  // ---------------------------------------------------------------- the close

  lemma {:induction false} WireStaysBehind(config: Config, v: Server, seed: Option<nat>, actions: seq<WireAction>)
    ensures Behind(RunWire(v, StartWire(config, v, seed), actions).system.channel)
    decreases |actions|
  {
    if actions != [] {
      hide Behind, NextWire, Next, Forfeited;
      var front := actions[..|actions| - 1];
      var w := RunWire(v, StartWire(config, v, seed), front);
      WireStaysBehind(config, v, seed, front);
      var a := WireSteps(v, w, actions[|actions| - 1]);
      NextForfeits(w.system, a, 0);
    }
  }

  function Closed(v: Server, w: Wire): Wire {
    NextWire(v, w, Local(Outside(CloseChannel)))
  }

  /** A close changes the generation of the channel and nothing else. */
  lemma CloseOutdates(v: Server, seed: Option<nat>, w: Wire)
    requires Quiet(v, seed, w) && Behind(w.system.channel)
    ensures var c := Closed(v, w);
            && Outdated(c.system.channel) && c.system.router == w.system.router && c.system.history == w.system.history
            && c.system.router.generation == 0
            && First(v, seed) + w.system.history.done <= |v.log|
            && c.system.channel.lastEventId == CursorAt(v, seed, First(v, seed) + w.system.history.done)
  {
  }

  /** A waiting drain, connected again, is ready where the cursor stands. */
  lemma OpensReady(config: Config, v: Server, seed: Option<nat>, w: Wire, p: nat)
    requires ValidServer(v) && ValidSeed(seed) && WireInv(config, w.system)
    requires w.system.router.generation == 0 && !w.system.router.closed && w.system.router.drain.Waiting?
    requires First(v, seed) <= p <= |v.log| && w.system.channel.lastEventId == CursorAt(v, seed, p)
    ensures RunWire(v, w, [Open]).system == w.system && Ready(v, seed, RunWire(v, w, [Open]), p)
  {
    WaitingOwesNothing(w.system);
    AcknowledgedIsNumbered(w.system);
    ReplayMeetsCursor(v, seed, p);
    hide WireInv, CursorAt, ReplayFrom, RunWire, First;
    RunWireOne(v, w, Open);
  }

  /** What a close of an open router leaves to the next session: it can be brought back to where the cursor stands. */
  lemma ClosedIsReadyAgain(config: Config, v: Server, seed: Option<nat>, w: Wire) returns (more: seq<WireAction>)
    requires ValidServer(v) && ValidSeed(seed) && Quiet(v, seed, w) && WireInv(config, w.system)
    requires Behind(w.system.channel) && !w.system.router.closed
    ensures var t := RunWire(v, Closed(v, w), more);
            && Ready(v, seed, t, First(v, seed) + w.system.history.done)
            && WireInv(config, t.system) && OneSession(v, Closed(v, w), more)
            && t.system.history.log == w.system.history.log
  {
    var c := Closed(v, w);
    NextWireKeeps(config, v, w, Local(Outside(CloseChannel)));
    assert c == NextWire(v, w, Local(Outside(CloseChannel)));
    assert c.system.config == config;
    CloseOutdates(v, seed, w);
    hide WireInv, CursorAt, First, RunWire, Closed, Quiet, Behind, NextWire, Outdated, Ready, Later;
    var drain := Drains(config, v, c);
    OpensReady(config, v, seed, RunWire(v, c, drain), First(v, seed) + w.system.history.done);
    more := drain + [Open];
    RunWireSplits(v, c, drain, [Open]);
  }

  lemma AcknowledgedIsNumbered(s: System)
    requires ChannelInv(s)
    ensures s.channel.acknowledgedOrder <= s.channel.order
  {
  }

  /** A closed router accepts nothing any more. */
  lemma {:induction false} ClosedLogStays(config: Config, v: Server, w: Wire, actions: seq<WireAction>)
    requires WireInv(config, w.system) && w.system.router.generation == 0 && w.system.router.closed && OneSession(v, w, actions)
    ensures var t := RunWire(v, w, actions).system;
            t.history.log == w.system.history.log && t.router.closed
    decreases |actions|
  {
    if actions != [] {
      var front := actions[..|actions| - 1];
      var u := RunWire(v, w, front);
      OneSessionBeforeLast(config, v, w, actions);
      RunWireLater(config, v, w, front);
      hide NextWire, Next, RouterInv, ChannelInv, Handing;
      ClosedLogStays(config, v, w, front);
      var a := WireSteps(v, u, actions[|actions| - 1]);
      if NextWire(v, u, actions[|actions| - 1]).system == Next(u.system, a) {
        if a.Arrive? { ArrivalHears(u.system, a); } else { LocalMoves(u.system, a); }
      }
    }
  }

  lemma OwedEntry(v: Server, first: nat, log: seq<Entry>, o: nat)
    requires Contiguous(v, first, log) && o < |log|
    ensures first + |log| <= |v.log| && log[o].item.frame.id == Some(Id(v, v.log[first + o]))
  {
  }

  /** Serving the oldest owed entry again ends the agreement of the accepted entries with the served log. */
  lemma RepeatIsNotContiguous(v: Server, first: nat, log: seq<Entry>, e: Entry, i: nat)
    requires ValidServer(v) && i < |log| && first + |log| <= |v.log| && e.item.frame.id == Some(Id(v, v.log[first + i]))
    ensures !Contiguous(v, first, log + [e])
  {
    if first + |log| < |v.log| {
      CompareIds(v, v.log[first + i], v.log[first + |log|]);
      assert (log + [e])[|log|] == e;
    }
  }

  /** An open router that owes something, closed: the next session accepts the oldest owed entry again. */
  lemma UncleanCloseRepeats(config: Config, v: Server, seed: Option<nat>, w: Wire) returns (more: seq<WireAction>)
    requires ValidServer(v) && ValidSeed(seed) && Quiet(v, seed, w) && WireInv(config, w.system)
    requires Behind(w.system.channel) && !w.system.router.closed && w.system.history.done < |w.system.history.log|
    ensures OneSession(v, Closed(v, w), more)
    ensures !Contiguous(v, First(v, seed), RunWire(v, Closed(v, w), more).system.history.log)
  {
    hide WireInv, RunWire, Behind, Contiguous, Ready, Closed, Quiet, ValidServer;
    var ready := ClosedIsReadyAgain(config, v, seed, w);
    AcceptsAgain(v, seed, w, RunWire(v, Closed(v, w), ready));
    more := ready + [Serving(None), Local(Resume)];
    RunWireSplits(v, Closed(v, w), ready, [Serving(None), Local(Resume)]);
  }

  lemma AcceptsAgain(v: Server, seed: Option<nat>, w: Wire, t: Wire)
    requires ValidServer(v) && ValidSeed(seed) && Quiet(v, seed, w) && w.system.history.done < |w.system.history.log|
    requires Ready(v, seed, t, First(v, seed) + w.system.history.done) && t.system.history.log == w.system.history.log
    ensures var u := RunWire(v, t, [Serving(None), Local(Resume)]);
            && u.system.channel.generation == t.system.channel.generation
            && !Contiguous(v, First(v, seed), u.system.history.log)
  {
    hide RunWire, Ready, Quiet, Contiguous, First, ValidServer, Id;
    var log, done := w.system.history.log, w.system.history.done;
    QuietIsContiguous(v, seed, w);
    OwedEntry(v, First(v, seed), log, done);
    ServesNext(v, seed, t, First(v, seed) + done);
    RepeatIsNotContiguous(v, First(v, seed), log, ServedEntry(v, t, First(v, seed) + done, None), done);
  }

  /**
   The exact condition, which the caller can check at the close. After any run whose closes so far were
   clean, a close keeps the accepted entries a gapless and repetition-free stretch of the served log, in
   every continuation within the next session, if and only if it finds nothing owed, or finds the router
   closed as well.
   */
  lemma CloseIsCleanExactly(config: Config, v: Server, seed: Option<nat>, actions: seq<WireAction>)
    requires config.capacity >= 1 && ValidServer(v) && ValidSeed(seed)
    requires ClosesCleanly(v, StartWire(config, v, seed), actions)
    ensures var w := RunWire(v, StartWire(config, v, seed), actions);
            (forall more :: OneSession(v, Closed(v, w), more) ==>
               Contiguous(v, First(v, seed), RunWire(v, Closed(v, w), more).system.history.log)) <==>
            (w.system.router.closed || w.system.history.done == |w.system.history.log|)
  {
    var w := RunWire(v, StartWire(config, v, seed), actions);
    var c := Closed(v, w);
    CleanRunIsQuiet(config, v, seed, actions);
    WireStaysBehind(config, v, seed, actions);
    NextWireKeeps(config, v, w, Local(Outside(CloseChannel)));
    ClosedOnlyOutdates(v, seed, w);
    hide RunWire, StartWire, ClosesCleanly, Quiet, WireInv, Contiguous, Closed, NextWire, First, OneSession, Behind;
    if w.system.router.closed {
      forall more | OneSession(v, c, more) ensures Contiguous(v, First(v, seed), RunWire(v, c, more).system.history.log) {
        ClosedLogStays(config, v, c, more);
      }
    } else if w.system.history.done == |w.system.history.log| {
      CleanCloseStaysQuiet(v, seed, w);
      forall more | OneSession(v, c, more) ensures Contiguous(v, First(v, seed), RunWire(v, c, more).system.history.log) {
        OneSessionIsClean(config, v, c, more);
        RunStaysQuiet(config, v, seed, c, more);
        QuietIsContiguous(v, seed, RunWire(v, c, more));
      }
    } else {
      QuietIsContiguous(v, seed, w);
      var more := UncleanCloseRepeats(config, v, seed, w);
    }
  }

  lemma QuietIsContiguous(v: Server, seed: Option<nat>, w: Wire)
    requires Quiet(v, seed, w)
    ensures Contiguous(v, First(v, seed), w.system.history.log) && w.system.history.done <= |w.system.history.log|
  {
  }

  lemma ClosedOnlyOutdates(v: Server, seed: Option<nat>, w: Wire)
    requires Quiet(v, seed, w)
    ensures var c := Closed(v, w);
            && c == NextWire(v, w, Local(Outside(CloseChannel)))
            && c.system.router == w.system.router && c.system.history == w.system.history && c.system.router.generation == 0
            && Contiguous(v, First(v, seed), c.system.history.log)
  {
  }

  // ---------------------------------------------------------------- and the sinks

  /** Sink `k` has been handed two items of the entry with this id. */
  ghost predicate HandedTwice(s: System, k: nat, id: Option<string>) {
    exists i, j :: 0 <= i < j < |HandedTo(s.history.calls, k)|
                   && HandedTo(s.history.calls, k)[i].frame.id == id && HandedTo(s.history.calls, k)[j].frame.id == id
  }

  lemma {:induction false} EventIsAmong(log: seq<Entry>, n: nat, o: nat)
    requires o < n <= |log| && log[o].item.event.Some?
    ensures exists i :: 0 <= i < |EventsOf(log, n)| && EventsOf(log, n)[i] == log[o].item
    decreases n
  {
    if o == n - 1 {
      assert EventsOf(log, n)[|EventsOf(log, n)| - 1] == log[o].item;
    } else {
      EventIsAmong(log, n - 1, o);
      var i :| 0 <= i < |EventsOf(log, n - 1)| && EventsOf(log, n - 1)[i] == log[o].item;
      assert EventsOf(log, n)[i] == log[o].item;
    }
  }

  /** The first sink holds the last accepted entry, whose id an earlier entry with an event shares. */
  lemma LastIsRepeated(s: System, o: nat)
    requires Handing(s) && s.config.sinks > 0 && s.router.drain.Delivering? && s.router.drain.sink == 0
    requires s.history.done == |s.history.log| - 1 && o < s.history.done && s.history.log[o].item.event.Some?
    requires var last := s.history.log[s.history.done].item;
             last.event.Some? && last.frame.id == s.history.log[o].item.frame.id
    ensures HandedTwice(s, 0, s.history.log[o].item.frame.id)
  {
    var h := s.history;
    assert Delivered(h.calls, h.log, h.done, s.router.drain, 0);
    EventIsAmong(h.log, h.done, o);
    var i :| 0 <= i < |EventsOf(h.log, h.done)| && EventsOf(h.log, h.done)[i] == h.log[o].item;
    assert HandedTo(h.calls, 0) == EventsOf(h.log, h.done) + [h.log[h.done].item];
    assert HandedTo(h.calls, 0)[i].frame.id == HandedTo(h.calls, 0)[|EventsOf(h.log, h.done)|].frame.id;
  }

  /**
   A close that finds an entry with an event owed, by an open router with a sink, forfeits exactly-once
   delivery: the next session can hand a sink that same entry a second time, whichever of the owed entries
   it is.
   */
  lemma OwedEventIsRedelivered(config: Config, v: Server, seed: Option<nat>, actions: seq<WireAction>, o: nat)
    requires config.capacity >= 1 && ValidServer(v) && ValidSeed(seed) && config.sinks > 0
    requires ClosesCleanly(v, StartWire(config, v, seed), actions)
    requires var s := RunWire(v, StartWire(config, v, seed), actions).system;
             !s.router.closed && s.history.done <= o < |s.history.log| && s.history.log[o].item.event.Some?
    ensures var w := RunWire(v, StartWire(config, v, seed), actions);
            exists more :: OneSession(v, Closed(v, w), more)
                           && HandedTwice(RunWire(v, Closed(v, w), more).system, 0, w.system.history.log[o].item.frame.id)
  {
    var w := RunWire(v, StartWire(config, v, seed), actions);
    CleanRunIsQuiet(config, v, seed, actions);
    WireStaysBehind(config, v, seed, actions);
    var more := Redelivers(config, v, seed, w, o);
  }

  lemma QuietFits(v: Server, seed: Option<nat>, w: Wire)
    requires Quiet(v, seed, w)
    ensures w.system.history.done <= |w.system.history.log| && First(v, seed) + |w.system.history.log| <= |v.log|
  {
  }

  /** The next session reaches an owed entry through the owed ones in front of it. */
  lemma ReachesOwed(config: Config, v: Server, seed: Option<nat>, w: Wire, o: nat) returns (more: seq<WireAction>)
    requires ValidServer(v) && ValidSeed(seed) && Quiet(v, seed, w) && WireInv(config, w.system)
    requires Behind(w.system.channel) && !w.system.router.closed
    requires w.system.history.done <= o < |w.system.history.log|
    ensures var t := RunWire(v, Closed(v, w), more);
            && WireInv(config, t.system) && OneSession(v, Closed(v, w), more)
            && Ready(v, seed, t, First(v, seed) + o) && w.system.history.log <= t.system.history.log
  {
    hide WireInv, First, RunWire, Behind, Contiguous, Ready, Closed, Quiet, ValidServer, Later;
    QuietFits(v, seed, w);
    var ready := ClosedIsReadyAgain(config, v, seed, w);
    var t := RunWire(v, Closed(v, w), ready);
    var through := ServesUpTo(v, seed, t, First(v, seed) + w.system.history.done, First(v, seed) + o);
    RunWireLater(config, v, t, through);
    more := ready + through;
    RunWireSplits(v, Closed(v, w), ready, through);
  }

  /** An accepted entry that is served again with its event is handed to the first sink again. */
  lemma HandsAgain(config: Config, v: Server, seed: Option<nat>, w: Wire, log: seq<Entry>, o: nat)
    requires ValidServer(v) && ValidSeed(seed) && WireInv(config, w.system) && config.sinks > 0
    requires o < |log| && log <= w.system.history.log && log[o].item.event.Some?
    requires var p := First(v, seed) + o;
             p < |v.log| && Ready(v, seed, w, p) && log[o].item.frame.id == Some(Id(v, v.log[p]))
    ensures var t := RunWire(v, w, [Serving(log[o].item.event), Local(Resume)]).system;
            t.channel.generation == w.system.channel.generation && HandedTwice(t, 0, log[o].item.frame.id)
  {
    var p := First(v, seed) + o;
    var last := [Serving(log[o].item.event), Local(Resume)];
    hide WireInv, First, RunWire, Ready, ValidServer, Id, HandedTwice, Later;
    RunWireLater(config, v, w, last);
    SameConfig(config, w.system);
    HandsServed(v, seed, w, p, log[o].item.event.value);
    ReadyOwesNothing(config, v, seed, w, p);
    var z := RunWire(v, w, last).system;
    WireHands(config, z);
    assert z.history.log[o] == log[o];
    LastIsRepeated(z, o);
  }

  lemma SameConfig(config: Config, s: System)
    requires WireInv(config, s)
    ensures s.config == config
  {
  }

  lemma Redelivers(config: Config, v: Server, seed: Option<nat>, w: Wire, o: nat) returns (more: seq<WireAction>)
    requires ValidServer(v) && ValidSeed(seed) && Quiet(v, seed, w) && WireInv(config, w.system) && config.sinks > 0
    requires Behind(w.system.channel) && !w.system.router.closed
    requires w.system.history.done <= o < |w.system.history.log| && w.system.history.log[o].item.event.Some?
    ensures OneSession(v, Closed(v, w), more)
    ensures HandedTwice(RunWire(v, Closed(v, w), more).system, 0, w.system.history.log[o].item.frame.id)
  {
    hide WireInv, First, RunWire, Behind, Contiguous, Ready, Closed, Quiet, ValidServer, Id, HandedTwice;
    var log := w.system.history.log;
    QuietIsContiguous(v, seed, w);
    OwedEntry(v, First(v, seed), log, o);
    var reach := ReachesOwed(config, v, seed, w, o);
    var last := [Serving(log[o].item.event), Local(Resume)];
    HandsAgain(config, v, seed, RunWire(v, Closed(v, w), reach), log, o);
    more := reach + last;
    RunWireSplits(v, Closed(v, w), reach, last);
  }

  lemma WireHands(config: Config, s: System)
    requires WireInv(config, s) && s.router.generation == 0
    ensures Handing(s) && s.config == config
  {
  }

  lemma ReadyOwesNothing(config: Config, v: Server, seed: Option<nat>, w: Wire, p: nat)
    requires WireInv(config, w.system) && Ready(v, seed, w, p)
    ensures w.system.history.done == |w.system.history.log|
  {
    WaitingOwesNothing(w.system);
  }
}
