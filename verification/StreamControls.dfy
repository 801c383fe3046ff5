/**
 What each kind of frame does to the cursor and to what is owed: data frames, the controls `connected`
 and `reset`, and the losses after which the router gives up a generation. The delivery theorems of
 `StreamResume` follow for runs that are described by their actions alone.
 */
module StreamControls {
  import opened Outcomes
  import opened Stream
  import opened StreamAcrossCloses
  import opened StreamDelivery
  import opened StreamResume
  import opened StreamSafety
  import EventCursor

  // ---------------------------------------------------------------- which frames are heard

  /** The id is that of the cursor, or is written for the same epoch with no later sequence number. */
  ghost predicate CoveredBy(last: Option<string>, id: Option<string>) {
    && last.Some? && id.Some?
    && (id == last ||
        exists earlier, later :: NoLater(earlier, later) && id == Some(EventCursor.Format(earlier)) && last == Some(EventCursor.Format(later)))
  }

  ghost predicate NoLater(earlier: EventCursor.Cursor, later: EventCursor.Cursor) {
    && EventCursor.Valid(earlier) && EventCursor.Valid(later)
    && earlier.epoch == later.epoch && earlier.sequence <= later.sequence
  }

  /** Both ids look like cursors, and one of them is not what a server writes. */
  ghost predicate Unreadable(last: Option<string>, id: Option<string>) {
    && last.Some? && id.Some? && id != last
    && EventCursor.HasEpochPrefix(id.value) && EventCursor.HasEpochPrefix(last.value)
    && !(Written(id.value) && Written(last.value))
  }

  ghost predicate Written(id: string) {
    exists c :: EventCursor.Valid(c) && EventCursor.Format(c) == id
  }

  /** The duplicate test in terms of what servers write. */
  lemma CompareExactly(last: Option<string>, id: Option<string>)
    ensures Compare(last, id).Replayed? <==> CoveredBy(last, id)
    ensures Compare(last, id).Malformed? <==> Unreadable(last, id)
  {
    hide EventCursor.Parse, EventCursor.Format, EventCursor.HasEpochPrefix, EventCursor.Valid;
    if last.Some? && id.Some? {
      EventCursor.ParseAccepts(id.value);
      EventCursor.ParseAccepts(last.value);
      ParsedPrefix(id.value);
      ParsedPrefix(last.value);
      forall earlier, later |
        NoLater(earlier, later) && id == Some(EventCursor.Format(earlier)) && last == Some(EventCursor.Format(later))
        ensures EventCursor.Parse(id.value) == Some(earlier) && EventCursor.Parse(last.value) == Some(later)
      {
        EventCursor.ParseFormat(earlier);
        EventCursor.ParseFormat(later);
      }
      if EventCursor.Parse(id.value).Some? && EventCursor.Parse(last.value).Some? {
        EventCursor.FormatParse(id.value);
        EventCursor.FormatParse(last.value);
      }
    }
  }

  lemma ParsedPrefix(id: string)
    ensures EventCursor.Parse(id).Some? ==> EventCursor.HasEpochPrefix(id)
  {
  }

  /** A server's `connected` names the epoch of its cursor, its `reset` one of three reasons; `failure` is never valid. */
  ghost predicate WellFormed(f: Frame) {
    && f.kind in {"connected", "reset"}
    && f.data.Json?
    && (exists c :: EventCursor.Valid(c) && f.data.cursor == Some(EventCursor.Format(c))
                    && (f.kind == "connected" ==> f.data.epoch == Some(c.epoch)))
    && (f.kind == "reset" ==>
          f.data.reason == Some("epochChanged") || f.data.reason == Some("replayExpired") || f.data.reason == Some("overflow"))
  }

  lemma ValidExactly(f: Frame)
    requires IsControl(f)
    ensures ValidControl(f) <==> WellFormed(f)
  {
    hide EventCursor.Parse, EventCursor.Format, EventCursor.Valid;
    if f.data.Json? && f.data.cursor.Some? {
      var id := f.data.cursor.value;
      EventCursor.ParseAccepts(id);
      forall c | EventCursor.Valid(c) && id == EventCursor.Format(c) ensures EventCursor.Parse(id) == Some(c) {
        EventCursor.ParseFormat(c);
      }
      if EventCursor.Parse(id).Some? { EventCursor.FormatParse(id); }
    }
  }

  /** The frame carries no retry directive, or one that is a minimum. */
  predicate RetryHolds(f: Frame) {
    f.retry.Some? ==> f.retry.value >= 0
  }

  /**
   `dispatch` lets listeners hear exactly the well-formed controls and the data frames that the cursor does
   not cover, and throws at the others except replays. Only data frames that are not covered take a number,
   the next one, under the generation of the moment; only a well-formed `reset` touches cursor and generation.
   */
  lemma DispatchExactly(c: Channel, f: Frame)
    ensures var (d, outcome) := Dispatch(c, f);
            var control := f.kind in {"connected", "reset", "failure"};
            var news := !control && !CoveredBy(c.lastEventId, f.id) && !Unreadable(c.lastEventId, f.id);
            && (outcome.Emitted? <==> RetryHolds(f) && (news || WellFormed(f)))
            && (outcome.Ignored? <==> !control && CoveredBy(c.lastEventId, f.id))
            && d.order == c.order + (if news then 1 else 0)
            && d.deliveries == (if news then c.deliveries[f.ref := Delivery(c.generation, c.order + 1)] else c.deliveries)
            && (if f.kind == "reset" && WellFormed(f)
                then d.generation == c.generation + 1 && d.lastEventId.None?
                else d.generation == c.generation && d.lastEventId == c.lastEventId)
            && d.acknowledgedOrder == c.acknowledgedOrder
            && (d.hasBoundary <==> c.hasBoundary || WellFormed(f))
            && d.serverRetryMs == (if f.retry.Some? && outcome.Emitted? then Some(f.retry.value) else c.serverRetryMs)
  {
    CompareExactly(c.lastEventId, f.id);
    if IsControl(f) { ValidExactly(f); }
    hide CoveredBy, Unreadable, WellFormed, ValidControl, Compare;
    assert IsControl(f) <==> f.kind in {"connected", "reset", "failure"};
    assert WellFormed(f) ==> IsControl(f) by { WellFormedIsControl(f); }
  }

  lemma WellFormedIsControl(f: Frame)
    ensures WellFormed(f) ==> IsControl(f) && f.kind != "failure"
  {
  }

  /**
   Applying a frame moves the cursor to its id; an empty id clears it, and a frame without one leaves it.
   `AcknowledgementSkipsNothing` says which frame that is.
   */
  lemma CursorFollowsId(config: Config, seed: Option<string>, actions: seq<Action>, a: Action)
    requires config.capacity >= 1
    requires var s := Run(Start(config, seed), actions);
             Next(s, a).channel.acknowledgedOrder != s.channel.acknowledgedOrder
    ensures var s := Run(Start(config, seed), actions);
            var t := Next(s, a);
            && s.history.done < |t.history.log|
            && var id := t.history.log[s.history.done].item.frame.id;
               t.channel.lastEventId == (if id == Some("") then None else if id.Some? then id else s.channel.lastEventId)
  {
    hide Next, Start, Run, Settled;
    AcknowledgementSkipsNothing(config, seed, actions, a);
  }

  // ---------------------------------------------------------------- `connected`

  /** A well-formed `connected` marks the boundary and may carry a retry minimum; listeners do the rest. */
  lemma ConnectedKeepsCursor(s: System, a: Action)
    requires a.Arrive? && a.frame.kind == "connected" && WellFormed(a.frame)
    ensures var retry := if a.frame.retry.Some? && a.frame.retry.value >= 0 then Some(a.frame.retry.value) else s.channel.serverRetryMs;
            var marked := s.(channel := s.channel.(hasBoundary := true, serverRetryMs := retry));
            Next(s, a) == if RetryHolds(a.frame) then ReenterAll(marked, a.before) else marked
  {
    ValidExactly(a.frame);
  }

  /** A control that is not well-formed changes nothing; only a `failure` is heard, by the listeners before the router. */
  lemma MalformedControlChangesNothing(s: System, a: Action)
    requires a.Arrive? && IsControl(a.frame) && !WellFormed(a.frame)
    ensures Next(s, a) == if a.frame.kind == "failure" then ReenterAll(s, a.before) else s
  {
    ValidExactly(a.frame);
  }

  // ---------------------------------------------------------------- `reset` and the cursor

  lemma ResetDispatchForfeits(c: Channel, f: Frame)
    requires f.kind == "reset" && WellFormed(f) && Behind(c)
    ensures var d := Dispatch(c, f).0;
            d.lastEventId.None? && d.order == c.order && d.acknowledgedOrder == c.acknowledgedOrder && Forfeited(d, c.order)
  {
    ValidExactly(f);
  }

  lemma ResetArrivalForfeits(s: System, a: Action)
    requires a.Arrive? && a.frame.kind == "reset" && WellFormed(a.frame) && Behind(s.channel)
    ensures var t := Next(s, a);
            t.channel.lastEventId.None? && Forfeited(t.channel, s.channel.order) && t.channel.acknowledgedOrder == s.channel.acknowledgedOrder
  {
    hide Dispatch, OnFrame, ReenterAll, Forfeited, Behind, WellFormed;
    var t := AfterDispatch(s, a.frame);
    ResetDispatchForfeits(s.channel, a.frame);
    ReenterAllForfeits(t, a.before, s.channel.order);
    ReenterAllUnmoved(t, a.before);
    OnFrameForfeits(ReenterAll(t, a.before), a.frame, a.decoded, a.during, a.notified, s.channel.order);
    OnFrameUnmoved(ReenterAll(t, a.before), a.frame, a.decoded, a.during, a.notified);
  }

  /**
   A well-formed `reset` forgets the cursor, and no frame numbered before it ever moves the cursor again,
   whatever the sinks still apply.
   */
  lemma ResetForfeitsCursor(config: Config, seed: Option<string>, before: seq<Action>, a: Action, after: seq<Action>, b: Action)
    requires a.Arrive? && a.frame.kind == "reset" && WellFormed(a.frame)
    ensures var s := Run(Start(config, seed), before);
            var t := Next(s, a);
            var u := Run(t, after);
            var w := Next(u, b);
            && t.channel.lastEventId.None?
            && (w.channel.acknowledgedOrder != u.channel.acknowledgedOrder ==> w.channel.acknowledgedOrder > s.channel.order)
  {
    hide Next, Start, Forfeited, Behind, WellFormed;
    var s := Run(Start(config, seed), before);
    RunStaysBehind(config, seed, before);
    ResetArrivalForfeits(s, a);
    RunForfeits(Next(s, a), after, s.channel.order);
    NextForfeits(Run(Next(s, a), after), b, s.channel.order);
  }

  /** So does a call of `resetCursor`, wherever it is made. */
  lemma {:induction false} ReenterAllForgets(s: System, calls: seq<Reentry>)
    requires ResetChannel in calls && Behind(s.channel)
    ensures var t := ReenterAll(s, calls);
            t.channel.lastEventId.None? && Forfeited(t.channel, s.channel.order) && t.channel.acknowledgedOrder == s.channel.acknowledgedOrder
    decreases |calls|
  {
    var t := Reenter(s, calls[0]);
    OutsideForfeits(s, calls[0], s.channel.order);
    if calls[0] == ResetChannel {
      ReenterAllForfeits(t, calls[1..], s.channel.order);
      ReenterAllUnmoved(t, calls[1..]);
    } else {
      assert calls == [calls[0]] + calls[1..];
      ReenterAllForgets(t, calls[1..]);
    }
  }

  lemma ResetCallForfeitsCursor(config: Config, seed: Option<string>, before: seq<Action>, calls: seq<Reentry>, after: seq<Action>, b: Action)
    requires ResetChannel in calls
    ensures var s := Run(Start(config, seed), before);
            var t := ReenterAll(s, calls);
            var u := Run(t, after);
            var w := Next(u, b);
            && t.channel.lastEventId.None?
            && (w.channel.acknowledgedOrder != u.channel.acknowledgedOrder ==> w.channel.acknowledgedOrder > s.channel.order)
  {
    hide Next, Start, Forfeited, Behind, ReenterAll;
    var s := Run(Start(config, seed), before);
    RunStaysBehind(config, seed, before);
    ReenterAllForgets(s, calls);
    RunForfeits(ReenterAll(s, calls), after, s.channel.order);
    NextForfeits(Run(ReenterAll(s, calls), after), b, s.channel.order);
  }

  // ---------------------------------------------------------------- when the router gives up a generation

  predicate Closes(calls: seq<Reentry>) {
    CloseRouterCall in calls
  }

  predicate NoRoom(s: System) {
    !s.router.drain.Waiting? && |s.router.queue| >= s.config.capacity
  }

  /** An open router hears a `reset`, or a frame that it does not owe and that does not decode or finds no room. */
  ghost predicate ArrivalLoses(s: System, f: Frame, decoded: Decoded, before: seq<Reentry>, during: seq<Reentry>, notified: seq<Reentry>) {
    && !s.router.closed && !Closes(before)
    && Dispatch(s.channel, f).1.Emitted?
    && (|| f.kind == "reset"
        || (&& f.kind !in {"connected", "failure"}
            && !(f.id.Some? && f.id.value in s.router.pendingIds)
            && (decoded.DecodeFailed? || NoRoom(s))
            && !Closes(during) && !Closes(notified)))
  }

  /** Such an arrival, or a sink that fails on an item of the current generation. */
  ghost predicate Loses(s: System, a: Action) {
    match a
    case Arrive(f, decoded, before, during, notified) => ArrivalLoses(s, f, decoded, before, during, notified)
    case RejectSink(notified) => s.router.drain.Delivering? && !Aborted(s.router, s.router.drain.item) && !Closes(notified)
    case _ => false
  }

  lemma {:induction false} ReenterAllCloses(s: System, calls: seq<Reentry>)
    ensures ReenterAll(s, calls).router == if Closes(calls) then CloseRouter(s).router else s.router
    ensures ReenterAll(s, calls).history == s.history
    decreases |calls|
  {
    if calls != [] {
      ReenterAllCloses(Reenter(s, calls[0]), calls[1..]);
    }
  }

  /** The router has given up everything it owed, and the cursor is forgotten for good. */
  ghost predicate GaveUp(s: System, t: System) {
    && t.router.generation == s.router.generation + 1
    && t.router.pendingIds == {}
    && t.channel.lastEventId.None?
    && t.channel.generation > s.channel.generation
    && t.history.base == t.history.done == |t.history.log|
    && (Behind(s.channel) ==> Forfeited(t.channel, t.channel.order))
  }

  /** The router holds on, and the channel has not gone back. */
  ghost predicate HoldsOn(s: System, t: System) {
    && t.router.generation == s.router.generation
    && t.channel.generation >= s.channel.generation
    && (Behind(s.channel) ==> Behind(t.channel))
  }

  lemma CallbacksHoldOn(s: System, calls: seq<Reentry>)
    ensures HoldsOn(s, ReenterAll(s, calls))
    ensures ReenterAll(s, calls).router == if Closes(calls) then CloseRouter(s).router else s.router
    ensures ReenterAll(s, calls).history == s.history
  {
    hide Behind, Forfeited, Closes;
    ReenterAllCloses(s, calls);
    ReenterAllHears(s, calls);
    ReenterAllForfeits(s, calls, 0);
  }

  lemma PushGivesUp(s: System, it: Item, notified: seq<Reentry>)
    ensures var t := Push(s, it, notified);
            if !s.router.closed && NoRoom(s) && !Closes(notified) then GaveUp(s, t)
            else t.router.generation == s.router.generation
  {
    hide Reset, GaveUp, Closes;
    var r := s.router;
    var lost, evicted := Record(s, it, true), Record(s, it, false).(router := r.(queue := if |r.queue| > 0 then r.queue[1..] + [it] else []));
    CallbacksHoldOn(lost, notified);
    CallbacksHoldOn(evicted, notified);
    ResetOrNot(s, ReenterAll(lost, notified));
    ResetOrNot(s, ReenterAll(evicted, notified));
  }

  lemma ResetOrNot(s: System, t: System)
    requires HoldsOn(s, t)
    ensures if t.router.closed then Reset(t) == t else GaveUp(s, Reset(t))
  {
  }

  lemma HearGivesUp(s: System, f: Frame, decoded: Decoded, notified: seq<Reentry>)
    ensures var t := Hear(s, f, decoded, notified);
            if !s.router.closed && (decoded.DecodeFailed? || NoRoom(s)) && !Closes(notified) then GaveUp(s, t)
            else t.router.generation == s.router.generation
  {
    hide Reset, GaveUp, Closes, Push;
    if decoded.DecodeFailed? {
      var lost := if s.router.closed then s else Record(s, Item(f, None, s.router.generation), true);
      CallbacksHoldOn(lost, notified);
      ResetOrNot(s, ReenterAll(lost, notified));
    } else {
      var p := s.(router := s.router.(pendingIds := s.router.pendingIds + IdSet(f.id)));
      PushGivesUp(p, Item(f, decoded.event, s.router.generation), notified);
      GivesUpFrom(s, p, Hear(s, f, decoded, notified));
    }
  }

  /** Giving up is measured by the generations only. */
  lemma GivesUpFrom(s: System, p: System, t: System)
    requires HoldsOn(s, p)
    ensures GaveUp(p, t) ==> GaveUp(s, t)
  {
  }

  lemma OnFrameGivesUp(s: System, f: Frame, decoded: Decoded, during: seq<Reentry>, notified: seq<Reentry>)
    ensures var t := OnFrame(s, f, decoded, during, notified);
            var loses := || f.kind == "reset"
                         || (&& f.kind !in {"connected", "failure"}
                             && !(f.id.Some? && f.id.value in s.router.pendingIds)
                             && (decoded.DecodeFailed? || NoRoom(s))
                             && !Closes(during) && !Closes(notified));
            if !s.router.closed && loses then GaveUp(s, t) else t.router.generation == s.router.generation
  {
    hide Reset, GaveUp, Closes, Hear;
    var heard := ReenterAll(s, during);
    CallbacksHoldOn(s, during);
    HearGivesUp(heard, f, decoded, notified);
    GivesUpFrom(s, heard, Hear(heard, f, decoded, notified));
    ResetOrNot(s, s);
  }

  lemma ArrivalGivesUp(s: System, a: Action)
    requires a.Arrive?
    ensures if Loses(s, a) then GaveUp(s, Next(s, a)) else Next(s, a).router.generation == s.router.generation
  {
    hide GaveUp, Closes, OnFrame, ReenterAll, Dispatch, NoRoom;
    var t := AfterDispatch(s, a.frame);
    var heard := ReenterAll(t, a.before);
    CallbacksHoldOn(t, a.before);
    DispatchHoldsOn(s, a.frame);
    OnFrameGivesUp(heard, a.frame, a.decoded, a.during, a.notified);
    GivesUpFrom(s, heard, OnFrame(heard, a.frame, a.decoded, a.during, a.notified));
    SameRoom(s, heard);
  }

  lemma SameRoom(s: System, t: System)
    ensures t.router == s.router && t.config == s.config ==> NoRoom(t) == NoRoom(s)
  {
  }

  lemma DispatchHoldsOn(s: System, f: Frame)
    ensures HoldsOn(s, AfterDispatch(s, f)) && AfterDispatch(s, f).router == s.router
  {
    DispatchForfeits(s.channel, f, 0);
    hide Compare, ValidControl;
  }

  lemma RejectGivesUp(s: System, notified: seq<Reentry>)
    ensures var a := RejectSink(notified);
            if Loses(s, a) then GaveUp(s, Next(s, a)) else Next(s, a).router.generation == s.router.generation
  {
    hide Closes, GaveUp, HoldsOn, Reset, ReenterAll;
    CallbacksHoldOn(s, notified);
    if s.router.drain.Delivering? && !Aborted(s.router, s.router.drain.item) {
      ResetOrNot(s, ReenterAll(s, notified));
      StaleFinish(Reset(ReenterAll(s, notified)), s.router.drain.item, s);
    }
  }

  lemma StaleFinish(t: System, it: Item, s: System)
    ensures GaveUp(s, t) && it.generation == s.router.generation ==> GaveUp(s, Finish(t, it, false))
    ensures Finish(t, it, false).router.generation == t.router.generation
  {
  }

  /**
   The router gives up its generation in exactly four cases: it hears a `reset`, a frame does not decode, a
   frame finds no room under any policy, or a sink fails; a close of the router on the way forestalls it. It
   then owes nothing, and the next connection replays from the start.
   */
  lemma RouterGivesUpExactly(s: System, a: Action)
    ensures if Loses(s, a) then GaveUp(s, Next(s, a)) else Next(s, a).router.generation == s.router.generation
  {
    hide GaveUp, Arrival, SinkRejected;
    match a
    case Arrive(_, _, _, _, _) => ArrivalGivesUp(s, a);
    case RejectSink(notified) => RejectGivesUp(s, notified);
    case _ =>
  }

  // ---------------------------------------------------------------- what was accepted before is not handed out any more

  /** At most one item more has been handed to a sink, and it is of the router's generation. */
  ghost predicate HandsCurrent(s: System, t: System) {
    || t.history.calls == s.history.calls
    || (&& |t.history.calls| == |s.history.calls| + 1
        && t.history.calls[..|s.history.calls|] == s.history.calls
        && t.history.calls[|s.history.calls|].item.generation == s.router.generation)
  }

  lemma ArrivalHandsNothing(s: System, a: Action)
    requires a.Arrive?
    ensures Next(s, a).history.calls == s.history.calls
  {
    var t := AfterDispatch(s, a.frame);
    var heard := ReenterAll(t, a.before);
    var hearing := ReenterAll(heard, a.during);
    ReenterAllCloses(t, a.before);
    ReenterAllCloses(heard, a.during);
    HearHandsNothing(hearing, a.frame, a.decoded, a.notified);
    hide Dispatch, Hear, ReenterAll;
  }

  lemma HearHandsNothing(s: System, f: Frame, decoded: Decoded, notified: seq<Reentry>)
    ensures Hear(s, f, decoded, notified).history.calls == s.history.calls
  {
    ReenterAllCloses(if s.router.closed then s else Record(s, Item(f, None, s.router.generation), true), notified);
    if decoded.Decoded? {
      var it := Item(f, decoded.event, s.router.generation);
      var p := s.(router := s.router.(pendingIds := s.router.pendingIds + IdSet(f.id)));
      var r := p.router;
      ReenterAllCloses(Record(p, it, true), notified);
      if |r.queue| > 0 { ReenterAllCloses(Record(p, it, false).(router := r.(queue := r.queue[1..] + [it])), notified); }
    }
    hide ReenterAll;
  }

  lemma NextHandsCurrent(s: System, a: Action)
    ensures HandsCurrent(s, Next(s, a))
  {
    hide Arrival, ReenterAll;
    match a
    case Arrive(_, _, _, _, _) => ArrivalHandsNothing(s, a);
    case RejectSink(notified) => ReenterAllCloses(s, notified);
    case _ =>
  }

  /** What is handed out from `t` on is of generation `g` or later. */
  ghost predicate HandsFrom(t: System, u: System, g: nat) {
    && |t.history.calls| <= |u.history.calls|
    && u.history.calls[..|t.history.calls|] == t.history.calls
    && u.router.generation >= g
    && forall i :: |t.history.calls| <= i < |u.history.calls| ==> u.history.calls[i].item.generation >= g
  }

  lemma HandsOn(t: System, u: System, w: System, g: nat)
    requires HandsFrom(t, u, g) && HandsCurrent(u, w) && w.router.generation >= u.router.generation
    ensures HandsFrom(t, w, g)
  {
    var n := |t.history.calls|;
    assert w.history.calls[..|u.history.calls|] == u.history.calls;
    assert w.history.calls[..n] == u.history.calls[..n];
    forall i | n <= i < |w.history.calls| ensures w.history.calls[i].item.generation >= g {
      assert i < |u.history.calls| ==> w.history.calls[i] == w.history.calls[..|u.history.calls|][i];
    }
  }

  lemma {:induction false} RunHandsFrom(t: System, after: seq<Action>)
    ensures HandsFrom(t, Run(t, after), t.router.generation)
    decreases |after|
  {
    if after != [] {
      hide HandsFrom, HandsCurrent, Next;
      var u := Run(t, after[..|after| - 1]);
      RunHandsFrom(t, after[..|after| - 1]);
      NextHandsCurrent(u, after[|after| - 1]);
      NextIsLater(u, after[|after| - 1]);
      HandsOn(t, u, Run(t, after), t.router.generation);
    }
  }

  /**
   Once the router has given up a generation, by a `reset` it hears or by a loss, no frame accepted up to
   then is handed to any sink again, and none numbered up to then moves the cursor.
   */
  lemma GivenUpIsGone(config: Config, seed: Option<string>, before: seq<Action>, a: Action, after: seq<Action>, b: Action)
    requires config.capacity >= 1
    requires Loses(Run(Start(config, seed), before), a)
    ensures var t := Next(Run(Start(config, seed), before), a);
            var u := Run(t, after);
            && |u.history.calls| >= |t.history.calls|
            && (forall i, j :: |t.history.calls| <= i < |u.history.calls| && 0 <= j < |t.history.log| ==>
                 u.history.calls[i].item != t.history.log[j].item)
            && (Next(u, b).channel.acknowledgedOrder != u.channel.acknowledgedOrder ==>
                  Next(u, b).channel.acknowledgedOrder > t.channel.order)
  {
    hide Next, Start, Loses, RouterInv, ChannelInv, Behind, Forfeited;
    var s := Run(Start(config, seed), before);
    var t := Next(s, a);
    RunKeeps(config, seed, before);
    RunStaysBehind(config, seed, before);
    NextKeepsRouter(s, a);
    RouterGivesUpExactly(s, a);
    GivenUpAreOlder(s, t);
    RunHandsFrom(t, after);
    RunForfeits(t, after, t.channel.order);
    NextForfeits(Run(t, after), b, t.channel.order);
  }

  lemma GivenUpAreOlder(s: System, t: System)
    requires RouterInv(t) && GaveUp(s, t)
    ensures forall j :: 0 <= j < |t.history.log| ==> t.history.log[j].item.generation < t.router.generation
  {
  }

  // ---------------------------------------------------------------- runs described by their actions

  /** The callbacks leave the channel alone. */
  predicate Discreet(calls: seq<Reentry>) {
    forall i :: 0 <= i < |calls| ==> calls[i] == CloseRouterCall
  }

  /**
   Served frames decode and find room or the router closed; sinks do not fail on items they hold; no valid
   `reset` comes, nobody resets the channel, and it is closed with nothing owed. Connections open, drop,
   send any other control and break as they like.
   */
  ghost predicate Undisturbed(w: Wire, a: WireAction) {
    match a
    case Open => true
    case Drop => true
    case Serve(_, _, decoded, before, during, _) =>
      decoded.Decoded? && Discreet(before) && Discreet(during) && (w.system.router.closed || !NoRoom(w.system))
    case Control(frame, before) => Discreet(before) && !(frame.kind == "reset" && WellFormed(frame))
    case Local(action) =>
      match action
      case Outside(call) => call.CloseRouterCall? || (call.CloseChannel? && w.system.history.done == |w.system.history.log|)
      case RejectSink(_) => w.system.router.drain.Delivering? ==> Aborted(w.system.router, w.system.router.drain.item)
      case _ => true
  }

  ghost predicate UndisturbedRun(v: Server, w: Wire, actions: seq<WireAction>) {
    forall k :: 0 <= k < |actions| ==> Undisturbed(RunWire(v, w, actions[..k]), actions[k])
  }

  lemma {:induction false} DiscreetCalls(s: System, calls: seq<Reentry>)
    requires Discreet(calls)
    ensures ReenterAll(s, calls).channel == s.channel
    decreases |calls|
  {
    if calls != [] { DiscreetCalls(Reenter(s, calls[0]), calls[1..]); }
  }

  lemma RoomyOnFrame(s: System, f: Frame, decoded: Decoded, during: seq<Reentry>, notified: seq<Reentry>)
    requires !IsControl(f) && decoded.Decoded? && Discreet(during) && (s.router.closed || !NoRoom(s))
    ensures OnFrame(s, f, decoded, during, notified).channel == s.channel
  {
    DiscreetCalls(s, during);
    ReenterAllCloses(s, during);
    hide ReenterAll, Discreet;
  }

  lemma ServedQuietly(s: System, a: Action)
    requires a.Arrive? && !IsControl(a.frame)
    requires a.decoded.Decoded? && Discreet(a.before) && Discreet(a.during) && (s.router.closed || !NoRoom(s))
    ensures Next(s, a).channel.generation == s.channel.generation
  {
    hide Discreet, OnFrame, ReenterAll, Compare;
    var t := AfterDispatch(s, a.frame);
    DiscreetCalls(t, a.before);
    ReenterAllCloses(t, a.before);
    RoomyOnFrame(ReenterAll(t, a.before), a.frame, a.decoded, a.during, a.notified);
  }

  lemma ControlledQuietly(s: System, a: Action)
    requires a.Arrive? && IsControl(a.frame) && Discreet(a.before)
    requires !(a.frame.kind == "reset" && WellFormed(a.frame))
    ensures Next(s, a).channel.generation == s.channel.generation
  {
    ValidExactly(a.frame);
    hide Discreet, ReenterAll, ValidControl, WellFormed;
    DiscreetCalls(AfterDispatch(s, a.frame), a.before);
  }

  lemma UndisturbedForfeitsNothing(v: Server, w: Wire, a: WireAction)
    requires Undisturbed(w, a)
    ensures ForfeitsNothing(v, w, a)
  {
    hide Discreet, WellFormed, Arrival, NoRoom;
    match a
    case Serve(kind, retry, decoded, before, during, notified) =>
      if w.position.Some? && w.position.value < |v.log| {
        var f := Frame(w.nextRef, kind, NotJson, Some(Id(v, v.log[w.position.value])), retry);
        if !IsControl(f) { ServedQuietly(w.system, Arrive(f, decoded, before, during, notified)); }
      }
    case Control(frame, before) =>
      var f := frame.(ref := w.nextRef);
      SameControl(frame, f);
      if IsControl(frame) { ControlledQuietly(w.system, Arrive(f, DecodeFailed, before, [], [])); }
    case _ =>
  }

  /** Which object carries a control does not matter. */
  lemma SameControl(f: Frame, g: Frame)
    requires g == f.(ref := g.ref)
    ensures (WellFormed(g) <==> WellFormed(f)) && (IsControl(g) <==> IsControl(f))
  {
  }

  lemma UndisturbedIsClean(v: Server, w: Wire, actions: seq<WireAction>)
    requires UndisturbedRun(v, w, actions)
    ensures ClosesCleanly(v, w, actions)
  {
    hide Undisturbed, ForfeitsNothing, RunWire;
    forall k | 0 <= k < |actions| ensures ForfeitsNothing(v, RunWire(v, w, actions[..k]), actions[k]) {
      UndisturbedForfeitsNothing(v, RunWire(v, w, actions[..k]), actions[k]);
    }
  }

  /** Everything served has been accepted, and the drain of an open router waits for more. */
  ghost predicate CaughtUp(v: Server, w: Wire) {
    w.position == Some(|v.log|) && !w.system.router.closed && w.system.router.drain.Waiting?
  }

  /**
   Exactly-once delivery for runs described by their actions: with `connected` frames, broken controls,
   drops and reconnects at any time, each sink is handed the events of a prefix of the served log; once the
   connection has been served to the end and the drain waits, of all of it, and the cursor stands at its end.
   */
  lemma UndisturbedRunDeliversOnce(config: Config, v: Server, seed: Option<nat>, actions: seq<WireAction>, k: nat)
    requires config.capacity >= 1 && ValidServer(v) && ValidSeed(seed) && k < config.sinks
    requires UndisturbedRun(v, StartWire(config, v, seed), actions)
    ensures var w := RunWire(v, StartWire(config, v, seed), actions);
            var h := w.system.history;
            && Contiguous(v, First(v, seed), h.log)
            && (exists n: nat :: n <= |h.log| && HandedTo(h.calls, k) == EventsOf(h.log, n))
            && (CaughtUp(v, w) ==>
                  && First(v, seed) + |h.log| == |v.log|
                  && HandedTo(h.calls, k) == EventsOf(h.log, |h.log|)
                  && w.system.channel.lastEventId == CursorAt(v, seed, |v.log|))
  {
    hide RunWire, StartWire, WireInv, UndisturbedRun, ClosesCleanly, Quiet;
    UndisturbedIsClean(v, StartWire(config, v, seed), actions);
    SinksSeeEachEventOnce(config, v, seed, actions, k);
    CleanRunIsQuiet(config, v, seed, actions);
    var w := RunWire(v, StartWire(config, v, seed), actions);
    if CaughtUp(v, w) { CaughtUpIsAll(config, v, seed, w, k); }
  }

  lemma CaughtUpIsAll(config: Config, v: Server, seed: Option<nat>, w: Wire, k: nat)
    requires Quiet(v, seed, w) && WireInv(config, w.system) && CaughtUp(v, w) && k < config.sinks
    ensures var h := w.system.history;
            && First(v, seed) + |h.log| == |v.log|
            && HandedTo(h.calls, k) == EventsOf(h.log, |h.log|)
            && w.system.channel.lastEventId == CursorAt(v, seed, |v.log|)
  {
    var h := w.system.history;
    assert Delivered(h.calls, h.log, h.done, w.system.router.drain, k);
    assert Live(w.system.router) == [];
  }
}
