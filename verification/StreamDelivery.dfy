/**
 What the sinks of `Stream` are handed while the router does not reset: the events of a prefix of the
 frames it accepted, in that order, whatever becomes of the channel and its cursor.
 */
module StreamDelivery {
  import opened Outcomes
  import opened Stream
  import opened StreamSafety

  // ---------------------------------------------------------------- what the sinks should have seen

  /** The items handed to sink `k`, in order. */
  function HandedTo(calls: seq<Call>, k: nat): seq<Item> {
    if calls == [] then []
    else
      var last := calls[|calls| - 1];
      HandedTo(calls[..|calls| - 1], k) + (if last.sink == k then [last.item] else [])
  }

  /** The first `n` accepted items that decoded to an event. */
  function EventsOf(log: seq<Entry>, n: nat): seq<Item>
    requires n <= |log|
  {
    if n == 0 then []
    else EventsOf(log, n - 1) + (if log[n - 1].item.event.Some? then [log[n - 1].item] else [])
  }

  lemma {:induction false} EventsOfPrefix(log: seq<Entry>, more: seq<Entry>, n: nat)
    requires n <= |log|
    ensures EventsOf(log + more, n) == EventsOf(log, n)
    decreases n
  {
    if n > 0 {
      EventsOfPrefix(log, more, n - 1);
    }
  }

  /** How many accepted entries sink `k` has been handed or passed. */
  function Reached(done: nat, d: Drain, k: nat): nat {
    done + (if d.Delivering? && k <= d.sink then 1 else 0)
  }

  /** Sink `k` was handed exactly the events of a prefix of the accepted entries. */
  ghost predicate Delivered(calls: seq<Call>, log: seq<Entry>, done: nat, d: Drain, k: nat) {
    && Reached(done, d, k) <= |log|
    && (|| HandedTo(calls, k) == EventsOf(log, Reached(done, d, k))
        || (d.Stopped? && done < |log| && HandedTo(calls, k) == EventsOf(log, done + 1)))
  }

  /** The router has never reset, and every sink was handed such a prefix. */
  ghost predicate Handing(s: System) {
    && s.router.generation == 0
    && s.history.done <= |s.history.log|
    && forall k: nat :: k < s.config.sinks ==> Delivered(s.history.calls, s.history.log, s.history.done, s.router.drain, k)
  }

  // ---------------------------------------------------------------- arrivals

  ghost predicate SameDrain(d: Drain, d': Drain) {
    d' == d || (d.Waiting? && (d'.Handed? || d'.Stopped?))
  }

  /** Nothing but frame `f` was accepted, nothing was handed out, and the cursor did not move on. */
  ghost predicate Heard(s: System, t: System, f: Frame) {
    && t.config == s.config
    && t.router.generation == s.router.generation
    && (s.router.closed ==> t.router.closed)
    && SameDrain(s.router.drain, t.router.drain)
    && t.history.calls == s.history.calls && t.history.done == s.history.done
    && (t.channel.lastEventId == s.channel.lastEventId || t.channel.lastEventId.None?)
    && Accepts(s.history.log, t.history.log, f)
    && (s.router.closed ==> t.history.log == s.history.log)
  }

  ghost predicate Accepts(log: seq<Entry>, log': seq<Entry>, f: Frame) {
    log' == log || (|log'| == |log| + 1 && log'[..|log|] == log && log'[|log|].item.frame == f)
  }

  /** Callbacks accept nothing and never reset the router. */
  lemma {:induction false} ReenterAllHears(s: System, calls: seq<Reentry>)
    ensures var t := ReenterAll(s, calls);
            && t.history == s.history && t.router.generation == s.router.generation
            && t.channel.generation >= s.channel.generation
            && (t.router == s.router || t.router == CloseRouter(s).router)
            && (t.channel.lastEventId == s.channel.lastEventId || t.channel.lastEventId.None?)
    decreases |calls|
  {
    if calls != [] {
      ReenterAllHears(Reenter(s, calls[0]), calls[1..]);
    }
  }

  lemma PushHears(s: System, it: Item, notified: seq<Reentry>)
    requires Push(s, it, notified).router.generation == s.router.generation
    ensures var t := Push(s, it, notified);
            Heard(s, t, it.frame) && (!s.router.closed ==> |t.history.log| == |s.history.log| + 1)
  {
    var r := s.router;
    ReenterAllHears(Record(s, it, true), notified);
    if |r.queue| > 0 {
      ReenterAllHears(Record(s, it, false).(router := r.(queue := r.queue[1..] + [it])), notified);
    }
  }

  lemma HearHears(s: System, f: Frame, decoded: Decoded, notified: seq<Reentry>)
    requires Hear(s, f, decoded, notified).router.generation == s.router.generation
    ensures var t := Hear(s, f, decoded, notified);
            Heard(s, t, f) && (!s.router.closed ==> |t.history.log| == |s.history.log| + 1)
  {
    if decoded.DecodeFailed? {
      ReenterAllHears(if s.router.closed then s else Record(s, Item(f, None, s.router.generation), true), notified);
    } else {
      hide Push;
      PushHears(s.(router := s.router.(pendingIds := s.router.pendingIds + IdSet(f.id))),
                Item(f, decoded.event, s.router.generation), notified);
    }
  }

  /** A frame is accepted, or is owed already, or finds the router closed by its listeners. */
  lemma OnFrameHears(s: System, f: Frame, decoded: Decoded, during: seq<Reentry>, notified: seq<Reentry>)
    requires OnFrame(s, f, decoded, during, notified).router.generation == s.router.generation
    ensures var t := OnFrame(s, f, decoded, during, notified);
            && Heard(s, t, f)
            && (IsControl(f) ==> t.history.log == s.history.log)
            && (!IsControl(f) && !t.router.closed ==>
                  |t.history.log| == |s.history.log| + 1 || (f.id.Some? && f.id.value in s.router.pendingIds))
  {
    hide Hear;
    ReenterAllHears(s, during);
    if !(f.kind in {"connected", "failure", "reset"}) && !(f.id.Some? && f.id.value in s.router.pendingIds) {
      HearHears(ReenterAll(s, during), f, decoded, notified);
    }
  }

  lemma ArrivalHears(s: System, a: Action)
    requires a.Arrive? && Next(s, a).router.generation == s.router.generation
    ensures var t := Next(s, a);
            && Heard(s, t, a.frame)
            && (IsControl(a.frame) ==> t.history.log == s.history.log)
            && (!IsControl(a.frame) && Dispatch(s.channel, a.frame).1.Emitted? && !t.router.closed ==>
                  |t.history.log| == |s.history.log| + 1 || (a.frame.id.Some? && a.frame.id.value in s.router.pendingIds))
            && (!IsControl(a.frame) && !Dispatch(s.channel, a.frame).1.Emitted? ==> t.history.log == s.history.log)
  {
    var numbered := AfterDispatch(s, a.frame);
    ReenterAllHears(numbered, a.before);
    if Dispatch(s.channel, a.frame).1.Emitted? {
      OnFrameHears(ReenterAll(numbered, a.before), a.frame, a.decoded, a.during, a.notified);
    }
    hide OnFrame, ReenterAll;
  }

  lemma HearingHands(s: System, t: System, f: Frame)
    requires Handing(s) && Heard(s, t, f)
    ensures Handing(t)
  {
    var h := s.history;
    var more := t.history.log[|h.log|..];
    assert t.history.log == h.log + more;
    forall k: nat | k < t.config.sinks ensures Delivered(h.calls, t.history.log, h.done, t.router.drain, k) {
      assert Delivered(h.calls, h.log, h.done, s.router.drain, k);
      EventsOfPrefix(h.log, more, Reached(h.done, s.router.drain, k));
      if h.done < |h.log| { EventsOfPrefix(h.log, more, h.done + 1); }
    }
  }

  // ---------------------------------------------------------------- the drain

  /** The drain holds the oldest owed entry of the only router generation. */
  ghost predicate HoldsOldest(s: System) {
    && Busy(s.router)
    && s.router.drain.item.generation == 0
    && s.history.done < |s.history.log|
    && s.history.log[s.history.done] == Entry(s.router.drain.item, false)
  }

  lemma BusyHoldsOldest(s: System)
    requires RouterInv(s) && Busy(s.router) && s.router.generation == 0
    ensures HoldsOldest(s)
    ensures s.router.drain.Delivering? ==> s.router.drain.item.event.Some? && s.router.drain.sink < s.config.sinks
  {
  }

  /** Sinks before `k` have been handed the oldest owed item, the others have not. */
  ghost predicate HandedBefore(sinks: nat, h: History, k: nat) {
    && h.done < |h.log|
    && forall j: nat :: j < sinks ==>
         HandedTo(h.calls, j) == EventsOf(h.log, h.done + (if j < k then 1 else 0))
  }

  lemma DrainHandedBefore(s: System)
    requires Handing(s) && HoldsOldest(s)
    ensures HandedBefore(s.config.sinks, s.history, if s.router.drain.Delivering? then s.router.drain.sink + 1 else 0)
  {
    var h := s.history;
    var k := if s.router.drain.Delivering? then s.router.drain.sink + 1 else 0;
    forall j: nat | j < s.config.sinks
      ensures HandedTo(h.calls, j) == EventsOf(h.log, h.done + (if j < k then 1 else 0))
    {
      assert Delivered(h.calls, h.log, h.done, s.router.drain, j);
    }
  }

  /** The drain settles the oldest owed entry: every sink has been handed it, or it has no event. */
  lemma SettlingHands(s: System, t: System)
    requires Handing(s) && HoldsOldest(s)
    requires HandedBefore(s.config.sinks, s.history, if s.router.drain.item.event.None? then 0 else s.config.sinks)
    requires t.config == s.config && t.router.generation == 0 && !t.router.drain.Delivering?
    requires t.history.calls == s.history.calls && t.history.log == s.history.log && t.history.done == s.history.done + 1
    ensures Handing(t)
  {
    var h := s.history;
    var done := h.done + 1;
    forall j: nat | j < s.config.sinks ensures Delivered(h.calls, h.log, done, t.router.drain, j) {
      assert EventsOf(h.log, done) ==
             EventsOf(h.log, h.done) + (if s.router.drain.item.event.Some? then [s.router.drain.item] else []);
    }
  }

  /** A closed router drops its item: each sink has been handed it or not. */
  lemma StoppingHands(s: System, k: nat)
    requires Handing(s) && HoldsOldest(s) && s.router.closed && HandedBefore(s.config.sinks, s.history, k)
    ensures Handing(Finish(s, s.router.drain.item, false))
  {
    var h := s.history;
    forall j: nat | j < s.config.sinks ensures Delivered(h.calls, h.log, h.done, Stopped, j) {
    }
  }

  /** Sink `k` is handed the oldest owed item. */
  lemma HandingOn(s: System, k: nat)
    requires Handing(s) && HoldsOldest(s) && s.router.drain.item.event.Some? && k < s.config.sinks
    requires HandedBefore(s.config.sinks, s.history, k)
    ensures var it := s.router.drain.item;
            Handing(s.(router := s.router.(drain := Delivering(it, k)),
                       history := s.history.(calls := s.history.calls + [Call(k, it)])))
  {
    var h := s.history;
    var it := s.router.drain.item;
    var calls := h.calls + [Call(k, it)];
    assert calls[..|h.calls|] == h.calls;
    forall j: nat | j < s.config.sinks ensures Delivered(calls, h.log, h.done, Delivering(it, k), j) {
      assert HandedTo(calls, j) == HandedTo(h.calls, j) + (if j == k then [it] else []);
    }
  }

  /** What settling the oldest owed entry comes to, acknowledged or not. */
  lemma SettledBy(s: System, it: Item)
    requires it.generation == s.router.generation && !s.router.closed
    ensures var t := Finish(s, it, true);
            && t.config == s.config && t.router.generation == s.router.generation && !t.router.drain.Delivering?
            && t.history.calls == s.history.calls && t.history.log == s.history.log && t.history.done == s.history.done + 1
    ensures it.event.None? ==> ResumePop(s, it) == Finish(s, it, true)
  {
  }

  /** A closed router settles an item without an event all the same. */
  lemma ForgottenBy(s: System, it: Item)
    requires it.generation == s.router.generation && it.event.None?
    ensures var t := ResumePop(s, it);
            && t.config == s.config && t.router.generation == s.router.generation && !t.router.drain.Delivering?
            && t.history.calls == s.history.calls && t.history.log == s.history.log && t.history.done == s.history.done + 1
  {
  }

  lemma {:induction false} FromSinkHands(s: System, k: nat)
    requires Handing(s) && HoldsOldest(s) && s.router.drain.item.event.Some? && k <= s.config.sinks
    requires HandedBefore(s.config.sinks, s.history, k)
    ensures Handing(FromSink(s, s.router.drain.item, k))
  {
    var it := s.router.drain.item;
    if s.router.closed {
      StoppingHands(s, k);
      assert FromSink(s, it, k) == Finish(s, it, false);
    } else if k == s.config.sinks {
      SettledBy(s, it);
      hide Finish;
      SettlingHands(s, Finish(s, it, true));
    } else {
      HandingOn(s, k);
    }
  }

  lemma ResumeHands(s: System)
    requires Handing(s) && HoldsOldest(s) && s.router.drain.Handed?
    ensures Handing(ResumePop(s, s.router.drain.item))
  {
    hide FromSink, HandedBefore, Delivered;
    var it := s.router.drain.item;
    DrainHandedBefore(s);
    if it.event.None? {
      ForgottenBy(s, it);
      hide ResumePop;
      SettlingHands(s, ResumePop(s, it));
    } else {
      FromSinkHands(s, 0);
    }
  }

  lemma ResolveHands(s: System)
    requires Handing(s) && HoldsOldest(s) && s.router.drain.Delivering?
    requires s.router.drain.item.event.Some? && s.router.drain.sink < s.config.sinks
    ensures Handing(SinkResolved(s, s.router.drain.item, s.router.drain.sink))
  {
    hide FromSink, Delivered;
    DrainHandedBefore(s);
    var k := s.router.drain.sink;
    FromSinkHands(s.(history := s.history.(applied := s.history.applied + {Applied(k, s.history.done, s.router.drain.item)})), k + 1);
  }

  lemma RejectHands(s: System, notified: seq<Reentry>)
    requires Handing(s) && HoldsOldest(s) && s.router.drain.Delivering?
    requires SinkRejected(s, s.router.drain.item, notified).router.generation == 0
    ensures Handing(SinkRejected(s, s.router.drain.item, notified))
  {
    DrainHandedBefore(s);
    hide HandedBefore, Delivered;
    var k := s.router.drain.sink + 1;
    if s.router.closed {
      StoppingHands(s, k);
    } else {
      ReenterAllHears(s, notified);
      StoppingHands(ReenterAll(s, notified), k);
    }
  }

  lemma CloseHands(s: System)
    requires Handing(s)
    ensures Handing(CloseRouter(s))
  {
    HearingHands(s, CloseRouter(s), Frame(0, "", NotJson, None, None));
  }

  /** A step without a reset of the router hands the sinks nothing but the next events. */
  lemma NextHands(s: System, a: Action)
    requires RouterInv(s) && Handing(s) && Next(s, a).router.generation == 0
    ensures Handing(Next(s, a))
  {
    if Busy(s.router) { BusyHoldsOldest(s); }
    hide RouterInv, Arrival, FromSink, Finish, ReenterAll, ResumePop, SinkResolved, SinkRejected, CloseRouter, HoldsOldest, Delivered;
    match a
    case Arrive(f, _, _, _, _) =>
      ArrivalHears(s, a);
      hide Handing, Heard;
      HearingHands(s, Next(s, a), f);
    case Outside(call) => if call.CloseRouterCall? { CloseHands(s); }
    case Resume => if s.router.drain.Handed? { ResumeHands(s); }
    case Resolve => if s.router.drain.Delivering? { ResolveHands(s); }
    case RejectSink(notified) => if s.router.drain.Delivering? { RejectHands(s, notified); }
    case Cancelled =>
      if s.router.drain.Delivering? && Aborted(s.router, s.router.drain.item) {
        CancelledHands(s);
      }
  }

  lemma CancelledHands(s: System)
    requires Handing(s) && HoldsOldest(s) && s.router.drain.Delivering? && Aborted(s.router, s.router.drain.item)
    ensures Handing(Finish(s, s.router.drain.item, false))
  {
    DrainHandedBefore(s);
    hide HandedBefore, Delivered, Finish;
    StoppingHands(s, s.router.drain.sink + 1);
  }

  // ---------------------------------------------------------------- generations never go back

  /** Neither generation goes back, and the router's moves only together with the channel's. */
  ghost predicate Later(s: System, t: System) {
    && t.router.generation >= s.router.generation
    && t.channel.generation - t.router.generation >= s.channel.generation - s.router.generation
  }

  lemma OnFrameIsLater(s: System, f: Frame, decoded: Decoded, during: seq<Reentry>, notified: seq<Reentry>)
    ensures Later(s, OnFrame(s, f, decoded, during, notified))
  {
    var t := ReenterAll(s, during);
    ReenterAllHears(s, during);
    if decoded.DecodeFailed? {
      ReenterAllHears(if t.router.closed then t else Record(t, Item(f, None, t.router.generation), true), notified);
    } else {
      PushIsLater(t.(router := t.router.(pendingIds := t.router.pendingIds + IdSet(f.id))),
                  Item(f, decoded.event, t.router.generation), notified);
    }
    hide ReenterAll, Push;
  }

  lemma PushIsLater(s: System, it: Item, notified: seq<Reentry>)
    ensures Later(s, Push(s, it, notified))
  {
    var r := s.router;
    ReenterAllHears(Record(s, it, true), notified);
    if |r.queue| > 0 {
      ReenterAllHears(Record(s, it, false).(router := r.(queue := r.queue[1..] + [it])), notified);
    }
  }

  lemma NextIsLater(s: System, a: Action)
    ensures Later(s, Next(s, a))
  {
    match a
    case Arrive(f, decoded, before, during, notified) =>
      hide OnFrame, ReenterAll;
      var t := AfterDispatch(s, f);
      ReenterAllHears(t, before);
      OnFrameIsLater(ReenterAll(t, before), f, decoded, during, notified);
    case RejectSink(notified) => ReenterAllHears(s, notified);
    case _ =>
  }
}
