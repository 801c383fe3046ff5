/** Safety of channel plus router over every run of `Stream`. */
module StreamSafety {
  import opened Outcomes
  import opened Stream

  // ---------------------------------------------------------------- what a run keeps

  /** The items the router still owes, oldest first: the drain's own item, then the queue. */
  ghost function Live(r: Router): seq<Item> {
    (if r.drain.Handed? || r.drain.Delivering? then [r.drain.item] else []) + r.queue
  }

  /** Entry `i` was accepted and every sink applied it, or it decoded to nothing. */
  ghost predicate Settled(sinks: nat, h: History, i: nat)
    requires i < |h.log|
  {
    var e := h.log[i];
    && !e.lost
    && (e.item.event.None? || forall k: nat :: k < sinks ==> Applied(k, i, e.item) in h.applied)
  }

  /** The log splits into older generations, settled entries, and entries still owed. */
  ghost predicate LogShape(sinks: nat, h: History, generation: nat) {
    && h.base <= h.done <= |h.log|
    && (forall i :: 0 <= i < h.base ==> h.log[i].item.generation < generation)
    && (forall i :: h.base <= i < |h.log| ==> h.log[i].item.generation == generation)
    && (forall i :: h.base <= i < h.done ==> Settled(sinks, h, i))
  }

  /** While open, the owed entries are exactly the live items of the current generation. */
  ghost predicate Owed(h: History, live: seq<Item>, generation: nat)
    requires h.done <= |h.log|
  {
    var older := |live| - (|h.log| - h.done);
    && 0 <= older
    && (forall i :: 0 <= i < older ==> live[i].generation < generation)
    && (forall i :: h.done <= i < |h.log| ==> h.log[i] == Entry(live[older + i - h.done], false))
  }

  ghost predicate Owes(h: History, id: string)
    requires h.done <= |h.log|
  {
    exists i :: h.done <= i < |h.log| && h.log[i].item.frame.id == Some(id)
  }

  /** The pending ids are exactly the ids of the owed entries, and no two of those share one. */
  ghost predicate Pending(h: History, ids: set<string>)
    requires h.done <= |h.log|
  {
    && (forall id :: id in ids <==> Owes(h, id))
    && (forall i, j :: h.done <= i < j < |h.log| && h.log[i].item.frame.id.Some?
                       ==> h.log[i].item.frame.id != h.log[j].item.frame.id)
  }

  ghost predicate Busy(r: Router) {
    r.drain.Handed? || r.drain.Delivering?
  }

  /** The part of the invariant that a reset does not need to repair. */
  ghost predicate Sound(s: System) {
    var r := s.router;
    && s.config.capacity >= 1
    && |r.queue| <= s.config.capacity
    && LogShape(s.config.sinks, s.history, r.generation)
    && (Busy(r) ==> r.drain.item.generation <= r.generation)
    && (forall i :: 0 <= i < |r.queue| ==> r.queue[i].generation <= r.generation)
    && (r.drain.Waiting? ==> r.queue == [] && !r.closed)
    && (r.drain.Stopped? ==> r.closed)
    && (r.drain.Delivering? ==> r.drain.item.event.Some? && r.drain.sink < s.config.sinks)
  }

  /** An item of the current generation in the drain is the oldest owed entry. */
  ghost predicate DrainOwes(s: System)
    requires s.history.done <= |s.history.log|
  {
    var h := s.history;
    var r := s.router;
    Busy(r) && r.drain.item.generation == r.generation ==>
      && h.done < |h.log|
      && h.log[h.done] == Entry(r.drain.item, false)
      && (r.drain.Delivering? ==>
            forall k: nat :: k < r.drain.sink ==> Applied(k, h.done, r.drain.item) in h.applied)
  }

  ghost predicate RouterInv(s: System) {
    && Sound(s)
    && DrainOwes(s)
    && (!s.router.closed ==>
          && Owed(s.history, Live(s.router), s.router.generation)
          && Pending(s.history, s.router.pendingIds))
  }

  ghost predicate ChannelInv(s: System) {
    var c := s.channel;
    var h := s.history;
    && |h.dispatched| == c.order
    && c.acknowledgedOrder <= c.order
    && (forall ref :: ref in c.deliveries ==>
          && 1 <= c.deliveries[ref].order <= c.order
          && h.dispatched[c.deliveries[ref].order - 1] == Numbered(ref, c.deliveries[ref].generation))
    && (forall i, j :: 0 <= i < j < |h.moves| ==> h.moves[i] < h.moves[j])
    && (forall i :: 0 <= i < |h.moves| ==> 1 <= h.moves[i] <= c.acknowledgedOrder)
    && (h.moves == [] ==> c.acknowledgedOrder == 0)
    && (h.moves != [] ==> h.moves[|h.moves| - 1] == c.acknowledgedOrder)
  }

  // ---------------------------------------------------------------- router steps keep it

  /** After a lost frame only the router's own reset restores the invariant. */
  lemma ResetRestores(s: System)
    requires Sound(s) && !s.router.closed
    ensures RouterInv(Reset(s))
  {
  }

  lemma CloseKeeps(s: System)
    requires RouterInv(s)
    ensures RouterInv(CloseRouter(s))
  {
  }

  lemma ReenterKeeps(s: System, call: Reentry)
    requires RouterInv(s)
    ensures RouterInv(Reenter(s, call))
  {
  }

  lemma {:induction false} ReenterAllKeeps(s: System, calls: seq<Reentry>)
    requires RouterInv(s)
    ensures RouterInv(ReenterAll(s, calls))
    decreases |calls|
  {
    if calls != [] {
      ReenterKeeps(s, calls[0]);
      ReenterAllKeeps(Reenter(s, calls[0]), calls[1..]);
    }
  }

  /** Calls from a callback leave the router alone or close it; they never touch the history. */
  lemma {:induction false} ReenterAllRouter(s: System, calls: seq<Reentry>)
    ensures var t := ReenterAll(s, calls);
            t.history == s.history && t.config == s.config && (t.router == s.router || t.router == CloseRouter(s).router)
    decreases |calls|
  {
    if calls != [] {
      ReenterAllRouter(Reenter(s, calls[0]), calls[1..]);
    }
  }

  /** A frame was lost: observers are told, then the generation is abandoned. */
  lemma LossKeeps(s: System, calls: seq<Reentry>)
    requires Sound(s) && DrainOwes(s) && !s.router.closed
    ensures RouterInv(Reset(ReenterAll(s, calls)))
  {
    ReenterAllRouter(s, calls);
    var t := ReenterAll(s, calls);
    if !t.router.closed {
      ResetRestores(t);
    }
  }

  lemma RecordKeeps(s: System, it: Item, lost: bool)
    requires RouterInv(s) && it.generation == s.router.generation
    ensures Sound(Record(s, it, lost)) && DrainOwes(Record(s, it, lost))
  {
    var h' := Record(s, it, lost).history;
    forall i | s.history.base <= i < s.history.done ensures Settled(s.config.sinks, h', i) {
      assert Settled(s.config.sinks, s.history, i);
    }
  }

  /** Appending to both the log and the live items keeps them aligned. */
  lemma AcceptKeeps(s: System, it: Item, r: Router)
    requires RouterInv(s) && !s.router.closed && it.generation == s.router.generation
    requires it.frame.id.Some? ==> it.frame.id.value !in s.router.pendingIds
    requires r.generation == s.router.generation && !r.closed
    requires Live(r) == Live(s.router) + [it]
    requires r.pendingIds == s.router.pendingIds + IdSet(it.frame.id)
    ensures var h := Record(s, it, false).history;
            Owed(h, Live(r), r.generation) && Pending(h, r.pendingIds)
  {
    var h := s.history;
    var h' := Record(s, it, false).history;
    forall id ensures id in r.pendingIds <==> Owes(h', id) {
      if Owes(h, id) {
        var i :| h.done <= i < |h.log| && h.log[i].item.frame.id == Some(id);
        assert h'.log[i] == h.log[i];
      }
      if id in IdSet(it.frame.id) {
        assert h'.log[|h.log|].item.frame.id == Some(id);
      }
      if Owes(h', id) {
        var i :| h'.done <= i < |h'.log| && h'.log[i].item.frame.id == Some(id);
        assert i < |h.log| ==> Owes(h, id);
      }
    }
    forall j | h.done <= j < |h.log| && it.frame.id.Some? ensures h.log[j].item.frame.id != it.frame.id {
      if h.log[j].item.frame.id == it.frame.id {
        assert Owes(h, it.frame.id.value);
      }
    }
  }

  /** The item found room: a waiting drain took it, or it joined the queue. */
  lemma AdmitKeeps(s: System, it: Item, r: Router)
    requires RouterInv(s) && !s.router.closed && it.generation == s.router.generation
    requires it.frame.id.Some? ==> it.frame.id.value !in s.router.pendingIds
    requires r == s.router.(pendingIds := r.pendingIds, queue := r.queue, drain := r.drain)
    requires r.pendingIds == s.router.pendingIds + IdSet(it.frame.id)
    requires || (s.router.drain.Waiting? && r.drain == Handed(it) && r.queue == s.router.queue)
             || (Busy(s.router) && r.drain == s.router.drain && r.queue == s.router.queue + [it]
                 && |s.router.queue| < s.config.capacity)
    ensures RouterInv(Record(s, it, false).(router := r))
  {
    RecordKeeps(s, it, false);
    assert Live(r) == Live(s.router) + [it];
    AcceptKeeps(s, it, r);
    if s.router.drain.Waiting? {
      assert Live(s.router) == [];
    }
  }

  lemma PushKeeps(s: System, it: Item, notified: seq<Reentry>)
    requires RouterInv(s) && it.generation == s.router.generation
    requires !s.router.closed && it.frame.id.Some? ==> it.frame.id.value !in s.router.pendingIds
    ensures RouterInv(Push(s.(router := s.router.(pendingIds := s.router.pendingIds + IdSet(it.frame.id))), it, notified))
  {
    var p := s.(router := s.router.(pendingIds := s.router.pendingIds + IdSet(it.frame.id)));
    var r := p.router;
    if r.closed {
    } else if r.drain.Waiting? {
      AdmitKeeps(s, it, r.(drain := Handed(it)));
    } else if |r.queue| < s.config.capacity {
      AdmitKeeps(s, it, r.(queue := r.queue + [it]));
    } else {
      OverflowKeeps(s, p, it, notified);
    }
  }

  lemma OverflowKeeps(s: System, p: System, it: Item, notified: seq<Reentry>)
    requires RouterInv(s) && it.generation == s.router.generation && !s.router.closed
    requires p == s.(router := s.router.(pendingIds := p.router.pendingIds))
    requires !s.router.drain.Waiting? && |s.router.queue| == s.config.capacity
    ensures RouterInv(Push(p, it, notified))
  {
    var lost := !s.config.overflow.DropOldest?;
    RecordKeeps(s, it, lost);
    var recorded := Record(p, it, lost);
    if lost {
      LossKeeps(recorded, notified);
    } else {
      LossKeeps(recorded.(router := p.router.(queue := p.router.queue[1..] + [it])), notified);
    }
  }

  lemma OnFrameKeeps(s: System, f: Frame, decoded: Decoded, during: seq<Reentry>, notified: seq<Reentry>)
    requires RouterInv(s)
    ensures RouterInv(OnFrame(s, f, decoded, during, notified))
  {
    if f.kind == "connected" || f.kind == "failure" {
    } else if f.kind == "reset" {
      if !s.router.closed { ResetRestores(s); }
    } else if f.id.Some? && f.id.value in s.router.pendingIds {
    } else {
      var after := ReenterAll(s, during);
      ReenterAllKeeps(s, during);
      ReenterAllRouter(s, during);
      var generation := after.router.generation;
      if decoded.DecodeFailed? {
        if after.router.closed {
          ReenterAllKeeps(after, notified);
          ReenterAllRouter(after, notified);
        } else {
          var it := Item(f, None, generation);
          RecordKeeps(after, it, true);
          LossKeeps(Record(after, it, true), notified);
        }
      } else {
        PushKeeps(after, Item(f, decoded.event, generation), notified);
      }
    }
  }

  // ---------------------------------------------------------------- drain steps keep it

  /** The next turn of the loop, once the queue alone carries what is owed. */
  lemma PullKeeps(s: System)
    requires Sound(s)
    requires !s.router.closed ==>
               Owed(s.history, s.router.queue, s.router.generation) && Pending(s.history, s.router.pendingIds)
    ensures RouterInv(s.(router := Pull(s.router)))
  {
    var r := Pull(s.router);
    assert !s.router.closed ==> Live(r) == s.router.queue;
  }

  lemma OwedAreCurrent(s: System)
    requires RouterInv(s) && !s.router.closed
    ensures var live := Live(s.router);
            forall i :: |live| - (|s.history.log| - s.history.done) <= i < |live| ==>
              live[i].generation == s.router.generation
  {
    var live := Live(s.router);
    var older := |live| - (|s.history.log| - s.history.done);
    forall i | older <= i < |live| ensures live[i].generation == s.router.generation {
      assert s.history.log[s.history.done + i - older] == Entry(live[i], false);
    }
  }

  /** The drain gives up its item without settling it: the item is stale, or the router is closed. */
  lemma AbandonKeeps(s: System, pending: set<string>)
    requires RouterInv(s) && Busy(s.router) && Aborted(s.router, s.router.drain.item)
    requires !s.router.closed ==> pending == s.router.pendingIds
    ensures RouterInv(s.(router := Pull(s.router.(pendingIds := pending))))
  {
    var r := s.router;
    if !r.closed {
      var live := Live(r);
      assert live == [r.drain.item] + r.queue;
      OwedAreCurrent(s);
      assert live[0].generation < r.generation;
      forall i | 0 <= i < |live| - 1 - (|s.history.log| - s.history.done)
        ensures r.queue[i].generation < r.generation
      {
        assert r.queue[i] == live[i + 1];
      }
    }
    PullKeeps(s.(router := r.(pendingIds := pending)));
  }

  /** The drain settles the oldest owed entry. */
  lemma SettleKeeps(s: System, c: Channel, moves: seq<nat>)
    requires RouterInv(s) && Busy(s.router) && s.router.drain.item.generation == s.router.generation
    requires Settled(s.config.sinks, s.history, s.history.done)
    ensures var r := s.router.(pendingIds := s.router.pendingIds - IdSet(s.router.drain.item.frame.id));
            RouterInv(s.(channel := c, router := Pull(r),
                         history := s.history.(moves := moves, done := s.history.done + 1)))
  {
    hide Settled, Pending, Owed, LogShape;
    var h := s.history;
    var r := s.router;
    var h' := h.(moves := moves, done := h.done + 1);
    var ids := r.pendingIds - IdSet(r.drain.item.frame.id);
    SettleShape(s.config.sinks, h, h', r.generation);
    if !r.closed {
      assert Live(r) == [r.drain.item] + r.queue;
      SettleOwed(h, h', r.drain.item, r.queue, r.generation);
      SettlePending(h, h', r.pendingIds, ids);
    }
    hide RouterInv, DrainOwes;
    PullKeeps(s.(channel := c, router := r.(pendingIds := ids), history := h'));
  }

  lemma SettleShape(sinks: nat, h: History, h': History, generation: nat)
    requires LogShape(sinks, h, generation) && h.done < |h.log| && Settled(sinks, h, h.done)
    requires h' == h.(moves := h'.moves, done := h.done + 1)
    ensures LogShape(sinks, h', generation)
  {
    forall i | h'.base <= i < h'.done ensures Settled(sinks, h', i) {
      assert Settled(sinks, h, i);
    }
  }

  /** Once the drain's item is settled, the queue alone carries what is owed. */
  lemma SettleOwed(h: History, h': History, it: Item, queue: seq<Item>, generation: nat)
    requires h.done < |h.log| && h' == h.(moves := h'.moves, done := h.done + 1) && it.generation == generation
    requires Owed(h, [it] + queue, generation)
    ensures Owed(h', queue, generation)
  {
    var live := [it] + queue;
    assert live[0].generation == generation;
    assert |live| == |h.log| - h.done;
    assert forall i :: 0 <= i < |queue| ==> queue[i] == live[i + 1];
  }

  lemma SettlePending(h: History, h': History, ids: set<string>, rest: set<string>)
    requires h.done < |h.log| && h' == h.(moves := h'.moves, done := h.done + 1)
    requires Pending(h, ids) && rest == ids - IdSet(h.log[h.done].item.frame.id)
    ensures Pending(h', rest)
  {
    forall id ensures id in rest <==> Owes(h', id) {
      if Owes(h, id) {
        var i :| h.done <= i < |h.log| && h.log[i].item.frame.id == Some(id);
        assert i > h.done ==> Owes(h', id);
      }
      if Owes(h', id) {
        var i :| h'.done <= i < |h'.log| && h'.log[i].item.frame.id == Some(id);
        assert Owes(h, id);
        assert h.log[h.done].item.frame.id.Some? ==> h.log[h.done].item.frame.id != h.log[i].item.frame.id;
      }
    }
  }

  lemma FinishKeeps(s: System, applied: bool)
    requires RouterInv(s) && Busy(s.router)
    requires var it := s.router.drain.item;
             it.generation == s.router.generation && applied && !s.router.closed ==>
               Settled(s.config.sinks, s.history, s.history.done)
    requires !applied ==> Aborted(s.router, s.router.drain.item)
    ensures RouterInv(Finish(s, s.router.drain.item, applied))
  {
    hide RouterInv;
    var it := s.router.drain.item;
    if it.generation == s.router.generation && applied && !s.router.closed {
      var m := AcknowledgeItem(s, it);
      SettleKeeps(s, m.channel, m.history.moves);
    } else if it.generation != s.router.generation {
      AbandonKeeps(s, s.router.pendingIds);
    } else {
      AbandonKeeps(s, s.router.pendingIds - IdSet(it.frame.id));
    }
  }

  lemma FromSinkKeeps(s: System, k: nat)
    requires RouterInv(s) && Busy(s.router) && s.router.drain.item.event.Some?
    requires var it := s.router.drain.item;
             it.generation == s.router.generation ==>
               forall j: nat :: j < k ==> Applied(j, s.history.done, it) in s.history.applied
    ensures RouterInv(FromSink(s, s.router.drain.item, k))
  {
    var it := s.router.drain.item;
    if k >= s.config.sinks {
      FinishKeeps(s, true);
    } else if Aborted(s.router, it) {
      FinishKeeps(s, false);
    } else {
      var t := FromSink(s, it, k);
      assert Live(t.router) == Live(s.router);
      HistoryGrows(s, t.history);
    }
  }

  /** Recording sink calls and sink results disturbs nothing. */
  lemma HistoryGrows(s: System, h: History)
    requires RouterInv(s)
    requires h == s.history.(calls := h.calls, applied := h.applied) && s.history.applied <= h.applied
    ensures RouterInv(s.(history := h))
  {
    forall i | h.base <= i < h.done ensures Settled(s.config.sinks, h, i) {
      assert Settled(s.config.sinks, s.history, i);
    }
    forall id ensures Owes(h, id) == Owes(s.history, id) {
    }
  }

  /** An acknowledgement touches the channel and the record of moves. */
  lemma AcknowledgeOnly(s: System, it: Item)
    ensures var m := AcknowledgeItem(s, it);
            m == s.(channel := m.channel, history := s.history.(moves := m.history.moves))
  {
  }

  lemma ResumePopKeeps(s: System)
    requires RouterInv(s) && s.router.drain.Handed?
    ensures RouterInv(ResumePop(s, s.router.drain.item))
  {
    var it := s.router.drain.item;
    assert it.event.None? && it.generation == s.router.generation ==>
             s.history.done < |s.history.log| && Settled(s.config.sinks, s.history, s.history.done);
    hide RouterInv, Settled, AcknowledgeItem, FromSink;
    if it.generation != s.router.generation {
      AbandonKeeps(s, s.router.pendingIds);
      assert s.router.(pendingIds := s.router.pendingIds) == s.router;
    } else if it.event.None? {
      var m := AcknowledgeItem(s, it);
      AcknowledgeOnly(s, it);
      SettleKeeps(s, m.channel, m.history.moves);
    } else {
      FromSinkKeeps(s, 0);
    }
  }

  /** Recording the result of the sink under way. */
  function Credited(s: System): System
    requires s.router.drain.Delivering?
  {
    s.(history := s.history.(applied :=
      s.history.applied + {Applied(s.router.drain.sink, s.history.done, s.router.drain.item)}))
  }

  lemma CreditedKeeps(s: System)
    requires RouterInv(s) && s.router.drain.Delivering?
    ensures RouterInv(Credited(s)) && s.router.drain.item.event.Some?
    ensures var it := s.router.drain.item;
            it.generation == s.router.generation ==>
              forall j: nat :: j < s.router.drain.sink + 1 ==> Applied(j, s.history.done, it) in Credited(s).history.applied
  {
    HistoryGrows(s, Credited(s).history);
  }

  lemma SinkResolvedKeeps(s: System)
    requires RouterInv(s) && s.router.drain.Delivering?
    ensures RouterInv(SinkResolved(s, s.router.drain.item, s.router.drain.sink))
  {
    hide RouterInv;
    CreditedKeeps(s);
    FromSinkKeeps(Credited(s), s.router.drain.sink + 1);
  }

  lemma SinkRejectedKeeps(s: System, notified: seq<Reentry>)
    requires RouterInv(s) && s.router.drain.Delivering?
    ensures RouterInv(SinkRejected(s, s.router.drain.item, notified))
  {
    var it := s.router.drain.item;
    if Aborted(s.router, it) {
      FinishKeeps(s, false);
    } else {
      LossKeeps(s, notified);
      ReenterAllRouter(s, notified);
      FinishKeeps(Reset(ReenterAll(s, notified)), false);
    }
  }

  /** Numbering a frame or applying its retry directive leaves the router as it was. */
  lemma ForeignKeeps(s: System, c: Channel, dispatched: seq<Numbered>)
    requires RouterInv(s)
    ensures RouterInv(s.(channel := c, history := s.history.(dispatched := dispatched)))
  {
    var h := s.history.(dispatched := dispatched);
    forall i | h.base <= i < h.done ensures Settled(s.config.sinks, h, i) {
      assert Settled(s.config.sinks, s.history, i);
    }
    forall id ensures Owes(h, id) == Owes(s.history, id) {
    }
  }

  lemma NextKeepsRouter(s: System, a: Action)
    requires RouterInv(s)
    ensures RouterInv(Next(s, a))
  {
    hide RouterInv;
    match a
    case Arrive(f, decoded, before, during, notified) =>
      var t := AfterDispatch(s, f);
      ForeignKeeps(s, t.channel, t.history.dispatched);
      ReenterAllKeeps(t, before);
      OnFrameKeeps(ReenterAll(t, before), f, decoded, during, notified);
    case Outside(call) => ReenterKeeps(s, call);
    case Resume => if s.router.drain.Handed? { ResumePopKeeps(s); }
    case Resolve => if s.router.drain.Delivering? { SinkResolvedKeeps(s); }
    case RejectSink(notified) => if s.router.drain.Delivering? { SinkRejectedKeeps(s, notified); }
    case Cancelled =>
      if s.router.drain.Delivering? && Aborted(s.router, s.router.drain.item) { FinishKeeps(s, false); }
  }

  // ---------------------------------------------------------------- channel numbering

  ghost predicate SameNumbers(s: System, t: System) {
    && t.channel.order == s.channel.order
    && t.channel.acknowledgedOrder == s.channel.acknowledgedOrder
    && t.channel.deliveries == s.channel.deliveries
    && t.history.dispatched == s.history.dispatched
    && t.history.moves == s.history.moves
  }

  /** Without an acknowledgement the cursor stays or is forgotten. */
  ghost predicate Unmoved(s: System, t: System) {
    SameNumbers(s, t) && (t.channel.lastEventId == s.channel.lastEventId || t.channel.lastEventId.None?)
  }

  lemma {:induction false} ReenterAllUnmoved(s: System, calls: seq<Reentry>)
    ensures Unmoved(s, ReenterAll(s, calls))
    decreases |calls|
  {
    if calls != [] {
      ReenterAllUnmoved(Reenter(s, calls[0]), calls[1..]);
    }
  }

  lemma OnFrameUnmoved(s: System, f: Frame, decoded: Decoded, during: seq<Reentry>, notified: seq<Reentry>)
    ensures Unmoved(s, OnFrame(s, f, decoded, during, notified))
  {
    var after := ReenterAll(s, during);
    ReenterAllUnmoved(s, during);
    if decoded.DecodeFailed? {
      var it := Item(f, None, after.router.generation);
      ReenterAllUnmoved(if after.router.closed then after else Record(after, it, true), notified);
    } else {
      var p := after.(router := after.router.(pendingIds := after.router.pendingIds + IdSet(f.id)));
      PushUnmoved(p, Item(f, decoded.event, after.router.generation), notified);
    }
  }

  lemma PushUnmoved(s: System, it: Item, notified: seq<Reentry>)
    ensures Unmoved(s, Push(s, it, notified))
  {
    var r := s.router;
    ReenterAllUnmoved(Record(s, it, true), notified);
    if |r.queue| > 0 {
      ReenterAllUnmoved(Record(s, it, false).(router := r.(queue := r.queue[1..] + [it])), notified);
    }
  }

  /** `dispatch` either numbers the frame next or leaves the numbering alone. */
  lemma DispatchNumbers(c: Channel, f: Frame)
    ensures var d := Dispatch(c, f).0;
            && d.acknowledgedOrder == c.acknowledgedOrder
            && (d.lastEventId == c.lastEventId || d.lastEventId.None?)
            && (|| (d.order == c.order && d.deliveries == c.deliveries)
                || (d.order == c.order + 1 && d.deliveries == c.deliveries[f.ref := Delivery(c.generation, d.order)]))
  {
  }

  lemma AfterDispatchNumbers(s: System, f: Frame)
    requires ChannelInv(s)
    ensures ChannelInv(AfterDispatch(s, f))
    ensures var t := AfterDispatch(s, f);
            t.channel.acknowledgedOrder == s.channel.acknowledgedOrder
            && (t.channel.lastEventId == s.channel.lastEventId || t.channel.lastEventId.None?)
  {
    DispatchNumbers(s.channel, f);
    NumberedInv(s, AfterDispatch(s, f), f);
  }

  lemma NumberedInv(s: System, t: System, f: Frame)
    requires ChannelInv(s) && t.history.moves == s.history.moves
    requires t.channel.acknowledgedOrder == s.channel.acknowledgedOrder
    requires || (t.channel.order == s.channel.order && t.channel.deliveries == s.channel.deliveries
                 && t.history.dispatched == s.history.dispatched)
             || (t.channel.order == s.channel.order + 1
                 && t.channel.deliveries == s.channel.deliveries[f.ref := Delivery(s.channel.generation, t.channel.order)]
                 && t.history.dispatched == s.history.dispatched + [Numbered(f.ref, s.channel.generation)])
    ensures ChannelInv(t)
  {
  }

  /** What one acknowledgement does, told in terms of the numbering. */
  lemma AcknowledgeNumbers(s: System, it: Item)
    requires ChannelInv(s)
    ensures var t := AcknowledgeItem(s, it);
            && ChannelInv(t)
            && t.history == s.history.(moves := t.history.moves)
            && (t.channel.acknowledgedOrder == s.channel.acknowledgedOrder ==> t == s)
            && (t.channel.acknowledgedOrder != s.channel.acknowledgedOrder ==>
                  && t.channel.acknowledgedOrder > s.channel.acknowledgedOrder
                  && t.history.moves == s.history.moves + [t.channel.acknowledgedOrder]
                  && t.channel.lastEventId == CursorAfter(s.channel.lastEventId, it.frame.id)
                  && t.history.dispatched[t.channel.acknowledgedOrder - 1] == Numbered(it.frame.ref, s.channel.generation))
  {
    var t := AcknowledgeItem(s, it);
    if Acknowledgeable(s.channel, it.frame) {
      assert t.history.moves == s.history.moves + [t.channel.acknowledgedOrder];
    }
  }

  // ---------------------------------------------------------------- the main results

  /**
   The step from `s` to `t` moved the cursor soundly, or did not move it. When it moved, it moved to
   the oldest owed entry, and that entry and every earlier one of its router generation is settled:
   no refused, undecodable or unapplied frame was passed over. The frame was numbered under the
   channel generation that still holds.
   */
  ghost predicate SoundMove(s: System, t: System) {
    if t.channel.acknowledgedOrder == s.channel.acknowledgedOrder then
      && t.history.moves == s.history.moves
      && (t.channel.lastEventId == s.channel.lastEventId || t.channel.lastEventId.None?)
    else
      var i := s.history.done;
      var n := t.channel.acknowledgedOrder;
      && n > s.channel.acknowledgedOrder
      && t.history.moves == s.history.moves + [n]
      && i < |t.history.log|
      && var it := t.history.log[i].item;
      && it.generation == s.router.generation
      && (forall j :: 0 <= j <= i && t.history.log[j].item.generation == it.generation ==>
            Settled(s.config.sinks, t.history, j))
      && t.channel.lastEventId == CursorAfter(s.channel.lastEventId, it.frame.id)
      && 1 <= n <= |t.history.dispatched|
      && t.history.dispatched[n - 1] == Numbered(it.frame.ref, s.channel.generation)
  }

  /** Acknowledging the drain's settled item is a sound move. */
  lemma SettleMoves(s: System, r: Router)
    requires RouterInv(s) && ChannelInv(s) && Busy(s.router) && s.router.drain.item.generation == s.router.generation
    requires Settled(s.config.sinks, s.history, s.history.done)
    ensures var t := AcknowledgeItem(s, s.router.drain.item);
            SoundMove(s, t.(router := r, history := t.history.(done := s.history.done + 1)))
    ensures ChannelInv(AcknowledgeItem(s, s.router.drain.item))
  {
    var it := s.router.drain.item;
    var t := AcknowledgeItem(s, it);
    AcknowledgeNumbers(s, it);
    var h := t.history.(done := s.history.done + 1);
    forall j | 0 <= j <= s.history.done && h.log[j].item.generation == it.generation
      ensures Settled(s.config.sinks, h, j)
    {
      assert Settled(s.config.sinks, s.history, j);
    }
  }

  lemma FinishMoves(s: System, applied: bool)
    requires RouterInv(s) && ChannelInv(s) && Busy(s.router)
    requires var it := s.router.drain.item;
             it.generation == s.router.generation && applied && !s.router.closed ==>
               Settled(s.config.sinks, s.history, s.history.done)
    ensures var t := Finish(s, s.router.drain.item, applied);
            SoundMove(s, t) && ChannelInv(t)
  {
    hide RouterInv, ChannelInv, AcknowledgeItem, Pull, Settled;
    var it := s.router.drain.item;
    if it.generation == s.router.generation && applied && !s.router.closed {
      var cleared := s.(router := s.router.(pendingIds := s.router.pendingIds - IdSet(it.frame.id)));
      SettleMoves(s, Finish(s, it, true).router);
      AcknowledgeApart(s, cleared, it);
      AcknowledgeOnly(s, it);
    }
    ChannelInvIgnores(s, Finish(s, it, applied));
    ChannelInvIgnores(AcknowledgeItem(s, it), Finish(s, it, applied));
  }

  /** An acknowledgement does the same whatever the router looks like. */
  lemma AcknowledgeApart(s: System, t: System, it: Item)
    requires t == s.(router := t.router)
    ensures AcknowledgeItem(t, it) == AcknowledgeItem(s, it).(router := t.router)
  {
  }

  lemma ChannelInvIgnores(s: System, t: System)
    ensures (t.channel == s.channel && t.history.dispatched == s.history.dispatched && t.history.moves == s.history.moves
             && ChannelInv(s)) ==> ChannelInv(t)
  {
  }

  lemma FromSinkMoves(s: System, k: nat)
    requires RouterInv(s) && ChannelInv(s) && Busy(s.router) && s.router.drain.item.event.Some?
    requires var it := s.router.drain.item;
             it.generation == s.router.generation ==>
               forall j: nat :: j < k ==> Applied(j, s.history.done, it) in s.history.applied
    ensures var t := FromSink(s, s.router.drain.item, k);
            SoundMove(s, t) && ChannelInv(t)
  {
    if k >= s.config.sinks {
      FinishMoves(s, true);
    } else if Aborted(s.router, s.router.drain.item) {
      FinishMoves(s, false);
    }
  }

  lemma ArrivalMoves(s: System, a: Action)
    requires ChannelInv(s) && a.Arrive?
    ensures SoundMove(s, Arrival(s, a)) && ChannelInv(Arrival(s, a))
  {
    var t := AfterDispatch(s, a.frame);
    AfterDispatchNumbers(s, a.frame);
    ReenterAllUnmoved(t, a.before);
    OnFrameUnmoved(ReenterAll(t, a.before), a.frame, a.decoded, a.during, a.notified);
  }

  lemma ResumeMoves(s: System)
    requires RouterInv(s) && ChannelInv(s) && s.router.drain.Handed?
    ensures var t := ResumePop(s, s.router.drain.item);
            SoundMove(s, t) && ChannelInv(t)
  {
    var it := s.router.drain.item;
    assert it.event.None? && it.generation == s.router.generation ==>
             s.history.done < |s.history.log| && Settled(s.config.sinks, s.history, s.history.done);
    hide RouterInv, ChannelInv, AcknowledgeItem, Pull, Settled, FromSink;
    if it.generation == s.router.generation {
      if it.event.None? {
        var cleared := s.(router := s.router.(pendingIds := s.router.pendingIds - IdSet(it.frame.id)));
        SettleMoves(s, ResumePop(s, it).router);
        AcknowledgeApart(s, cleared, it);
        ChannelInvIgnores(AcknowledgeItem(s, it), ResumePop(s, it));
      } else {
        FromSinkMoves(s, 0);
      }
    } else {
      ChannelInvIgnores(s, ResumePop(s, it));
    }
  }

  lemma ResolveMoves(s: System)
    requires RouterInv(s) && ChannelInv(s) && s.router.drain.Delivering?
    ensures var t := SinkResolved(s, s.router.drain.item, s.router.drain.sink);
            SoundMove(s, t) && ChannelInv(t)
  {
    CreditedKeeps(s);
    hide RouterInv;
    FromSinkMoves(Credited(s), s.router.drain.sink + 1);
  }

  lemma RejectMoves(s: System, notified: seq<Reentry>)
    requires RouterInv(s) && ChannelInv(s) && s.router.drain.Delivering?
    ensures var t := SinkRejected(s, s.router.drain.item, notified);
            SoundMove(s, t) && ChannelInv(t)
  {
    if !Aborted(s.router, s.router.drain.item) {
      ReenterAllUnmoved(s, notified);
    }
  }

  lemma NextMoves(s: System, a: Action)
    requires RouterInv(s) && ChannelInv(s)
    ensures SoundMove(s, Next(s, a)) && ChannelInv(Next(s, a))
  {
    hide RouterInv;
    match a
    case Arrive(_, _, _, _, _) => ArrivalMoves(s, a);
    case Outside(call) => assert Unmoved(s, Reenter(s, call));
    case Resume => if s.router.drain.Handed? { ResumeMoves(s); }
    case Resolve => if s.router.drain.Delivering? { ResolveMoves(s); }
    case RejectSink(notified) => if s.router.drain.Delivering? { RejectMoves(s, notified); }
    case Cancelled =>
      if s.router.drain.Delivering? && Aborted(s.router, s.router.drain.item) { FinishMoves(s, false); }
  }

  lemma {:induction false} RunKeeps(config: Config, seed: Option<string>, actions: seq<Action>)
    requires config.capacity >= 1
    ensures RouterInv(Run(Start(config, seed), actions)) && ChannelInv(Run(Start(config, seed), actions))
    decreases |actions|
  {
    var start := Start(config, seed);
    if actions != [] {
      RunKeeps(config, seed, actions[..|actions| - 1]);
      var s := Run(start, actions[..|actions| - 1]);
      NextKeepsRouter(s, actions[|actions| - 1]);
      NextMoves(s, actions[|actions| - 1]);
    }
  }

  /**
   Acknowledgement never skips a gap: whatever the overflow policy, the sinks, the decoder and the
   callbacks did before, every step that moves the cursor moves it soundly.
   */
  lemma AcknowledgementSkipsNothing(config: Config, seed: Option<string>, actions: seq<Action>, a: Action)
    requires config.capacity >= 1
    ensures var s := Run(Start(config, seed), actions);
            SoundMove(s, Next(s, a))
  {
    RunKeeps(config, seed, actions);
    NextMoves(Run(Start(config, seed), actions), a);
  }

  /** Over a whole run no dispatch moves the cursor twice, and moves follow the dispatch order. */
  lemma MovesIncrease(config: Config, seed: Option<string>, actions: seq<Action>)
    requires config.capacity >= 1
    ensures var h := Run(Start(config, seed), actions).history;
            forall i, j :: 0 <= i < j < |h.moves| ==> 1 <= h.moves[i] < h.moves[j] <= |h.dispatched|
  {
    RunKeeps(config, seed, actions);
  }

  /** Position `i` of the queued and in-flight items is of the current generation and has this id. */
  ghost predicate CarriesId(r: Router, i: int, id: string) {
    && 0 <= i < |Live(r)|
    && Live(r)[i].generation == r.generation
    && Live(r)[i].frame.id == Some(id)
  }

  /** Where entry `i` of the log sits among the live items. */
  ghost function Place(s: System, i: int): int {
    |Live(s.router)| - |s.history.log| + i
  }

  lemma CarriedIsOwed(s: System, p: int, id: string)
    requires RouterInv(s) && !s.router.closed && CarriesId(s.router, p, id)
    ensures var i := p - Place(s, 0);
            s.history.done <= i < |s.history.log| && s.history.log[i].item.frame.id == Some(id)
  {
    var i := p - Place(s, 0);
    assert s.history.log[i] == Entry(Live(s.router)[p], false);
  }

  lemma OwedIsCarried(s: System, i: int, id: string)
    requires RouterInv(s) && !s.router.closed
    requires s.history.done <= i < |s.history.log| && s.history.log[i].item.frame.id == Some(id)
    ensures CarriesId(s.router, Place(s, i), id)
  {
    OwedAreCurrent(s);
  }

  /** An id is pending exactly when one queued or in-flight item of the current generation has it. */
  lemma PendingMeansCarried(s: System, id: string)
    requires RouterInv(s) && !s.router.closed
    ensures id in s.router.pendingIds <==> exists p :: CarriesId(s.router, p, id)
  {
    if id in s.router.pendingIds {
      assert Owes(s.history, id);
      var i :| s.history.done <= i < |s.history.log| && s.history.log[i].item.frame.id == Some(id);
      OwedIsCarried(s, i, id);
    }
    if p :| CarriesId(s.router, p, id) {
      CarriedIsOwed(s, p, id);
      assert Owes(s.history, id);
    }
  }

  lemma CarriedOnce(s: System, p: int, q: int, id: string)
    requires RouterInv(s) && !s.router.closed
    requires CarriesId(s.router, p, id) && CarriesId(s.router, q, id)
    ensures p == q
  {
    CarriedIsOwed(s, p, id);
    CarriedIsOwed(s, q, id);
  }

  /**
   In every reachable state of an open router the pending ids are exactly the ids of the items of the
   current generation that are queued or in flight, each carried once, and the buffer is within its
   bound.
   */
  lemma PendingIdsAreExact(config: Config, seed: Option<string>, actions: seq<Action>)
    requires config.capacity >= 1
    ensures var r := Run(Start(config, seed), actions).router;
            && |r.queue| <= config.capacity
            && (!r.closed ==>
                  && (forall id :: id in r.pendingIds <==> exists p :: CarriesId(r, p, id))
                  && (forall p, q, id :: CarriesId(r, p, id) && CarriesId(r, q, id) ==> p == q))
  {
    RunKeeps(config, seed, actions);
    var s := Run(Start(config, seed), actions);
    if !s.router.closed {
      forall id ensures id in s.router.pendingIds <==> exists p :: CarriesId(s.router, p, id) {
        PendingMeansCarried(s, id);
      }
      forall p, q, id | CarriesId(s.router, p, id) && CarriesId(s.router, q, id) ensures p == q {
        CarriedOnce(s, p, q, id);
      }
    }
  }
}
