/**
 End-to-end resume: `Stream` behind a server that replays its log from just past the `Last-Event-ID`
 each connection was opened with.
 */
module StreamResume {
  import opened Outcomes
  import opened Stream
  import opened StreamDelivery
  import opened StreamSafety
  import EventCursor

  // ---------------------------------------------------------------- the server and its connections

  /** `log` holds the sequence numbers the server serves, all in one epoch. */
  datatype Server = Server(epoch: string, log: seq<nat>)

  ghost predicate ValidServer(v: Server) {
    && EventCursor.IsEpoch(v.epoch)
    && (forall i :: 0 <= i < |v.log| ==> v.log[i] <= EventCursor.MAX_SEQUENCE)
    && (forall i, j :: 0 <= i < j < |v.log| ==> v.log[i] < v.log[j])
  }

  function Id(v: Server, sequence: nat): string {
    EventCursor.Format(EventCursor.Cursor(v.epoch, sequence))
  }

  function SeedId(v: Server, seed: Option<nat>): Option<string> {
    if seed.None? then None else Some(Id(v, seed.value))
  }

  /** How many leading entries of the log are at or before `n`. */
  function Covered(log: seq<nat>, n: nat): nat {
    if log == [] || log[0] > n then 0 else 1 + Covered(log[1..], n)
  }

  /** Where the server starts a replay for the `Last-Event-ID` it was sent. */
  function ReplayFrom(v: Server, last: Option<string>): nat {
    if last.None? then 0
    else
      var cursor := EventCursor.Parse(last.value);
      if cursor.Some? && cursor.value.epoch == v.epoch then Covered(v.log, cursor.value.sequence) else 0
  }

  /** `position` is the next log entry of the live connection; `nextRef` the next fresh frame object. */
  datatype Wire = Wire(system: System, position: Option<nat>, nextRef: nat)

  datatype WireAction =
    | Open
    | Drop
    | Serve(kind: string, retry: Option<int>, decoded: Decoded, before: seq<Reentry>, during: seq<Reentry>, notified: seq<Reentry>)
    | Control(frame: Frame, before: seq<Reentry>)
    | Local(action: Action)

  /** A dispatch that throws ends the attempt, so its connection delivers nothing more. */
  function Transport(v: Server, w: Wire, a: Action, next: Option<nat>): Wire
    requires a.Arrive?
  {
    Wire(Next(w.system, a),
         if Dispatch(w.system.channel, a.frame).1.Thrown? then None else next,
         w.nextRef + 1)
  }

  function NextWire(v: Server, w: Wire, a: WireAction): Wire {
    match a
    case Open => w.(position := Some(ReplayFrom(v, w.system.channel.lastEventId)))
    case Drop => w.(position := None)
    case Serve(kind, retry, decoded, before, during, notified) =>
      if w.position.None? || w.position.value >= |v.log| then w
      else
        var f := Frame(w.nextRef, kind, NotJson, Some(Id(v, v.log[w.position.value])), retry);
        if IsControl(f) then w
        else Transport(v, w, Arrive(f, decoded, before, during, notified), Some(w.position.value + 1))
    case Control(frame, before) =>
      if w.position.None? || !IsControl(frame) then w
      else Transport(v, w, Arrive(frame.(ref := w.nextRef), DecodeFailed, before, [], []), w.position)
    case Local(action) => if action.Arrive? then w else w.(system := Next(w.system, action))
  }

  function RunWire(v: Server, w: Wire, actions: seq<WireAction>): Wire
    decreases |actions|
  {
    if actions == [] then w
    else NextWire(v, RunWire(v, w, actions[..|actions| - 1]), actions[|actions| - 1])
  }

  function StartWire(config: Config, v: Server, seed: Option<nat>): Wire {
    Wire(Start(config, SeedId(v, seed)), None, 0)
  }

  // ---------------------------------------------------------------- numbers on the log

  lemma {:induction false} CoveredSplits(log: seq<nat>, n: nat)
    requires forall i, j :: 0 <= i < j < |log| ==> log[i] < log[j]
    ensures Covered(log, n) <= |log|
    ensures forall i :: 0 <= i < |log| ==> (i < Covered(log, n) <==> log[i] <= n)
  {
    if log != [] && log[0] <= n {
      CoveredSplits(log[1..], n);
      forall i | 0 < i < |log| ensures i < Covered(log, n) <==> log[i] <= n {
        assert log[i] == log[1..][i - 1];
      }
    }
  }

  lemma CoveredAt(log: seq<nat>, n: nat)
    requires forall i, j :: 0 <= i < j < |log| ==> log[i] < log[j]
    requires 0 < n <= |log|
    ensures Covered(log, log[n - 1]) == n
  {
    CoveredSplits(log, log[n - 1]);
    assert n - 1 < Covered(log, log[n - 1]);
    assert n < |log| ==> log[n] > log[n - 1];
  }

  lemma IdParses(v: Server, n: nat)
    requires ValidServer(v) && n <= EventCursor.MAX_SEQUENCE
    ensures EventCursor.Parse(Id(v, n)) == Some(EventCursor.Cursor(v.epoch, n))
    ensures EventCursor.HasEpochPrefix(Id(v, n)) && Id(v, n) != ""
  {
    EventCursor.ParseFormat(EventCursor.Cursor(v.epoch, n));
  }

  /** On ids of one epoch the channel's test is the comparison of their sequence numbers. */
  lemma CompareIds(v: Server, last: nat, incoming: nat)
    requires ValidServer(v) && last <= EventCursor.MAX_SEQUENCE && incoming <= EventCursor.MAX_SEQUENCE
    ensures Compare(Some(Id(v, last)), Some(Id(v, incoming))) == if incoming <= last then Replayed else Fresh
    ensures Id(v, last) == Id(v, incoming) <==> last == incoming
  {
    IdParses(v, last);
    IdParses(v, incoming);
  }

  /** The cursor once the first `n` entries of the log are acknowledged. */
  function CursorAt(v: Server, seed: Option<nat>, n: nat): Option<string>
    requires First(v, seed) <= n <= |v.log|
  {
    if n == First(v, seed) then SeedId(v, seed) else Some(Id(v, v.log[n - 1]))
  }

  function First(v: Server, seed: Option<nat>): nat {
    if seed.None? then 0 else Covered(v.log, seed.value)
  }

  ghost predicate ValidSeed(seed: Option<nat>) {
    seed.Some? ==> seed.value <= EventCursor.MAX_SEQUENCE
  }

  /** A replay for the cursor at `n` starts at `n`, and the channel finds exactly the entries before `n` replayed. */
  lemma ReplayMeetsCursor(v: Server, seed: Option<nat>, n: nat)
    requires ValidServer(v) && ValidSeed(seed) && First(v, seed) <= n <= |v.log|
    ensures ReplayFrom(v, CursorAt(v, seed, n)) == n
    ensures forall p :: First(v, seed) <= p < |v.log| ==>
              Compare(CursorAt(v, seed, n), Some(Id(v, v.log[p]))) == if p < n then Replayed else Fresh
  {
    var cursor := CursorAt(v, seed, n);
    if cursor.Some? {
      var last := if n == First(v, seed) then seed.value else v.log[n - 1];
      IdParses(v, last);
      CoveredSplits(v.log, last);
      assert cursor == Some(Id(v, last));
      forall p | First(v, seed) <= p < |v.log|
        ensures Compare(cursor, Some(Id(v, v.log[p]))) == if p < n then Replayed else Fresh
      {
        CompareIds(v, last, v.log[p]);
      }
      if n > First(v, seed) {
        CoveredAt(v.log, n);
      }
    }
  }

  // ---------------------------------------------------------------- the invariant of a quiet run

  function OrderOf(d: map<nat, Delivery>, f: Frame): nat {
    if f.ref in d then d[f.ref].order else 0
  }

  /** Acknowledging `f` would move the cursor. */
  ghost predicate Pledged(d: map<nat, Delivery>, generation: nat, acknowledged: nat, f: Frame) {
    && f.ref in d
    && d[f.ref].generation == generation
    && d[f.ref].order > acknowledged
  }

  /** Owed entries are pledged under the current generation of the channel, and their numbers keep the order of the log. */
  ghost predicate Promises(d: map<nat, Delivery>, generation: nat, acknowledged: nat, log: seq<Entry>, done: nat) {
    && (forall i :: done <= i < |log| ==> Pledged(d, generation, acknowledged, log[i].item.frame))
    && (forall i, j :: done <= i < j < |log| ==> OrderOf(d, log[i].item.frame) < OrderOf(d, log[j].item.frame))
  }

  /** The accepted entries are the served log from the start on. */
  ghost predicate Contiguous(v: Server, first: nat, log: seq<Entry>) {
    && first + |log| <= |v.log|
    && (forall i :: 0 <= i < |log| ==> log[i].item.frame.id == Some(Id(v, v.log[first + i])))
  }

  /** Every frame object so far is older than `nextRef`, and accepted ones are distinct. */
  ghost predicate FreshObjects(d: map<nat, Delivery>, log: seq<Entry>, nextRef: nat) {
    && (forall i, j :: 0 <= i < j < |log| ==> log[i].item.frame.ref < log[j].item.frame.ref)
    && (forall i :: 0 <= i < |log| ==> log[i].item.frame.ref < nextRef)
    && (forall ref :: ref in d ==> ref < nextRef)
  }

  /** The channel's side: the cursor is at the last settled entry, and owed entries are pledged. */
  ghost predicate CursorQuiet(v: Server, seed: Option<nat>, c: Channel, log: seq<Entry>, done: nat, nextRef: nat) {
    && done <= |log|
    && Contiguous(v, First(v, seed), log)
    && FreshObjects(c.deliveries, log, nextRef)
    && Promises(c.deliveries, c.generation, c.acknowledgedOrder, log, done)
    && c.lastEventId == CursorAt(v, seed, First(v, seed) + done)
  }

  ghost predicate Quiet(v: Server, seed: Option<nat>, w: Wire) {
    var s := w.system;
    var h := s.history;
    && CursorQuiet(v, seed, s.channel, h.log, h.done, w.nextRef)
    && s.router.generation == 0
    && (w.position.Some? && !s.router.closed ==>
          First(v, seed) <= w.position.value <= First(v, seed) + |h.log|)
  }

  // ---------------------------------------------------------------- generations never go back

  lemma {:induction false} ReenterAllGeneration(s: System, calls: seq<Reentry>)
    ensures var t := ReenterAll(s, calls);
            && t.channel.generation >= s.channel.generation
            && (t.channel.generation == s.channel.generation ==> t == s || t == CloseRouter(s))
    decreases |calls|
  {
    if calls != [] {
      ReenterAllGeneration(Reenter(s, calls[0]), calls[1..]);
    }
  }

  lemma HearGeneration(s: System, f: Frame, decoded: Decoded, notified: seq<Reentry>)
    ensures Hear(s, f, decoded, notified).channel.generation >= s.channel.generation
  {
    if decoded.DecodeFailed? {
      var it := Item(f, None, s.router.generation);
      ReenterAllGeneration(if s.router.closed then s else Record(s, it, true), notified);
    } else {
      var p := s.(router := s.router.(pendingIds := s.router.pendingIds + IdSet(f.id)));
      PushGeneration(p, Item(f, decoded.event, s.router.generation), notified);
    }
  }

  lemma OnFrameGeneration(s: System, f: Frame, decoded: Decoded, during: seq<Reentry>, notified: seq<Reentry>)
    ensures OnFrame(s, f, decoded, during, notified).channel.generation >= s.channel.generation
  {
    ReenterAllGeneration(s, during);
    HearGeneration(ReenterAll(s, during), f, decoded, notified);
  }

  lemma PushGeneration(s: System, it: Item, notified: seq<Reentry>)
    ensures Push(s, it, notified).channel.generation >= s.channel.generation
  {
    var r := s.router;
    ReenterAllGeneration(Record(s, it, true), notified);
    if |r.queue| > 0 {
      ReenterAllGeneration(Record(s, it, false).(router := r.(queue := r.queue[1..] + [it])), notified);
    }
  }

  // ---------------------------------------------------------------- quiet drain steps

  /** Acknowledging the oldest pledge moves the cursor to it and keeps the other pledges. */
  lemma KeepPromises(v: Server, seed: Option<nat>, c: Channel, log: seq<Entry>, done: nat, nextRef: nat)
    requires ValidServer(v) && CursorQuiet(v, seed, c, log, done, nextRef) && done < |log|
    ensures CursorQuiet(v, seed, Acknowledge(c, log[done].item.frame), log, done + 1, nextRef)
  {
    var f := log[done].item.frame;
    assert Pledged(c.deliveries, c.generation, c.acknowledgedOrder, f);
    IdParses(v, v.log[First(v, seed) + done]);
    var c' := Acknowledge(c, f);
    forall i | done < i < |log|
      ensures Pledged(c'.deliveries, c'.generation, c'.acknowledgedOrder, log[i].item.frame)
      ensures OrderOf(c'.deliveries, log[i].item.frame) == OrderOf(c.deliveries, log[i].item.frame)
    {
      assert Pledged(c.deliveries, c.generation, c.acknowledgedOrder, log[i].item.frame);
      assert OrderOf(c.deliveries, f) < OrderOf(c.deliveries, log[i].item.frame);
    }
  }

  /** The drain settles the oldest owed entry. */
  lemma {:induction false} SettleStaysQuiet(v: Server, seed: Option<nat>, w: Wire, r: Router)
    requires ValidServer(v) && Quiet(v, seed, w) && HoldsOldest(w.system)
    requires r.generation == 0 && r.closed == w.system.router.closed
    ensures var s := w.system;
            var m := AcknowledgeItem(s, s.router.drain.item);
            Quiet(v, seed, w.(system := m.(router := r, history := m.history.(done := s.history.done + 1))))
  {
    var s := w.system;
    KeepPromises(v, seed, s.channel, s.history.log, s.history.done, w.nextRef);
    hide CursorQuiet;
  }

  /** What the drain does to the rest of the system when it does not settle anything. */
  ghost predicate OnlyDrains(s: System, t: System) {
    && t.config == s.config && t.channel == s.channel
    && t.history.log == s.history.log && t.history.done == s.history.done
    && t.router.generation == s.router.generation && (s.router.closed ==> t.router.closed)
  }

  lemma DrainingStaysQuiet(v: Server, seed: Option<nat>, w: Wire, t: System)
    requires Quiet(v, seed, w) && OnlyDrains(w.system, t)
    ensures Quiet(v, seed, w.(system := t))
  {
    hide CursorQuiet;
  }

  lemma {:induction false} FromSinkStaysQuiet(v: Server, seed: Option<nat>, w: Wire, k: nat)
    requires ValidServer(v) && Quiet(v, seed, w) && HoldsOldest(w.system) && k <= w.system.config.sinks
    ensures Quiet(v, seed, w.(system := FromSink(w.system, w.system.router.drain.item, k)))
  {
    hide CursorQuiet;
    var s := w.system;
    var it := s.router.drain.item;
    if k == s.config.sinks && !s.router.closed {
      SettleStaysQuiet(v, seed, w, Pull(s.router.(pendingIds := s.router.pendingIds - IdSet(it.frame.id))));
    } else {
      DrainingStaysQuiet(v, seed, w, FromSink(s, it, k));
    }
  }

  lemma {:induction false} ResumeStaysQuiet(v: Server, seed: Option<nat>, w: Wire)
    requires ValidServer(v) && Quiet(v, seed, w) && HoldsOldest(w.system) && w.system.router.drain.Handed?
    ensures Quiet(v, seed, w.(system := ResumePop(w.system, w.system.router.drain.item)))
  {
    hide CursorQuiet, FromSink;
    var s := w.system;
    var it := s.router.drain.item;
    if it.event.None? {
      SettleStaysQuiet(v, seed, w, Pull(s.router.(pendingIds := s.router.pendingIds - IdSet(it.frame.id))));
    } else {
      FromSinkStaysQuiet(v, seed, w, 0);
    }
  }

  lemma ResolveStaysQuiet(v: Server, seed: Option<nat>, w: Wire)
    requires ValidServer(v) && Quiet(v, seed, w) && HoldsOldest(w.system) && w.system.router.drain.Delivering?
    requires w.system.router.drain.sink < w.system.config.sinks
    ensures Quiet(v, seed, w.(system := SinkResolved(w.system, w.system.router.drain.item, w.system.router.drain.sink)))
  {
    hide CursorQuiet, FromSink;
    var s := w.system;
    var k := s.router.drain.sink;
    var h := s.history.(applied := s.history.applied + {Applied(k, s.history.done, s.router.drain.item)});
    FromSinkStaysQuiet(v, seed, w.(system := s.(history := h)), k + 1);
  }

  lemma RejectStaysQuiet(v: Server, seed: Option<nat>, w: Wire, notified: seq<Reentry>)
    requires Quiet(v, seed, w) && HoldsOldest(w.system) && w.system.router.drain.Delivering?
    requires SinkRejected(w.system, w.system.router.drain.item, notified).channel.generation == w.system.channel.generation
    ensures Quiet(v, seed, w.(system := SinkRejected(w.system, w.system.router.drain.item, notified)))
  {
    var s := w.system;
    if !s.router.closed { ReenterAllGeneration(s, notified); }
    hide CursorQuiet, ReenterAll;
    DrainingStaysQuiet(v, seed, w, SinkRejected(s, s.router.drain.item, notified));
  }

  // ---------------------------------------------------------------- quiet arrivals

  /** The frame was numbered last, in this channel generation, and is not yet accepted. */
  ghost predicate JustNumbered(c: Channel, log: seq<Entry>, f: Frame) {
    && Pledged(c.deliveries, c.generation, c.acknowledgedOrder, f)
    && forall i :: 0 <= i < |log| ==>
         log[i].item.frame.ref < f.ref && OrderOf(c.deliveries, log[i].item.frame) < OrderOf(c.deliveries, f)
  }

  /** A fresh frame gets the next number; no accepted frame loses its own. */
  lemma NewDeliveryKeepsCursor(v: Server, seed: Option<nat>, s: System, f: Frame)
    requires ChannelInv(s) && CursorQuiet(v, seed, s.channel, s.history.log, s.history.done, f.ref)
    ensures var order := s.channel.order + 1;
            var c := s.channel.(order := order, deliveries := s.channel.deliveries[f.ref := Delivery(s.channel.generation, order)]);
            && CursorQuiet(v, seed, c, s.history.log, s.history.done, f.ref + 1)
            && JustNumbered(c, s.history.log, f)
  {
    var log := s.history.log;
    var before := s.channel.deliveries;
    var d := before[f.ref := Delivery(s.channel.generation, s.channel.order + 1)];
    forall i | 0 <= i < |log|
      ensures OrderOf(d, log[i].item.frame) == OrderOf(before, log[i].item.frame) <= s.channel.order
    {
    }
    forall i | s.history.done <= i < |log| ensures Pledged(d, s.channel.generation, s.channel.acknowledgedOrder, log[i].item.frame) {
      assert Pledged(before, s.channel.generation, s.channel.acknowledgedOrder, log[i].item.frame);
    }
  }

  /** The invariant reads only these fields of the channel. */
  ghost predicate SameCursor(c: Channel, c': Channel) {
    && c'.generation == c.generation
    && c'.lastEventId == c.lastEventId
    && c'.acknowledgedOrder == c.acknowledgedOrder
    && c'.deliveries == c.deliveries
  }

  lemma DispatchFields(c: Channel, f: Frame)
    requires Dispatch(c, f).0.generation == c.generation
    ensures var order := c.order + 1;
            var numbered := c.(order := order, deliveries := c.deliveries[f.ref := Delivery(c.generation, order)]);
            || SameCursor(numbered, Dispatch(c, f).0)
            || (SameCursor(c, Dispatch(c, f).0) && (IsControl(f) || !Dispatch(c, f).1.Emitted?))
  {
  }

  lemma {:induction false} NumberKeepsCursor(v: Server, seed: Option<nat>, s: System, f: Frame)
    requires ChannelInv(s) && CursorQuiet(v, seed, s.channel, s.history.log, s.history.done, f.ref)
    requires Dispatch(s.channel, f).0.generation == s.channel.generation
    ensures CursorQuiet(v, seed, Dispatch(s.channel, f).0, s.history.log, s.history.done, f.ref + 1)
    ensures !IsControl(f) && Dispatch(s.channel, f).1.Emitted? ==>
              JustNumbered(Dispatch(s.channel, f).0, s.history.log, f)
  {
    hide CursorQuiet, ChannelInv;
    DispatchFields(s.channel, f);
    NewDeliveryKeepsCursor(v, seed, s, f);
    SameCursorKeeps(v, seed, s.channel, Dispatch(s.channel, f), s.history.log, s.history.done, f);
  }

  lemma SameCursorKeeps(v: Server, seed: Option<nat>, c: Channel, outcome: (Channel, Dispatched), log: seq<Entry>, done: nat, f: Frame)
    requires CursorQuiet(v, seed, c, log, done, f.ref)
    requires var order := c.order + 1;
             var numbered := c.(order := order, deliveries := c.deliveries[f.ref := Delivery(c.generation, order)]);
             && CursorQuiet(v, seed, numbered, log, done, f.ref + 1)
             && JustNumbered(numbered, log, f)
             && (|| SameCursor(numbered, outcome.0)
                 || (SameCursor(c, outcome.0) && (IsControl(f) || !outcome.1.Emitted?)))
    ensures CursorQuiet(v, seed, outcome.0, log, done, f.ref + 1)
    ensures !IsControl(f) && outcome.1.Emitted? ==> JustNumbered(outcome.0, log, f)
  {
  }

  lemma {:induction false} NumberStaysQuiet(v: Server, seed: Option<nat>, w: Wire, f: Frame)
    requires Quiet(v, seed, w) && ChannelInv(w.system) && f.ref == w.nextRef
    requires Dispatch(w.system.channel, f).0.generation == w.system.channel.generation
    ensures Quiet(v, seed, w.(system := AfterDispatch(w.system, f), nextRef := w.nextRef + 1))
    ensures !IsControl(f) && Dispatch(w.system.channel, f).1.Emitted? ==>
              JustNumbered(AfterDispatch(w.system, f).channel, w.system.history.log, f)
  {
    NumberKeepsCursor(v, seed, w.system, f);
  }

  lemma GrowKeepsCursor(v: Server, seed: Option<nat>, c: Channel, log: seq<Entry>, done: nat, nextRef: nat, e: Entry)
    requires CursorQuiet(v, seed, c, log, done, nextRef) && JustNumbered(c, log, e.item.frame)
    requires var p := First(v, seed) + |log|;
             p < |v.log| && e.item.frame.id == Some(Id(v, v.log[p])) && e.item.frame.ref < nextRef
    ensures CursorQuiet(v, seed, c, log + [e], done, nextRef)
  {
  }

  /** The next entry of the served log is accepted. */
  lemma GrowStaysQuiet(v: Server, seed: Option<nat>, w: Wire, e: Entry, r: Router)
    requires Quiet(v, seed, w) && JustNumbered(w.system.channel, w.system.history.log, e.item.frame)
    requires var p := First(v, seed) + |w.system.history.log|;
             p < |v.log| && e.item.frame.id == Some(Id(v, v.log[p])) && e.item.frame.ref < w.nextRef
    requires r.generation == 0
    ensures Quiet(v, seed, w.(
              system := w.system.(router := r, history := w.system.history.(log := w.system.history.log + [e])),
              position := Some(First(v, seed) + |w.system.history.log| + 1)))
  {
    var s := w.system;
    GrowKeepsCursor(v, seed, s.channel, s.history.log, s.history.done, w.nextRef, e);
    hide CursorQuiet;
  }

  /** The router hears the next entry of the served log while it is open. */
  lemma PushStaysQuiet(v: Server, seed: Option<nat>, w: Wire, it: Item, pending: set<string>, notified: seq<Reentry>)
    requires Quiet(v, seed, w) && JustNumbered(w.system.channel, w.system.history.log, it.frame)
    requires !w.system.router.closed && it.generation == 0
    requires var p := First(v, seed) + |w.system.history.log|;
             p < |v.log| && it.frame.id == Some(Id(v, v.log[p])) && it.frame.ref < w.nextRef
    requires var s := w.system.(router := w.system.router.(pendingIds := pending));
             Push(s, it, notified).channel.generation == w.system.channel.generation
    ensures var s := w.system.(router := w.system.router.(pendingIds := pending));
            Quiet(v, seed, w.(system := Push(s, it, notified),
                              position := Some(First(v, seed) + |w.system.history.log| + 1)))
  {
    var s := w.system.(router := w.system.router.(pendingIds := pending));
    var r := s.router;
    var t := Push(s, it, notified);
    var lost := !r.drain.Waiting? && |r.queue| >= s.config.capacity && !(s.config.overflow.DropOldest? && |r.queue| > 0);
    PushOutcome(s, it, notified);
    GrowStaysQuiet(v, seed, w, Entry(it, lost), t.router);
  }

  /** With no reset a push only records the entry, and lets the drain or the queue carry it. */
  lemma PushOutcome(s: System, it: Item, notified: seq<Reentry>)
    requires !s.router.closed && s.router.generation == 0
    requires Push(s, it, notified).channel.generation == s.channel.generation
    ensures var r := s.router;
            var lost := !r.drain.Waiting? && |r.queue| >= s.config.capacity && !(s.config.overflow.DropOldest? && |r.queue| > 0);
            var t := Push(s, it, notified);
            && t == Record(s, it, lost).(router := t.router)
            && t.router.generation == 0
  {
    var r := s.router;
    ReenterAllGeneration(Record(s, it, true), notified);
    if |r.queue| > 0 {
      ReenterAllGeneration(Record(s, it, false).(router := r.(queue := r.queue[1..] + [it])), notified);
    }
  }

  /** A frame whose id is still owed is a duplicate for the router. */
  lemma OwedIsPending(v: Server, seed: Option<nat>, s: System, p: nat)
    requires Contiguous(v, First(v, seed), s.history.log)
    requires s.history.done <= |s.history.log| && Pending(s.history, s.router.pendingIds)
    requires First(v, seed) + s.history.done <= p < First(v, seed) + |s.history.log|
    ensures Id(v, v.log[p]) in s.router.pendingIds
  {
    var i := p - First(v, seed);
    assert s.history.log[i].item.frame.id == Some(Id(v, v.log[p]));
    assert Owes(s.history, Id(v, v.log[p]));
  }

  lemma NextIsNotPending(v: Server, seed: Option<nat>, s: System)
    requires ValidServer(v) && Contiguous(v, First(v, seed), s.history.log)
    requires s.history.done <= |s.history.log| && Pending(s.history, s.router.pendingIds)
    requires First(v, seed) + |s.history.log| < |v.log|
    ensures Id(v, v.log[First(v, seed) + |s.history.log|]) !in s.router.pendingIds
  {
    var p := First(v, seed) + |s.history.log|;
    if Owes(s.history, Id(v, v.log[p])) {
      var i :| s.history.done <= i < |s.history.log| && s.history.log[i].item.frame.id == Some(Id(v, v.log[p]));
      CompareIds(v, v.log[First(v, seed) + i], v.log[p]);
    }
  }

  /** A closed router still hears the frame of the pass that closed it, to no effect. */
  lemma ClosedHearsNothing(s: System, f: Frame, decoded: Decoded, during: seq<Reentry>, notified: seq<Reentry>)
    requires s.router.closed
    requires OnFrame(s, f, decoded, during, notified).channel.generation == s.channel.generation
    ensures var t := OnFrame(s, f, decoded, during, notified);
            t == s.(router := s.router.(pendingIds := t.router.pendingIds))
  {
    ReenterAllGeneration(s, during);
    HearGeneration(ReenterAll(s, during), f, decoded, notified);
    ReenterAllGeneration(ReenterAll(s, during), notified);
  }

  /** The router hears entry `p` of the log, at or before the next one it needs. */
  lemma HearStaysQuiet(v: Server, seed: Option<nat>, w: Wire, f: Frame, p: nat, decoded: Decoded, during: seq<Reentry>, notified: seq<Reentry>)
    requires ValidServer(v) && Quiet(v, seed, w) && JustNumbered(w.system.channel, w.system.history.log, f)
    requires f.ref < w.nextRef && !IsControl(f) && p < |v.log| && f.id == Some(Id(v, v.log[p]))
    requires !w.system.router.closed ==>
               && Pending(w.system.history, w.system.router.pendingIds)
               && First(v, seed) + w.system.history.done <= p <= First(v, seed) + |w.system.history.log|
    requires OnFrame(w.system, f, decoded, during, notified).channel.generation == w.system.channel.generation
    ensures Quiet(v, seed, w.(system := OnFrame(w.system, f, decoded, during, notified), position := Some(p + 1)))
  {
    var s := w.system;
    if s.router.closed {
      ClosedHearsNothing(s, f, decoded, during, notified);
    } else if p < First(v, seed) + |s.history.log| {
      OwedIsPending(v, seed, s, p);
    } else {
      NextIsNotPending(v, seed, s);
      var after := ReenterAll(s, during);
      HearGeneration(after, f, decoded, notified);
      ReenterAllGeneration(s, during);
      NewStaysQuiet(v, seed, w.(system := after), f, decoded, notified);
    }
  }

  lemma NewStaysQuiet(v: Server, seed: Option<nat>, w: Wire, f: Frame, decoded: Decoded, notified: seq<Reentry>)
    requires Quiet(v, seed, w) && JustNumbered(w.system.channel, w.system.history.log, f)
    requires var p := First(v, seed) + |w.system.history.log|;
             p < |v.log| && f.id == Some(Id(v, v.log[p])) && f.ref < w.nextRef
    requires Hear(w.system, f, decoded, notified).channel.generation == w.system.channel.generation
    ensures Quiet(v, seed, w.(system := Hear(w.system, f, decoded, notified),
                              position := Some(First(v, seed) + |w.system.history.log| + 1)))
  {
    var s := w.system;
    var it := Item(f, if decoded.Decoded? then decoded.event else None, 0);
    if s.router.closed {
      ReenterAllGeneration(s, notified);
    } else if decoded.Decoded? {
      PushStaysQuiet(v, seed, w, it, s.router.pendingIds + IdSet(f.id), notified);
    } else {
      var recorded := Record(s, it, true);
      ReenterAllGeneration(recorded, notified);
      GrowStaysQuiet(v, seed, w, Entry(it, true), CloseRouter(recorded).router);
    }
  }

  // ---------------------------------------------------------------- whole runs

  /** A numbered frame reaches the earlier listeners and the router. */
  lemma EmittedStaysQuiet(v: Server, seed: Option<nat>, w: Wire, a: Action, p: nat)
    requires ValidServer(v) && Quiet(v, seed, w) && a.Arrive? && !IsControl(a.frame)
    requires JustNumbered(w.system.channel, w.system.history.log, a.frame) && a.frame.ref < w.nextRef
    requires p < |v.log| && a.frame.id == Some(Id(v, v.log[p]))
    requires !w.system.router.closed ==>
               && Pending(w.system.history, w.system.router.pendingIds)
               && First(v, seed) + w.system.history.done <= p <= First(v, seed) + |w.system.history.log|
    requires var t := OnFrame(ReenterAll(w.system, a.before), a.frame, a.decoded, a.during, a.notified);
             t.channel.generation == w.system.channel.generation
    ensures var t := OnFrame(ReenterAll(w.system, a.before), a.frame, a.decoded, a.during, a.notified);
            Quiet(v, seed, w.(system := t, position := Some(p + 1)))
  {
    var s := ReenterAll(w.system, a.before);
    OnFrameGeneration(s, a.frame, a.decoded, a.during, a.notified);
    ReenterAllGeneration(w.system, a.before);
    HearStaysQuiet(v, seed, w.(system := s), a.frame, p, a.decoded, a.during, a.notified);
  }

  /** An open router's view of a live connection: what it is served next, and what it still owes. */
  lemma ServedPosition(v: Server, seed: Option<nat>, w: Wire, p: nat)
    requires ValidServer(v) && ValidSeed(seed) && Quiet(v, seed, w) && RouterInv(w.system)
    requires w.position == Some(p) && p < |v.log| && !w.system.router.closed
    ensures var next := First(v, seed) + w.system.history.done;
            && Pending(w.system.history, w.system.router.pendingIds)
            && First(v, seed) <= p <= First(v, seed) + |w.system.history.log|
            && Compare(w.system.channel.lastEventId, Some(Id(v, v.log[p]))) == if p < next then Replayed else Fresh
  {
    ReplayMeetsCursor(v, seed, First(v, seed) + w.system.history.done);
  }

  /** A frame of the served log reaches the channel without a reset. */
  lemma PendingStays(h: History, h': History, ids: set<string>)
    requires h.done <= |h.log| && h'.log == h.log && h'.done == h.done && Pending(h, ids)
    ensures Pending(h', ids)
  {
    forall id ensures Owes(h', id) == Owes(h, id) {
    }
  }

  /** What the channel's judgement says about a frame that is not a control. */
  lemma JudgedBy(c: Channel, f: Frame)
    requires !IsControl(f)
    ensures Dispatch(c, f).1.Emitted? ==> Compare(c.lastEventId, f.id) == Fresh
    ensures Dispatch(c, f).1.Ignored? ==> Compare(c.lastEventId, f.id) == Replayed
  {
  }

  lemma ArrivalStaysQuiet(v: Server, seed: Option<nat>, w: Wire, a: Action, p: nat)
    requires ValidServer(v) && ValidSeed(seed) && Quiet(v, seed, w)
    requires RouterInv(w.system) && ChannelInv(w.system) && a.Arrive? && a.frame.ref == w.nextRef
    requires !IsControl(a.frame) && w.position == Some(p) && p < |v.log| && a.frame.id == Some(Id(v, v.log[p]))
    requires Next(w.system, a).channel.generation == w.system.channel.generation
    ensures Quiet(v, seed, Transport(v, w, a, Some(p + 1)))
  {
    hide RouterInv, ChannelInv, Compare, OnFrame, ReenterAll, CursorQuiet, ValidServer, IsControl, Dispatch, AfterDispatch;
    NumberedGeneration(w.system, a.frame);
    NumberStaysQuiet(v, seed, w, a.frame);
    JudgedBy(w.system.channel, a.frame);
    if !w.system.router.closed { ServedPosition(v, seed, w, p); }
    hide Quiet;
    if Dispatch(w.system.channel, a.frame).1.Emitted? {
      EmittedArrival(v, seed, w, a, p);
    } else {
      SilentArrival(v, seed, w, a, p);
    }
  }

  lemma SilentArrival(v: Server, seed: Option<nat>, w: Wire, a: Action, p: nat)
    requires a.Arrive? && !IsControl(a.frame) && !Dispatch(w.system.channel, a.frame).1.Emitted?
    requires Quiet(v, seed, w) && w.position == Some(p)
    requires Quiet(v, seed, w.(system := AfterDispatch(w.system, a.frame), nextRef := w.nextRef + 1))
    requires Dispatch(w.system.channel, a.frame).1.Ignored? && !w.system.router.closed ==>
               p < First(v, seed) + w.system.history.done
    ensures Quiet(v, seed, Transport(v, w, a, Some(p + 1)))
  {
    hide Dispatch, CursorQuiet, First;
    assert CursorQuiet(v, seed, w.system.channel, w.system.history.log, w.system.history.done, w.nextRef);
    DoneIsBounded(v, seed, w);
  }

  lemma DoneIsBounded(v: Server, seed: Option<nat>, w: Wire)
    requires Quiet(v, seed, w)
    ensures w.system.history.done <= |w.system.history.log|
  {
  }

  lemma NumberedGeneration(s: System, f: Frame)
    requires !IsControl(f)
    ensures Dispatch(s.channel, f).0.generation == s.channel.generation
  {
  }

  lemma EmittedArrival(v: Server, seed: Option<nat>, w: Wire, a: Action, p: nat)
    requires ValidServer(v) && ValidSeed(seed) && Quiet(v, seed, w)
    requires a.Arrive? && a.frame.ref == w.nextRef && !IsControl(a.frame) && Dispatch(w.system.channel, a.frame).1.Emitted?
    requires p < |v.log| && a.frame.id == Some(Id(v, v.log[p]))
    requires Quiet(v, seed, w.(system := AfterDispatch(w.system, a.frame), nextRef := w.nextRef + 1))
    requires JustNumbered(AfterDispatch(w.system, a.frame).channel, w.system.history.log, a.frame)
    requires !w.system.router.closed ==>
               && Pending(w.system.history, w.system.router.pendingIds)
               && First(v, seed) + w.system.history.done <= p <= First(v, seed) + |w.system.history.log|
    requires Next(w.system, a).channel.generation == w.system.channel.generation
    ensures Quiet(v, seed, Transport(v, w, a, Some(p + 1)))
  {
    hide Quiet, Dispatch, OnFrame, ReenterAll, Pending, JustNumbered, IsControl, ValidServer;
    DoneIsBounded(v, seed, w);
    var s := w.system;
    var numbered := w.(system := AfterDispatch(s, a.frame), nextRef := w.nextRef + 1);
    if !s.router.closed { PendingStays(s.history, numbered.system.history, s.router.pendingIds); }
    NumberedGeneration(s, a.frame);
    EmittedStaysQuiet(v, seed, numbered, a, p);
  }

  lemma ControlStaysQuiet(v: Server, seed: Option<nat>, w: Wire, a: Action)
    requires ValidServer(v) && Quiet(v, seed, w) && ChannelInv(w.system)
    requires a.Arrive? && a.frame.ref == w.nextRef && IsControl(a.frame)
    requires Next(w.system, a).channel.generation == w.system.channel.generation
    ensures Quiet(v, seed, Transport(v, w, a, w.position))
  {
    hide ChannelInv, CursorQuiet;
    var t := AfterDispatch(w.system, a.frame);
    var numbered := w.(system := t, nextRef := w.nextRef + 1);
    OnFrameGeneration(ReenterAll(t, a.before), a.frame, a.decoded, a.during, a.notified);
    ReenterAllGeneration(t, a.before);
    NumberStaysQuiet(v, seed, w, a.frame);
  }

  lemma CancelledStaysQuiet(v: Server, seed: Option<nat>, w: Wire)
    requires Quiet(v, seed, w)
    ensures Quiet(v, seed, w.(system := Next(w.system, Cancelled)))
  {
    hide CursorQuiet;
    DrainingStaysQuiet(v, seed, w, Next(w.system, Cancelled));
  }

  lemma LocalStaysQuiet(v: Server, seed: Option<nat>, w: Wire, a: Action)
    requires ValidServer(v) && Quiet(v, seed, w) && RouterInv(w.system) && !a.Arrive?
    requires Next(w.system, a).channel.generation == w.system.channel.generation
    ensures Quiet(v, seed, w.(system := Next(w.system, a)))
  {
    var s := w.system;
    if Busy(s.router) {
      BusyHoldsOldest(s);
    }
    assert s.router.drain.Delivering? ==> s.router.drain.item.event.Some? && s.router.drain.sink < s.config.sinks;
    hide RouterInv, CursorQuiet, FromSink, Finish, ReenterAll;
    match a
    case Outside(call) =>
    case Resume => if s.router.drain.Handed? { ResumeStaysQuiet(v, seed, w); }
    case Resolve => if s.router.drain.Delivering? { ResolveStaysQuiet(v, seed, w); }
    case RejectSink(notified) => if s.router.drain.Delivering? { RejectStaysQuiet(v, seed, w, notified); }
    case Cancelled => CancelledStaysQuiet(v, seed, w);
  }

  lemma NextStaysQuiet(v: Server, seed: Option<nat>, w: Wire, a: WireAction)
    requires ValidServer(v) && ValidSeed(seed) && Quiet(v, seed, w)
    requires RouterInv(w.system) && ChannelInv(w.system)
    requires NextWire(v, w, a).system.channel.generation == w.system.channel.generation
    ensures Quiet(v, seed, NextWire(v, w, a))
  {
    match a
    case Open => ReplayMeetsCursor(v, seed, First(v, seed) + w.system.history.done);
    case Drop =>
    case Serve(kind, retry, decoded, before, during, notified) =>
      if w.position.Some? && w.position.value < |v.log| {
        var f := Frame(w.nextRef, kind, NotJson, Some(Id(v, v.log[w.position.value])), retry);
        if !IsControl(f) {
          ArrivalStaysQuiet(v, seed, w, Arrive(f, decoded, before, during, notified), w.position.value);
        }
      }
    case Control(frame, before) =>
      if w.position.Some? && IsControl(frame) {
        ControlStaysQuiet(v, seed, w, Arrive(frame.(ref := w.nextRef), DecodeFailed, before, [], []));
      }
    case Local(action) => if !action.Arrive? { LocalStaysQuiet(v, seed, w, action); }
  }

  lemma StartIsQuiet(config: Config, v: Server, seed: Option<nat>)
    requires ValidServer(v) && ValidSeed(seed)
    ensures Quiet(v, seed, StartWire(config, v, seed))
  {
    StartsBehindSeed(v, seed);
    hide Covered, Id, First;
  }

  lemma StartsBehindSeed(v: Server, seed: Option<nat>)
    requires ValidServer(v)
    ensures First(v, seed) <= |v.log| && CursorAt(v, seed, First(v, seed)) == SeedId(v, seed)
  {
    if seed.Some? { CoveredSplits(v.log, seed.value); }
  }

  lemma StartKeepsInvariants(config: Config, seed: Option<string>)
    requires config.capacity >= 1
    ensures RouterInv(Start(config, seed)) && ChannelInv(Start(config, seed)) && Handing(Start(config, seed))
  {
  }

  /** What the wire does to the system is one of its steps, or nothing. */
  lemma WireSteps(v: Server, w: Wire, a: WireAction) returns (action: Action)
    ensures NextWire(v, w, a).system == w.system || NextWire(v, w, a).system == Next(w.system, action)
  {
    hide Next, Dispatch;
    match a
    case Serve(kind, retry, decoded, before, during, notified) =>
      if w.position.Some? && w.position.value < |v.log| {
        action := Arrive(Frame(w.nextRef, kind, NotJson, Some(Id(v, v.log[w.position.value])), retry), decoded, before, during, notified);
      } else {
        action := Resume;
      }
    case Control(frame, before) => action := Arrive(frame.(ref := w.nextRef), DecodeFailed, before, [], []);
    case Local(local) => action := local;
    case _ => action := Resume;
  }

  /** What holds of the system of every wire. */
  ghost predicate WireInv(config: Config, s: System) {
    && RouterInv(s) && ChannelInv(s) && s.config == config
    && s.channel.generation >= s.router.generation
    && (s.router.generation == 0 ==> Handing(s))
  }

  lemma NextWireKeeps(config: Config, v: Server, w: Wire, a: WireAction)
    requires WireInv(config, w.system)
    ensures WireInv(config, NextWire(v, w, a).system)
    ensures Later(w.system, NextWire(v, w, a).system)
  {
    hide RouterInv, ChannelInv, Handing, NextWire, Next;
    var action := WireSteps(v, w, a);
    NextKeepsRouter(w.system, action);
    NextMoves(w.system, action);
    NextIsLater(w.system, action);
    if Next(w.system, action).router.generation == 0 { NextHands(w.system, action); }
  }

  /** Over any run the invariants hold, and without a router reset every sink is handed a prefix. */
  lemma {:induction false} RunWireKeeps(config: Config, v: Server, seed: Option<nat>, actions: seq<WireAction>)
    requires config.capacity >= 1
    ensures WireInv(config, RunWire(v, StartWire(config, v, seed), actions).system)
    decreases |actions|
  {
    if actions == [] {
      hide RouterInv, ChannelInv, Handing;
      StartKeepsInvariants(config, SeedId(v, seed));
    } else {
      hide WireInv, NextWire;
      RunWireKeeps(config, v, seed, actions[..|actions| - 1]);
      NextWireKeeps(config, v, RunWire(v, StartWire(config, v, seed), actions[..|actions| - 1]), actions[|actions| - 1]);
    }
  }

  /**
   The channel's generation moves in this step at most by the caller's close, and that finds nothing owed:
   every entry the router has accepted is settled.
   */
  ghost predicate ForfeitsNothing(v: Server, w: Wire, a: WireAction) {
    || NextWire(v, w, a).system.channel.generation == w.system.channel.generation
    || (a == Local(Outside(CloseChannel)) && w.system.history.done == |w.system.history.log|)
  }

  /** Any number of sessions of one channel, each closed with nothing owed, if closed at all. */
  ghost predicate ClosesCleanly(v: Server, w: Wire, actions: seq<WireAction>) {
    forall k :: 0 <= k < |actions| ==> ForfeitsNothing(v, RunWire(v, w, actions[..k]), actions[k])
  }

  lemma CleanBeforeLast(v: Server, w: Wire, actions: seq<WireAction>)
    requires ClosesCleanly(v, w, actions) && actions != []
    ensures ClosesCleanly(v, w, actions[..|actions| - 1])
    ensures ForfeitsNothing(v, RunWire(v, w, actions[..|actions| - 1]), actions[|actions| - 1])
  {
    hide ForfeitsNothing, RunWire;
    var front := actions[..|actions| - 1];
    assert forall k :: 0 <= k < |front| ==> front[..k] == actions[..k] && front[k] == actions[k];
  }

  /** A close that finds nothing owed outdates deliveries that nobody will acknowledge. */
  lemma CleanCloseStaysQuiet(v: Server, seed: Option<nat>, w: Wire)
    requires Quiet(v, seed, w) && w.system.history.done == |w.system.history.log|
    ensures Quiet(v, seed, NextWire(v, w, Local(Outside(CloseChannel))))
  {
  }

  lemma {:induction false} RunStaysQuiet(config: Config, v: Server, seed: Option<nat>, w: Wire, actions: seq<WireAction>)
    requires ValidServer(v) && ValidSeed(seed)
    requires Quiet(v, seed, w) && WireInv(config, w.system) && ClosesCleanly(v, w, actions)
    ensures Quiet(v, seed, RunWire(v, w, actions)) && WireInv(config, RunWire(v, w, actions).system)
    decreases |actions|
  {
    if actions != [] {
      hide RouterInv, ChannelInv, Quiet, NextWire, Handing, ClosesCleanly;
      var front := actions[..|actions| - 1];
      var a := actions[|actions| - 1];
      var u := RunWire(v, w, front);
      CleanBeforeLast(v, w, actions);
      RunStaysQuiet(config, v, seed, w, front);
      NextWireKeeps(config, v, u, a);
      if NextWire(v, u, a).system.channel.generation == u.system.channel.generation {
        NextStaysQuiet(v, seed, u, a);
      } else {
        CleanCloseStaysQuiet(v, seed, u);
      }
    }
  }

  lemma CleanRunIsQuiet(config: Config, v: Server, seed: Option<nat>, actions: seq<WireAction>)
    requires config.capacity >= 1 && ValidServer(v) && ValidSeed(seed)
    requires ClosesCleanly(v, StartWire(config, v, seed), actions)
    ensures var w := RunWire(v, StartWire(config, v, seed), actions);
            Quiet(v, seed, w) && WireInv(config, w.system) && w.system.router.generation == 0
  {
    hide RouterInv, ChannelInv, Handing, NextWire, ClosesCleanly, RunWire;
    StartIsQuiet(config, v, seed);
    StartKeepsInvariants(config, SeedId(v, seed));
    RunStaysQuiet(config, v, seed, StartWire(config, v, seed), actions);
  }

  /**
   What every sink has been handed after a run over any number of sessions, as long as every close of the
   channel found nothing owed and nothing reset it: the accepted frames are the served log from just past
   the seed, each exactly once and without a gap, and sink `k` was handed the decoded events of a prefix of
   them. Any number of connections may have been opened and dropped on the way, with items still queued.
   `StreamAcrossCloses.CloseIsCleanExactly` says that this condition on a close is the exact one.
   */
  lemma SinksSeeEachEventOnce(config: Config, v: Server, seed: Option<nat>, actions: seq<WireAction>, k: nat)
    requires config.capacity >= 1 && ValidServer(v) && ValidSeed(seed) && k < config.sinks
    requires ClosesCleanly(v, StartWire(config, v, seed), actions)
    ensures var s := RunWire(v, StartWire(config, v, seed), actions).system;
            && Contiguous(v, First(v, seed), s.history.log)
            && exists n: nat :: n <= |s.history.log| && HandedTo(s.history.calls, k) == EventsOf(s.history.log, n)
  {
    CleanRunIsQuiet(config, v, seed, actions);
    hide RunWire, StartWire, RouterInv, ChannelInv, ClosesCleanly;
    var s := RunWire(v, StartWire(config, v, seed), actions).system;
    assert Delivered(s.history.calls, s.history.log, s.history.done, s.router.drain, k);
  }

  /** The cursor stands after the `n`-th accepted entry, which every sink has applied like all before it. */
  ghost predicate CursorAfterSettled(v: Server, seed: Option<nat>, s: System, n: nat) {
    && n <= |s.history.log|
    && First(v, seed) + n <= |v.log|
    && s.channel.lastEventId == CursorAt(v, seed, First(v, seed) + n)
    && ReplayFrom(v, s.channel.lastEventId) == First(v, seed) + n
    && forall i :: 0 <= i < n ==> Settled(s.config.sinks, s.history, i)
  }

  /** In such a run a connection, of this session or the next, resumes just past the last entry that every sink has applied. */
  lemma CursorIsLastSettled(config: Config, v: Server, seed: Option<nat>, actions: seq<WireAction>)
    requires config.capacity >= 1 && ValidServer(v) && ValidSeed(seed)
    requires ClosesCleanly(v, StartWire(config, v, seed), actions)
    ensures var s := RunWire(v, StartWire(config, v, seed), actions).system;
            exists n :: CursorAfterSettled(v, seed, s, n)
  {
    hide RouterInv, ChannelInv, Quiet, NextWire, CursorAfterSettled, RunWire, StartWire, ClosesCleanly;
    CleanRunIsQuiet(config, v, seed, actions);
    QuietCursor(v, seed, RunWire(v, StartWire(config, v, seed), actions));
  }

  function OldestGeneration(h: History): nat {
    if h.log == [] then 0 else h.log[0].item.generation
  }

  lemma QuietCursor(v: Server, seed: Option<nat>, w: Wire)
    requires ValidServer(v) && ValidSeed(seed) && Quiet(v, seed, w) && RouterInv(w.system)
    ensures CursorAfterSettled(v, seed, w.system, w.system.history.done)
  {
    hide ValidServer, CursorAt, ReplayFrom, Promises, FreshObjects, Settled, DrainOwes, Owed, Pending, First;
    var h := w.system.history;
    ReplayMeetsCursor(v, seed, First(v, seed) + h.done);
    assert OldestGeneration(h) >= 0;
  }
}
