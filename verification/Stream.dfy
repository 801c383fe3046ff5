/**
 The delivery half of `lifecycle/channel.ts` together with `events/router.ts`, as one transition
 system. A step is one synchronous stretch of the program: a frame callback, a continuation of the
 drain, or a call from outside. Which step comes next, what a decoder returns, how a sink settles
 and which calls an observer makes back into the channel or the router are all chosen by the
 environment, so a run is any list of actions.
 */
module Stream {
  import opened Outcomes
  import EventCursor

  // ---------------------------------------------------------------- frames

  /** What `JSON.parse` makes of a frame's data, as far as a control frame is concerned. */
  datatype Payload =
    | NotJson
    | Json(cursor: Option<string>, epoch: Option<string>, reason: Option<string>)

  /** `ref` is the identity of the frame object, the key of the channel's weak map. */
  datatype Frame = Frame(ref: nat, kind: string, data: Payload, id: Option<string>, retry: Option<int>)

  predicate IsControl(f: Frame) {
    f.kind == "connected" || f.kind == "reset" || f.kind == "failure"
  }

  /** `validateControl` returns; on every other control frame it throws, and on `failure` always. */
  predicate ValidControl(f: Frame) {
    && f.data.Json?
    && f.kind != "failure"
    && f.data.cursor.Some?
    && EventCursor.Parse(f.data.cursor.value).Some?
    && (f.kind == "connected" ==>
          f.data.epoch == Some(EventCursor.Parse(f.data.cursor.value).value.epoch))
    && (f.kind == "reset" ==>
          f.data.reason in {Some("epochChanged"), Some("replayExpired"), Some("overflow")})
  }

  // ---------------------------------------------------------------- the channel

  datatype Delivery = Delivery(generation: nat, order: nat)

  datatype Channel = Channel(
    lastEventId: Option<string>,
    generation: nat,
    order: nat,
    acknowledgedOrder: nat,
    hasBoundary: bool,
    serverRetryMs: Option<nat>,
    deliveries: map<nat, Delivery>)

  datatype Dispatched = Emitted | Ignored | Thrown

  function ResetCursor(c: Channel): Channel {
    c.(generation := c.generation + 1, lastEventId := None)
  }

  datatype Novelty = Fresh | Replayed | Malformed

  /** Whether an incoming id is already covered by the resume cursor. */
  function Compare(last: Option<string>, id: Option<string>): Novelty {
    if last.None? || id.None? then Fresh
    else if id == last then Replayed
    else if EventCursor.HasEpochPrefix(id.value) && EventCursor.HasEpochPrefix(last.value) then
      var incoming := EventCursor.Parse(id.value);
      var applied := EventCursor.Parse(last.value);
      if incoming.None? || applied.None? then Malformed
      else if incoming.value.epoch == applied.value.epoch
              && incoming.value.sequence <= applied.value.sequence then Replayed
      else Fresh
    else Fresh
  }

  function ApplyRetry(c: Channel, f: Frame): (Channel, Dispatched) {
    if f.retry.None? then (c, Emitted)
    else if f.retry.value < 0 then (c, Thrown)
    else (c.(serverRetryMs := Some(f.retry.value)), Emitted)
  }

  /** The channel's own work in `dispatch`, up to the point where listeners hear the frame. */
  function Dispatch(c: Channel, f: Frame): (Channel, Dispatched) {
    if IsControl(f) then
      if !ValidControl(f) then (c, Thrown)
      else
        var bounded := c.(hasBoundary := true);
        ApplyRetry(if f.kind == "reset" then ResetCursor(bounded) else bounded, f)
    else
      match Compare(c.lastEventId, f.id)
      case Replayed => (c, Ignored)
      case Malformed => (c, Thrown)
      case Fresh =>
        var order := c.order + 1;
        ApplyRetry(
          c.(order := order, deliveries := c.deliveries[f.ref := Delivery(c.generation, order)]), f)
  }

  /** The cursor after a frame with `id` is acknowledged: an empty id clears it. */
  function CursorAfter(last: Option<string>, id: Option<string>): Option<string> {
    if id.None? then last else if id.value == "" then None else id
  }

  predicate Acknowledgeable(c: Channel, f: Frame) {
    && f.ref in c.deliveries
    && c.deliveries[f.ref].generation == c.generation
    && c.deliveries[f.ref].order > c.acknowledgedOrder
  }

  function Acknowledge(c: Channel, f: Frame): Channel {
    if !Acknowledgeable(c, f) then c
    else
      c.(acknowledgedOrder := c.deliveries[f.ref].order,
         deliveries := c.deliveries - {f.ref},
         lastEventId := CursorAfter(c.lastEventId, f.id))
  }

  // ---------------------------------------------------------------- the router

  type Event = string

  datatype Overflow = DropNew | DropOldest | Reject

  datatype Config = Config(capacity: nat, overflow: Overflow, sinks: nat)

  /** One `Delivery` of the router's queue; `event` is `None` when the decoder drops the frame. */
  datatype Item = Item(frame: Frame, event: Option<Event>, generation: nat)

  /**
   Where the drain is suspended: waiting in `pop`, holding a popped item whose continuation has not
   run, or awaiting the promise of one sink.
   */
  datatype Drain = Waiting | Handed(item: Item) | Delivering(item: Item, sink: nat) | Stopped

  datatype Router = Router(
    generation: nat,
    closed: bool,
    pendingIds: set<string>,
    queue: seq<Item>,
    drain: Drain)

  datatype Decoded = Decoded(event: Option<Event>) | DecodeFailed

  /**
   What happened so far. `log` holds every frame that reached the decoder while the router was open
   (`lost` when it was refused or did not decode), `base` is where the current router generation
   begins in it, and `done` is how far the drain has got. `dispatched` lists the frame objects the
   channel numbered with the channel generation of that moment, so number `n` is entry `n - 1`.
   `moves` are the numbers that moved the cursor, in that order.
   */
  datatype History = History(
    log: seq<Entry>,
    base: nat,
    done: nat,
    calls: seq<Call>,
    applied: set<Applied>,
    dispatched: seq<Numbered>,
    moves: seq<nat>)

  datatype Entry = Entry(item: Item, lost: bool)
  datatype Call = Call(sink: nat, item: Item)
  datatype Applied = Applied(sink: nat, index: nat, item: Item)
  datatype Numbered = Numbered(ref: nat, generation: nat)

  datatype System = System(config: Config, channel: Channel, router: Router, history: History)

  function Start(config: Config, seed: Option<string>): System {
    System(config,
           Channel(seed, 0, 0, 0, false, None, map[]),
           Router(0, false, {}, [], Waiting),
           History([], 0, 0, [], {}, [], []))
  }

  // ---------------------------------------------------------------- router steps

  /** The delivery signal the item was started under has been aborted. */
  predicate Aborted(r: Router, it: Item) {
    r.closed || it.generation != r.generation
  }

  function IdSet(id: Option<string>): set<string> {
    if id.Some? then {id.value} else {}
  }

  function Reset(s: System): System {
    if s.router.closed then s
    else
      s.(channel := ResetCursor(s.channel),
         router := s.router.(generation := s.router.generation + 1, pendingIds := {}),
         history := s.history.(base := |s.history.log|, done := |s.history.log|))
  }

  function CloseRouter(s: System): System {
    if s.router.closed then s
    else
      s.(router := s.router.(closed := true, pendingIds := {},
                             drain := if s.router.drain.Waiting? then Stopped else s.router.drain))
  }

  /** Calls that observers, decoders, sinks and other owners may make at any callback. */
  datatype Reentry = CloseChannel | ResetChannel | CloseRouterCall

  function Reenter(s: System, call: Reentry): System {
    match call
    case CloseChannel => s.(channel := s.channel.(generation := s.channel.generation + 1))
    case ResetChannel => s.(channel := ResetCursor(s.channel))
    case CloseRouterCall => CloseRouter(s)
  }

  function ReenterAll(s: System, calls: seq<Reentry>): (t: System)
    ensures t.config == s.config
    decreases |calls|
  {
    if calls == [] then s else ReenterAll(Reenter(s, calls[0]), calls[1..])
  }

  function Record(s: System, it: Item, lost: bool): System {
    s.(history := s.history.(log := s.history.log + [Entry(it, lost)]))
  }

  /** `queue.push`, and the drop handling that follows it. A closed queue throws to the emitter. */
  function Push(s: System, it: Item, notified: seq<Reentry>): System {
    var r := s.router;
    if r.closed then s
    else if r.drain.Waiting? then
      Record(s, it, false).(router := r.(drain := Handed(it)))
    else if |r.queue| < s.config.capacity then
      Record(s, it, false).(router := r.(queue := r.queue + [it]))
    else if s.config.overflow.DropOldest? && |r.queue| > 0 then
      Reset(ReenterAll(Record(s, it, false).(router := r.(queue := r.queue[1..] + [it])), notified))
    else
      Reset(ReenterAll(Record(s, it, true), notified))
  }

  /** The rest of the frame listener, for a frame that is not pending; the decoder has run. */
  function Hear(s: System, f: Frame, decoded: Decoded, notified: seq<Reentry>): System {
    var generation := s.router.generation;
    if decoded.DecodeFailed? then
      Reset(ReenterAll(if s.router.closed then s else Record(s, Item(f, None, generation), true), notified))
    else
      Push(s.(router := s.router.(pendingIds := s.router.pendingIds + IdSet(f.id))),
           Item(f, decoded.event, generation), notified)
  }

  /** The router's frame listener; `during` runs inside the decoder. */
  function OnFrame(s: System, f: Frame, decoded: Decoded, during: seq<Reentry>, notified: seq<Reentry>): System {
    if f.kind == "connected" || f.kind == "failure" then s
    else if f.kind == "reset" then Reset(s)
    else if f.id.Some? && f.id.value in s.router.pendingIds then s
    else Hear(ReenterAll(s, during), f, decoded, notified)
  }

  /** The top of the drain loop: stop, take the head, or wait. */
  function Pull(r: Router): Router {
    if r.closed then r.(drain := Stopped)
    else if r.queue != [] then r.(drain := Handed(r.queue[0]), queue := r.queue[1..])
    else r.(drain := Waiting)
  }

  function AcknowledgeItem(s: System, it: Item): System {
    var c := Acknowledge(s.channel, it.frame);
    s.(channel := c,
       history := if c.acknowledgedOrder == s.channel.acknowledgedOrder then s.history
                  else s.history.(moves := s.history.moves + [c.acknowledgedOrder]))
  }

  /** The end of one delivery, and the next turn of the drain loop. */
  function Finish(s: System, it: Item, applied: bool): System {
    if it.generation != s.router.generation then s.(router := Pull(s.router))
    else
      var cleared := s.(router := s.router.(pendingIds := s.router.pendingIds - IdSet(it.frame.id)));
      if applied && !Aborted(s.router, it) then
        var moved := AcknowledgeItem(cleared, it);
        moved.(router := Pull(moved.router),
               history := moved.history.(done := moved.history.done + 1))
      else cleared.(router := Pull(cleared.router))
  }

  /** The sink loop from sink `k` on, up to the next `await`. */
  function FromSink(s: System, it: Item, k: nat): System {
    if k >= s.config.sinks then Finish(s, it, true)
    else if Aborted(s.router, it) then Finish(s, it, false)
    else
      s.(router := s.router.(drain := Delivering(it, k)),
         history := s.history.(calls := s.history.calls + [Call(k, it)]))
  }

  function ResumePop(s: System, it: Item): System {
    if it.generation != s.router.generation then s.(router := Pull(s.router))
    else if it.event.None? then
      var cleared := s.(router := s.router.(pendingIds := s.router.pendingIds - IdSet(it.frame.id)));
      var moved := AcknowledgeItem(cleared, it);
      moved.(router := Pull(moved.router),
             history := moved.history.(done := moved.history.done + 1))
    else FromSink(s, it, 0)
  }

  function SinkResolved(s: System, it: Item, k: nat): System {
    FromSink(s.(history := s.history.(applied := s.history.applied + {Applied(k, s.history.done, it)})),
             it, k + 1)
  }

  function SinkRejected(s: System, it: Item, notified: seq<Reentry>): System {
    if Aborted(s.router, it) then Finish(s, it, false)
    else Finish(Reset(ReenterAll(s, notified)), it, false)
  }

  // ---------------------------------------------------------------- runs

  datatype Action =
    | Arrive(frame: Frame, decoded: Decoded, before: seq<Reentry>, during: seq<Reentry>, notified: seq<Reentry>)
    | Resume
    | Resolve
    | RejectSink(notified: seq<Reentry>)
    | Cancelled
    | Outside(call: Reentry)

  /** The system once `dispatch` has judged and numbered the frame. */
  function AfterDispatch(s: System, f: Frame): System {
    var c := Dispatch(s.channel, f).0;
    s.(channel := c,
       history := s.history.(dispatched :=
         if c.order == s.channel.order then s.history.dispatched
         else s.history.dispatched + [Numbered(f.ref, s.channel.generation)]))
  }

  /**
   A frame from the transport: dispatch, the listeners subscribed before the router, the router. A
   failure frame is emitted although its dispatch throws.
   */
  function Arrival(s: System, a: Action): System
    requires a.Arrive?
  {
    var t := AfterDispatch(s, a.frame);
    match Dispatch(s.channel, a.frame).1
    case Ignored => t
    case Thrown => if a.frame.kind == "failure" then ReenterAll(t, a.before) else t
    case Emitted => OnFrame(ReenterAll(t, a.before), a.frame, a.decoded, a.during, a.notified)
  }

  /** One step; an action that is not enabled changes nothing. */
  function Next(s: System, a: Action): (t: System)
    ensures t.config == s.config
  {
    match a
    case Arrive(_, _, _, _, _) => Arrival(s, a)
    case Outside(call) => Reenter(s, call)
    case Resume => if s.router.drain.Handed? then ResumePop(s, s.router.drain.item) else s
    case Resolve =>
      if s.router.drain.Delivering? then SinkResolved(s, s.router.drain.item, s.router.drain.sink) else s
    case RejectSink(notified) =>
      if s.router.drain.Delivering? then SinkRejected(s, s.router.drain.item, notified) else s
    case Cancelled =>
      if s.router.drain.Delivering? && Aborted(s.router, s.router.drain.item)
      then Finish(s, s.router.drain.item, false) else s
  }

  function Run(s: System, actions: seq<Action>): (t: System)
    ensures t.config == s.config
    decreases |actions|
  {
    if actions == [] then s else Next(Run(s, actions[..|actions| - 1]), actions[|actions| - 1])
  }
}
