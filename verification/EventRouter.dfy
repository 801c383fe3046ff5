/**
 The delivery fields of `createChannel` and the whole of `createEventRouter` as objects that change
 in place. Each method is proved to do to the objects what the step of the same name in `Stream` does
 to values, so every result about runs of `Stream` is about these objects.
 */
module EventRouter {
  import opened Outcomes
  import opened Stream
  import EventCursor
  import Queues = BoundedQueue

  class AbortController {
    var aborted: bool

    constructor ()
      ensures !aborted
    {
      aborted := false;
    }

    method Abort()
      modifies this
      ensures aborted
    {
      aborted := true;
    }
  }

  class DeliveryChannel {
    var lastEventId: Option<string>
    var generation: nat
    var order: nat
    var acknowledgedOrder: nat
    var hasBoundary: bool
    var serverRetryMs: Option<nat>
    var deliveries: map<nat, Delivery>

    function View(): Channel
      reads this
    {
      Channel(lastEventId, generation, order, acknowledgedOrder, hasBoundary, serverRetryMs, deliveries)
    }

    constructor (seed: Option<string>)
      ensures View() == Start(Config(1, DropOldest, 0), seed).channel
    {
      lastEventId, generation, order, acknowledgedOrder := seed, 0, 0, 0;
      hasBoundary, serverRetryMs, deliveries := false, None, map[];
    }

    method ResetCursor()
      modifies this
      ensures View() == Stream.ResetCursor(old(View()))
    {
      generation := generation + 1;
      lastEventId := None;
    }

    method SetServerRetry(f: Frame) returns (outcome: Dispatched)
      modifies this
      ensures (View(), outcome) == ApplyRetry(old(View()), f)
    {
      if f.retry.Some? {
        if f.retry.value < 0 { return Thrown; }
        serverRetryMs := Some(f.retry.value);
      }
      outcome := Emitted;
    }

    /** `dispatch`, up to `emitFrame`. */
    method Dispatch(f: Frame) returns (outcome: Dispatched)
      modifies this
      ensures (View(), outcome) == Stream.Dispatch(old(View()), f)
    {
      if IsControl(f) {
        if !ValidControl(f) { return Thrown; }
        hasBoundary := true;
        if f.kind == "reset" { ResetCursor(); }
      } else {
        if f.id.Some? && lastEventId.Some? {
          if f.id.value == lastEventId.value { return Ignored; }
          if EventCursor.HasEpochPrefix(f.id.value) && EventCursor.HasEpochPrefix(lastEventId.value) {
            var incoming := EventCursor.Parse(f.id.value);
            var applied := EventCursor.Parse(lastEventId.value);
            if incoming.None? || applied.None? { return Thrown; }
            if incoming.value.epoch == applied.value.epoch && incoming.value.sequence <= applied.value.sequence {
              return Ignored;
            }
          }
        }
        order := order + 1;
        deliveries := deliveries[f.ref := Delivery(generation, order)];
      }
      outcome := SetServerRetry(f);
    }

    method Acknowledge(f: Frame)
      modifies this
      ensures View() == Stream.Acknowledge(old(View()), f)
    {
      if f.ref !in deliveries { return; }
      var delivery := deliveries[f.ref];
      if delivery.generation != generation || delivery.order <= acknowledgedOrder { return; }
      deliveries := deliveries - {f.ref};
      acknowledgedOrder := delivery.order;
      if f.id.Some? {
        lastEventId := if f.id.value == "" then None else f.id;
      }
    }

    /** The part of a caller's or terminal close that invalidates outstanding acknowledgements. */
    method CloseGeneration()
      modifies this
      ensures View() == old(View()).(generation := old(generation) + 1)
    {
      generation := generation + 1;
    }
  }

  /** The system once the queue has taken or refused an item, and whether it dropped one. */
  ghost function Offered(s: System, it: Item): (System, bool) {
    var r := s.router;
    if r.closed then (s, false)
    else if r.drain.Waiting? then (Record(s, it, false).(router := r.(drain := Handed(it))), false)
    else if |r.queue| < s.config.capacity then (Record(s, it, false).(router := r.(queue := r.queue + [it])), false)
    else if s.config.overflow.DropOldest? && |r.queue| > 0 then
      (Record(s, it, false).(router := r.(queue := r.queue[1..] + [it])), true)
    else (Record(s, it, true), true)
  }

  /** A push is the offer, and the report of a drop. */
  lemma PushOffers(s: System, it: Item, notified: seq<Reentry>)
    ensures var (t, dropped) := Offered(s, it);
            Stream.Push(s, it, notified) == if dropped then Stream.Reset(ReenterAll(t, notified)) else t
  {
  }

  class EventRouter {
    const config: Config
    const channel: DeliveryChannel
    const queue: Queues.BoundedQueue<Item>
    var deliveryCanceller: AbortController
    var generation: nat
    var closed: bool
    var pendingIds: set<string>
    /** Where the drain is suspended, and the signal it captured for the delivery under way. */
    var drain: Drain
    var signal: AbortController
    ghost var history: History

    ghost predicate Valid()
      reads this, queue, deliveryCanceller, signal
    {
      && queue.Valid()
      && queue.capacity == config.capacity && queue.overflow == config.overflow
      && queue.closed == closed
      && |queue.waiters| == (if drain.Waiting? then 1 else 0)
      && deliveryCanceller.aborted == closed
      && (forall i :: 0 <= i < |queue.Contents()| ==> queue.Contents()[i].generation <= generation)
      && (drain.Handed? || drain.Delivering? ==> drain.item.generation <= generation)
      && (drain.Delivering? ==>
            && (drain.item.generation == generation ==> signal == deliveryCanceller)
            && (drain.item.generation != generation ==> signal != deliveryCanceller && signal.aborted))
    }

    ghost function View(): Router
      reads this, queue, deliveryCanceller, signal
      requires Valid()
    {
      Router(generation, closed, pendingIds, queue.Contents(), drain)
    }

    ghost function Model(): System
      reads this, queue, deliveryCanceller, signal, channel
      requires Valid()
    {
      System(config, channel.View(), View(), history)
    }

    constructor (channel: DeliveryChannel, config: Config)
      requires config.capacity >= 1
      ensures Valid() && this.channel == channel && this.config == config
      ensures fresh(queue) && fresh(deliveryCanceller) && fresh(signal)
      ensures View() == Start(config, None).router && history == Start(config, None).history
      ensures channel.View() == old(channel.View())
    {
      this.channel, this.config := channel, config;
      queue := new Queues.BoundedQueue(config.capacity, config.overflow, config.capacity);
      deliveryCanceller := new AbortController();
      signal := new AbortController();
      generation, closed, pendingIds, drain := 0, false, {}, Waiting;
      history := Start(config, None).history;
      new;
      var first := queue.Pop(false);
    }

    method Reset()
      requires Valid()
      modifies this, queue, channel, deliveryCanceller
      ensures Valid() && Model() == Stream.Reset(old(Model()))
      ensures drain == old(drain) || (old(drain.Waiting?) && drain.Stopped?)
      ensures deliveryCanceller == old(deliveryCanceller) || fresh(deliveryCanceller)
      ensures signal == old(signal)
    {
      if closed { return; }
      generation := generation + 1;
      deliveryCanceller.Abort();
      deliveryCanceller := new AbortController();
      pendingIds := {};
      channel.ResetCursor();
      history := history.(base := |history.log|, done := |history.log|);
    }

    method Close()
      requires Valid()
      modifies this, queue, deliveryCanceller
      ensures Valid() && Model() == CloseRouter(old(Model()))
      ensures drain == old(drain) || (old(drain.Waiting?) && drain.Stopped?)
      ensures deliveryCanceller == old(deliveryCanceller) && signal == old(signal)
    {
      if closed { return; }
      closed := true;
      if drain.Waiting? { drain := Stopped; }
      deliveryCanceller.Abort();
      pendingIds := {};
      queue.Close();
    }

    /** Observers run, and make these calls. */
    method Callbacks(calls: seq<Reentry>)
      requires Valid()
      modifies this, queue, channel, deliveryCanceller
      ensures Valid() && Model() == ReenterAll(old(Model()), calls)
      ensures drain == old(drain) || (old(drain.Waiting?) && drain.Stopped?)
      ensures deliveryCanceller == old(deliveryCanceller) && signal == old(signal)
    {
      for i := 0 to |calls|
        invariant Valid()
        invariant deliveryCanceller == old(deliveryCanceller) && signal == old(signal)
        invariant drain == old(drain) || (old(drain.Waiting?) && drain.Stopped?)
        invariant ReenterAll(Model(), calls[i..]) == ReenterAll(old(Model()), calls)
      {
        assert calls[i..][0] == calls[i] && calls[i..][1..] == calls[i + 1..];
        match calls[i] {
          case CloseChannel => channel.CloseGeneration();
          case ResetChannel => channel.ResetCursor();
          case CloseRouterCall => Close();
        }
      }
    }

    method ReportDrop(notified: seq<Reentry>)
      requires Valid()
      modifies this, queue, channel, deliveryCanceller
      ensures Valid() && Model() == Stream.Reset(ReenterAll(old(Model()), notified))
      ensures drain == old(drain) || (old(drain.Waiting?) && drain.Stopped?)
      ensures deliveryCanceller == old(deliveryCanceller) || fresh(deliveryCanceller)
      ensures signal == old(signal)
    {
      Callbacks(notified);
      Reset();
    }

    /** `queue.push`; `true` when something was dropped. */
    method Offer(delivery: Item) returns (dropped: bool)
      requires Valid() && delivery.generation <= generation
      modifies this`drain, this`history, queue
      ensures Valid() && (Model(), dropped) == Offered(old(Model()), delivery)
    {
      hide Stream.Reset, Stream.ReenterAll;
      var outcome := queue.Push(delivery);
      dropped := outcome.Evicted? || outcome.Refused? || outcome.QueueFull?;
      if outcome.HandedOver? { drain := Handed(delivery); }
      if !outcome.QueueClosed? {
        history := history.(log := history.log + [Entry(delivery, outcome.Refused? || outcome.QueueFull?)]);
      }
    }

    /** `queue.push` from the frame listener, with the drop it may cause. */
    method Push(delivery: Item, notified: seq<Reentry>)
      requires Valid() && delivery.generation <= generation
      modifies this, queue, channel, deliveryCanceller
      ensures Valid() && Model() == Stream.Push(old(Model()), delivery, notified)
      ensures deliveryCanceller == old(deliveryCanceller) || fresh(deliveryCanceller)
      ensures signal == old(signal)
    {
      hide Offered, Stream.Push, Stream.Reset, Stream.ReenterAll;
      PushOffers(Model(), delivery, notified);
      var dropped := Offer(delivery);
      if dropped { ReportDrop(notified); }
    }

    /** The listener given to `channel.onAny`. */
    method OnFrame(frame: Frame, decoded: Decoded, during: seq<Reentry>, notified: seq<Reentry>)
      requires Valid()
      modifies this, queue, channel, deliveryCanceller
      ensures Valid() && Model() == Stream.OnFrame(old(Model()), frame, decoded, during, notified)
    {
      if frame.kind == "connected" { return; }
      if frame.kind == "reset" {
        Reset();
        return;
      }
      if frame.kind == "failure" { return; }
      if frame.id.Some? && frame.id.value in pendingIds { return; }
      Callbacks(during);
      Hear(frame, decoded, notified);
    }

    /** The rest of the listener, once the decoder has run. */
    method Hear(frame: Frame, decoded: Decoded, notified: seq<Reentry>)
      requires Valid()
      modifies this, queue, channel, deliveryCanceller
      ensures Valid() && Model() == Stream.Hear(old(Model()), frame, decoded, notified)
    {
      if decoded.DecodeFailed? {
        if !closed {
          history := history.(log := history.log + [Entry(Item(frame, None, generation), true)]);
        }
        ReportDrop(notified);
        return;
      }
      var delivery := Item(frame, decoded.event, generation);
      if frame.id.Some? { pendingIds := pendingIds + {frame.id.value}; }
      assert frame.id.None? ==> pendingIds + {} == pendingIds;
      Push(delivery, notified);
    }

    /** The top of the drain loop. */
    method Pull()
      requires Valid() && !drain.Waiting?
      modifies this, queue
      ensures Valid() && View() == Stream.Pull(old(View()))
      ensures history == old(history) && deliveryCanceller == old(deliveryCanceller)
    {
      if closed {
        drain := Stopped;
        return;
      }
      var next := queue.Pop(closed);
      match next {
        case Head(item) => drain := Handed(item);
        case Waits(_) => drain := Waiting;
        case Rejected => assert false;
      }
    }

    method AcknowledgeFrame(it: Item)
      requires Valid()
      modifies this`history, channel
      ensures Valid() && Model() == AcknowledgeItem(old(Model()), it)
    {
      ghost var before := channel.acknowledgedOrder;
      channel.Acknowledge(it.frame);
      if channel.acknowledgedOrder != before {
        history := history.(moves := history.moves + [channel.acknowledgedOrder]);
      }
    }

    method Forget(it: Item)
      requires Valid()
      modifies this`pendingIds
      ensures Valid() && View() == old(View()).(pendingIds := old(pendingIds) - IdSet(it.frame.id))
    {
      if it.frame.id.Some? { pendingIds := pendingIds - {it.frame.id.value}; }
    }

    /** The end of one delivery. `aborted` is the captured signal's state. */
    method Finish(it: Item, applied: bool, aborted: bool)
      requires Valid() && !drain.Waiting? && aborted == Aborted(View(), it)
      modifies this, queue, channel
      ensures Valid() && Model() == Stream.Finish(old(Model()), it, applied)
      ensures deliveryCanceller == old(deliveryCanceller)
    {
      if it.generation == generation {
        Forget(it);
        if applied && !aborted {
          AcknowledgeFrame(it);
          history := history.(done := history.done + 1);
        }
      }
      Pull();
    }

    /** The sink loop from sink `k`, under the signal captured when the delivery began. */
    method FromSink(it: Item, k: nat, captured: AbortController)
      requires Valid() && !drain.Waiting? && it.generation <= generation
      requires captured.aborted == Aborted(View(), it)
      requires it.generation == generation ==> captured == deliveryCanceller
      modifies this, queue, channel
      ensures Valid() && Model() == Stream.FromSink(old(Model()), it, k)
      ensures deliveryCanceller == old(deliveryCanceller)
    {
      if k >= config.sinks {
        Finish(it, true, captured.aborted);
      } else if closed || captured.aborted {
        Finish(it, false, captured.aborted);
      } else {
        drain, signal := Delivering(it, k), captured;
        history := history.(calls := history.calls + [Call(k, it)]);
      }
    }

    /** The continuation of `queue.pop`. */
    method Resume()
      requires Valid() && drain.Handed?
      modifies this, queue, channel
      ensures Valid() && Model() == ResumePop(old(Model()), old(drain.item))
    {
      var it := drain.item;
      if it.generation != generation {
        Pull();
      } else if it.event.None? {
        Forget(it);
        AcknowledgeFrame(it);
        history := history.(done := history.done + 1);
        Pull();
      } else {
        FromSink(it, 0, deliveryCanceller);
      }
    }

    /** The continuation of a sink's promise. */
    method SinkResolved()
      requires Valid() && drain.Delivering?
      modifies this, queue, channel
      ensures Valid() && Model() == Stream.SinkResolved(old(Model()), old(drain.item), old(drain.sink))
    {
      var it, k := drain.item, drain.sink;
      history := history.(applied := history.applied + {Applied(k, history.done, it)});
      FromSink(it, k + 1, signal);
    }

    /** The sink's promise rejected, or the abort signal won the race. */
    method SinkRejected(notified: seq<Reentry>)
      requires Valid() && drain.Delivering?
      modifies this, queue, channel, deliveryCanceller
      ensures Valid() && Model() == Stream.SinkRejected(old(Model()), old(drain.item), notified)
    {
      var it := drain.item;
      if !signal.aborted {
        ReportDrop(notified);
      }
      Finish(it, false, closed || it.generation != generation);
    }
  }
}
