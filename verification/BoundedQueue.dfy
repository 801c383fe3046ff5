/** `std/resilience/bounded-queue.ts`: a FIFO buffer with a moving head and a bounded line of waiting consumers. */
module BoundedQueue {
  import opened Outcomes
  import opened Stream

  /**
   What became of a pushed item. `HandedOver` names the waiter that got it; `Evicted` and `Refused` name
   the item `onDrop` then hears.
   */
  datatype Pushed<+T> = QueueClosed | QueueFull | HandedOver(waiter: nat) | Buffered | Refused(item: T) | Evicted(item: T)

  /** What a `pop` does at once: return the head, register as a waiter, or reject. */
  datatype Popped<+T> = Head(item: T) | Waits(waiter: nat) | Rejected

  /** The compaction test: the dead prefix is long and dominates the buffer. */
  const COMPACT_ABOVE: nat := 32

  class BoundedQueue<T> {
    const capacity: nat
    const overflow: Overflow
    const maxWaiters: nat
    var buffer: seq<Option<T>>
    var head: nat
    var waiters: seq<nat>
    var nextWaiter: nat
    var closed: bool

    ghost predicate Valid()
      reads this
    {
      && capacity >= 1 && maxWaiters >= 1
      && head <= |buffer| <= head + capacity
      && (forall i :: head <= i < |buffer| ==> buffer[i].Some?)
      && (waiters != [] ==> head == |buffer| && !closed)
      && |waiters| <= maxWaiters
      && (forall i, j :: 0 <= i < j < |waiters| ==> waiters[i] < waiters[j])
      && (forall i :: 0 <= i < |waiters| ==> waiters[i] < nextWaiter)
    }

    /** The buffered items, oldest first: what the moving head represents. */
    ghost function Contents(): seq<T>
      reads this
      requires Valid()
    {
      seq(|buffer| - head, i requires 0 <= i < |buffer| - head reads this requires Valid() => buffer[head + i].value)
    }

    constructor (capacity: nat, overflow: Overflow, maxWaiters: nat)
      requires capacity >= 1 && maxWaiters >= 1
      ensures Valid() && Contents() == [] && waiters == [] && !closed
      ensures this.capacity == capacity && this.overflow == overflow && this.maxWaiters == maxWaiters
    {
      this.capacity, this.overflow, this.maxWaiters := capacity, overflow, maxWaiters;
      buffer, head, waiters, nextWaiter, closed := [], 0, [], 0, false;
    }

    method TakeHead() returns (value: T)
      requires Valid() && Contents() != []
      modifies this`buffer, this`head
      ensures Valid()
      ensures value == old(Contents())[0] && Contents() == old(Contents())[1..]
    {
      value := buffer[head].value;
      buffer := buffer[head := None];
      head := head + 1;
      if head > COMPACT_ABOVE && head * 2 >= |buffer| {
        buffer, head := buffer[head..], 0;
      }
    }

    method Push(item: T) returns (outcome: Pushed<T>)
      requires Valid()
      modifies this`buffer, this`head, this`waiters
      ensures Valid()
      ensures closed ==> outcome == QueueClosed && Contents() == old(Contents()) && waiters == old(waiters)
      ensures !closed && old(waiters) != [] ==>
                outcome == HandedOver(old(waiters)[0]) && Contents() == old(Contents()) && waiters == old(waiters)[1..]
      ensures !closed && old(waiters) == [] ==>
                && waiters == []
                && if |old(Contents())| < capacity then
                     outcome == Buffered && Contents() == old(Contents()) + [item]
                   else
                     match overflow
                     case Reject => outcome == QueueFull && Contents() == old(Contents())
                     case DropNew => outcome == Refused(item) && Contents() == old(Contents())
                     case DropOldest =>
                       outcome == Evicted(old(Contents())[0]) && Contents() == old(Contents())[1..] + [item]
    {
      if closed { return QueueClosed; }
      if waiters != [] {
        var waiter := waiters[0];
        waiters := waiters[1..];
        return HandedOver(waiter);
      }
      if |buffer| - head >= capacity {
        if overflow == Reject { return QueueFull; }
        if overflow == DropNew { return Refused(item); }
        var evicted := TakeHead();
        buffer := buffer + [Some(item)];
        return Evicted(evicted);
      }
      buffer := buffer + [Some(item)];
      outcome := Buffered;
    }

    method TryPop() returns (item: Option<T>)
      requires Valid()
      modifies this`buffer, this`head
      ensures Valid()
      ensures if old(Contents()) == [] then item == None && Contents() == []
              else item == Some(old(Contents())[0]) && Contents() == old(Contents())[1..]
    {
      if |buffer| - head == 0 { return None; }
      var value := TakeHead();
      item := Some(value);
    }

    method Pop(aborted: bool) returns (outcome: Popped<T>)
      requires Valid()
      modifies this`buffer, this`head, this`waiters, this`nextWaiter
      ensures Valid()
      ensures old(Contents()) != [] ==>
                outcome == Head(old(Contents())[0]) && Contents() == old(Contents())[1..] && waiters == old(waiters)
      ensures old(Contents()) == [] ==>
                && Contents() == []
                && if closed || aborted || |old(waiters)| == maxWaiters then outcome == Rejected && waiters == old(waiters)
                   else outcome.Waits? && outcome.waiter !in old(waiters) && waiters == old(waiters) + [outcome.waiter]
    {
      if |buffer| - head > 0 {
        var value := TakeHead();
        return Head(value);
      }
      if closed || aborted || |waiters| >= maxWaiters { return Rejected; }
      outcome := Waits(nextWaiter);
      waiters := waiters + [nextWaiter];
      nextWaiter := nextWaiter + 1;
    }

    /** The abort of a waiter's signal: it leaves the line, if it still stands in it, and rejects. */
    method Cancel(waiter: nat) returns (rejected: bool)
      requires Valid()
      modifies this`waiters
      ensures Valid() && Contents() == old(Contents())
      ensures rejected <==> waiter in old(waiters)
      ensures if rejected
              then exists k :: 0 <= k < |old(waiters)| && old(waiters)[k] == waiter
                               && waiters == old(waiters)[..k] + old(waiters)[k + 1..]
              else waiters == old(waiters)
    {
      var k := 0;
      while k < |waiters|
        invariant k <= |waiters| && waiter !in waiters[..k]
      {
        if waiters[k] == waiter {
          waiters := waiters[..k] + waiters[k + 1..];
          return true;
        }
        k := k + 1;
      }
      assert waiters[..k] == waiters;
      rejected := false;
    }

    /** Every waiter rejects; what is buffered can still be popped. */
    method Close()
      requires Valid()
      modifies this`waiters, this`closed
      ensures Valid() && closed && waiters == [] && Contents() == old(Contents())
    {
      closed, waiters := true, [];
    }
  }
}
