/**
 The telemetry ring buffer: a fixed array with a modular head, which must behave
 as "the last `capacity` events". Each method is one mutex-protected body.
 */
module Telemetry {

  datatype Event = Event(kind: string, timestamp: int, data: map<string, string>)

  /** The newest `n` events of `s`, or all of them when there are fewer. */
  function Newest<T>(s: seq<T>, n: nat): (r: seq<T>)
    ensures |r| == if |s| <= n then |s| else n
  {
    if |s| <= n then s else s[|s| - n..]
  }

  lemma WrapsOnce(x: nat, capacity: nat)
    requires capacity <= x < 2 * capacity
    ensures x % capacity == x - capacity
  {
    assert x / capacity == 1;
  }

  /** The slot of the `i`-th buffered event. Since `head + i` is below twice the capacity, it wraps at most once. */
  function Slot(head: nat, i: nat, capacity: nat): (slot: nat)
    requires head < capacity && i <= capacity
    ensures slot == if head + i < capacity then head + i else head + i - capacity
  {
    if capacity <= head + i then WrapsOnce(head + i, capacity); (head + i) % capacity else (head + i) % capacity
  }

  /** The `count` events from `head` on, oldest first. */
  function Ring(b: seq<Event>, head: nat, count: nat): seq<Event>
    requires count <= |b| && (|b| == 0 || head < |b|)
  {
    seq(count, i requires 0 <= i < count => b[Slot(head, i, |b|)])
  }

  lemma PushBelowCapacity(b: seq<Event>, head: nat, count: nat, event: Event)
    requires head < |b| && count < |b|
    ensures Ring(b[Slot(head, count, |b|) := event], head, count + 1) == Newest(Ring(b, head, count) + [event], |b|)
  {
  }

  lemma PushAtCapacity(b: seq<Event>, head: nat, event: Event)
    requires head < |b|
    ensures Ring(b[Slot(head, |b|, |b|) := event], Slot(head, 1, |b|), |b|) == Newest(Ring(b, head, |b|) + [event], |b|)
  {
    var before, next := Ring(b, head, |b|) + [event], Slot(head, 1, |b|);
    var after := Ring(b[head := event], next, |b|);
    forall k | 0 <= k < |b|
      ensures after[k] == before[1..][k]
    {
      assert Slot(next, k, |b|) == if k < |b| - 1 then Slot(head, k + 1, |b|) else head;
    }
    assert after == before[1..];
  }

  class RingBuffer {
    const buf: array<Event>
    var head: nat
    var count: nat

    ghost predicate Valid()
      reads this, buf
    {
      count <= buf.Length && (buf.Length == 0 || head < buf.Length)
    }

    /** The buffered events, oldest first. */
    ghost function Contents(): seq<Event>
      requires Valid()
      reads this, buf
    {
      Ring(buf[..], head, count)
    }

    constructor (capacity: nat)
      ensures Valid() && fresh(buf) && buf.Length == capacity && Contents() == []
    {
      buf := new Event[capacity](_ => Event("", 0, map[]));
      head, count := 0, 0;
    }

    /** With no capacity the slot index is a division by zero, so the caller must supply some. */
    method Push(event: Event)
      requires Valid() && 1 <= buf.Length
      modifies this, buf
      ensures Valid() && Contents() == Newest(old(Contents()) + [event], buf.Length)
    {
      var idx := Slot(head, count, buf.Length);
      buf[idx] := event;
      assert buf[..] == old(buf[..])[idx := event];
      if count == buf.Length {
        PushAtCapacity(old(buf[..]), head, event);
        head := Slot(head, 1, buf.Length);
      } else {
        PushBelowCapacity(old(buf[..]), head, count, event);
        count := count + 1;
      }
    }

    method Drain() returns (events: seq<Event>)
      requires Valid()
      modifies this
      ensures Valid() && events == old(Contents()) && Contents() == []
    {
      events := Snapshot();
      head, count := 0, 0;
    }

    method Snapshot() returns (events: seq<Event>)
      requires Valid()
      ensures events == Contents()
    {
      events := [];
      for i := 0 to count
        invariant events == Contents()[..i]
      {
        events := events + [buf[Slot(head, i, buf.Length)]];
      }
    }

    method Len() returns (n: nat)
      requires Valid()
      ensures n == |Contents()|
    {
      n := count;
    }
  }

  // ---- whole runs ----

  datatype Call = Push(event: Event) | Drain | Snapshot | Len

  /** What the buffer holds after one call: the contracts of the methods above, as a function. */
  function Step(capacity: nat, contents: seq<Event>, call: Call): seq<Event> {
    match call
    case Push(event) => Newest(contents + [event], capacity)
    case Drain => []
    case Snapshot => contents
    case Len => contents
  }

  function Contents(capacity: nat, calls: seq<Call>): seq<Event> {
    if calls == [] then [] else Step(capacity, Contents(capacity, calls[..|calls| - 1]), calls[|calls| - 1])
  }

  /** The events pushed after the last drain of the run. */
  function SinceDrain(calls: seq<Call>): seq<Event> {
    if calls == [] then [] else
    match calls[|calls| - 1]
    case Push(event) => SinceDrain(calls[..|calls| - 1]) + [event]
    case Drain => []
    case _ => SinceDrain(calls[..|calls| - 1])
  }

  function Pushed(calls: seq<Call>): nat {
    if calls == [] then 0 else
    Pushed(calls[..|calls| - 1]) + if calls[|calls| - 1].Push? then 1 else 0
  }

  function Drained(capacity: nat, calls: seq<Call>): nat {
    if calls == [] then 0 else
    var before := calls[..|calls| - 1];
    Drained(capacity, before) + if calls[|calls| - 1].Drain? then |Contents(capacity, before)| else 0
  }

  /** A push overwrites one event exactly when it finds the buffer full. */
  function Dropped(capacity: nat, calls: seq<Call>): nat {
    if calls == [] then 0 else
    var before := calls[..|calls| - 1];
    Dropped(capacity, before) +
    if calls[|calls| - 1].Push? && |Contents(capacity, before)| == capacity then 1 else 0
  }

  /** Over any run the buffer is exactly the newest events since the last drain, and no event is unaccounted for. */
  lemma {:induction false} BufferRefinesNewest(capacity: nat, calls: seq<Call>)
    requires 1 <= capacity
    ensures Contents(capacity, calls) == Newest(SinceDrain(calls), capacity)
    ensures Pushed(calls) == Drained(capacity, calls) + Dropped(capacity, calls) + |Contents(capacity, calls)|
  {
    if calls != [] {
      var before := calls[..|calls| - 1];
      BufferRefinesNewest(capacity, before);
      match calls[|calls| - 1] {
        case Push(event) => NewestAppend(SinceDrain(before), event, capacity);
        case _ =>
      }
    }
  }

  /** The events the drains of a run hand out, oldest first. */
  function DrainedEvents(capacity: nat, calls: seq<Call>): seq<Event> {
    if calls == [] then [] else
    var before := calls[..|calls| - 1];
    DrainedEvents(capacity, before) + if calls[|calls| - 1].Drain? then Contents(capacity, before) else []
  }

  /**
   Any run of calls on a real buffer: it ends with the newest events since the last drain, and its drains hand out
   exactly those before.
   */
  method RunCalls(capacity: nat, calls: seq<Call>) returns (buffer: RingBuffer, drained: seq<Event>)
    requires 1 <= capacity
    ensures fresh(buffer) && buffer.Valid() && buffer.buf.Length == capacity
    ensures buffer.Contents() == Newest(SinceDrain(calls), capacity)
    ensures drained == DrainedEvents(capacity, calls)
    ensures Pushed(calls) == |drained| + Dropped(capacity, calls) + |buffer.Contents()|
  {
    buffer := new RingBuffer(capacity);
    drained := [];
    for i := 0 to |calls|
      invariant fresh(buffer) && fresh(buffer.buf) && buffer.Valid() && buffer.buf.Length == capacity
      invariant buffer.Contents() == Contents(capacity, calls[..i])
      invariant drained == DrainedEvents(capacity, calls[..i]) && |drained| == Drained(capacity, calls[..i])
    {
      assert calls[..i + 1][..i] == calls[..i];
      match calls[i] {
        case Push(event) => buffer.Push(event);
        case Drain =>
          var events := buffer.Drain();
          drained := drained + events;
        case Snapshot =>
          var events := buffer.Snapshot();
        case Len =>
          var n := buffer.Len();
      }
    }
    assert calls[..|calls|] == calls;
    BufferRefinesNewest(capacity, calls);
  }

  lemma NewestAppend<T>(s: seq<T>, x: T, n: nat)
    requires 1 <= n
    ensures Newest(Newest(s, n) + [x], n) == Newest(s + [x], n)
  {
    if n < |s| {
      assert Newest(s, n) + [x] == (s + [x])[|s| - n..];
      assert Newest(Newest(s, n) + [x], n) == (s + [x])[|s| - n..][1..];
    }
  }
}
