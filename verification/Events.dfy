/**
 The in-memory event bus (app/services/events.py): bounded queues, activation on the first read,
 and streams closed by their reader, by the bus for being slow, or at shutdown.
 */
module Events {
  import opened Wrappers

  type Event = int

  /** A queue item: an event, or the end of the stream. */
  type Item = Option<Event>

  // ---------------------------------------------------------------- what a reader gets

  function Values(queue: seq<Item>): seq<Event> {
    if queue == [] then [] else (if queue[0].Some? then [queue[0].value] else []) + Values(queue[1..])
  }

  predicate AllEvents(queue: seq<Item>) {
    forall k :: 0 <= k < |queue| ==> queue[k].Some?
  }

  lemma ValuesStep(first: Item, rest: seq<Item>)
    ensures Values([first] + rest) == (if first.Some? then [first.value] else []) + Values(rest)
    ensures Values([]) == []
  {
    assert ([first] + rest)[1..] == rest;
  }

  lemma {:induction false} ValuesAppend(queue: seq<Item>, e: Event)
    ensures Values(queue + [Some(e)]) == Values(queue) + [e]
  {
    hide *;
    ValuesStep(Some(e), []);
    if queue == [] {
      assert queue + [Some(e)] == [Some(e)] + [];
    } else {
      var first, rest := queue[0], queue[1..];
      assert queue == [first] + rest && queue + [Some(e)] == [first] + (rest + [Some(e)]);
      ValuesStep(first, rest);
      ValuesStep(first, rest + [Some(e)]);
      ValuesAppend(rest, e);
    }
  }

  /** A stream as a value: what was published before it was activated, and what its reader got. */
  datatype Reader = Reader(active: bool, closed: bool, reading: bool, queue: seq<Item>, since: nat,
      received: seq<Event>)

  /**
   Received and queued events together are what was published since the activation, for a stream
   that is active; for a closed one they are a gap-free prefix of it.
   */
  predicate Sound(r: Reader, capacity: nat, log: seq<Event>) {
    && |r.queue| <= capacity && r.since <= |log|
    && (r.active ==> !r.closed && AllEvents(r.queue) && r.received + Values(r.queue) == log[r.since..])
    && (r.closed ==> r.received + Values(r.queue) <= log[r.since..])
    && (!r.active && !r.closed ==> r.queue == [] && r.received == [] && !r.reading)
  }

  lemma SoundNew(capacity: nat, log: seq<Event>)
    ensures Sound(Reader(false, false, false, [], 0, []), capacity, log)
  {
  }

  lemma SoundActivate(r: Reader, capacity: nat, log: seq<Event>)
    requires Sound(r, capacity, log) && !r.closed && !r.active
    ensures Sound(r.(active := true, since := |log|), capacity, log)
  {
    ValuesStep(None, []);
    hide Values;
    assert log[|log|..] == [];
  }

  lemma SoundReading(r: Reader, capacity: nat, log: seq<Event>)
    requires Sound(r, capacity, log) && r.active
    ensures Sound(r.(reading := true), capacity, log)
  {
    hide Values;
  }

  lemma SoundRelease(r: Reader, capacity: nat, log: seq<Event>)
    requires Sound(r, capacity, log)
    ensures Sound(r.(active := false, closed := true), capacity, log)
  {
    ValuesStep(None, []);
    hide Values;
  }

  lemma SoundIdle(r: Reader, capacity: nat, log: seq<Event>)
    requires Sound(r, capacity, log)
    ensures Sound(r.(reading := false), capacity, log)
  {
    hide Values;
  }

  lemma SoundDropped(r: Reader, capacity: nat, log: seq<Event>)
    requires Sound(r, capacity, log) && r.closed && capacity >= 1
    ensures Sound(r.(queue := [None]), capacity, log)
  {
    ValuesStep(None, []);
    hide Values;
    var ended: seq<Item> := [None];
    assert ended == [None] + [];
    assert r.received + [] == r.received;
  }

  /** Taking the first item: the next event in the order of publication, or the end. */
  lemma SoundTake(r: Reader, capacity: nat, log: seq<Event>)
    requires Sound(r, capacity, log) && r.reading && r.queue != []
    ensures r.queue[0].None? ==> r.closed && Sound(r.(queue := r.queue[1..], reading := false), capacity, log)
    ensures r.queue[0].Some? ==>
      && r.since + |r.received| < |log| && r.queue[0].value == log[r.since + |r.received|]
      && Sound(r.(queue := r.queue[1..], reading := false, received := r.received + [r.queue[0].value]), capacity, log)
  {
    var first, rest := r.queue[0], r.queue[1..];
    assert r.queue == [first] + rest;
    ValuesStep(first, rest);
    hide Values;
    if first.Some? {
      assert r.received + ([first.value] + Values(rest)) == r.received + [first.value] + Values(rest);
      assert (r.received + ([first.value] + Values(rest)))[|r.received|] == first.value;
    } else {
      assert [] + Values(rest) == Values(rest);
    }
  }

  lemma SoundDeliver(r: Reader, capacity: nat, log: seq<Event>, e: Event)
    requires Sound(r, capacity, log) && r.active && |r.queue| < capacity
    ensures Sound(r.(queue := r.queue + [Some(e)]), capacity, log + [e])
  {
    ValuesAppend(r.queue, e);
    hide Values;
    assert (log + [e])[r.since..] == log[r.since..] + [e];
    assert r.received + (Values(r.queue) + [e]) == r.received + Values(r.queue) + [e];
  }

  /** A stream that does not get the event must not stay active. */
  lemma SoundMissed(r: Reader, capacity: nat, log: seq<Event>, e: Event)
    requires Sound(r, capacity, log) && !r.active
    ensures Sound(r, capacity, log + [e])
  {
    hide Values;
    assert (log + [e])[r.since..] == log[r.since..] + [e];
  }

  lemma ReceivedIsPrefix(r: Reader, capacity: nat, log: seq<Event>)
    requires Sound(r, capacity, log)
    ensures r.since <= |log| && r.received <= log[r.since..] && |r.queue| <= capacity
  {
    hide Values;
  }

  // ---------------------------------------------------------------- streams and the bus

  class Stream {
    const capacity: nat
    var active: bool
    var closed: bool
    /** A reader waits for, or is about to take, the next item. */
    var reading: bool
    var queue: seq<Item>
    /** Number of events published before the activation, and what the reader got. */
    ghost var since: nat
    ghost var received: seq<Event>

    constructor (capacity: nat)
      ensures this.capacity == capacity && View() == Reader(false, false, false, [], 0, [])
    {
      this.capacity := capacity;
      active, closed, reading, queue, since, received := false, false, false, [], 0, [];
    }

    ghost function View(): Reader
      reads this
    {
      Reader(active, closed, reading, queue, since, received)
    }

    /** `put_nowait`: false where it raises QueueFull. */
    method Deliver(e: Event) returns (done: bool)
      modifies this`queue
      ensures done == (|old(queue)| < capacity)
      ensures View() == if done then old(View()).(queue := old(queue) + [Some(e)]) else old(View())
    {
      done := |queue| < capacity;
      if done {
        queue := queue + [Some(e)];
      }
    }

    /** `_close_queue`: drain, then put the end marker. */
    method CloseQueue()
      modifies this`queue
      ensures View() == old(View()).(queue := [None])
    {
      while queue != []
        decreases |queue|
      {
        queue := queue[1..];
      }
      queue := queue + [None];
    }
  }

  datatype Next = Stop | Waiting

  lemma Smaller<T>(s: set<T>, x: T)
    ensures |s - {x}| <= |s|
    ensures x in s ==> |s - {x}| == |s| - 1
  {
    if x in s {
      assert s == (s - {x}) + {x};
    } else {
      assert s - {x} == s;
    }
  }

  lemma Larger<T>(s: set<T>, x: T)
    ensures |s + {x}| <= |s| + 1
  {
    if x in s {
      assert s + {x} == s;
    }
  }

  /** The two sets of open streams and their limit. */
  predicate Fits(active: set<Stream>, pending: set<Stream>, streams: set<Stream>, max: nat) {
    active <= streams && pending <= streams && active !! pending && |active| + |pending| <= max
  }

  lemma FitsNew(active: set<Stream>, pending: set<Stream>, streams: set<Stream>, max: nat, s: Stream)
    requires Fits(active, pending, streams, max) && |active| + |pending| < max && s !in streams
    ensures Fits(active, pending + {s}, streams + {s}, max)
  {
    Larger(pending, s);
  }

  lemma FitsBegin(active: set<Stream>, pending: set<Stream>, streams: set<Stream>, max: nat, s: Stream)
    requires Fits(active, pending, streams, max) && s in pending
    ensures Fits(active + {s}, pending - {s}, streams, max)
  {
    Smaller(pending, s);
    Larger(active, s);
  }

  lemma FitsInside(active: set<Stream>, pending: set<Stream>, streams: set<Stream>, max: nat, s: Stream)
    requires Fits(active, pending, streams, max)
    ensures s in active || s in pending ==> s in streams
    ensures s in active ==> s !in pending
  {
  }

  lemma FitsLess(active: set<Stream>, pending: set<Stream>, streams: set<Stream>, max: nat, s: Stream)
    requires Fits(active, pending, streams, max)
    ensures Fits(active - {s}, pending - {s}, streams, max)
  {
    Smaller(pending, s);
    Smaller(active, s);
  }

  class EventBus {
    const maxSubscribers: nat
    const queueSize: nat
    var active: set<Stream>
    var pending: set<Stream>
    /** All events ever published and all streams ever handed out. */
    ghost var log: seq<Event>
    ghost var streams: set<Stream>

    /** Active streams are in one set, streams never read in the other, closed ones in neither. */
    ghost predicate Placed(s: Stream)
      reads this, s
    {
      && s.capacity == queueSize && (s in active <==> s.active) && (s in pending <==> !s.active && !s.closed)
      && (s.active ==> !s.closed)
    }

    ghost predicate Valid()
      reads this, streams
    {
      && queueSize >= 1 && Fits(active, pending, streams, maxSubscribers)
      && forall s :: s in streams ==> Placed(s) && Sound(s.View(), queueSize, log)
    }

    constructor (maxSubscribers: nat, queueSize: nat)
      requires maxSubscribers >= 1 && queueSize >= 1
      ensures Valid() && active == {} && pending == {} && log == [] && streams == {}
      ensures this.maxSubscribers == maxSubscribers && this.queueSize == queueSize
    {
      this.maxSubscribers, this.queueSize := maxSubscribers, queueSize;
      active, pending, log, streams := {}, {}, [], {};
    }

    /** `subscribe`: None where the limit is reached. */
    method Subscribe() returns (s: Option<Stream>)
      requires Valid()
      modifies this
      ensures Valid() && log == old(log) && active == old(active)
      ensures s.None? <==> |old(active)| + |old(pending)| >= maxSubscribers
      ensures s.None? ==> pending == old(pending) && streams == old(streams)
      ensures s.Some? ==> fresh(s.value) && pending == old(pending) + {s.value} && streams == old(streams) + {s.value}
    {
      hide Sound, Fits;
      if |active| + |pending| >= maxSubscribers {
        return None;
      }
      var stream := new Stream(queueSize);
      SoundNew(queueSize, log);
      FitsNew(active, pending, streams, maxSubscribers, stream);
      pending := pending + {stream};
      streams := streams + {stream};
      assert Placed(stream);
      forall o | o in old(streams) ensures Placed(o) && Sound(o.View(), queueSize, log) {
        assert old(Placed(o));
      }
      return Some(stream);
    }

    /** `_activate_subscriber`, on the first read. */
    method Activate(s: Stream)
      requires Valid() && s in pending
      modifies this`active, this`pending, s`active, s`since
      ensures Valid()
      ensures s.View() == old(s.View()).(active := true, since := |log|)
      ensures active == old(active) + {s} && pending == old(pending) - {s}
    {
      hide Sound, Fits;
      FitsInside(active, pending, streams, maxSubscribers, s);
      SoundActivate(s.View(), queueSize, log);
      FitsBegin(active, pending, streams, maxSubscribers, s);
      pending, active := pending - {s}, active + {s};
      s.active, s.since := true, |log|;
      assert Placed(s);
      forall o | o in streams && o != s ensures Placed(o) && Sound(o.View(), queueSize, log) {
        assert old(Placed(o));
      }
    }

    /** The first half of `__anext__`: a closed stream stops, a new one is activated. */
    method BeginNext(s: Stream) returns (next: Next)
      requires Valid() && s in streams && !s.reading
      modifies this`active, this`pending, s`active, s`since, s`reading
      ensures Valid()
      ensures next == if old(s.closed) then Stop else Waiting
      ensures s.View() == if next == Stop then old(s.View())
                          else old(s.View()).(active := true, reading := true,
                            since := if old(s.active) then old(s.since) else |log|)
      ensures next == Waiting ==> s in active
      ensures next == Stop ==> active == old(active) && pending == old(pending)
    {
      hide Sound, Fits;
      if s.closed {
        return Stop;
      }
      if !s.active {
        Activate(s);
      }
      SoundReading(s.View(), queueSize, log);
      s.reading := true;
      return Waiting;
    }

    /** `_release`: closes the stream once and frees its slot; true when it was active. */
    method FreeSlot(s: Stream) returns (wasActive: bool)
      requires s.closed ==> s !in active && s !in pending && !s.active
      modifies this`active, this`pending, s`closed, s`active
      ensures wasActive == (!old(s.closed) && old(s.active))
      ensures s.View() == old(s.View()).(active := false, closed := true)
      ensures active == old(active) - {s} && pending == old(pending) - {s}
    {
      if s.closed {
        return false;
      }
      wasActive := s.active;
      s.closed, s.active := true, false;
      pending, active := pending - {s}, active - {s};
    }

    method Release(s: Stream) returns (wasActive: bool)
      requires Valid() && s in streams
      modifies this`active, this`pending, s`closed, s`active
      ensures Valid()
      ensures wasActive == (!old(s.closed) && old(s.active))
      ensures s.View() == old(s.View()).(active := false, closed := true)
      ensures active == old(active) - {s} && pending == old(pending) - {s}
    {
      hide Sound, Fits;
      SoundRelease(s.View(), queueSize, log);
      FitsLess(active, pending, streams, maxSubscribers, s);
      wasActive := FreeSlot(s);
      assert Placed(s);
      forall o | o in streams && o != s ensures Placed(o) && Sound(o.View(), queueSize, log) {
        assert old(Placed(o));
      }
    }

    /** The second half of `__anext__`, once the queue holds an item: None ends the stream. */
    method CompleteNext(s: Stream) returns (item: Item)
      requires Valid() && s in streams && s.reading && s.queue != []
      modifies this`active, this`pending, s
      ensures Valid()
      ensures item == old(s.queue)[0] && s.queue == old(s.queue)[1..] && !s.reading
      ensures item.None? ==> s.closed && s.received == old(s.received)
      ensures item.Some? ==>
        && s.received == old(s.received) + [item.value] && s.since == old(s.since) && s.closed == old(s.closed)
        && s.since + |old(s.received)| < |log| && item.value == log[s.since + |old(s.received)|]
    {
      hide Sound, Fits;
      item := s.queue[0];
      SoundTake(s.View(), queueSize, log);
      s.queue, s.reading := s.queue[1..], false;
      if item.None? {
        var was := Release(s);
        return;
      }
      s.received := s.received + [item.value];
    }

    /** A cancelled read loses nothing. */
    method CancelNext(s: Stream)
      requires Valid() && s in streams
      modifies s`reading
      ensures Valid() && s.View() == old(s.View()).(reading := false)
    {
      hide Sound, Fits;
      SoundIdle(s.View(), queueSize, log);
      s.reading := false;
    }

    /** `aclose`. */
    method Close(s: Stream)
      requires Valid() && s in streams
      modifies this`active, this`pending, s`closed, s`active
      ensures Valid() && s.View() == old(s.View()).(active := false, closed := true)
      ensures active == old(active) - {s} && pending == old(pending) - {s}
    {
      var was := Release(s);
    }

    /** `close_from_bus`. */
    method CloseFromBus(s: Stream)
      requires Valid() && s in streams
      modifies this`active, this`pending, s`closed, s`active, s`queue
      ensures Valid() && s.closed && !s.active
      ensures active == old(active) - {s} && pending == old(pending) - {s}
      ensures s.queue == if old(s.active) then [None] else old(s.queue)
      ensures s.received == old(s.received) && s.since == old(s.since) && s.reading == old(s.reading)
    {
      hide Sound, Fits;
      var was := Release(s);
      if was {
        SoundDropped(s.View(), queueSize, log);
        s.CloseQueue();
      }
    }

    /** The delivery loop of `publish`: streams whose queue is full are collected. */
    method DeliverAll(e: Event) returns (dead: set<Stream>)
      requires Valid()
      modifies active
      ensures dead == set s | s in active && |old(s.queue)| == queueSize
      ensures forall s :: s in active ==>
        s.View() == if s in dead then old(s.View()) else old(s.View()).(queue := old(s.queue) + [Some(e)])
      ensures forall s :: s in streams && s !in dead ==> Sound(s.View(), queueSize, log + [e])
    {
      hide Sound, Fits;
      dead := {};
      var todo := active;
      while todo != {}
        invariant todo <= active && dead == set s | s in active - todo && |old(s.queue)| == queueSize
        invariant forall s :: s in todo ==> s.View() == old(s.View())
        invariant forall s :: s in active - todo ==>
          s.View() == if s in dead then old(s.View()) else old(s.View()).(queue := old(s.queue) + [Some(e)])
        decreases todo
      {
        var s :| s in todo;
        FitsInside(active, pending, streams, maxSubscribers, s);
        ReceivedIsPrefix(s.View(), queueSize, log);
        var done := s.Deliver(e);
        if !done {
          dead := dead + {s};
        }
        todo := todo - {s};
      }
      forall s | s in streams && s !in dead ensures Sound(s.View(), queueSize, log + [e]) {
        if s in active {
          ReceivedIsPrefix(old(s.View()), queueSize, log);
          SoundDeliver(old(s.View()), queueSize, log, e);
        } else {
          SoundMissed(s.View(), queueSize, log, e);
        }
      }
    }

    /** `close_from_bus` for a stream that missed the event just published. */
    method Evict(s: Stream)
      requires s in active && s.active && !s.closed && s !in pending
      modifies this`active, this`pending, s`closed, s`active, s`queue
      ensures s.View() == old(s.View()).(active := false, closed := true, queue := [None])
      ensures active == old(active) - {s} && pending == old(pending)
    {
      var was := FreeSlot(s);
      s.CloseQueue();
    }

    lemma EvictedIsSound(r: Reader, e: Event)
      requires queueSize >= 1 && Sound(r, queueSize, log)
      ensures Sound(r.(active := false, closed := true, queue := [None]), queueSize, log + [e])
    {
      hide Sound;
      SoundRelease(r, queueSize, log);
      SoundDropped(r.(active := false, closed := true), queueSize, log);
      SoundMissed(r.(active := false, closed := true, queue := [None]), queueSize, log, e);
    }

    /** Valid for the event just published, except for the streams in `left`. */
    ghost predicate Mixed(left: set<Stream>, e: Event)
      reads this, streams
    {
      && queueSize >= 1 && left <= active && Fits(active, pending, streams, maxSubscribers)
      && forall s :: s in streams ==> Placed(s) && Sound(s.View(), queueSize, if s in left then log else log + [e])
    }

    method EvictOne(s: Stream, ghost left: set<Stream>, e: Event)
      requires Mixed(left, e) && s in left
      modifies this`active, this`pending, s`closed, s`active, s`queue
      ensures Mixed(left - {s}, e)
      ensures s.View() == old(s.View()).(active := false, closed := true, queue := [None])
      ensures active == old(active) - {s} && pending == old(pending)
    {
      hide Sound, Fits;
      FitsInside(active, pending, streams, maxSubscribers, s);
      FitsLess(active, pending, streams, maxSubscribers, s);
      EvictedIsSound(s.View(), e);
      Evict(s);
      assert old(pending) - {s} == pending;
      assert Placed(s);
      forall o | o in streams && o != s ensures Placed(o)
          && Sound(o.View(), queueSize, if o in left - {s} then log else log + [e]) {
        assert old(Placed(o));
        assert (o in left - {s}) == (o in left);
      }
    }

    /** The second loop of `publish`: the streams that missed the event are closed. */
    method EvictAll(dead: set<Stream>, e: Event)
      requires Mixed(dead, e)
      modifies this`active, this`pending, dead
      ensures active == old(active) - dead && pending == old(pending) && Mixed({}, e)
      ensures forall s :: s in dead ==> s.View() == old(s.View()).(active := false, closed := true, queue := [None])
    {
      hide Mixed;
      var left := dead;
      while left != {}
        invariant left <= dead && active == old(active) - (dead - left) && pending == old(pending)
        invariant Mixed(left, e)
        invariant forall s :: s in left ==> s.View() == old(s.View())
        invariant forall s :: s in dead - left ==>
            s.View() == old(s.View()).(active := false, closed := true, queue := [None])
        decreases left
      {
        var s :| s in left;
        EvictOne(s, left, e);
        left := left - {s};
      }
    }

    /** `publish`: every active stream gets the event, or is closed because its queue is full. */
    method Publish(e: Event)
      requires Valid()
      modifies this`active, this`pending, this`log, active
      ensures Valid() && log == old(log) + [e] && pending == old(pending)
      ensures active == set s | s in old(active) && |old(s.queue)| < queueSize
      ensures forall s :: s in active ==> s.View() == old(s.View()).(queue := old(s.queue) + [Some(e)])
      ensures forall s :: s in old(active) - active ==> s.closed && s.queue == [None] && s.received == old(s.received)
    {
      hide Sound, Fits;
      FullQueues();
      var dead := DeliverAll(e);
      EvictAll(dead, e);
      log := log + [e];
    }

    lemma FullQueues()
      requires Valid()
      ensures forall s :: s in active ==> s in streams && |s.queue| <= queueSize
    {
      forall s | s in active ensures s in streams && |s.queue| <= queueSize {
        FitsInside(active, pending, streams, maxSubscribers, s);
        ReceivedIsPrefix(s.View(), queueSize, log);
      }
    }

    /**
     What every reachable bus guarantees: a reader got a gap-free prefix of what was published since
     its stream was activated, queues and slots stay within their bounds, closed streams hold no slot.
     */
    lemma Guarantees(s: Stream)
      requires Valid() && s in streams
      ensures s.since <= |log| && s.received <= log[s.since..] && |s.queue| <= queueSize
      ensures s.closed ==> s !in active && s !in pending
      ensures active !! pending && |active| + |pending| <= maxSubscribers
    {
      hide Sound;
      ReceivedIsPrefix(s.View(), queueSize, log);
    }

    /** `shutdown`. */
    method Shutdown()
      requires Valid()
      modifies this`active, this`pending, streams
      ensures Valid() && active == {} && pending == {} && forall s :: s in streams ==> s.closed
    {
      hide Sound, Fits;
      while active + pending != {}
        invariant Valid()
        decreases active + pending
      {
        var s :| s in active + pending;
        FitsInside(active, pending, streams, maxSubscribers, s);
        CloseFromBus(s);
      }
    }
  }
}
