/**
 A bounded queue whose producers never wait, and the sender that empties it: the code run by
 itself. Interleaving is about producers and sender together.
 */
module Pipelining {
  import opened Models
  import opened Totals
  import Paging

  /** What the queue holds: events, and the sentinel that stops the sender. */
  datatype Entry = Ev(event: Event) | Stop

  function EventsOf(entries: seq<Entry>): seq<Event> {
    if entries == [] then []
    else EventsOf(entries[..|entries| - 1])
         + (if entries[|entries| - 1].Ev? then [entries[|entries| - 1].event] else [])
  }

  lemma {:induction false} EventsOfConcat(a: seq<Entry>, b: seq<Entry>)
    ensures EventsOf(a + b) == EventsOf(a) + EventsOf(b)
  {
    if b == [] {
      assert a + b == a;
    } else {
      assert (a + b)[..|a + b| - 1] == a + b[..|b| - 1];
      EventsOfConcat(a, b[..|b| - 1]);
    }
  }

  lemma EventsOfPush(a: seq<Entry>, x: Entry)
    ensures EventsOf(a + [x]) == EventsOf(a) + if x.Ev? then [x.event] else []
  {
    assert (a + [x])[..|a|] == a;
  }

  // ----- the sender's batches ------------------------------------------------------

  /** The batches the sender takes from a queue nobody else touches, up to and with the sentinel's. */
  function Batches(queue: seq<Entry>, batchSize: nat): seq<seq<Entry>>
    requires batchSize >= 1 && Stop in queue
    decreases |queue|
  {
    var taken := Paging.Take(queue, batchSize);
    if Stop in taken then [taken]
    else
      assert queue == taken + queue[|taken|..];
      [taken] + Batches(queue[|taken|..], batchSize)
  }

  function Flat(batches: seq<seq<Entry>>): seq<Entry> {
    if batches == [] then [] else batches[0] + Flat(batches[1..])
  }

  /** How much of the queue the sender takes before it stops: whole batches, through the sentinel's. */
  function Reach(queue: seq<Entry>, batchSize: nat): (n: nat)
    requires batchSize >= 1 && Stop in queue
    ensures n <= |queue| && Stop in queue[..n]
    decreases |queue|
  {
    var taken := Paging.Take(queue, batchSize);
    if Stop in taken then |taken|
    else
      assert queue == taken + queue[|taken|..];
      var more := Reach(queue[|taken|..], batchSize);
      assert queue[..|taken| + more] == taken + queue[|taken|..][..more];
      |taken| + more
  }

  /**
   The batches are consecutive pieces of the queue, none longer than a batch may be, and the
   sentinel is in the last one and in no other.
   */
  lemma {:induction false} BatchesCoverQueue(queue: seq<Entry>, batchSize: nat)
    requires batchSize >= 1 && Stop in queue
    ensures var batches := Batches(queue, batchSize);
            && Flat(batches) == queue[..Reach(queue, batchSize)]
            && batches != [] && Stop in batches[|batches| - 1]
            && (forall i :: 0 <= i < |batches| ==> 1 <= |batches[i]| <= batchSize)
            && (forall i :: 0 <= i < |batches| - 1 ==> |batches[i]| == batchSize && Stop !in batches[i])
    decreases |queue|
  {
    hide Batches, Reach;
    var taken := Paging.Take(queue, batchSize);
    NextBatches(queue, batchSize);
    NextReach(queue, batchSize);
    if Stop in taken {
      assert [taken][1..] == [];
    } else {
      var rest := queue[|taken|..];
      assert |queue| > batchSize == |taken|;
      BatchesCoverQueue(rest, batchSize);
      var batches := Batches(rest, batchSize);
      assert ([taken] + batches)[1..] == batches;
      assert queue[..|taken| + Reach(rest, batchSize)] == taken + rest[..Reach(rest, batchSize)];
    }
  }

  lemma NextBatches(queue: seq<Entry>, batchSize: nat)
    requires batchSize >= 1 && Stop in queue
    ensures var taken := Paging.Take(queue, batchSize);
            if Stop in taken then Batches(queue, batchSize) == [taken]
            else && |taken| <= |queue| && Stop in queue[|taken|..]
                 && Batches(queue, batchSize) == [taken] + Batches(queue[|taken|..], batchSize)
  {
    assert queue == Paging.Take(queue, batchSize) + queue[|Paging.Take(queue, batchSize)|..];
  }

  lemma NextReach(queue: seq<Entry>, batchSize: nat)
    requires batchSize >= 1 && Stop in queue
    ensures var taken := Paging.Take(queue, batchSize);
            && |taken| <= |queue|
            && (Stop in taken ==> Reach(queue, batchSize) == |taken|)
            && (Stop !in taken ==> Stop in queue[|taken|..]
                                   && Reach(queue, batchSize) == |taken| + Reach(queue[|taken|..], batchSize))
  {
    assert queue == Paging.Take(queue, batchSize) + queue[|Paging.Take(queue, batchSize)|..];
  }

  /** With the sentinel at place `i`, the sender takes the whole of the batch that `i` falls in. */
  lemma {:induction false} ReachIs(queue: seq<Entry>, batchSize: nat, i: nat)
    requires batchSize >= 1 && i < |queue| && queue[i] == Stop && Stop !in queue[..i]
    ensures Reach(queue, batchSize) ==
              if (i / batchSize + 1) * batchSize <= |queue| then (i / batchSize + 1) * batchSize else |queue|
    decreases |queue|
  {
    hide Reach;
    assert Stop in queue;
    NextReach(queue, batchSize);
    var taken := Paging.Take(queue, batchSize);
    if i < |taken| {
      assert taken[i] == Stop;
      SmallQuotient(i, batchSize);
    } else {
      assert forall x :: x in taken ==> x in queue[..i];
      var rest := queue[batchSize..];
      assert rest[i - batchSize] == Stop;
      assert forall x :: x in rest[..i - batchSize] ==> x in queue[..i] by {
        assert queue[..i] == taken + rest[..i - batchSize];
      }
      ReachIs(rest, batchSize, i - batchSize);
      NextQuotient(i, batchSize);
    }
  }

  lemma SmallQuotient(i: nat, b: nat)
    requires i < b
    ensures i / b == 0
  {
  }

  lemma NextQuotient(i: nat, b: nat)
    requires i >= b >= 1
    ensures (i / b + 1) * b == ((i - b) / b + 1) * b + b
  {
    var q, r := (i - b) / b, (i - b) % b;
    OneMoreTimes(q, b);
    OneMoreTimes(q + 1, b);
    QuotientIs(i, b, q + 1, r);
  }

  lemma OneMoreTimes(q: int, b: int)
    ensures b * (q + 1) == b * q + b && (q + 1) * b == q * b + b
  {
  }

  lemma QuotientIs(n: nat, b: nat, q: nat, r: nat)
    requires b >= 1 && n == b * q + r && r < b
    ensures n / b == q
  {
    var d := n / b - q;
    assert b * d == b * (n / b) - b * q == r - n % b;
    ProductFarFromZero(b, d);
  }

  lemma ProductFarFromZero(b: nat, d: int)
    ensures d >= 1 ==> b * d >= b
    ensures d <= -1 ==> b * d <= 0 - b
  {
  }

  function Queued(events: seq<Event>): seq<Entry> {
    seq(|events|, i requires 0 <= i < |events| => Ev(events[i]))
  }

  lemma {:induction false} EventsOfEntries(events: seq<Event>)
    ensures EventsOf(Queued(events)) == events
    ensures EventsOf(Queued(events) + [Stop]) == events
    ensures Stop !in Queued(events)
  {
    EventsOfPush(Queued(events), Stop);
    if events != [] {
      var front, last := events[..|events| - 1], events[|events| - 1];
      EventsOfEntries(front);
      assert Queued(events) == Queued(front) + [Ev(last)];
      EventsOfPush(Queued(front), Ev(last));
    }
  }

  /** A sentinel with nothing behind it means everything queued is taken. */
  lemma NothingLeftBehind(queue: seq<Entry>, batchSize: nat)
    requires batchSize >= 1 && queue != [] && queue[|queue| - 1] == Stop && Stop !in queue[..|queue| - 1]
    ensures Reach(queue, batchSize) == |queue|
    ensures EventsOf(Flat(Batches(queue, batchSize))) == EventsOf(queue)
  {
    var n := Reach(queue, batchSize);
    BatchesCoverQueue(queue, batchSize);
    assert forall m :: 0 <= m <= |queue| - 1 ==> forall x :: x in queue[..m] ==> x in queue[..|queue| - 1];
    assert queue[..|queue|] == queue;
  }

  // ----- delivering --------------------------------------------------------------------

  /** One attempt to publish a batch. */
  datatype Call = Call(publisher: nat, batch: seq<Event>)

  /** A batch goes to every publisher, in their order, unless it is empty. */
  function CallsFor(batch: seq<Event>, publishers: nat): (calls: seq<Call>)
    ensures batch != [] ==> |calls| == publishers
  {
    if batch == [] then [] else seq(publishers, p requires 0 <= p < publishers => Call(p, batch))
  }

  function CallsForAll(batches: seq<seq<Entry>>, publishers: nat): seq<Call> {
    if batches == [] then [] else CallsFor(EventsOf(batches[0]), publishers) + CallsForAll(batches[1..], publishers)
  }

  /** Everything one publisher was handed, in order. */
  function HandedTo(calls: seq<Call>, publisher: nat): seq<Event> {
    if calls == [] then []
    else (if calls[0].publisher == publisher then calls[0].batch else []) + HandedTo(calls[1..], publisher)
  }

  lemma {:induction false} HandedToConcat(a: seq<Call>, b: seq<Call>, publisher: nat)
    ensures HandedTo(a + b, publisher) == HandedTo(a, publisher) + HandedTo(b, publisher)
  {
    if a == [] {
      assert a + b == b;
    } else {
      assert (a + b)[1..] == a[1..] + b;
      HandedToConcat(a[1..], b, publisher);
    }
  }

  lemma {:induction false} HandedOnce(calls: seq<Call>, batch: seq<Event>, first: nat, publisher: nat)
    requires forall i :: 0 <= i < |calls| ==> calls[i] == Call(first + i, batch)
    ensures HandedTo(calls, publisher) == if first <= publisher < first + |calls| then batch else []
    decreases |calls|
  {
    if calls != [] {
      HandedOnce(calls[1..], batch, first + 1, publisher);
    }
  }

  /** Each publisher is handed exactly what was taken, once, in the order it was queued. */
  lemma {:induction false} EveryPublisherGetsAll(batches: seq<seq<Entry>>, publishers: nat, publisher: nat)
    requires publisher < publishers
    ensures HandedTo(CallsForAll(batches, publishers), publisher) == EventsOf(Flat(batches))
  {
    if batches != [] {
      var first := EventsOf(batches[0]);
      EveryPublisherGetsAll(batches[1..], publishers, publisher);
      EventsOfConcat(batches[0], Flat(batches[1..]));
      HandedToConcat(CallsFor(first, publishers), CallsForAll(batches[1..], publishers), publisher);
      HandedOnce(CallsFor(first, publishers), first, 0, publisher);
    }
  }

  /** What the counters make of a list of attempts, some of which raise. */
  function Delivered(calls: seq<Call>, from: nat, raises: nat -> bool): nat {
    if calls == [] then 0
    else (if raises(from) then 0 else |calls[0].batch|) + Delivered(calls[1..], from + 1, raises)
  }

  function Errors(calls: seq<Call>, from: nat, raises: nat -> bool): nat {
    if calls == [] then 0 else (if raises(from) then 1 else 0) + Errors(calls[1..], from + 1, raises)
  }

  lemma {:induction false} CountsConcat(a: seq<Call>, b: seq<Call>, from: nat, raises: nat -> bool)
    ensures Delivered(a + b, from, raises) == Delivered(a, from, raises) + Delivered(b, from + |a|, raises)
    ensures Errors(a + b, from, raises) == Errors(a, from, raises) + Errors(b, from + |a|, raises)
    decreases |a|
  {
    if a == [] {
      assert a + b == b;
    } else {
      assert (a + b)[1..] == a[1..] + b;
      CountsConcat(a[1..], b, from + 1, raises);
    }
  }

  /** The attempts that raised, by their places in the whole list; the first of these calls is at `from`. */
  function Raised(calls: seq<Call>, from: nat, raises: nat -> bool): set<nat> {
    set i: nat | from <= i < from + |calls| && raises(i)
  }

  /** Every event of every attempt that did not raise, by its place in its batch. */
  function Arrivals(calls: seq<Call>, from: nat, raises: nat -> bool): set<(nat, nat)> {
    set i: nat, j: nat | from <= i < from + |calls| && !raises(i) && j < |calls[i - from].batch| :: (i, j)
  }

  /** The counter of errors is the number of attempts that raised. */
  lemma {:induction false} ErrorsAreRaised(calls: seq<Call>, from: nat, raises: nat -> bool)
    ensures Errors(calls, from, raises) == |Raised(calls, from, raises)|
    decreases |calls|
  {
    if calls == [] {
      assert Raised(calls, from, raises) == {};
    } else {
      ErrorsAreRaised(calls[1..], from + 1, raises);
      assert Raised(calls, from, raises)
          == (if raises(from) then {from} else {}) + Raised(calls[1..], from + 1, raises);
    }
  }

  /** The counter of deliveries is the number of events handed over in attempts that did not raise. */
  lemma {:induction false} DeliveredAreArrivals(calls: seq<Call>, from: nat, raises: nat -> bool)
    ensures Delivered(calls, from, raises) == |Arrivals(calls, from, raises)|
    decreases |calls|
  {
    hide Places;
    if calls == [] {
      assert Arrivals(calls, from, raises) == {};
    } else {
      hide Arrivals;
      DeliveredAreArrivals(calls[1..], from + 1, raises);
      PlacesSize(from, |calls[0].batch|);
      ArrivalsStep(calls, from, raises);
    }
  }

  lemma ArrivalsStep(calls: seq<Call>, from: nat, raises: nat -> bool)
    requires calls != []
    ensures var here := if raises(from) then {} else Places(from, |calls[0].batch|);
            var rest := Arrivals(calls[1..], from + 1, raises);
            Arrivals(calls, from, raises) == here + rest && here !! rest
  {
    var here := if raises(from) then {} else Places(from, |calls[0].batch|);
    var all, rest := Arrivals(calls, from, raises), Arrivals(calls[1..], from + 1, raises);
    forall x | x in all ensures x in here + rest {
      var i, j := x.0, x.1;
      if i > from { assert calls[1..][i - (from + 1)] == calls[i - from]; }
    }
    forall x | x in here + rest ensures x in all {
      if x in rest { assert calls[1..][x.0 - (from + 1)] == calls[x.0 - from]; }
    }
  }

  lemma NothingCounted(from: nat, raises: nat -> bool)
    ensures Delivered([], from, raises) == 0 && Errors([], from, raises) == 0
  {
  }

  // ----- submitting ------------------------------------------------------------------------

  /** What others do to the queue keeps it within its bound, as its own operations do. */
  ghost predicate Bounded(others: seq<Entry> -> seq<Entry>, max: int) {
    forall q :: |q| <= max ==> |others(q)| <= max
  }

  function Shortened(queue: seq<Entry>): seq<Entry> {
    if queue == [] then [] else queue[1..]
  }

  ghost predicate Undisturbed(queue: seq<Entry>, before: seq<Entry> -> seq<Entry>, between: seq<Entry> -> seq<Entry>) {
    before(queue) == queue && between(Shortened(queue)) == Shortened(queue)
  }

  /** The queue after one more event that nobody disturbed. */
  function Pushed(queue: seq<Entry>, max: int, event: Event): seq<Entry> {
    (if |queue| < max then queue else Shortened(queue)) + [Ev(event)]
  }

  function PushedAll(queue: seq<Entry>, max: int, events: seq<Event>): seq<Entry>
    decreases |events|
  {
    if events == [] then queue else PushedAll(Pushed(queue, max, events[0]), max, events[1..])
  }

  /**
   With nothing else touching the queue, the sentinel outlives the events submitted after it exactly
   when the free places and the entries ahead of it are enough for them. Beside a running sender the
   entries ahead protect nothing: see SentinelLoss.
   */
  lemma {:induction false} SentinelSurvives(queue: seq<Entry>, max: int, at: nat, events: seq<Event>)
    requires max >= 1 && |queue| <= max && at < |queue| && queue[at] == Stop
    requires forall i :: 0 <= i < |queue| && i != at ==> queue[i].Ev?
    ensures Stop in PushedAll(queue, max, events) <==> |queue| + |events| <= max + at
    decreases |events|
  {
    if events == [] {
      assert queue[at] in queue;
    } else {
      var next := Pushed(queue, max, events[0]);
      if |queue| < max {
        SentinelSurvives(next, max, at, events[1..]);
      } else if at > 0 {
        SentinelSurvives(next, max, at - 1, events[1..]);
      } else {
        NoSentinelAppears(next, max, events[1..]);
      }
    }
  }

  lemma {:induction false} NoSentinelAppears(queue: seq<Entry>, max: int, events: seq<Event>)
    requires Stop !in queue
    ensures Stop !in PushedAll(queue, max, events)
    decreases |events|
  {
    if events != [] { NoSentinelAppears(Pushed(queue, max, events[0]), max, events[1..]); }
  }

  // ----- the code by itself --------------------------------------------------------------

  class EventPipeline {
    const maxQueue: int
    const batchSize: int
    const publishers: nat
    /** Whether the n-th attempt to publish raises. */
    const raises: nat -> bool
    var queue: seq<Entry>
    var submitted: nat
    var delivered: nat
    var dropped: nat
    var errors: nat
    /** Every attempt to publish so far, as the publishers saw them. */
    var calls: seq<Call>

    ghost predicate Valid()
      reads this
    {
      maxQueue >= 1 && batchSize >= 1 && |queue| <= maxQueue
    }

    constructor (maxQueue: int, batchSize: int, publishers: nat, raises: nat -> bool)
      requires maxQueue >= 1 && batchSize >= 1
      ensures Valid() && queue == [] && calls == []
      ensures this.maxQueue == maxQueue && this.batchSize == batchSize && this.publishers == publishers
      ensures submitted == 0 && delivered == 0 && dropped == 0 && errors == 0
    {
      this.maxQueue, this.batchSize, this.publishers, this.raises := maxQueue, batchSize, publishers, raises;
      queue, submitted, delivered, dropped, errors := [], 0, 0, 0, 0;
      calls := [];
    }

    /**
     Queue an event, at the cost of the oldest entry when the queue is full. Never blocks. Other
     threads may change the queue between its own operations on it: `before` says what they make of
     the queue that was found full, `between` what they make of the one an entry was taken from.
     */
    method Submit(event: Event, before: seq<Entry> -> seq<Entry>, between: seq<Entry> -> seq<Entry>)
      returns (queued: bool)
      requires Valid() && Bounded(before, maxQueue) && Bounded(between, maxQueue)
      modifies this`queue, this`submitted, this`dropped
      ensures Valid() && submitted == old(submitted) + 1
      ensures |old(queue)| < maxQueue ==>
                queued && queue == old(queue) + [Ev(event)] && dropped == old(dropped)
      ensures |old(queue)| == maxQueue ==>
                var found := between(Shortened(before(old(queue))));
                && (queued <==> |found| < maxQueue)
                && queue == (if queued then found + [Ev(event)] else found)
                && dropped == old(dropped) + if queued then 1 else 2
      ensures Undisturbed(old(queue), before, between) ==>
                queued && queue == Pushed(old(queue), maxQueue, event)
    {
      submitted := submitted + 1;
      if |queue| < maxQueue {
        queue := queue + [Ev(event)];
        return true;
      }
      queue := before(queue);
      queued := MakeRoomFor(event, between);
    }

    /** Discard the oldest entry, if there is one, to fit the event in; say whether it went in. */
    method MakeRoomFor(event: Event, between: seq<Entry> -> seq<Entry>) returns (queued: bool)
      requires Valid() && Bounded(between, maxQueue)
      modifies this`queue, this`dropped
      ensures Valid()
      ensures var found := between(Shortened(old(queue)));
              && (queued <==> |found| < maxQueue)
              && queue == (if queued then found + [Ev(event)] else found)
              && dropped == old(dropped) + if queued then 1 else 2
    {
      if queue != [] {
        queue := queue[1..];
      }
      dropped := dropped + 1;
      queue := between(queue);
      if |queue| >= maxQueue {
        dropped := dropped + 1;
        return false;
      }
      queue := queue + [Ev(event)];
      queued := true;
    }

    /** The front of the queue, no longer than a batch, comes off it. */
    method TakeBatch() returns (taken: seq<Entry>)
      requires Valid() && queue != []
      modifies this`queue
      ensures Valid() && taken == Paging.Take(old(queue), batchSize) && taken != [] && old(queue) == taken + queue
    {
      taken := [queue[0]];
      queue := queue[1..];
      while |taken| < batchSize && queue != []
        invariant 1 <= |taken| <= batchSize
        invariant old(queue) == taken + queue && |queue| <= maxQueue
        decreases |queue|
      {
        taken := taken + [queue[0]];
        queue := queue[1..];
      }
    }

    /** Hand a batch to every publisher, whichever of them raise. */
    method Deliver(batch: seq<Event>)
      modifies this`delivered, this`errors, this`calls
      ensures calls == old(calls) + CallsFor(batch, publishers)
      ensures delivered == old(delivered) + Delivered(CallsFor(batch, publishers), |old(calls)|, raises)
      ensures errors == old(errors) + Errors(CallsFor(batch, publishers), |old(calls)|, raises)
      ensures |calls| == |old(calls)| + (if batch == [] then 0 else publishers)
      ensures forall i :: |old(calls)| <= i < |calls| ==> calls[i] == Call(i - |old(calls)|, batch)
      ensures errors == old(errors) + |Raised(calls[|old(calls)|..], |old(calls)|, raises)|
      ensures delivered == old(delivered) + |Arrivals(calls[|old(calls)|..], |old(calls)|, raises)|
    {
      ErrorsAreRaised(CallsFor(batch, publishers), |calls|, raises);
      DeliveredAreArrivals(CallsFor(batch, publishers), |calls|, raises);
      hide Raised, Arrivals;
      if batch == [] { return; }
      ghost var all := CallsFor(batch, publishers);
      var p := 0;
      while p < publishers
        invariant 0 <= p <= publishers
        invariant calls == old(calls) + all[..p]
        invariant delivered == old(delivered) + Delivered(all[..p], |old(calls)|, raises)
        invariant errors == old(errors) + Errors(all[..p], |old(calls)|, raises)
      {
        assert all[..p + 1] == all[..p] + [all[p]];
        CountsConcat(all[..p], [all[p]], |old(calls)|, raises);
        assert [all[p]][1..] == [];
        var attempt := |calls|;
        calls := calls + [Call(p, batch)];
        if raises(attempt) {
          errors := errors + 1;
        } else {
          delivered := delivered + |batch|;
        }
        p := p + 1;
      }
      assert all[..publishers] == all;
    }

    /** The sender, until it meets the sentinel. Nobody else touches the queue meanwhile. */
    method Run()
      requires Valid() && Stop in queue
      modifies this`queue, this`delivered, this`errors, this`calls
      ensures Valid() && queue == old(queue)[Reach(old(queue), batchSize)..]
      ensures var added := CallsForAll(Batches(old(queue), batchSize), publishers);
              && calls == old(calls) + added
              && delivered == old(delivered) + Delivered(added, |old(calls)|, raises)
              && errors == old(errors) + Errors(added, |old(calls)|, raises)
    {
      hide PartWay, Batches, CallsForAll, CallsFor, Delivered, Errors, EventsOf;
      ghost var start := queue;
      ghost var done: seq<Call> := [];
      ghost var reached: nat := 0;
      NothingCounted(|calls|, raises);
      StartingOut(queue, batchSize, publishers);
      while true
        invariant Valid() && Stop in queue && PartWay(start, queue, reached, done, batchSize, publishers)
        invariant calls == old(calls) + done
        invariant delivered == old(delivered) + Delivered(done, |old(calls)|, raises)
        invariant errors == old(errors) + Errors(done, |old(calls)|, raises)
        decreases |queue|
      {
        ghost var waiting := queue;
        var taken := TakeBatch();
        var stopping := Stop in taken;
        var batch := EventsOf(taken);
        ghost var mine := CallsFor(batch, publishers);
        Deliver(batch);
        CountsConcat(done, mine, |old(calls)|, raises);
        OneMoreBatch(start, waiting, taken, queue, reached, done, batchSize, publishers);
        assert old(calls) + (done + mine) == old(calls) + done + mine;
        done := done + mine;
        reached := reached + |taken|;
        if stopping { return; }
      }
    }
  }

  /** The sender part of the way through a queue. */
  ghost predicate PartWay(start: seq<Entry>, queue: seq<Entry>, reached: nat, done: seq<Call>,
                          batchSize: nat, publishers: nat)
  {
    && batchSize >= 1 && Stop in start && Stop in queue
    && reached <= |start| && queue == start[reached..]
    && done + CallsForAll(Batches(queue, batchSize), publishers) == CallsForAll(Batches(start, batchSize), publishers)
    && reached + Reach(queue, batchSize) == Reach(start, batchSize)
  }

  lemma StartingOut(queue: seq<Entry>, batchSize: nat, publishers: nat)
    requires batchSize >= 1 && Stop in queue
    ensures PartWay(queue, queue, 0, [], batchSize, publishers)
  {
    assert queue[0..] == queue;
    var all := CallsForAll(Batches(queue, batchSize), publishers);
    assert [] + all == all;
  }

  lemma OneMoreBatch(start: seq<Entry>, queue: seq<Entry>, taken: seq<Entry>, rest: seq<Entry>, reached: nat,
                     done: seq<Call>, batchSize: nat, publishers: nat)
    requires PartWay(start, queue, reached, done, batchSize, publishers)
    requires taken == Paging.Take(queue, batchSize) && queue == taken + rest
    ensures var mine := CallsFor(EventsOf(taken), publishers);
            if Stop in taken then
              && done + mine == CallsForAll(Batches(start, batchSize), publishers)
              && Reach(start, batchSize) == reached + |taken| && rest == start[reached + |taken|..]
            else Stop in rest && PartWay(start, rest, reached + |taken|, done + mine, batchSize, publishers)
  {
    hide Paging.Take, Batches, CallsForAll, CallsFor, EventsOf, Reach;
    NextBatch(queue, batchSize, publishers);
    NextReach(queue, batchSize);
    Remaining(start, queue, taken, rest, reached);
    if Stop !in taken {
      Regrouped(done, CallsFor(EventsOf(taken), publishers), CallsForAll(Batches(rest, batchSize), publishers));
    }
  }

  lemma Remaining(start: seq<Entry>, queue: seq<Entry>, taken: seq<Entry>, rest: seq<Entry>, reached: nat)
    requires reached <= |start| && queue == start[reached..] && queue == taken + rest
    ensures rest == queue[|taken|..] && reached + |taken| <= |start| && rest == start[reached + |taken|..]
  {
    assert rest == queue[|taken|..];
  }

  lemma Regrouped<T>(a: seq<T>, b: seq<T>, c: seq<T>)
    ensures (a + b) + c == a + (b + c)
  {
  }

  lemma NextBatch(queue: seq<Entry>, batchSize: nat, publishers: nat)
    requires batchSize >= 1 && Stop in queue
    ensures var taken := Paging.Take(queue, batchSize);
            var mine := CallsFor(EventsOf(taken), publishers);
            CallsForAll(Batches(queue, batchSize), publishers) ==
              if Stop in taken then mine
              else assert queue == taken + queue[|taken|..];
                   mine + CallsForAll(Batches(queue[|taken|..], batchSize), publishers)
  {
    hide Batches, CallsFor, EventsOf;
    var taken := Paging.Take(queue, batchSize);
    NextBatches(queue, batchSize);
    if Stop in taken {
      assert [taken][1..] == [];
      assert CallsForAll([], publishers) == [];
    } else {
      var rest := Batches(queue[|taken|..], batchSize);
      assert ([taken] + rest)[1..] == rest;
    }
  }

  /**
   Shutting down: once the sentinel is the last thing queued and nothing more is submitted,
   the sender stops after finitely many batches of at most the batch size, each publisher
   having been handed every queued event exactly once and in order, whichever of them raise.
   */
  lemma ShutdownDelivers(queue: seq<Entry>, batchSize: nat, publishers: nat, publisher: nat)
    requires batchSize >= 1 && publisher < publishers
    requires queue != [] && queue[|queue| - 1] == Stop && Stop !in queue[..|queue| - 1]
    ensures HandedTo(CallsForAll(Batches(queue, batchSize), publishers), publisher) == EventsOf(queue)
    ensures Reach(queue, batchSize) == |queue|
    ensures forall i :: 0 <= i < |Batches(queue, batchSize)| ==> 1 <= |Batches(queue, batchSize)[i]| <= batchSize
  {
    EveryPublisherGetsAll(Batches(queue, batchSize), publishers, publisher);
    NothingLeftBehind(queue, batchSize);
    BatchesCoverQueue(queue, batchSize);
  }

  /** The same in terms of what was submitted: each publisher is handed these events, all and in order. */
  lemma ShutdownHandsOver(events: seq<Event>, batchSize: nat, publishers: nat, publisher: nat)
    requires batchSize >= 1 && publisher < publishers
    ensures var queue := Queued(events) + [Stop];
            HandedTo(CallsForAll(Batches(queue, batchSize), publishers), publisher) == events
            && Reach(queue, batchSize) == |events| + 1
  {
    var queue := Queued(events) + [Stop];
    EventsOfEntries(events);
    assert queue[..|queue| - 1] == Queued(events);
    ShutdownDelivers(queue, batchSize, publishers, publisher);
  }
}
