/**
 The sentinel that stops the sender, once it is queued: when producers making room for their events
 can discard it.
 */
module SentinelLoss {
  import opened Models
  import opened Totals
  import opened Pipelining
  import opened Interleaving

  /** Making room can take the sentinel: a full queue holding nothing else loses it to the next submit. */
  lemma SentinelCanBeLost(batchSize: nat, e: Event)
    ensures var s := NextAll(NewPipe(1, batchSize, 1), [PutStop, Submit(0, e), Put(0), Discard(0), CountDrop(0),
                                             PutAgain(0), CountRefusal(0)]);
            s.queue == [Ev(e)] && Stop !in s.queue && s.dropped == 1
            && s.submitted == |EventsOf(s.queue)|
  {
    var s := Next(NewPipe(1, batchSize, 1), PutStop);
    var steps := [PutStop, Submit(0, e), Put(0), Discard(0), CountDrop(0), PutAgain(0), CountRefusal(0)];
    assert steps[1..] == [Submit(0, e), Put(0), Discard(0), CountDrop(0), PutAgain(0), CountRefusal(0)];
    assert s.queue == [Stop];
    UninterruptedSubmit(s, 0, e);
    EventsOfPush([], Ev(e));
    assert [] + [Ev(e)] == [Ev(e)];
  }

  /** No producer is making room. */
  ghost predicate Calm(producers: seq<Producer>) {
    forall p :: 0 <= p < |producers| ==> producers[p].Idle? || producers[p].Putting?
  }

  /** How many entries these steps may still put in beyond those already on their way. */
  function Arrivals(steps: seq<PipeStep>): nat {
    if steps == [] then 0 else (if steps[0].Submit? || steps[0].PutStop? then 1 else 0) + Arrivals(steps[1..])
  }

  lemma RoomyStep(s: Pipe, step: PipeStep, later: nat)
    requires Calm(s.producers)
    requires |s.queue| + Busy(s.producers) + later + (if step.Submit? || step.PutStop? then 1 else 0) <= s.max
    ensures var t := Next(s, step);
            && Calm(t.producers) && |t.queue| + Busy(t.producers) + later <= t.max
            && DiscardedOf(t.removed) == DiscardedOf(s.removed) && t.dropped == s.dropped
  {
    hide Busy, DiscardedOf;
    match step {
      case Submit(p, e) => if p < |s.producers| { MoveCounts(s.producers, p, Putting(e)); }
      case Put(p) =>
        if p < |s.producers| && s.producers[p].Putting? {
          MoveCounts(s.producers, p, Idle);
        }
      case Take => if s.queue != [] { RemoveAccounted(s, Taken(s.queue[0])); }
      case Discard(p) =>
      case CountDrop(p) =>
      case PutAgain(p) =>
      case CountRefusal(p) =>
      case EndBatch =>
      case PutStop =>
    }
  }

  /**
   While what is queued, what producers are putting and what is still to be put in fits the queue
   together, no interleaving discards anything, no sentinel either.
   */
  lemma {:induction false} RoomForAllLosesNothing(s: Pipe, steps: seq<PipeStep>)
    requires Calm(s.producers) && |s.queue| + Busy(s.producers) + Arrivals(steps) <= s.max
    ensures var t := NextAll(s, steps);
            DiscardedOf(t.removed) == DiscardedOf(s.removed) && t.dropped == s.dropped
    decreases |steps|
  {
    hide Next, Calm, DiscardedOf, Busy;
    if steps != [] {
      RoomyStep(s, steps[0], Arrivals(steps[1..]));
      RoomForAllLosesNothing(Next(s, steps[0]), steps[1..]);
    }
  }

  lemma {:induction false} ArrivalsConcat(a: seq<PipeStep>, b: seq<PipeStep>)
    ensures Arrivals(a + b) == Arrivals(a) + Arrivals(b)
  {
    if a == [] {
      assert a + b == b;
    } else {
      assert (a + b)[0] == a[0] && (a + b)[1..] == a[1..] + b;
      ArrivalsConcat(a[1..], b);
    }
  }

  lemma {:induction false} NextAllConcat(s: Pipe, a: seq<PipeStep>, b: seq<PipeStep>)
    ensures NextAll(s, a + b) == NextAll(NextAll(s, a), b)
    decreases |a|
  {
    hide Next;
    if a == [] {
      assert a + b == b;
    } else {
      assert (a + b)[0] == a[0] && (a + b)[1..] == a[1..] + b;
      NextAllConcat(Next(s, a[0]), a[1..], b);
    }
  }

  /** A sender that is at work and has met no sentinel yet. */
  ghost predicate Sending(d: Sender) {
    !d.stopped && Stop !in d.batch && 1 <= d.batchSize && |d.batch| <= d.batchSize
  }

  /** The sender can take any number of events off the front, as many batches as that needs. */
  lemma {:induction false} SenderTakes(s: Pipe, n: nat) returns (steps: seq<PipeStep>)
    requires Sending(s.sender) && n <= |s.queue| && Stop !in s.queue[..n]
    ensures Arrivals(steps) == 0
    ensures var t := NextAll(s, steps);
            && Sending(t.sender) && t.queue == s.queue[n..] && t.producers == s.producers && t.max == s.max
            && t.dropped == s.dropped && DiscardedOf(t.removed) == DiscardedOf(s.removed)
    decreases n
  {
    hide DiscardedOf;
    if n == 0 {
      steps := [];
      assert s.queue[0..] == s.queue;
    } else {
      var first := if |s.sender.batch| == s.sender.batchSize then [EndBatch, Take] else [Take];
      var t := NextAll(s, first);
      TakeOne(s);
      assert s.queue[..n][0] == s.queue[0] && s.queue[..n][1..] == s.queue[1..][..n - 1];
      var rest := SenderTakes(t, n - 1);
      steps := first + rest;
      NextAllConcat(s, first, rest);
      ArrivalsConcat(first, rest);
      assert s.queue[1..][n - 1..] == s.queue[n..];
      assert [EndBatch, Take][1..] == [Take] && [Take][1..] == [];
    }
  }

  lemma TakeOne(s: Pipe)
    requires Sending(s.sender) && s.queue != [] && s.queue[0] != Stop
    ensures var first := if |s.sender.batch| == s.sender.batchSize then [EndBatch, Take] else [Take];
            var t := NextAll(s, first);
            && Sending(t.sender) && t.queue == s.queue[1..] && t.producers == s.producers && t.max == s.max
            && t.dropped == s.dropped && DiscardedOf(t.removed) == DiscardedOf(s.removed)
  {
    hide DiscardedOf;
    assert [EndBatch, Take][1..] == [Take] && [Take][1..] == [];
    RemoveAccounted(s, Taken(s.queue[0]));
    if |s.sender.batch| == s.sender.batchSize {
      var r := Next(s, EndBatch);
      assert r.removed == s.removed && r.queue == s.queue;
      assert NextAll(s, [EndBatch, Take]) == NextAll(r, [Take]) == NextAll(Next(r, Take), []);
    } else {
      assert NextAll(s, [Take]) == NextAll(Next(s, Take), []);
    }
  }

  /** Where the first sentinel is. */
  function StopAt(queue: seq<Entry>): (at: nat)
    requires Stop in queue
    ensures at < |queue| && queue[at] == Stop && Stop !in queue[..at]
  {
    if queue[0] == Stop then 0
    else
      assert queue == [queue[0]] + queue[1..];
      var at := StopAt(queue[1..]) + 1;
      assert queue[..at] == [queue[0]] + queue[1..][..at - 1];
      at
  }

  /** A producer that is making room, and a sender that takes what is ahead: the sentinel goes. */
  lemma DiscardedNext(s: Pipe, p: nat) returns (steps: seq<PipeStep>)
    requires Sending(s.sender) && Stop in s.queue && p < |s.producers| && s.producers[p].MakingRoom?
    ensures Arrivals(steps) == 0
    ensures Stops(DiscardedOf(NextAll(s, steps).removed)) == Stops(DiscardedOf(s.removed)) + 1
  {
    hide DiscardedOf, Stops, Sending;
    var taking := SenderTakes(s, StopAt(s.queue));
    var t := NextAll(s, taking);
    assert t.queue[0] == Stop;
    RemoveAccounted(t, Discarded(t.queue[0]));
    StopsPush(DiscardedOf(t.removed), Stop);
    assert Next(t, Discard(p)).removed == t.removed + [Discarded(Stop)];
    steps := taking + [Discard(p)];
    NextAllConcat(s, taking, [Discard(p)]);
    ArrivalsConcat(taking, [Discard(p)]);
    OneStep(t, Discard(p));
  }

  /** A put that finds the queue full. */
  lemma PutFull(s: Pipe, p: nat)
    requires p < |s.producers| && s.producers[p].Putting? && |s.queue| >= s.max
    ensures var t := Next(s, Put(p));
            && p < |t.producers| && t.producers[p].MakingRoom? && t.queue == s.queue && t.max == s.max
            && t.sender == s.sender && t.removed == s.removed
  {
  }

  lemma OneStep(s: Pipe, step: PipeStep)
    ensures NextAll(s, [step]) == Next(s, step)
    ensures Arrivals([step]) == if step.Submit? || step.PutStop? then 1 else 0
  {
    hide Next;
    assert [step][1..] == [];
  }

  lemma SomeonePutting(producers: seq<Producer>) returns (p: nat)
    requires Calm(producers) && Busy(producers) > 0
    ensures p < |producers| && producers[p].Putting?
  {
    p := TotalSource(producers, BUSY);
  }

  lemma NobodyPutting(producers: seq<Producer>)
    requires Busy(producers) == 0
    ensures forall p :: 0 <= p < |producers| ==> producers[p].Idle?
  {
    forall p | 0 <= p < |producers| ensures producers[p].Idle? {
      TotalCovers(producers, p, BUSY);
    }
  }

  /** One producer more on its way, at the cost of one arrival. */
  lemma SubmitOne(s: Pipe, event: Event)
    requires Calm(s.producers) && s.producers != [] && Busy(s.producers) == 0
    ensures var t := Next(s, Submit(0, event));
            && Calm(t.producers) && Busy(t.producers) == 1 && t.producers != [] && t.queue == s.queue && t.max == s.max
            && t.sender == s.sender && t.removed == s.removed
  {
    NobodyPutting(s.producers);
    MoveCounts(s.producers, 0, Putting(event));
  }

  /** A put that finds room. */
  lemma PutOne(s: Pipe, p: nat)
    requires Calm(s.producers) && p < |s.producers| && s.producers[p].Putting? && |s.queue| < s.max
    ensures var t := Next(s, Put(p));
            && Calm(t.producers) && Busy(t.producers) == Busy(s.producers) - 1 && t.producers != []
            && t.queue == s.queue + [Ev(s.producers[p].event)] && t.max == s.max
            && t.sender == s.sender && t.removed == s.removed
  {
    MoveCounts(s.producers, p, Idle);
  }

  /** With more on its way than fits, some interleaving with no more arrivals than allowed loses a sentinel. */
  lemma {:induction false} TooManyLoseIt(s: Pipe, arrivals: nat, event: Event) returns (steps: seq<PipeStep>)
    requires Calm(s.producers) && s.producers != [] && Sending(s.sender) && Stop in s.queue && |s.queue| <= s.max
    requires |s.queue| + Busy(s.producers) + arrivals > s.max
    ensures Arrivals(steps) <= arrivals
    ensures Stops(DiscardedOf(NextAll(s, steps).removed)) > Stops(DiscardedOf(s.removed))
    decreases s.max - |s.queue|, arrivals
  {
    hide DiscardedOf, Stops, Sending, Next, Calm, Busy;
    var first: seq<PipeStep>;
    if Busy(s.producers) == 0 {
      SubmitOne(s, event);
      first := [Submit(0, event)];
      OneStep(s, first[0]);
      var rest := TooManyLoseIt(Next(s, first[0]), arrivals - 1, event);
      steps := first + rest;
      NextAllConcat(s, first, rest);
      ArrivalsConcat(first, rest);
    } else {
      var p := SomeonePutting(s.producers);
      first := [Put(p)];
      OneStep(s, first[0]);
      if |s.queue| == s.max {
        PutFull(s, p);
        var rest := DiscardedNext(Next(s, first[0]), p);
        steps := first + rest;
        NextAllConcat(s, first, rest);
        ArrivalsConcat(first, rest);
      } else {
        PutOne(s, p);
        var rest := TooManyLoseIt(Next(s, first[0]), arrivals, event);
        steps := first + rest;
        NextAllConcat(s, first, rest);
        ArrivalsConcat(first, rest);
      }
    }
  }

  /** Some interleaving of these threads, with at most so many arrivals, discards a sentinel. */
  ghost predicate Losable(s: Pipe, arrivals: nat) {
    exists steps :: Arrivals(steps) <= arrivals
      && Stops(DiscardedOf(NextAll(s, steps).removed)) > Stops(DiscardedOf(s.removed))
  }

  const PUTTING: Producer -> nat := (p: Producer) => if p.Putting? then 1 else 0
  const MAKING_ROOM: Producer -> nat := (p: Producer) => if p.MakingRoom? then 1 else 0
  const RETRYING: Producer -> nat := (p: Producer) => if p.Counting? || p.Retrying? then 1 else 0
  const STEPS_TO_IDLE: Producer -> nat :=
    (p: Producer) => if p.Counting? then 3 else if p.Retrying? then 2 else if p.GivingUp? then 1 else 0

  /**
   A producer is making room; or one is putting, or an arrival is still to come, and there is not
   room for all of those, for what is being put again, and for what is queued.
   */
  predicate TooMuch(s: Pipe, arrivals: nat) {
    || Total(s.producers, MAKING_ROOM) > 0
    || (Total(s.producers, PUTTING) + arrivals > 0 &&
        |s.queue| + Total(s.producers, PUTTING) + Total(s.producers, RETRYING) + arrivals > s.max)
  }

  lemma Moved(producers: seq<Producer>, p: nat, to: Producer)
    requires p < |producers|
    ensures Total(producers[p := to], PUTTING) + PUTTING(producers[p]) == Total(producers, PUTTING) + PUTTING(to)
    ensures Total(producers[p := to], RETRYING) + RETRYING(producers[p]) == Total(producers, RETRYING) + RETRYING(to)
    ensures Total(producers[p := to], MAKING_ROOM) + MAKING_ROOM(producers[p])
         == Total(producers, MAKING_ROOM) + MAKING_ROOM(to)
    ensures Total(producers[p := to], STEPS_TO_IDLE) + STEPS_TO_IDLE(producers[p])
         == Total(producers, STEPS_TO_IDLE) + STEPS_TO_IDLE(to)
    ensures PUTTING(producers[p]) <= Total(producers, PUTTING)
    ensures RETRYING(producers[p]) <= Total(producers, RETRYING)
    ensures MAKING_ROOM(producers[p]) <= Total(producers, MAKING_ROOM)
  {
    TotalUpdate(producers, p, to, PUTTING);
    TotalUpdate(producers, p, to, RETRYING);
    TotalUpdate(producers, p, to, MAKING_ROOM);
    TotalUpdate(producers, p, to, STEPS_TO_IDLE);
    TotalCovers(producers, p, PUTTING);
    TotalCovers(producers, p, RETRYING);
    TotalCovers(producers, p, MAKING_ROOM);
  }

  lemma EnoughRoomStep(s: Pipe, step: PipeStep, later: nat)
    requires |s.queue| <= s.max && !TooMuch(s, later + if step.Submit? || step.PutStop? then 1 else 0)
    ensures var t := Next(s, step);
            |t.queue| <= t.max && !TooMuch(t, later) && DiscardedOf(t.removed) == DiscardedOf(s.removed)
  {
    hide Total, DiscardedOf;
    match step {
      case Submit(p, e) => if p < |s.producers| { Moved(s.producers, p, Putting(e)); }
      case Put(p) => if p < |s.producers| { Moved(s.producers, p, Idle); }
      case Discard(p) => if p < |s.producers| { Moved(s.producers, p, Idle); }
      case CountDrop(p) =>
        if p < |s.producers| && s.producers[p].Counting? { Moved(s.producers, p, Retrying(s.producers[p].event)); }
      case PutAgain(p) =>
        if p < |s.producers| && s.producers[p].Retrying? {
          Moved(s.producers, p, Idle);
          Moved(s.producers, p, GivingUp(s.producers[p].event));
        }
      case CountRefusal(p) => if p < |s.producers| { Moved(s.producers, p, Idle); }
      case Take => if s.queue != [] { RemoveAccounted(s, Taken(s.queue[0])); }
      case EndBatch =>
      case PutStop =>
    }
  }

  /** While there is enough room, no interleaving discards anything. */
  lemma {:induction false} EnoughRoomLosesNothing(s: Pipe, steps: seq<PipeStep>, arrivals: nat)
    requires |s.queue| <= s.max && !TooMuch(s, arrivals) && Arrivals(steps) <= arrivals
    ensures DiscardedOf(NextAll(s, steps).removed) == DiscardedOf(s.removed)
    decreases |steps|
  {
    hide Next, TooMuch, DiscardedOf;
    if steps != [] {
      var cost := if steps[0].Submit? || steps[0].PutStop? then 1 else 0;
      EnoughRoomStep(s, steps[0], arrivals - cost);
      EnoughRoomLosesNothing(Next(s, steps[0]), steps[1..], arrivals - cost);
    }
  }

  /** The next step of a producer that has found no room and is past discarding. */
  function OnItsWay(s: Pipe, p: nat): PipeStep
    requires p < |s.producers|
  {
    match s.producers[p]
    case Counting(_) => CountDrop(p)
    case Retrying(_) => PutAgain(p)
    case _ => CountRefusal(p)
  }

  lemma NearerIdle(s: Pipe, p: nat, arrivals: nat)
    requires p < |s.producers| && STEPS_TO_IDLE(s.producers[p]) > 0 && Total(s.producers, MAKING_ROOM) == 0
    requires Sending(s.sender) && Stop in s.queue && |s.queue| <= s.max && TooMuch(s, arrivals)
    ensures var t := Next(s, OnItsWay(s, p));
            && Total(t.producers, STEPS_TO_IDLE) < Total(s.producers, STEPS_TO_IDLE)
            && Total(t.producers, MAKING_ROOM) == 0 && t.producers != []
            && Sending(t.sender) && Stop in t.queue && |t.queue| <= t.max && TooMuch(t, arrivals)
            && t.removed == s.removed
  {
    hide Total, Sending;
    var x := s.producers[p];
    match x {
      case Counting(e) => Moved(s.producers, p, Retrying(e));
      case Retrying(e) =>
        Moved(s.producers, p, Idle);
        Moved(s.producers, p, GivingUp(e));
      case GivingUp(e) => Moved(s.producers, p, Idle);
      case _ =>
    }
  }

  lemma CalmTotals(producers: seq<Producer>)
    requires Total(producers, MAKING_ROOM) == 0 && Total(producers, STEPS_TO_IDLE) == 0
    ensures Calm(producers)
    ensures Busy(producers) == Total(producers, PUTTING) && Total(producers, RETRYING) == 0
  {
    forall p | 0 <= p < |producers| ensures producers[p].Idle? || producers[p].Putting? {
      TotalCovers(producers, p, MAKING_ROOM);
      TotalCovers(producers, p, STEPS_TO_IDLE);
    }
    TotalSame(producers, BUSY, PUTTING);
    TotalZero(producers, RETRYING);
  }

  /** With too much on its way, some interleaving with no more arrivals than allowed loses a sentinel. */
  lemma {:induction false} TooMuchLosesIt(s: Pipe, arrivals: nat, event: Event) returns (steps: seq<PipeStep>)
    requires s.producers != [] && Sending(s.sender) && Stop in s.queue && |s.queue| <= s.max && TooMuch(s, arrivals)
    ensures Arrivals(steps) <= arrivals
    ensures Stops(DiscardedOf(NextAll(s, steps).removed)) > Stops(DiscardedOf(s.removed))
    decreases Total(s.producers, STEPS_TO_IDLE)
  {
    hide Total, DiscardedOf, Stops, Sending, Next, Busy, Calm;
    if Total(s.producers, MAKING_ROOM) > 0 {
      var p := TotalSource(s.producers, MAKING_ROOM);
      steps := DiscardedNext(s, p);
    } else if Total(s.producers, STEPS_TO_IDLE) > 0 {
      var p := TotalSource(s.producers, STEPS_TO_IDLE);
      var first := [OnItsWay(s, p)];
      NearerIdle(s, p, arrivals);
      OneStep(s, first[0]);
      var rest := TooMuchLosesIt(Next(s, first[0]), arrivals, event);
      steps := first + rest;
      NextAllConcat(s, first, rest);
      ArrivalsConcat(first, rest);
    } else {
      CalmTotals(s.producers);
      steps := TooManyLoseIt(s, arrivals, event);
    }
  }

  /**
   In any state of the producers, with a sender at work: a queued sentinel can be lost, by some
   interleaving with at most so many further arrivals, exactly when there is too much on its way.
   Where in the queue the sentinel is does not matter.
   */
  lemma SentinelCanBeLostExactly(s: Pipe, arrivals: nat, event: Event)
    requires s.producers != [] && Sending(s.sender) && Stop in s.queue && |s.queue| <= s.max
    ensures Losable(s, arrivals) <==> TooMuch(s, arrivals)
    ensures Calm(s.producers) ==> (TooMuch(s, arrivals) <==> |s.queue| + Busy(s.producers) + arrivals > s.max)
  {
    hide DiscardedOf, Stops, Sending, Total;
    if TooMuch(s, arrivals) {
      var steps := TooMuchLosesIt(s, arrivals, event);
      assert Losable(s, arrivals);
    } else {
      forall steps | Arrivals(steps) <= arrivals
        ensures DiscardedOf(NextAll(s, steps).removed) == DiscardedOf(s.removed)
      {
        EnoughRoomLosesNothing(s, steps, arrivals);
      }
    }
    if Calm(s.producers) {
      TotalZero(s.producers, MAKING_ROOM);
      TotalZero(s.producers, STEPS_TO_IDLE);
      CalmTotals(s.producers);
    }
  }

  /**
   The shortest such run: two places, an event and the sentinel behind it. A submit finds the queue
   full, the sender takes the event, and the submit then discards the sentinel, though undisturbed it
   would have discarded the event.
   */
  lemma SentinelLostBehindAnEvent(s: Pipe, ahead: Event, event: Event)
    requires s.max == 2 && s.queue == [Ev(ahead), Stop] && s.producers == [Idle]
    requires Sending(s.sender) && s.sender.batch == []
    ensures var t := NextAll(s, [Submit(0, event), Put(0), Take, Discard(0)]);
            && t.queue == [] && !t.sender.stopped && t.sender.batch == [Ev(ahead)]
            && t.removed == s.removed + [Taken(Ev(ahead)), Discarded(Stop)]
    ensures Stop in PushedAll(s.queue, s.max, [event])
  {
    var a := Next(s, Submit(0, event));
    var b := Next(a, Put(0));
    var c := Next(b, Take);
    var d := Next(c, Discard(0));
    var steps := [Submit(0, event), Put(0), Take, Discard(0)];
    assert steps[1..] == [Put(0), Take, Discard(0)] && steps[1..][1..] == [Take, Discard(0)];
    assert [Take, Discard(0)][1..] == [Discard(0)] && [Discard(0)][1..] == [];
    assert NextAll(c, [Discard(0)]) == d;
    assert NextAll(b, [Take, Discard(0)]) == d;
    assert NextAll(a, [Put(0), Take, Discard(0)]) == d;
    assert s.removed + [Taken(Ev(ahead))] + [Discarded(Stop)] == s.removed + [Taken(Ev(ahead)), Discarded(Stop)];
    SentinelSurvives(s.queue, s.max, 1, [event]);
  }
}
