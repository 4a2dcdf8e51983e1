/**
 Producers and sender of the bounded queue in every interleaving, one operation on the queue or on
 a counter at a time: what is lost, what is counted as lost, and where the sender stops.
 */
module Interleaving {
  import opened Wrappers
  import opened Models
  import opened Totals
  import opened Pipelining

  /** Where a producer is inside `submit`. */
  datatype Producer =
    | Idle
    | Putting(event: Event)    // counted as submitted, about to try the queue
    | MakingRoom(event: Event) // found it full
    | Counting(event: Event)   // has taken the oldest entry away, or found none
    | Retrying(event: Event)   // has counted the drop
    | GivingUp(event: Event)   // found it full again

  datatype Removal = Taken(entry: Entry) | Discarded(entry: Entry)

  /**
   The queue among its producers and its sender. `entered` and `removed` record every entry
   that ever went in and came out, in order.
   */
  datatype Pipe = Pipe(
    max: nat,
    queue: seq<Entry>,
    producers: seq<Producer>,
    entered: seq<Entry>,
    removed: seq<Removal>,
    submitted: nat,
    dropped: nat,
    refused: nat,
    foundEmpty: nat,
    sender: Sender)

  /** The sender: the bound on its batches, those delivered, the one being filled, and whether it is done. */
  datatype Sender = Sender(batchSize: nat, batches: seq<seq<Entry>>, batch: seq<Entry>, stopped: bool)

  /** One atomic step: an operation on the queue or on a counter. */
  datatype PipeStep =
    | Submit(producer: nat, event: Event)
    | Put(producer: nat)
    | Discard(producer: nat)
    | CountDrop(producer: nat)
    | PutAgain(producer: nat)
    | CountRefusal(producer: nat)
    | Take
    | EndBatch
    | PutStop

  function Enter(s: Pipe, x: Entry): Pipe {
    s.(queue := s.queue + [x], entered := s.entered + [x])
  }

  function At(s: Pipe, p: nat): Option<Producer> {
    if p < |s.producers| then Some(s.producers[p]) else None
  }

  function MoveTo(s: Pipe, p: nat, to: Producer): Pipe {
    if p < |s.producers| then s.(producers := s.producers[p := to]) else s
  }

  /** A step that is not possible changes nothing. */
  function Next(s: Pipe, step: PipeStep): Pipe {
    match step
    case Submit(p, e) =>
      if At(s, p) == Some(Idle) then MoveTo(s, p, Putting(e)).(submitted := s.submitted + 1) else s
    case Put(p) =>
      if At(s, p).Some? && At(s, p).value.Putting? then
        var e := At(s, p).value.event;
        if |s.queue| < s.max then Enter(MoveTo(s, p, Idle), Ev(e)) else MoveTo(s, p, MakingRoom(e))
      else s
    case Discard(p) =>
      if At(s, p).Some? && At(s, p).value.MakingRoom? then
        var t := MoveTo(s, p, Counting(At(s, p).value.event));
        if s.queue == [] then t.(foundEmpty := s.foundEmpty + 1)
        else t.(queue := s.queue[1..], removed := s.removed + [Discarded(s.queue[0])])
      else s
    case CountDrop(p) =>
      if At(s, p).Some? && At(s, p).value.Counting?
      then MoveTo(s, p, Retrying(At(s, p).value.event)).(dropped := s.dropped + 1) else s
    case PutAgain(p) =>
      if At(s, p).Some? && At(s, p).value.Retrying? then
        var e := At(s, p).value.event;
        if |s.queue| < s.max then Enter(MoveTo(s, p, Idle), Ev(e)) else MoveTo(s, p, GivingUp(e))
      else s
    case CountRefusal(p) =>
      if At(s, p).Some? && At(s, p).value.GivingUp?
      then MoveTo(s, p, Idle).(dropped := s.dropped + 1, refused := s.refused + 1) else s
    case Take =>
      if s.queue == [] || s.sender.stopped || |s.sender.batch| >= s.sender.batchSize then s
      else
        s.(queue := s.queue[1..], removed := s.removed + [Taken(s.queue[0])],
           sender := s.sender.(batch := s.sender.batch + [s.queue[0]]))
    case EndBatch =>
      if s.sender.batch == [] || (s.queue != [] && |s.sender.batch| < s.sender.batchSize) then s
      else s.(sender := Sender(s.sender.batchSize, s.sender.batches + [s.sender.batch], [], Stop in s.sender.batch))
    case PutStop =>
      if |s.queue| < s.max then Enter(s, Stop) else s
  }

  function NextAll(s: Pipe, steps: seq<PipeStep>): Pipe
    decreases |steps|
  {
    if steps == [] then s else NextAll(Next(s, steps[0]), steps[1..])
  }

  function Entries(removed: seq<Removal>): seq<Entry> {
    seq(|removed|, i requires 0 <= i < |removed| => removed[i].entry)
  }

  function TakenOf(removed: seq<Removal>): seq<Entry> {
    if removed == [] then []
    else TakenOf(removed[..|removed| - 1])
         + (if removed[|removed| - 1].Taken? then [removed[|removed| - 1].entry] else [])
  }

  function DiscardedOf(removed: seq<Removal>): seq<Entry> {
    if removed == [] then []
    else DiscardedOf(removed[..|removed| - 1])
         + (if removed[|removed| - 1].Discarded? then [removed[|removed| - 1].entry] else [])
  }

  const BUSY: Producer -> nat := (p: Producer) => if p.Idle? then 0 else 1
  const UNCOUNTED: Producer -> nat := (p: Producer) => if p.Counting? then 1 else 0

  function Busy(producers: seq<Producer>): nat {
    Total(producers, BUSY)
  }

  function Uncounted(producers: seq<Producer>): nat {
    Total(producers, UNCOUNTED)
  }

  lemma MoveCounts(producers: seq<Producer>, p: nat, to: Producer)
    requires p < |producers|
    ensures Busy(producers[p := to]) + (if producers[p].Idle? then 0 else 1)
         == Busy(producers) + (if to.Idle? then 0 else 1)
    ensures Uncounted(producers[p := to]) + (if producers[p].Counting? then 1 else 0)
         == Uncounted(producers) + (if to.Counting? then 1 else 0)
  {
    TotalUpdate(producers, p, to, BUSY);
    TotalUpdate(producers, p, to, UNCOUNTED);
  }

  lemma {:induction false} RemovedSplit(removed: seq<Removal>)
    ensures |EventsOf(Entries(removed))| == |EventsOf(TakenOf(removed))| + |EventsOf(DiscardedOf(removed))|
    ensures |DiscardedOf(removed)| == |EventsOf(DiscardedOf(removed))| + Stops(DiscardedOf(removed))
  {
    if removed != [] {
      var front, last := removed[..|removed| - 1], removed[|removed| - 1];
      RemovedSplit(front);
      assert Entries(removed) == Entries(front) + [last.entry];
      EventsOfPush(Entries(front), last.entry);
      EventsOfPush(TakenOf(front), last.entry);
      EventsOfPush(DiscardedOf(front), last.entry);
      StopsPush(DiscardedOf(front), last.entry);
      assert TakenOf(front) + [] == TakenOf(front) && DiscardedOf(front) + [] == DiscardedOf(front);
    }
  }

  function Stops(entries: seq<Entry>): nat {
    if entries == [] then 0
    else Stops(entries[..|entries| - 1]) + if entries[|entries| - 1].Stop? then 1 else 0
  }

  lemma StopsPush(a: seq<Entry>, x: Entry)
    ensures Stops(a + [x]) == Stops(a) + if x.Stop? then 1 else 0
  {
    assert (a + [x])[..|a|] == a;
  }

  /** What holds between any two steps. */
  ghost predicate Accounted(s: Pipe) {
    && s.max >= 1 && |s.queue| <= s.max
    && Entries(s.removed) + s.queue == s.entered
    && s.submitted == |EventsOf(s.entered)| + Busy(s.producers) + s.refused
    && s.dropped + Uncounted(s.producers) == |DiscardedOf(s.removed)| + s.foundEmpty + s.refused
  }

  lemma EnterAccounted(s: Pipe, x: Entry)
    ensures Entries(s.removed) + s.queue == s.entered ==>
              Entries(Enter(s, x).removed) + Enter(s, x).queue == Enter(s, x).entered
    ensures |EventsOf(Enter(s, x).entered)| == |EventsOf(s.entered)| + if x.Ev? then 1 else 0
  {
    EventsOfPush(s.entered, x);
    assert Entries(s.removed) + (s.queue + [x]) == (Entries(s.removed) + s.queue) + [x];
  }

  lemma RemoveAccounted(s: Pipe, r: Removal)
    requires s.queue != [] && r.entry == s.queue[0]
    ensures Entries(s.removed + [r]) + s.queue[1..] == Entries(s.removed) + s.queue
    ensures DiscardedOf(s.removed + [r]) == DiscardedOf(s.removed) + if r.Discarded? then [r.entry] else []
  {
    assert Entries(s.removed + [r]) == Entries(s.removed) + [r.entry];
    assert (s.removed + [r])[..|s.removed|] == s.removed;
  }

  lemma ProducerEnters(s: Pipe, p: nat)
    requires Accounted(s) && |s.queue| < s.max
    requires p < |s.producers| && !s.producers[p].Idle? && !s.producers[p].Counting?
    ensures Accounted(Enter(MoveTo(s, p, Idle), Ev(s.producers[p].event)))
  {
    hide Busy, Uncounted, EventsOf, DiscardedOf, Entries;
    MoveCounts(s.producers, p, Idle);
    EnterAccounted(MoveTo(s, p, Idle), Ev(s.producers[p].event));
  }

  lemma StepAccounted(s: Pipe, step: PipeStep)
    requires Accounted(s)
    ensures Accounted(Next(s, step))
    ensures s.entered <= Next(s, step).entered && s.removed <= Next(s, step).removed
  {
    hide Busy, Uncounted, EventsOf, DiscardedOf, Entries;
    match step {
      case Take =>
        if s.queue != [] { RemoveAccounted(s, Taken(s.queue[0])); }
      case EndBatch =>
      case PutStop =>
        EnterAccounted(s, Stop);
      case Submit(p, e) =>
        if p < |s.producers| { MoveCounts(s.producers, p, Putting(e)); }
      case Put(p) =>
        if p < |s.producers| && s.producers[p].Putting? {
          var e := s.producers[p].event;
          if |s.queue| < s.max { ProducerEnters(s, p); } else { MoveCounts(s.producers, p, MakingRoom(e)); }
        }
      case Discard(p) =>
        if p < |s.producers| && s.producers[p].MakingRoom? {
          MoveCounts(s.producers, p, Counting(s.producers[p].event));
          if s.queue != [] { RemoveAccounted(s, Discarded(s.queue[0])); }
        }
      case CountDrop(p) =>
        if p < |s.producers| && s.producers[p].Counting? {
          MoveCounts(s.producers, p, Retrying(s.producers[p].event));
        }
      case PutAgain(p) =>
        if p < |s.producers| && s.producers[p].Retrying? {
          var e := s.producers[p].event;
          if |s.queue| < s.max { ProducerEnters(s, p); } else { MoveCounts(s.producers, p, GivingUp(e)); }
        }
      case CountRefusal(p) =>
        if p < |s.producers| && s.producers[p].GivingUp? { MoveCounts(s.producers, p, Idle); }
    }
  }

  lemma {:induction false} RunAccounted(s: Pipe, steps: seq<PipeStep>)
    requires Accounted(s)
    ensures Accounted(NextAll(s, steps))
    decreases |steps|
  {
    hide Next, Accounted;
    if steps != [] {
      StepAccounted(s, steps[0]);
      RunAccounted(Next(s, steps[0]), steps[1..]);
    }
  }

  /** `a` comes from `b` by leaving entries out. */
  predicate Subsequence(a: seq<Entry>, b: seq<Entry>)
    decreases |b|
  {
    if a == [] then true
    else if b == [] then false
    else if a[|a| - 1] == b[|b| - 1] then Subsequence(a[..|a| - 1], b[..|b| - 1])
    else Subsequence(a, b[..|b| - 1])
  }

  lemma SubsequencePush(a: seq<Entry>, b: seq<Entry>, x: Entry)
    requires Subsequence(a, b)
    ensures Subsequence(a + [x], b + [x])
  {
    assert (a + [x])[..|a|] == a && (b + [x])[..|b|] == b;
  }

  lemma {:induction false} SubsequenceShrink(a: seq<Entry>, b: seq<Entry>)
    requires a != [] && Subsequence(a, b)
    ensures Subsequence(a[..|a| - 1], b)
    decreases |b|, 0
  {
    var front, rest := a[..|a| - 1], b[..|b| - 1];
    if a[|a| - 1] == b[|b| - 1] {
      SubsequenceSkip(front, rest, b[|b| - 1]);
      assert rest + [b[|b| - 1]] == b;
    } else {
      SubsequenceShrink(a, rest);
      SubsequenceSkip(front, rest, b[|b| - 1]);
      assert rest + [b[|b| - 1]] == b;
    }
  }

  lemma {:induction false} SubsequenceSkip(a: seq<Entry>, b: seq<Entry>, x: Entry)
    requires Subsequence(a, b)
    ensures Subsequence(a, b + [x])
    decreases |b|, 1
  {
    assert (b + [x])[..|b|] == b;
    if a != [] && a[|a| - 1] == x {
      SubsequenceShrink(a, b);
    }
  }

  lemma {:induction false} TakenSubsequence(removed: seq<Removal>)
    ensures Subsequence(TakenOf(removed), Entries(removed))
  {
    if removed != [] {
      var front, last := removed[..|removed| - 1], removed[|removed| - 1];
      TakenSubsequence(front);
      assert Entries(removed) == Entries(front) + [last.entry];
      if last.Taken? {
        SubsequencePush(TakenOf(front), Entries(front), last.entry);
      } else {
        SubsequenceSkip(TakenOf(front), Entries(front), last.entry);
        assert TakenOf(front) + [] == TakenOf(front);
      }
    }
  }

  lemma {:induction false} SubsequenceThen(a: seq<Entry>, b: seq<Entry>, c: seq<Entry>)
    requires Subsequence(a, b)
    ensures Subsequence(a + c, b + c)
    decreases |c|
  {
    if c == [] {
      assert a + c == a && b + c == b;
    } else {
      var front, last := c[..|c| - 1], c[|c| - 1];
      SubsequenceThen(a, b, front);
      SubsequencePush(a + front, b + front, last);
      assert a + c == (a + front) + [last] && b + c == (b + front) + [last];
    }
  }

  function NewPipe(max: nat, batchSize: nat, producers: nat): Pipe {
    Pipe(max, [], seq(producers, p => Idle), [], [], 0, 0, 0, 0, Sender(batchSize, [], [], false))
  }

  lemma AllIdle(producers: seq<Producer>)
    requires forall p :: 0 <= p < |producers| ==> producers[p].Idle?
    ensures Busy(producers) == 0 && Uncounted(producers) == 0
  {
    TotalZero(producers, BUSY);
    TotalZero(producers, UNCOUNTED);
  }

  /**
   In every interleaving of any number of producers with the sender and with shutdown: the
   queue never outgrows its bound; every entry that went in either came out once, in the
   order it went in, or is still queued; and what was taken followed by what is queued is a
   subsequence of what went in.
   */
  lemma QueueIsFifo(max: nat, batchSize: nat, producers: nat, steps: seq<PipeStep>)
    requires max >= 1
    ensures var s := NextAll(NewPipe(max, batchSize, producers), steps);
            && |s.queue| <= max
            && Entries(s.removed) + s.queue == s.entered
            && Subsequence(TakenOf(s.removed) + s.queue, s.entered)
  {
    AllIdle(NewPipe(max, batchSize, producers).producers);
    assert Entries([]) + [] == [];
    RunAccounted(NewPipe(max, batchSize, producers), steps);
    var s := NextAll(NewPipe(max, batchSize, producers), steps);
    MaxStays(NewPipe(max, batchSize, producers), steps);
    TakenSubsequence(s.removed);
    SubsequenceThen(TakenOf(s.removed), Entries(s.removed), s.queue);
  }

  lemma {:induction false} MaxStays(s: Pipe, steps: seq<PipeStep>)
    ensures NextAll(s, steps).max == s.max
    decreases |steps|
  {
    if steps != [] { MaxStays(Next(s, steps[0]), steps[1..]); }
  }

  /**
   Between submits, what was lost is at most what the counter says was dropped, and exactly
   that much unless making room discarded a sentinel or found the queue already empty.
   */
  lemma LossIsCounted(max: nat, batchSize: nat, producers: nat, steps: seq<PipeStep>)
    requires max >= 1
    requires var s := NextAll(NewPipe(max, batchSize, producers), steps);
             forall p :: 0 <= p < |s.producers| ==> s.producers[p].Idle?
    ensures var s := NextAll(NewPipe(max, batchSize, producers), steps);
            var lost := s.submitted - |EventsOf(TakenOf(s.removed))| - |EventsOf(s.queue)|;
            && 0 <= lost <= s.dropped
            && lost == |EventsOf(DiscardedOf(s.removed))| + s.refused
            && (lost == s.dropped <==> Stops(DiscardedOf(s.removed)) == 0 && s.foundEmpty == 0)
  {
    AllIdle(NewPipe(max, batchSize, producers).producers);
    assert Entries([]) + [] == [];
    RunAccounted(NewPipe(max, batchSize, producers), steps);
    var s := NextAll(NewPipe(max, batchSize, producers), steps);
    AllIdle(s.producers);
    RemovedSplit(s.removed);
    EventsOfConcat(Entries(s.removed), s.queue);
  }

  /** The steps of one submit with nothing in between are the code run by itself. */
  lemma UninterruptedSubmit(s: Pipe, p: nat, e: Event)
    requires s.max >= 1 && |s.queue| <= s.max && p < |s.producers| && s.producers[p].Idle?
    ensures var t := NextAll(s, [Submit(p, e), Put(p), Discard(p), CountDrop(p), PutAgain(p), CountRefusal(p)]);
            && t.producers == s.producers && t.submitted == s.submitted + 1
            && t.queue == (if |s.queue| < s.max then s.queue else s.queue[1..]) + [Ev(e)]
            && t.dropped == s.dropped + (if |s.queue| < s.max then 0 else 1)
            && t.refused == s.refused && t.foundEmpty == s.foundEmpty
  {
    var steps := [Submit(p, e), Put(p), Discard(p), CountDrop(p), PutAgain(p), CountRefusal(p)];
    hide Next;
    SixSteps(s, steps);
    var s1 := s.(producers := s.producers[p := Putting(e)], submitted := s.submitted + 1);
    Submitted(s, p, e);
    if |s.queue| < s.max { RoomySubmit(s, s1, p, e); } else { FullSubmit(s, s1, p, e); }
  }

  lemma Submitted(s: Pipe, p: nat, e: Event)
    requires p < |s.producers| && s.producers[p].Idle?
    ensures Next(s, Submit(p, e)) == s.(producers := s.producers[p := Putting(e)], submitted := s.submitted + 1)
  {
  }

  lemma RoomySubmit(s: Pipe, s1: Pipe, p: nat, e: Event)
    requires |s.queue| < s.max && p < |s.producers| && s.producers[p].Idle?
    requires s1 == s.(producers := s.producers[p := Putting(e)], submitted := s.submitted + 1)
    ensures var t := Next(Next(Next(Next(Next(s1, Put(p)), Discard(p)), CountDrop(p)), PutAgain(p)), CountRefusal(p));
            t == Enter(s1.(producers := s.producers), Ev(e))
  {
    var s2 := Enter(s1.(producers := s.producers), Ev(e));
    assert s1.producers[p := Idle] == s.producers;
    assert Next(s1, Put(p)) == s2;
    assert Next(s2, Discard(p)) == s2 && Next(s2, CountDrop(p)) == s2;
    assert Next(s2, PutAgain(p)) == s2 && Next(s2, CountRefusal(p)) == s2;
  }

  lemma FullSubmit(s: Pipe, s1: Pipe, p: nat, e: Event)
    requires s.max >= 1 && |s.queue| == s.max && p < |s.producers| && s.producers[p].Idle?
    requires s1 == s.(producers := s.producers[p := Putting(e)], submitted := s.submitted + 1)
    ensures var t := Next(Next(Next(Next(Next(s1, Put(p)), Discard(p)), CountDrop(p)), PutAgain(p)), CountRefusal(p));
            t == s1.(producers := s.producers, queue := s.queue[1..] + [Ev(e)], entered := s.entered + [Ev(e)],
                     removed := s.removed + [Discarded(s.queue[0])], dropped := s.dropped + 1)
  {
    var s2 := s1.(producers := s1.producers[p := MakingRoom(e)]);
    assert Next(s1, Put(p)) == s2;
    var s3 := s2.(producers := s2.producers[p := Counting(e)], queue := s.queue[1..],
                  removed := s.removed + [Discarded(s.queue[0])]);
    assert Next(s2, Discard(p)) == s3;
    var s4 := s3.(producers := s3.producers[p := Retrying(e)], dropped := s.dropped + 1);
    assert Next(s3, CountDrop(p)) == s4;
    var s5 := Enter(s4.(producers := s4.producers[p := Idle]), Ev(e));
    assert Next(s4, PutAgain(p)) == s5;
    assert Next(s5, CountRefusal(p)) == s5;
    assert s5.producers == s.producers;
  }

  /**
   A sender nobody interrupts fills its batch from the front of the queue. It can end the batch as soon as
   the batch is full or the queue is empty, and not before.
   */
  lemma {:induction false} UninterruptedBatch(s: Pipe, n: nat)
    requires !s.sender.stopped && s.sender.batch == [] && n <= |s.queue| && n <= s.sender.batchSize
    ensures var t := NextAll(s, Takes(n));
            && t.queue == s.queue[n..] && t.sender == s.sender.(batch := s.queue[..n]) && t.producers == s.producers
            && (n < |s.queue| && n < s.sender.batchSize ==> Next(t, EndBatch) == t)
            && (n >= 1 && (n == |s.queue| || n == s.sender.batchSize) ==>
                  Next(t, EndBatch).sender.batches == s.sender.batches + [s.queue[..n]]
                  && (Next(t, EndBatch).sender.stopped <==> Stop in s.queue[..n]))
  {
    if n == 0 {
      assert s.queue[..0] == [] && s.queue[0..] == s.queue;
    } else {
      UninterruptedBatch(s, n - 1);
      assert Takes(n) == Takes(n - 1) + [Take];
      NextAllPush(s, Takes(n - 1), Take);
      assert s.queue[..n - 1] + [s.queue[n - 1]] == s.queue[..n];
      assert s.queue[n - 1..][1..] == s.queue[n..];
    }
  }

  function Takes(n: nat): seq<PipeStep> {
    seq(n, i => Take)
  }

  lemma {:induction false} NextAllPush(s: Pipe, steps: seq<PipeStep>, step: PipeStep)
    ensures NextAll(s, steps + [step]) == Next(NextAll(s, steps), step)
    decreases |steps|
  {
    hide Next;
    if steps == [] {
      assert steps + [step] == [step] && [step][1..] == [];
    } else {
      assert (steps + [step])[0] == steps[0] && (steps + [step])[1..] == steps[1..] + [step];
      NextAllPush(Next(s, steps[0]), steps[1..], step);
    }
  }

  lemma SixSteps(s: Pipe, steps: seq<PipeStep>)
    requires |steps| == 6
    ensures NextAll(s, steps)
         == Next(Next(Next(Next(Next(Next(s, steps[0]), steps[1]), steps[2]), steps[3]), steps[4]), steps[5])
  {
    hide Next;
    var s2 := Next(Next(s, steps[0]), steps[1]);
    assert NextAll(s, steps) == NextAll(s2, steps[1..][1..]);
    assert steps[1..][1..] == steps[2..];
    var s4 := Next(Next(s2, steps[2]), steps[3]);
    assert NextAll(s2, steps[2..]) == NextAll(s4, steps[2..][1..][1..]);
    assert steps[2..][1..][1..] == steps[4..];
    assert NextAll(s4, steps[4..]) == NextAll(Next(Next(s4, steps[4]), steps[5]), steps[4..][1..][1..]);
    assert steps[4..][1..][1..] == [];
  }

  // ----- the sender among the producers -----------------------------------------------------

  /** What the sender has done, in any interleaving. */
  ghost predicate SenderSound(s: Pipe) {
    var d := s.sender;
    && Flat(d.batches) + d.batch == TakenOf(s.removed)
    && |d.batch| <= d.batchSize
    && (forall i :: 0 <= i < |d.batches| ==> 1 <= |d.batches[i]| <= d.batchSize)
    && (forall i :: 0 <= i < |d.batches| - 1 ==> Stop !in d.batches[i])
    && (d.stopped <==> d.batches != [] && Stop in d.batches[|d.batches| - 1])
    && (d.stopped ==> d.batch == [])
  }

  lemma {:induction false} FlatPush(batches: seq<seq<Entry>>, batch: seq<Entry>)
    ensures Flat(batches + [batch]) == Flat(batches) + batch
  {
    if batches == [] {
      assert batches + [batch] == [batch] && [batch][1..] == [];
    } else {
      assert (batches + [batch])[1..] == batches[1..] + [batch];
      FlatPush(batches[1..], batch);
    }
  }

  lemma TakenPush(removed: seq<Removal>, r: Removal)
    ensures TakenOf(removed + [r]) == TakenOf(removed) + if r.Taken? then [r.entry] else []
  {
    assert (removed + [r])[..|removed|] == removed;
  }

  lemma SenderStep(s: Pipe, step: PipeStep)
    requires SenderSound(s)
    ensures SenderSound(Next(s, step)) && s.sender.batches <= Next(s, step).sender.batches
  {
    hide Flat, TakenOf;
    if step.EndBatch? {
      FlatPush(s.sender.batches, s.sender.batch);
    } else if step.Take? && s.queue != [] {
      TakenPush(s.removed, Taken(s.queue[0]));
      assert Flat(s.sender.batches) + (s.sender.batch + [s.queue[0]])
          == (Flat(s.sender.batches) + s.sender.batch) + [s.queue[0]];
    } else {
      OthersLeaveSender(s, step);
    }
  }

  lemma OthersLeaveSender(s: Pipe, step: PipeStep)
    requires !step.EndBatch? && (step.Take? ==> s.queue == [])
    ensures Next(s, step).sender == s.sender && TakenOf(Next(s, step).removed) == TakenOf(s.removed)
  {
    hide TakenOf;
    if s.queue != [] { TakenPush(s.removed, Discarded(s.queue[0])); }
    assert TakenOf(s.removed) + [] == TakenOf(s.removed);
  }

  lemma {:induction false} SenderRun(s: Pipe, steps: seq<PipeStep>)
    requires SenderSound(s)
    ensures SenderSound(NextAll(s, steps)) && s.sender.batches <= NextAll(s, steps).sender.batches
    decreases |steps|
  {
    hide Next, SenderSound;
    if steps != [] {
      SenderStep(s, steps[0]);
      SenderRun(Next(s, steps[0]), steps[1..]);
    }
  }

  /**
   In every interleaving: the sender's batches, and the one it is filling, are what it took, in
   order; none is empty or too large; it has stopped exactly when its last batch holds a sentinel,
   and no earlier batch does. Once it has stopped it takes nothing more, whatever else happens.
   */
  lemma SenderStopsAtSentinel(max: nat, batchSize: nat, producers: nat, steps: seq<PipeStep>, more: seq<PipeStep>)
    ensures var s := NextAll(NewPipe(max, batchSize, producers), steps);
            && SenderSound(s)
            && (s.sender.stopped ==> var t := NextAll(s, more);
                                     t.sender == s.sender && TakenOf(t.removed) == TakenOf(s.removed))
  {
    assert SenderSound(NewPipe(max, batchSize, producers));
    SenderRun(NewPipe(max, batchSize, producers), steps);
    var s := NextAll(NewPipe(max, batchSize, producers), steps);
    SenderRun(s, more);
    if s.sender.stopped { StoppedStays(s, more); }
  }

  lemma {:induction false} StoppedStays(s: Pipe, steps: seq<PipeStep>)
    requires s.sender.stopped && s.sender.batch == []
    ensures NextAll(s, steps).sender == s.sender
    decreases |steps|
  {
    if steps != [] { StoppedStays(Next(s, steps[0]), steps[1..]); }
  }

  /** With every producer idle and nothing more submitted, nothing is discarded: not even a sentinel. */
  lemma {:induction false} QuietQueueLosesNothing(s: Pipe, steps: seq<PipeStep>)
    requires forall p :: 0 <= p < |s.producers| ==> s.producers[p].Idle?
    requires forall i :: 0 <= i < |steps| ==> !steps[i].Submit?
    ensures var t := NextAll(s, steps);
            DiscardedOf(t.removed) == DiscardedOf(s.removed) && t.dropped == s.dropped && t.producers == s.producers
    decreases |steps|
  {
    hide DiscardedOf;
    if steps != [] {
      assert !steps[0].Submit?;
      if s.queue != [] { RemoveAccounted(s, Taken(s.queue[0])); }
      QuietStep(s, steps[0]);
      QuietQueueLosesNothing(Next(s, steps[0]), steps[1..]);
    }
  }

  lemma QuietStep(s: Pipe, step: PipeStep)
    requires forall p :: 0 <= p < |s.producers| ==> s.producers[p].Idle?
    requires !step.Submit?
    ensures var t := Next(s, step);
            && t.producers == s.producers && t.dropped == s.dropped
            && (t.removed == s.removed || (s.queue != [] && t.removed == s.removed + [Taken(s.queue[0])]))
  {
  }

  // ----- the sender's progress ------------------------------------------------------------------

  /**
   A sender that has not stopped, with a sentinel in its batch or in the queue, stops by its own steps
   alone, whatever producers are in the middle of, having taken everything ahead of the sentinel.
   */
  lemma {:induction false} SenderCanStop(s: Pipe) returns (steps: seq<PipeStep>, n: nat)
    requires !s.sender.stopped && 1 <= s.sender.batchSize && |s.sender.batch| <= s.sender.batchSize
    requires Stop in s.sender.batch || Stop in s.queue
    ensures forall i :: 0 <= i < |steps| ==> steps[i].Take? || steps[i].EndBatch?
    ensures n <= |s.queue| && (Stop in s.sender.batch || Stop in s.queue[..n])
    ensures var t := NextAll(s, steps);
            && t.sender.stopped && t.queue == s.queue[n..] && t.producers == s.producers
            && TakenOf(t.removed) == TakenOf(s.removed) + s.queue[..n]
            && DiscardedOf(t.removed) == DiscardedOf(s.removed)
    decreases |s.queue|, |s.sender.batch|
  {
    hide TakenOf, DiscardedOf, Next;
    var d := s.sender;
    if d.batch != [] && (s.queue == [] || |d.batch| == d.batchSize) {
      BatchEnds(s);
      var rest := [];
      n := 0;
      if Stop !in d.batch { rest, n := SenderCanStop(Next(s, EndBatch)); } else { NothingTaken(s); }
      steps := [EndBatch] + rest;
      assert steps[0] == EndBatch && steps[1..] == rest;
    } else {
      EntryTaken(s);
      var rest, m := SenderCanStop(Next(s, Take));
      n := m + 1;
      steps := [Take] + rest;
      assert steps[0] == Take && steps[1..] == rest;
      TakenTogether(s.queue, TakenOf(s.removed), m);
    }
  }

  lemma NothingTaken(s: Pipe)
    ensures TakenOf(s.removed) + s.queue[..0] == TakenOf(s.removed) && s.queue[0..] == s.queue
  {
  }

  lemma TakenTogether(queue: seq<Entry>, taken: seq<Entry>, m: nat)
    requires queue != [] && m <= |queue[1..]|
    ensures (taken + [queue[0]]) + queue[1..][..m] == taken + queue[..m + 1]
    ensures queue[1..][m..] == queue[m + 1..]
    ensures queue[..m + 1] == [queue[0]] + queue[1..][..m]
  {
  }

  lemma BatchEnds(s: Pipe)
    requires s.sender.batch != [] && (s.queue == [] || |s.sender.batch| == s.sender.batchSize)
    ensures var t := Next(s, EndBatch);
            && t.queue == s.queue && t.producers == s.producers && t.removed == s.removed
            && t.sender.batch == [] && t.sender.batchSize == s.sender.batchSize
            && (t.sender.stopped <==> Stop in s.sender.batch)
  {
  }

  lemma EntryTaken(s: Pipe)
    requires s.queue != [] && !s.sender.stopped && |s.sender.batch| < s.sender.batchSize
    ensures var t := Next(s, Take);
            && t.queue == s.queue[1..] && t.producers == s.producers
            && t.sender == s.sender.(batch := s.sender.batch + [s.queue[0]])
            && TakenOf(t.removed) == TakenOf(s.removed) + [s.queue[0]]
            && DiscardedOf(t.removed) == DiscardedOf(s.removed)
  {
    hide TakenOf, DiscardedOf;
    RemoveAccounted(s, Taken(s.queue[0]));
    TakenPush(s.removed, Taken(s.queue[0]));
  }
}
