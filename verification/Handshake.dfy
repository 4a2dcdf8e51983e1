/**
 Batches handed to consumers and verdicts handed back, beside a broker that redelivers what is
 not acknowledged: every interleaving of delivery threads, of consumers, of timeouts and of
 stopping, one shared operation at a time.
 */
module Handshake {
  import opened Wrappers
  import opened Models
  import opened Totals

  datatype Verdict = HANDLED | REQUEUE

  /** A message on the bus: readable, or not. */
  datatype Notification = Batch(events: seq<Event>) | Unreadable

  /** Where a delivery thread is inside the endpoint. */
  datatype Thread =
    | Arrived             // called, payload not yet read
    | Waiting             // parked, waiting for a verdict with a time limit
    | TimedOut            // the wait ended without one
    | Abandoned           // took the delivery back
    | WaitingOn           // found it claimed: waiting without limit
    | Woken               // the wait ended with a verdict
    | Returned(verdict: Verdict)

  /** Who settled a delivery. */
  datatype Owner = ByThread | ByConsumer(consumer: nat)

  /**
   One batch handed over. `settled`, `handled` and `done` are the object's own fields; the
   others record what happened to it: who settled it, how often its handler was started,
   whether the handler returned normally, and whether it has been counted.
   */
  datatype Delivery = Delivery(
    message: nat,
    thread: Thread,
    settled: bool,
    handled: bool,
    done: bool,
    owner: Option<Owner>,
    runs: nat,
    succeeded: bool,
    counted: bool)

  /** Where a consumer is inside `consume`, or inside the release of what is parked when stopping. */
  datatype Consumer =
    | Free
    | Holding(delivery: nat, releasing: bool)
    | Handling(delivery: nat)
    | Succeeded(delivery: nat)
    | Failed(delivery: nat)
    | Releasing(delivery: nat)
    | Signalling(delivery: nat, ok: bool)
    | Counting(delivery: nat)
    | Crashed(delivery: nat) // the handler raised something that escapes `consume`

  datatype Bus = Bus(
    messages: seq<Notification>,
    queue: seq<nat>,
    deliveries: seq<Delivery>,
    pending: seq<nat>,
    consumers: seq<Consumer>,
    received: nat)

  datatype Step =
    | Publish(message: Notification)
    | Dispatch(at: nat)
    | Read(d: nat)
    | TimeOut(d: nat)
    | TakeBack(d: nat)
    | Wake(d: nat)
    | Answer(d: nat)
    | Get(c: nat, releasing: bool)
    | Claim(c: nat)
    | HandlerReturns(c: nat)
    | HandlerRaises(c: nat)
    | HandlerEscapes(c: nat)
    | WriteVerdict(c: nat)
    | SetDone(c: nat)
    | Count(c: nat)

  function Without(s: seq<nat>, i: nat): seq<nat>
    requires i < |s|
  {
    s[..i] + s[i + 1..]
  }

  /** A thread returns its verdict, and the broker acknowledges or takes the message back. */
  function Return(s: Bus, d: nat, verdict: Verdict): Bus
    requires d < |s.deliveries|
  {
    var t := s.(deliveries := s.deliveries[d := s.deliveries[d].(thread := Returned(verdict))]);
    if verdict == REQUEUE then t.(queue := s.queue + [s.deliveries[d].message]) else t
  }

  function SetThread(s: Bus, d: nat, thread: Thread): Bus
    requires d < |s.deliveries|
  {
    s.(deliveries := s.deliveries[d := s.deliveries[d].(thread := thread)])
  }

  function ThreadStep(s: Bus, step: Step, d: nat): Bus
    requires d < |s.deliveries|
  {
    var x := s.deliveries[d];
    match step
    case Read(_) =>
      if !x.thread.Arrived? || x.message >= |s.messages| then s
      else if s.messages[x.message].Unreadable? then Return(s, d, HANDLED)
      else SetThread(s, d, Waiting).(pending := s.pending + [d])
    case TimeOut(_) => if x.thread.Waiting? && !x.done then SetThread(s, d, TimedOut) else s
    case TakeBack(_) =>
      if x.thread.Abandoned? then Return(s, d, REQUEUE)
      else if !x.thread.TimedOut? then s
      else if x.settled then SetThread(s, d, WaitingOn)
      else s.(deliveries := s.deliveries[d := x.(thread := Abandoned, settled := true, owner := Some(ByThread))])
    case Wake(_) => if (x.thread.Waiting? || x.thread.WaitingOn?) && x.done then SetThread(s, d, Woken) else s
    case Answer(_) => if x.thread.Woken? then Return(s, d, if x.handled then HANDLED else REQUEUE) else s
    case _ => s
  }

  function SetConsumer(s: Bus, c: nat, to: Consumer): Bus
    requires c < |s.consumers|
  {
    s.(consumers := s.consumers[c := to])
  }

  function SetDelivery(s: Bus, d: nat, to: Delivery): Bus
    requires d < |s.deliveries|
  {
    s.(deliveries := s.deliveries[d := to])
  }

  function SizeOf(messages: seq<Notification>, m: nat): nat {
    if m < |messages| && messages[m].Batch? then |messages[m].events| else 0
  }

  /** The delivery a consumer is busy with. */
  function Subject(k: Consumer): Option<nat> {
    if k.Free? then None else Some(k.delivery)
  }

  function ConsumerStep(s: Bus, step: Step, c: nat): Bus
    requires c < |s.consumers|
  {
    var k := s.consumers[c];
    if k.Free? then
      if step.Get? && s.pending != [] then
        SetConsumer(s, c, Holding(s.pending[0], step.releasing)).(pending := s.pending[1..])
      else s
    else if k.delivery >= |s.deliveries| then s
    else
      var d, x := k.delivery, s.deliveries[k.delivery];
      match step
      case Claim(_) =>
        if !k.Holding? then s
        else if x.settled then SetConsumer(s, c, Free)
        else if k.releasing then
          SetConsumer(SetDelivery(s, d, x.(settled := true, owner := Some(ByConsumer(c)))), c, Releasing(d))
        else
          SetConsumer(SetDelivery(s, d, x.(settled := true, owner := Some(ByConsumer(c)), runs := x.runs + 1)),
                      c, Handling(d))
      case HandlerReturns(_) =>
        if k.Handling? then SetConsumer(SetDelivery(s, d, x.(succeeded := true)), c, Succeeded(d)) else s
      case HandlerRaises(_) => if k.Handling? then SetConsumer(s, c, Failed(d)) else s
      case HandlerEscapes(_) => if k.Handling? then SetConsumer(s, c, Crashed(d)) else s
      case WriteVerdict(_) =>
        if k.Succeeded? then SetConsumer(SetDelivery(s, d, x.(handled := true)), c, Signalling(d, true))
        else if k.Failed? || k.Releasing? then
          SetConsumer(SetDelivery(s, d, x.(handled := false)), c, Signalling(d, false))
        else s
      case SetDone(_) =>
        if k.Signalling? then
          SetConsumer(SetDelivery(s, d, x.(done := true)), c, if k.ok then Counting(d) else Free)
        else s
      case Count(_) =>
        if k.Counting? then
          SetConsumer(SetDelivery(s, d, x.(counted := true)), c, Free)
            .(received := s.received + SizeOf(s.messages, x.message))
        else s
      case _ => s
  }

  function Parked(message: nat): Delivery {
    Delivery(message, Arrived, false, false, false, None, 0, false, false)
  }

  /** A step that is not possible changes nothing. */
  function Next(s: Bus, step: Step): Bus {
    match step
    case Publish(n) => s.(messages := s.messages + [n], queue := s.queue + [|s.messages|])
    case Dispatch(at) =>
      if at >= |s.queue| then s
      else s.(queue := Without(s.queue, at), deliveries := s.deliveries + [Parked(s.queue[at])])
    case Read(d) => if d < |s.deliveries| then ThreadStep(s, step, d) else s
    case TimeOut(d) => if d < |s.deliveries| then ThreadStep(s, step, d) else s
    case TakeBack(d) => if d < |s.deliveries| then ThreadStep(s, step, d) else s
    case Wake(d) => if d < |s.deliveries| then ThreadStep(s, step, d) else s
    case Answer(d) => if d < |s.deliveries| then ThreadStep(s, step, d) else s
    case Get(c, _) => if c < |s.consumers| then ConsumerStep(s, step, c) else s
    case Claim(c) => if c < |s.consumers| then ConsumerStep(s, step, c) else s
    case HandlerReturns(c) => if c < |s.consumers| then ConsumerStep(s, step, c) else s
    case HandlerRaises(c) => if c < |s.consumers| then ConsumerStep(s, step, c) else s
    case HandlerEscapes(c) => if c < |s.consumers| then ConsumerStep(s, step, c) else s
    case WriteVerdict(c) => if c < |s.consumers| then ConsumerStep(s, step, c) else s
    case SetDone(c) => if c < |s.consumers| then ConsumerStep(s, step, c) else s
    case Count(c) => if c < |s.consumers| then ConsumerStep(s, step, c) else s
  }

  function NextAll(s: Bus, steps: seq<Step>): Bus
    decreases |steps|
  {
    if steps == [] then s else NextAll(Next(s, steps[0]), steps[1..])
  }

  function NewBus(consumers: nat): Bus {
    Bus([], [], [], [], seq(consumers, c => Free), 0)
  }

  // ----- the protocol's invariant ---------------------------------------------------

  /** A consumer that took a delivery and has not said it is done; if its handler escaped, it never will. */
  predicate StillOwns(k: Consumer, d: nat) {
    !k.Free? && !k.Holding? && !k.Counting? && k.delivery == d
  }

  /** What holds of one delivery, whatever its thread and its owner are doing. */
  predicate GoodDelivery(messages: seq<Notification>, consumers: seq<Consumer>, d: nat, x: Delivery) {
    && x.message < |messages|
    && (x.settled <==> x.owner.Some?)
    && x.runs <= 1 && (x.succeeded ==> x.runs == 1) && (x.counted ==> x.succeeded && x.done)
    && (x.owner.None? || x.owner == Some(ByThread) ==> x.runs == 0 && !x.done && !x.handled)
    && (x.owner.Some? && x.owner.value.ByConsumer? ==>
          && x.owner.value.consumer < |consumers|
          && (x.done ==> x.handled == x.succeeded)
          && (!x.done ==> StillOwns(consumers[x.owner.value.consumer], d))
          && (x.done && x.succeeded && !x.counted ==> consumers[x.owner.value.consumer] == Counting(d)))
    && (messages[x.message].Unreadable? ==> x.owner.None? && (x.thread.Arrived? || x.thread == Returned(HANDLED)))
    && match x.thread
       case Arrived => x.owner.None?
       case Waiting => x.owner != Some(ByThread)
       case TimedOut => x.owner != Some(ByThread)
       case Abandoned => x.owner == Some(ByThread)
       case WaitingOn => x.owner.Some? && x.owner.value.ByConsumer?
       case Woken => x.done
       case Returned(v) =>
         if v == HANDLED then messages[x.message].Unreadable? || (x.done && x.succeeded)
         else !messages[x.message].Unreadable? && !x.succeeded && (x.owner == Some(ByThread) || x.done)
  }

  /** A delivery that consumers may hold: read, and parked at least once. */
  predicate Offered(messages: seq<Notification>, deliveries: seq<Delivery>, d: nat) {
    && d < |deliveries| && deliveries[d].message < |messages|
    && messages[deliveries[d].message].Batch? && !deliveries[d].thread.Arrived?
  }

  /** What holds of one consumer and the delivery it is busy with. */
  predicate GoodConsumer(messages: seq<Notification>, deliveries: seq<Delivery>, c: nat, k: Consumer) {
    k.Free? ||
    (Offered(messages, deliveries, k.delivery) &&
     var x := deliveries[k.delivery];
     (k.Holding? ||
      (x.owner == Some(ByConsumer(c)) && x.done == k.Counting? &&
       match k
       case Handling(_) => x.runs == 1 && !x.succeeded && !x.handled
       case Succeeded(_) => x.succeeded
       case Failed(_) => x.runs == 1 && !x.succeeded && !x.handled
       case Releasing(_) => x.runs == 0 && !x.handled
       case Signalling(_, ok) => x.handled == x.succeeded == ok
       case Counting(_) => x.succeeded && x.handled && !x.counted
       case Crashed(_) => x.runs == 1 && !x.succeeded && !x.handled
       case _ => true)))
  }

  ghost predicate Good(s: Bus) {
    && (forall d :: 0 <= d < |s.deliveries| ==> GoodDelivery(s.messages, s.consumers, d, s.deliveries[d]))
    && (forall c :: 0 <= c < |s.consumers| ==> GoodConsumer(s.messages, s.deliveries, c, s.consumers[c]))
    && (forall i :: 0 <= i < |s.pending| ==> Offered(s.messages, s.deliveries, s.pending[i]))
  }

  /** A change to one delivery's thread leaves everything consumers rely on in place. */
  lemma ThreadMoved(s: Bus, d: nat, x: Delivery)
    requires Good(s) && d < |s.deliveries|
    requires x == s.deliveries[d].(thread := x.thread, settled := x.settled, owner := x.owner)
    requires s.deliveries[d].thread.Arrived? ==> s.messages[x.message].Unreadable? || x.thread.Waiting?
    requires !x.thread.Arrived?
    requires x.owner == s.deliveries[d].owner || s.deliveries[d].owner.None?
    requires GoodDelivery(s.messages, s.consumers, d, x)
    ensures Good(SetDelivery(s, d, x))
  {
    var t := SetDelivery(s, d, x);
    forall c | 0 <= c < |t.consumers| ensures GoodConsumer(t.messages, t.deliveries, c, t.consumers[c]) {
      assert GoodConsumer(s.messages, s.deliveries, c, s.consumers[c]);
    }
    forall i | 0 <= i < |t.pending| ensures Offered(t.messages, t.deliveries, t.pending[i]) {
      assert Offered(s.messages, s.deliveries, s.pending[i]);
    }
    forall e | 0 <= e < |t.deliveries| ensures GoodDelivery(t.messages, t.consumers, e, t.deliveries[e]) {
      assert GoodDelivery(s.messages, s.consumers, e, s.deliveries[e]);
    }
  }

  /** A consumer that owns its delivery, or takes it, moves; nobody else is affected. */
  lemma ConsumerMoved(s: Bus, c: nat, k: Consumer, d: nat, x: Delivery)
    requires Good(s) && c < |s.consumers| && d < |s.deliveries|
    requires Subject(s.consumers[c]) == Some(d) && (k.Free? || k.delivery == d)
    requires x.message == s.deliveries[d].message && x.thread == s.deliveries[d].thread
    requires s.consumers[c].Holding? ==> s.deliveries[d].owner.None? || (x == s.deliveries[d] && k.Free?)
    requires GoodDelivery(s.messages, s.consumers[c := k], d, x)
    requires GoodConsumer(s.messages, s.deliveries[d := x], c, k)
    requires k.Free? ==> forall e :: 0 <= e < |s.deliveries| && e != d ==>
               s.deliveries[e].owner != Some(ByConsumer(c)) || s.deliveries[e].done
    ensures Good(SetConsumer(SetDelivery(s, d, x), c, k))
  {
    var t := SetConsumer(SetDelivery(s, d, x), c, k);
    assert GoodConsumer(s.messages, s.deliveries, c, s.consumers[c]);
    forall b | 0 <= b < |t.consumers| ensures GoodConsumer(t.messages, t.deliveries, b, t.consumers[b]) {
      assert GoodConsumer(s.messages, s.deliveries, b, s.consumers[b]);
    }
    forall i | 0 <= i < |t.pending| ensures Offered(t.messages, t.deliveries, t.pending[i]) {
      assert Offered(s.messages, s.deliveries, s.pending[i]);
    }
    forall e | 0 <= e < |t.deliveries| ensures GoodDelivery(t.messages, t.consumers, e, t.deliveries[e]) {
      assert GoodDelivery(s.messages, s.consumers, e, s.deliveries[e]);
    }
  }

  lemma ThreadStepGood(s: Bus, step: Step, d: nat)
    requires Good(s) && d < |s.deliveries|
    ensures Good(ThreadStep(s, step, d))
  {
    var x := s.deliveries[d];
    assert GoodDelivery(s.messages, s.consumers, d, x);
    var t := ThreadStep(s, step, d);
    if t.deliveries != s.deliveries {
      ThreadMoved(s, d, t.deliveries[d]);
      assert t.deliveries == SetDelivery(s, d, t.deliveries[d]).deliveries;
      if step.Read? && s.messages[x.message].Batch? {
        forall i | 0 <= i < |t.pending| ensures Offered(t.messages, t.deliveries, t.pending[i]) {
          if i < |s.pending| {
            assert Offered(s.messages, SetDelivery(s, d, t.deliveries[d]).deliveries, s.pending[i]);
          }
        }
      }
    }
  }

  lemma ConsumerStepGood(s: Bus, step: Step, c: nat)
    requires Good(s) && c < |s.consumers|
    ensures Good(ConsumerStep(s, step, c))
  {
    var k := s.consumers[c];
    assert GoodConsumer(s.messages, s.deliveries, c, k);
    if k.Free? {
      if step.Get? && s.pending != [] { GetGood(s, c, step.releasing); }
    } else {
      var d := k.delivery;
      assert GoodDelivery(s.messages, s.consumers, d, s.deliveries[d]);
      var t := ConsumerStep(s, step, c);
      if t != s {
        OnlyOne(s, c, d);
        ConsumerMoved(s, c, t.consumers[c], d, t.deliveries[d]);
        assert t.deliveries == s.deliveries[d := t.deliveries[d]];
        assert t.consumers == s.consumers[c := t.consumers[c]];
      }
    }
  }

  /** Its owner has said it is done and, where that is due, counted it. */
  predicate Through(x: Delivery) {
    x.done && (x.succeeded ==> x.counted)
  }

  /** A consumer owns at most the delivery it is busy with. */
  lemma OnlyOne(s: Bus, c: nat, d: nat)
    requires Good(s) && c < |s.consumers| && Subject(s.consumers[c]) == Some(d)
    ensures forall e :: 0 <= e < |s.deliveries| && e != d ==>
              s.deliveries[e].owner != Some(ByConsumer(c)) || Through(s.deliveries[e])
  {
    forall e | 0 <= e < |s.deliveries| && e != d
      ensures s.deliveries[e].owner != Some(ByConsumer(c)) || Through(s.deliveries[e])
    {
      assert GoodDelivery(s.messages, s.consumers, e, s.deliveries[e]);
    }
  }

  lemma GetGood(s: Bus, c: nat, releasing: bool)
    requires Good(s) && c < |s.consumers| && s.consumers[c].Free? && s.pending != []
    ensures Good(SetConsumer(s, c, Holding(s.pending[0], releasing)).(pending := s.pending[1..]))
  {
    var t := SetConsumer(s, c, Holding(s.pending[0], releasing)).(pending := s.pending[1..]);
    forall e | 0 <= e < |t.deliveries| ensures GoodDelivery(t.messages, t.consumers, e, t.deliveries[e]) {
      assert GoodDelivery(s.messages, s.consumers, e, s.deliveries[e]);
    }
    forall b | 0 <= b < |t.consumers| ensures GoodConsumer(t.messages, t.deliveries, b, t.consumers[b]) {
      assert GoodConsumer(s.messages, s.deliveries, b, s.consumers[b]);
    }
  }

  /** More messages, or one more delivery just arrived, disturb nothing. */
  lemma GrowGood(s: Bus, t: Bus)
    requires Good(s)
    requires t.consumers == s.consumers && t.pending == s.pending && s.messages <= t.messages
    requires t.deliveries == s.deliveries ||
             exists m: nat :: m < |t.messages| && t.deliveries == s.deliveries + [Parked(m)]
    ensures Good(t)
  {
    forall e | 0 <= e < |t.deliveries| ensures GoodDelivery(t.messages, t.consumers, e, t.deliveries[e]) {
      if e < |s.deliveries| { assert GoodDelivery(s.messages, s.consumers, e, s.deliveries[e]); }
    }
    forall b | 0 <= b < |t.consumers| ensures GoodConsumer(t.messages, t.deliveries, b, t.consumers[b]) {
      assert GoodConsumer(s.messages, s.deliveries, b, s.consumers[b]);
    }
    forall i | 0 <= i < |t.pending| ensures Offered(t.messages, t.deliveries, t.pending[i]) {
      assert Offered(s.messages, s.deliveries, s.pending[i]);
    }
  }

  ghost predicate QueueKnown(s: Bus) {
    forall i :: 0 <= i < |s.queue| ==> s.queue[i] < |s.messages|
  }

  lemma StepGood(s: Bus, step: Step)
    requires Good(s) && QueueKnown(s)
    ensures Good(Next(s, step)) && QueueKnown(Next(s, step))
  {
    hide Good, GoodDelivery, GoodConsumer;
    match step {
      case Publish(n) => GrowGood(s, Next(s, step));
      case Dispatch(at) =>
        if at < |s.queue| {
          assert s.queue[at] < |s.messages|;
          GrowGood(s, Next(s, step));
        }
      case Read(d) => if d < |s.deliveries| { ThreadStepGood(s, step, d); KnownMessages(s); }
      case TimeOut(d) => if d < |s.deliveries| { ThreadStepGood(s, step, d); KnownMessages(s); }
      case TakeBack(d) => if d < |s.deliveries| { ThreadStepGood(s, step, d); KnownMessages(s); }
      case Wake(d) => if d < |s.deliveries| { ThreadStepGood(s, step, d); KnownMessages(s); }
      case Answer(d) => if d < |s.deliveries| { ThreadStepGood(s, step, d); KnownMessages(s); }
      case Get(c, _) => if c < |s.consumers| { ConsumerStepGood(s, step, c); }
      case Claim(c) => if c < |s.consumers| { ConsumerStepGood(s, step, c); }
      case HandlerReturns(c) => if c < |s.consumers| { ConsumerStepGood(s, step, c); }
      case HandlerRaises(c) => if c < |s.consumers| { ConsumerStepGood(s, step, c); }
      case HandlerEscapes(c) => if c < |s.consumers| { ConsumerStepGood(s, step, c); }
      case WriteVerdict(c) => if c < |s.consumers| { ConsumerStepGood(s, step, c); }
      case SetDone(c) => if c < |s.consumers| { ConsumerStepGood(s, step, c); }
      case Count(c) => if c < |s.consumers| { ConsumerStepGood(s, step, c); }
    }
  }

  lemma KnownMessages(s: Bus)
    requires Good(s)
    ensures forall d :: 0 <= d < |s.deliveries| ==> s.deliveries[d].message < |s.messages|
  {
    forall d | 0 <= d < |s.deliveries| ensures s.deliveries[d].message < |s.messages| {
      assert GoodDelivery(s.messages, s.consumers, d, s.deliveries[d]);
    }
  }

  // ----- counting ---------------------------------------------------------------------

  predicate Live(x: Delivery) {
    !x.thread.Returned?
  }

  predicate Acknowledged(x: Delivery) {
    x.thread == Returned(HANDLED)
  }

  function LiveOf(m: nat): Delivery -> nat {
    (x: Delivery) => if x.message == m && Live(x) then 1 else 0
  }

  function AcknowledgedOf(m: nat): Delivery -> nat {
    (x: Delivery) => if x.message == m && Acknowledged(x) then 1 else 0
  }

  function SucceededOf(m: nat): Delivery -> nat {
    (x: Delivery) => if x.message == m && x.succeeded then 1 else 0
  }

  function LiveSucceededOf(m: nat): Delivery -> nat {
    (x: Delivery) => if x.message == m && x.succeeded && Live(x) then 1 else 0
  }

  const ANY_LIVE: Delivery -> nat := x => if Live(x) then 1 else 0
  const ANY_ACKNOWLEDGED: Delivery -> nat := x => if Acknowledged(x) then 1 else 0

  /** Each message is at the broker, with one live delivery, or acknowledged: exactly one of them, once. */
  ghost predicate Conserved(s: Bus) {
    && (forall m: nat :: m < |s.messages| ==> Copies(s, m) == 1)
    && Everywhere(s) == |s.messages|
  }

  /** How many messages there are in all: at the broker, parked or claimed, and acknowledged. */
  function Everywhere(s: Bus): nat {
    |s.queue| + Total(s.deliveries, ANY_LIVE) + Total(s.deliveries, ANY_ACKNOWLEDGED)
  }

  function Copies(s: Bus, m: nat): nat {
    multiset(s.queue)[m] + Total(s.deliveries, LiveOf(m)) + Total(s.deliveries, AcknowledgedOf(m))
  }

  /** A message no delivery knows weighs nothing. */
  lemma {:induction false} UnknownWeighsNothing(deliveries: seq<Delivery>, m: nat)
    requires forall d :: 0 <= d < |deliveries| ==> deliveries[d].message != m
    ensures Total(deliveries, LiveOf(m)) == 0 && Total(deliveries, AcknowledgedOf(m)) == 0
  {
    if deliveries != [] { UnknownWeighsNothing(deliveries[1..], m); }
  }

  /** Nothing but a return changes where a message counts. */
  lemma SameShare(s: Bus, d: nat, x: Delivery, m: nat)
    requires d < |s.deliveries| && x.message == s.deliveries[d].message
    requires Live(x) == Live(s.deliveries[d]) && Acknowledged(x) == Acknowledged(s.deliveries[d])
    ensures Copies(SetDelivery(s, d, x), m) == Copies(s, m)
    ensures Total(SetDelivery(s, d, x).deliveries, ANY_LIVE) == Total(s.deliveries, ANY_LIVE)
    ensures Total(SetDelivery(s, d, x).deliveries, ANY_ACKNOWLEDGED) == Total(s.deliveries, ANY_ACKNOWLEDGED)
  {
    TotalUpdate(s.deliveries, d, x, LiveOf(m));
    TotalUpdate(s.deliveries, d, x, AcknowledgedOf(m));
    TotalUpdate(s.deliveries, d, x, ANY_LIVE);
    TotalUpdate(s.deliveries, d, x, ANY_ACKNOWLEDGED);
  }

  lemma ReturnConserves(s: Bus, d: nat, verdict: Verdict)
    requires d < |s.deliveries| && Live(s.deliveries[d])
    ensures forall m: nat :: Copies(Return(s, d, verdict), m) == Copies(s, m)
    ensures var t := Return(s, d, verdict);
            Everywhere(t) == Everywhere(s)
  {
    var x := s.deliveries[d].(thread := Returned(verdict));
    forall m: nat ensures Copies(Return(s, d, verdict), m) == Copies(s, m) {
      TotalUpdate(s.deliveries, d, x, LiveOf(m));
      TotalUpdate(s.deliveries, d, x, AcknowledgedOf(m));
    }
    TotalUpdate(s.deliveries, d, x, ANY_LIVE);
    TotalUpdate(s.deliveries, d, x, ANY_ACKNOWLEDGED);
  }

  lemma DispatchConserves(s: Bus, at: nat)
    requires at < |s.queue|
    ensures forall m: nat :: Copies(Next(s, Dispatch(at)), m) == Copies(s, m)
    ensures var t := Next(s, Dispatch(at));
            Everywhere(t) == Everywhere(s)
  {
    var x := Parked(s.queue[at]);
    assert s.queue == s.queue[..at] + [s.queue[at]] + s.queue[at + 1..];
    assert multiset(s.queue) == multiset(Without(s.queue, at)) + multiset{s.queue[at]};
    forall m: nat ensures Copies(Next(s, Dispatch(at)), m) == Copies(s, m) {
      TotalPush(s.deliveries, x, LiveOf(m));
      TotalPush(s.deliveries, x, AcknowledgedOf(m));
    }
    TotalPush(s.deliveries, x, ANY_LIVE);
    TotalPush(s.deliveries, x, ANY_ACKNOWLEDGED);
  }

  lemma PublishConserves(s: Bus, n: Notification)
    requires Good(s) && QueueKnown(s) && Conserved(s)
    ensures Conserved(Next(s, Publish(n)))
  {
    var t := Next(s, Publish(n));
    KnownMessages(s);
    forall m: nat | m < |t.messages| ensures Copies(t, m) == 1 {
      if m < |s.messages| {
        assert Copies(s, m) == 1;
      } else {
        UnknownWeighsNothing(s.deliveries, m);
        assert forall x :: x in s.queue ==> x != m;
        assert m !in multiset(s.queue);
      }
    }
  }

  /** Steps of consumers, and of threads that do not return, leave every delivery where it counts. */
  lemma QuietStepConserves(s: Bus, t: Bus, d: nat)
    requires Conserved(s) && d < |s.deliveries|
    requires t.messages == s.messages && t.queue == s.queue && |t.deliveries| == |s.deliveries|
    requires t.deliveries == s.deliveries[d := t.deliveries[d]]
    requires t.deliveries[d].message == s.deliveries[d].message
    requires Live(t.deliveries[d]) == Live(s.deliveries[d])
    requires Acknowledged(t.deliveries[d]) == Acknowledged(s.deliveries[d])
    ensures Conserved(t)
  {
    forall m: nat | m < |t.messages| ensures Copies(t, m) == 1 {
      SameShare(s, d, t.deliveries[d], m);
      assert Copies(s, m) == 1;
    }
    SameShare(s, d, t.deliveries[d], 0);
  }

  lemma ThreadStepConserves(s: Bus, step: Step, d: nat)
    requires Conserved(s) && d < |s.deliveries|
    ensures Conserved(ThreadStep(s, step, d))
  {
    hide Copies, Total;
    var t := ThreadStep(s, step, d);
    if t.deliveries[d].thread.Returned? && Live(s.deliveries[d]) {
      ReturnConserves(s, d, t.deliveries[d].thread.verdict);
      forall m: nat | m < |t.messages| ensures Copies(t, m) == 1 {
        assert Copies(s, m) == 1;
      }
    } else {
      QuietStepConserves(s, t, d);
    }
  }

  lemma ConsumerStepConserves(s: Bus, step: Step, c: nat)
    requires Conserved(s) && c < |s.consumers|
    ensures Conserved(ConsumerStep(s, step, c))
  {
    hide Copies, Total;
    var k, t := s.consumers[c], ConsumerStep(s, step, c);
    if !k.Free? && k.delivery < |s.deliveries| {
      QuietStepConserves(s, t, k.delivery);
    } else {
      forall m: nat | m < |t.messages| ensures Copies(t, m) == 1 {
        assert Copies(s, m) == 1;
        SameCopies(s, t, m);
      }
    }
  }

  lemma SameCopies(s: Bus, t: Bus, m: nat)
    requires t.queue == s.queue && t.deliveries == s.deliveries
    ensures Copies(t, m) == Copies(s, m)
  {
  }

  lemma StepConserves(s: Bus, step: Step)
    requires Good(s) && QueueKnown(s) && Conserved(s)
    ensures Conserved(Next(s, step))
  {
    hide Good, ThreadStep, ConsumerStep;
    match step {
      case Publish(n) => PublishConserves(s, n);
      case Dispatch(at) =>
        if at < |s.queue| {
          DispatchConserves(s, at);
          forall m: nat | m < |s.messages| ensures Copies(Next(s, step), m) == 1 {
            assert Copies(s, m) == 1;
          }
        }
      case Read(d) => if d < |s.deliveries| { ThreadStepConserves(s, step, d); }
      case TimeOut(d) => if d < |s.deliveries| { ThreadStepConserves(s, step, d); }
      case TakeBack(d) => if d < |s.deliveries| { ThreadStepConserves(s, step, d); }
      case Wake(d) => if d < |s.deliveries| { ThreadStepConserves(s, step, d); }
      case Answer(d) => if d < |s.deliveries| { ThreadStepConserves(s, step, d); }
      case Get(c, _) => if c < |s.consumers| { ConsumerStepConserves(s, step, c); }
      case Claim(c) => if c < |s.consumers| { ConsumerStepConserves(s, step, c); }
      case HandlerReturns(c) => if c < |s.consumers| { ConsumerStepConserves(s, step, c); }
      case HandlerRaises(c) => if c < |s.consumers| { ConsumerStepConserves(s, step, c); }
      case HandlerEscapes(c) => if c < |s.consumers| { ConsumerStepConserves(s, step, c); }
      case WriteVerdict(c) => if c < |s.consumers| { ConsumerStepConserves(s, step, c); }
      case SetDone(c) => if c < |s.consumers| { ConsumerStepConserves(s, step, c); }
      case Count(c) => if c < |s.consumers| { ConsumerStepConserves(s, step, c); }
    }
  }

  // ----- the totals of consume ----------------------------------------------------------

  function CountedSize(messages: seq<Notification>): Delivery -> nat {
    (x: Delivery) => if x.counted then SizeOf(messages, x.message) else 0
  }

  function AcknowledgedSize(messages: seq<Notification>): Delivery -> nat {
    (x: Delivery) => if Acknowledged(x) then SizeOf(messages, x.message) else 0
  }

  ghost predicate Tallied(s: Bus) {
    s.received == Total(s.deliveries, CountedSize(s.messages))
  }

  lemma StepTallies(s: Bus, step: Step)
    requires Good(s) && QueueKnown(s) && Tallied(s)
    ensures Tallied(Next(s, step))
  {
    hide Good;
    var t := Next(s, step);
    KnownMessages(s);
    if step.Publish? {
      TotalSame(s.deliveries, CountedSize(s.messages), CountedSize(t.messages));
    } else if step.Dispatch? {
      if step.at < |s.queue| { TotalPush(s.deliveries, Parked(s.queue[step.at]), CountedSize(s.messages)); }
    } else if t.deliveries != s.deliveries {
      var d := Touched(s, step);
      OnlyTouched(s, step);
      if step.Count? { CountOnce(s, step.c); }
      TotalUpdate(s.deliveries, d, t.deliveries[d], CountedSize(s.messages));
    } else {
      NothingReceived(s, step);
    }
  }

  /** The delivery a step of a thread or of a consumer is about. */
  function Touched(s: Bus, step: Step): nat {
    match step
    case Publish(_) => 0
    case Dispatch(_) => 0
    case Read(d) => d
    case TimeOut(d) => d
    case TakeBack(d) => d
    case Wake(d) => d
    case Answer(d) => d
    case Get(c, _) => 0
    case Claim(c) => BusyWith(s, c)
    case HandlerReturns(c) => BusyWith(s, c)
    case HandlerRaises(c) => BusyWith(s, c)
    case HandlerEscapes(c) => BusyWith(s, c)
    case WriteVerdict(c) => BusyWith(s, c)
    case SetDone(c) => BusyWith(s, c)
    case Count(c) => BusyWith(s, c)
  }

  function BusyWith(s: Bus, c: nat): nat {
    if c < |s.consumers| then Subject(s.consumers[c]).GetOr(0) else 0
  }

  lemma OnlyTouched(s: Bus, step: Step)
    requires !step.Publish? && !step.Dispatch? && Next(s, step).deliveries != s.deliveries
    ensures var d, t := Touched(s, step), Next(s, step);
            && d < |s.deliveries| == |t.deliveries| && t.deliveries == s.deliveries[d := t.deliveries[d]]
            && t.messages == s.messages && t.deliveries[d].message == s.deliveries[d].message
            && (if step.Count? then
                  && step.c < |s.consumers| && s.consumers[step.c] == Counting(d) && t.deliveries[d].counted
                  && t.received == s.received + SizeOf(s.messages, s.deliveries[d].message)
                else t.received == s.received && t.deliveries[d].counted == s.deliveries[d].counted)
  {
  }

  lemma NothingReceived(s: Bus, step: Step)
    requires Good(s) && !step.Publish? && !step.Dispatch? && Next(s, step).deliveries == s.deliveries
    ensures Next(s, step).received == s.received && Next(s, step).messages == s.messages
  {
    if step.Count? && step.c < |s.consumers| && s.consumers[step.c].Counting? {
      CountOnce(s, step.c);
    }
  }

  lemma CountOnce(s: Bus, c: nat)
    requires Good(s) && c < |s.consumers| && s.consumers[c].Counting?
    ensures !s.deliveries[s.consumers[c].delivery].counted
  {
    assert GoodConsumer(s.messages, s.deliveries, c, s.consumers[c]);
  }

  // ----- every interleaving ---------------------------------------------------------------

  ghost predicate Holds(s: Bus) {
    Good(s) && QueueKnown(s) && Conserved(s) && Tallied(s)
  }

  lemma NewBusHolds(consumers: nat)
    ensures Holds(NewBus(consumers))
  {
  }

  lemma {:induction false} RunHolds(s: Bus, steps: seq<Step>)
    requires Holds(s)
    ensures Holds(NextAll(s, steps))
    decreases |steps|
  {
    hide Next, Good, QueueKnown, Conserved, Tallied;
    if steps != [] {
      StepGood(s, steps[0]);
      StepConserves(s, steps[0]);
      StepTallies(s, steps[0]);
      RunHolds(Next(s, steps[0]), steps[1..]);
    }
  }

  /**
   In every interleaving: a handler runs at most once for a delivery; the answer is "handled"
   exactly when the payload is unreadable or the handler returned normally; no readable delivery
   is answered before it was settled; and a thread that found its delivery claimed, or could
   find it so, has an owner who has not yet said it is done.
   */
  lemma ParkingHandshake(consumers: nat, steps: seq<Step>, d: nat)
    requires d < |NextAll(NewBus(consumers), steps).deliveries|
    ensures var s := NextAll(NewBus(consumers), steps);
            var x := s.deliveries[d];
            && x.message < |s.messages|
            && x.runs <= 1 && (x.settled <==> x.owner.Some?)
            && (x.thread.Returned? ==>
                  && (x.thread.verdict == HANDLED <==> s.messages[x.message].Unreadable? || x.succeeded)
                  && (s.messages[x.message].Batch? ==> x.settled))
            && ((x.thread.WaitingOn? || x.thread.Waiting? || x.thread.TimedOut?) && x.settled && !x.done ==>
                  exists c :: 0 <= c < |s.consumers| && StillOwns(s.consumers[c], d))
  {
    NewBusHolds(consumers);
    RunHolds(NewBus(consumers), steps);
    var s := NextAll(NewBus(consumers), steps);
    var x := s.deliveries[d];
    assert GoodDelivery(s.messages, s.consumers, d, x);
    if x.owner.Some? && x.owner.value.ByConsumer? && !x.done {
      assert StillOwns(s.consumers[x.owner.value.consumer], d);
    }
  }

  /** One step never unsettles a delivery, changes its owner, or takes back an answer. */
  lemma StepKeeps(s: Bus, step: Step, d: nat)
    requires Good(s) && QueueKnown(s) && d < |s.deliveries|
    ensures var t := Next(s, step);
            && d < |t.deliveries|
            && t.deliveries[d].message == s.deliveries[d].message
            && (s.deliveries[d].owner.Some? ==> t.deliveries[d].owner == s.deliveries[d].owner)
            && (s.deliveries[d].thread.Returned? ==> t.deliveries[d].thread == s.deliveries[d].thread)
            && s.messages <= t.messages
  {
    assert GoodDelivery(s.messages, s.consumers, d, s.deliveries[d]);
    if step.Publish? || step.Dispatch? || Next(s, step).deliveries == s.deliveries {
    } else {
      OnlyTouched(s, step);
    }
  }

  lemma {:induction false} RunKeeps(s: Bus, steps: seq<Step>, d: nat)
    requires Good(s) && QueueKnown(s) && d < |s.deliveries|
    ensures var t := NextAll(s, steps);
            && Good(t) && d < |t.deliveries|
            && t.deliveries[d].message == s.deliveries[d].message
            && (s.deliveries[d].owner.Some? ==> t.deliveries[d].owner == s.deliveries[d].owner)
            && (s.deliveries[d].thread.Returned? ==> t.deliveries[d].thread == s.deliveries[d].thread)
            && s.messages <= t.messages
    decreases |steps|
  {
    hide Next, Good, QueueKnown;
    if steps != [] {
      StepKeeps(s, steps[0], d);
      StepGood(s, steps[0]);
      RunKeeps(Next(s, steps[0]), steps[1..], d);
    }
  }

  /** A delivery is settled once: whoever settled it first is its owner for good. */
  lemma SettledOnce(consumers: nat, steps: seq<Step>, later: seq<Step>, d: nat)
    requires d < |NextAll(NewBus(consumers), steps).deliveries|
    requires NextAll(NewBus(consumers), steps).deliveries[d].settled
    ensures var s := NextAll(NewBus(consumers), steps);
            var t := NextAll(s, later);
            d < |t.deliveries| && t.deliveries[d].settled && t.deliveries[d].owner == s.deliveries[d].owner
  {
    var s := NextAll(NewBus(consumers), steps);
    NewBusHolds(consumers);
    RunHolds(NewBus(consumers), steps);
    assert GoodDelivery(s.messages, s.consumers, d, s.deliveries[d]);
    RunKeeps(s, later, d);
    var t := NextAll(s, later);
    assert GoodDelivery(t.messages, t.consumers, d, t.deliveries[d]);
  }

  /** "Requeue" means the handler has not succeeded on that delivery and never will. */
  lemma RequeueIsFinal(consumers: nat, steps: seq<Step>, later: seq<Step>, d: nat)
    requires d < |NextAll(NewBus(consumers), steps).deliveries|
    requires NextAll(NewBus(consumers), steps).deliveries[d].thread == Returned(REQUEUE)
    ensures var t := NextAll(NextAll(NewBus(consumers), steps), later);
            d < |t.deliveries| && t.deliveries[d].thread == Returned(REQUEUE) && !t.deliveries[d].succeeded
  {
    var s := NextAll(NewBus(consumers), steps);
    NewBusHolds(consumers);
    RunHolds(NewBus(consumers), steps);
    RunKeeps(s, later, d);
    var t := NextAll(s, later);
    assert GoodDelivery(t.messages, t.consumers, d, t.deliveries[d]);
  }

  /**
   At every step, whatever was published is waiting at the broker, parked or claimed, or
   acknowledged: in number, and message by message exactly one of the three.
   */
  lemma NothingLostNothingTwice(consumers: nat, steps: seq<Step>, m: nat)
    requires m < |NextAll(NewBus(consumers), steps).messages|
    ensures var s := NextAll(NewBus(consumers), steps);
            && multiset(s.queue)[m] + Total(s.deliveries, LiveOf(m)) + Total(s.deliveries, AcknowledgedOf(m)) == 1
            && |s.queue| + Total(s.deliveries, ANY_LIVE) + Total(s.deliveries, ANY_ACKNOWLEDGED) == |s.messages|
  {
    NewBusHolds(consumers);
    RunHolds(NewBus(consumers), steps);
    assert Copies(NextAll(NewBus(consumers), steps), m) == 1;
  }

  lemma SuccessesOf(s: Bus, m: nat)
    requires Good(s) && m < |s.messages| && s.messages[m].Batch?
    ensures Total(s.deliveries, SucceededOf(m))
         == Total(s.deliveries, AcknowledgedOf(m)) + Total(s.deliveries, LiveSucceededOf(m))
    ensures Total(s.deliveries, LiveSucceededOf(m)) <= Total(s.deliveries, LiveOf(m))
  {
    forall i | 0 <= i < |s.deliveries|
      ensures SucceededOf(m)(s.deliveries[i])
           == AcknowledgedOf(m)(s.deliveries[i]) + LiveSucceededOf(m)(s.deliveries[i])
    {
      assert GoodDelivery(s.messages, s.consumers, i, s.deliveries[i]);
    }
    TotalSum(s.deliveries, SucceededOf(m), AcknowledgedOf(m), LiveSucceededOf(m));
    TotalAtMost(s.deliveries, LiveSucceededOf(m), LiveOf(m));
  }

  /**
   However often a readable batch was redelivered, its handler has succeeded at most once over
   all its deliveries: exactly once when it is acknowledged, never while it waits at the broker.
   */
  lemma StoredExactlyOnce(consumers: nat, steps: seq<Step>, m: nat)
    requires m < |NextAll(NewBus(consumers), steps).messages|
    requires NextAll(NewBus(consumers), steps).messages[m].Batch?
    ensures var s := NextAll(NewBus(consumers), steps);
            && Total(s.deliveries, SucceededOf(m)) <= 1
            && (Total(s.deliveries, AcknowledgedOf(m)) >= 1 ==> Total(s.deliveries, SucceededOf(m)) == 1)
            && (m in s.queue ==> Total(s.deliveries, SucceededOf(m)) == 0)
  {
    NewBusHolds(consumers);
    RunHolds(NewBus(consumers), steps);
    var s := NextAll(NewBus(consumers), steps);
    assert Copies(s, m) == 1;
    SuccessesOf(s, m);
    assert m in s.queue <==> m in multiset(s.queue);
  }

  function LiveSucceededSize(messages: seq<Notification>): Delivery -> nat {
    (x: Delivery) => if x.succeeded && Live(x) then SizeOf(messages, x.message) else 0
  }

  function SucceededSize(messages: seq<Notification>): Delivery -> nat {
    (x: Delivery) => if x.succeeded then SizeOf(messages, x.message) else 0
  }

  /** Between its handler's return and its count. */
  predicate ToCount(k: Consumer) {
    k.Succeeded? || (k.Signalling? && k.ok) || k.Counting?
  }

  lemma CountedIffSucceeded(s: Bus, d: nat)
    requires Good(s) && d < |s.deliveries|
    requires forall c :: 0 <= c < |s.consumers| ==> !ToCount(s.consumers[c])
    ensures s.deliveries[d].counted == s.deliveries[d].succeeded
  {
    var x := s.deliveries[d];
    assert GoodDelivery(s.messages, s.consumers, d, x);
    if x.owner.Some? && x.owner.value.ByConsumer? {
      var c := x.owner.value.consumer;
      assert GoodConsumer(s.messages, s.deliveries, c, s.consumers[c]);
      assert !ToCount(s.consumers[c]);
    }
  }

  /**
   Whenever no consumer is between its handler's return and its count, whatever else is under way
   and whichever handlers escaped, the total is exactly the events of the batches whose handler
   returned: those acknowledged, and those whose thread has yet to say so. With every thread back
   it is the acknowledged events.
   */
  lemma TotalsAgree(consumers: nat, steps: seq<Step>)
    requires var s := NextAll(NewBus(consumers), steps);
             forall c :: 0 <= c < |s.consumers| ==> !ToCount(s.consumers[c])
    ensures var s := NextAll(NewBus(consumers), steps);
            && s.received == Total(s.deliveries, SucceededSize(s.messages))
            && s.received == Total(s.deliveries, AcknowledgedSize(s.messages))
                             + Total(s.deliveries, LiveSucceededSize(s.messages))
            && ((forall d :: 0 <= d < |s.deliveries| ==> s.deliveries[d].thread.Returned?) ==>
                  s.received == Total(s.deliveries, AcknowledgedSize(s.messages)))
  {
    NewBusHolds(consumers);
    RunHolds(NewBus(consumers), steps);
    var s := NextAll(NewBus(consumers), steps);
    var all, done, live := SucceededSize(s.messages), AcknowledgedSize(s.messages), LiveSucceededSize(s.messages);
    forall i | 0 <= i < |s.deliveries|
      ensures CountedSize(s.messages)(s.deliveries[i]) == all(s.deliveries[i])
      ensures all(s.deliveries[i]) == done(s.deliveries[i]) + live(s.deliveries[i])
    {
      CountedIffSucceeded(s, i);
      assert GoodDelivery(s.messages, s.consumers, i, s.deliveries[i]);
    }
    TotalSame(s.deliveries, CountedSize(s.messages), all);
    TotalSum(s.deliveries, all, done, live);
    if forall d :: 0 <= d < |s.deliveries| ==> s.deliveries[d].thread.Returned? { TotalZero(s.deliveries, live); }
  }

  /** A handler that escapes strands its delivery: no verdict ever comes, whatever happens next. */
  lemma {:induction false} CrashStrandsDelivery(s: Bus, steps: seq<Step>, c: nat, d: nat)
    requires Good(s) && QueueKnown(s)
    requires c < |s.consumers| && s.consumers[c] == Crashed(d)
    ensures var t := NextAll(s, steps);
            && c < |t.consumers| && t.consumers[c] == Crashed(d)
            && d < |t.deliveries| && !t.deliveries[d].done && !t.deliveries[d].thread.Returned?
    decreases |steps|
  {
    assert GoodConsumer(s.messages, s.deliveries, c, s.consumers[c]);
    assert GoodDelivery(s.messages, s.consumers, d, s.deliveries[d]);
    if steps != [] {
      StepGood(s, steps[0]);
      CrashedStays(s, steps[0], c);
      CrashStrandsDelivery(Next(s, steps[0]), steps[1..], c, d);
    }
  }

  lemma CrashedStays(s: Bus, step: Step, c: nat)
    requires c < |s.consumers| && s.consumers[c].Crashed?
    ensures |Next(s, step).consumers| == |s.consumers| && Next(s, step).consumers[c] == s.consumers[c]
  {
  }

  // ----- progress ----------------------------------------------------------------------------

  /** A consumer's handler escaped while it owned this delivery. */
  predicate Stranded(s: Bus, d: nat)
    requires d < |s.deliveries|
  {
    var o := s.deliveries[d].owner;
    o.Some? && o.value.ByConsumer? && o.value.consumer < |s.consumers| && s.consumers[o.value.consumer] == Crashed(d)
  }

  /** The step that takes an unanswered delivery on. A handler that is running may return. */
  function StepFor(s: Bus, d: nat): Step
    requires d < |s.deliveries|
  {
    var x := s.deliveries[d];
    match x.thread
    case Arrived => Read(d)
    case Waiting => if x.done then Wake(d) else TimeOut(d)
    case TimedOut => TakeBack(d)
    case Abandoned => TakeBack(d)
    case WaitingOn => if x.done then Wake(d) else OwnerStep(s, x.owner)
    case Woken => Answer(d)
    case Returned(_) => Answer(d)
  }

  function OwnerStep(s: Bus, owner: Option<Owner>): Step {
    if owner.None? || owner.value.ByThread? || owner.value.consumer >= |s.consumers| then Get(0, false)
    else
      var c := owner.value.consumer;
      match s.consumers[c]
      case Handling(_) => HandlerReturns(c)
      case Signalling(_, _) => SetDone(c)
      case _ => WriteVerdict(c)
  }

  /** How far a delivery is from its answer, at most. */
  function Distance(s: Bus, d: nat): nat
    requires d < |s.deliveries|
  {
    var x := s.deliveries[d];
    match x.thread
    case Arrived => 20
    case Waiting => 19
    case TimedOut => 18
    case WaitingOn => if x.done then 10 else 10 + OwnerDistance(s, x.owner)
    case Abandoned => 1
    case Woken => 1
    case Returned(_) => 0
  }

  function OwnerDistance(s: Bus, owner: Option<Owner>): nat {
    if owner.None? || owner.value.ByThread? || owner.value.consumer >= |s.consumers| then 0
    else
      match s.consumers[owner.value.consumer]
      case Handling(_) => 3
      case Signalling(_, _) => 1
      case _ => 2
  }

  /** One such step brings the answer nearer and strands nothing. */
  lemma ThreadNearer(s: Bus, d: nat)
    requires Good(s) && d < |s.deliveries| && Distance(s, d) > 0 && !Stranded(s, d)
    requires !s.deliveries[d].thread.WaitingOn? || s.deliveries[d].done
    ensures var t := Next(s, StepFor(s, d));
            d < |t.deliveries| && Distance(t, d) < Distance(s, d) && !Stranded(t, d)
  {
    assert GoodDelivery(s.messages, s.consumers, d, s.deliveries[d]);
    var t := ThreadStep(s, StepFor(s, d), d);
    assert Next(s, StepFor(s, d)) == t;
    assert t.consumers == s.consumers;
  }

  lemma OwnerNearer(s: Bus, d: nat)
    requires Good(s) && d < |s.deliveries| && !Stranded(s, d)
    requires s.deliveries[d].thread.WaitingOn? && !s.deliveries[d].done
    ensures var t := Next(s, StepFor(s, d));
            d < |t.deliveries| && Distance(t, d) < Distance(s, d) && !Stranded(t, d)
  {
    var x := s.deliveries[d];
    assert GoodDelivery(s.messages, s.consumers, d, x);
    var c := x.owner.value.consumer;
    assert StillOwns(s.consumers[c], d) && s.consumers[c] != Crashed(d);
    var step := StepFor(s, d);
    assert Next(s, step) == ConsumerStep(s, step, c);
  }

  /** A delivery that is not stranded can be answered; the steps that do it. */
  lemma {:induction false} CanBeAnswered(s: Bus, d: nat) returns (steps: seq<Step>)
    requires Good(s) && QueueKnown(s) && d < |s.deliveries| && !Stranded(s, d)
    ensures var t := NextAll(s, steps); d < |t.deliveries| && t.deliveries[d].thread.Returned?
    decreases Distance(s, d)
  {
    hide Next, Good, QueueKnown, Stranded;
    if s.deliveries[d].thread.Returned? {
      steps := [];
    } else {
      var step := StepFor(s, d);
      if s.deliveries[d].thread.WaitingOn? && !s.deliveries[d].done { OwnerNearer(s, d); } else { ThreadNearer(s, d); }
      StepGood(s, step);
      var rest := CanBeAnswered(Next(s, step), d);
      steps := [step] + rest;
      assert steps[0] == step && steps[1..] == rest;
    }
  }

  ghost predicate Answered(s: Bus, d: nat) {
    d < |s.deliveries| && s.deliveries[d].thread.Returned?
  }

  /**
   In any state any interleaving can reach, a delivery can still get its verdict exactly when no
   handler escaped while owning it.
   */
  lemma VerdictExactly(consumers: nat, steps: seq<Step>, d: nat)
    requires d < |NextAll(NewBus(consumers), steps).deliveries|
    ensures var s := NextAll(NewBus(consumers), steps);
            (exists more :: Answered(NextAll(s, more), d)) <==> !Stranded(s, d)
  {
    hide Next, Good, QueueKnown, Conserved, Tallied;
    NewBusHolds(consumers);
    RunHolds(NewBus(consumers), steps);
    var s := NextAll(NewBus(consumers), steps);
    if Stranded(s, d) {
      forall more ensures !Answered(NextAll(s, more), d) {
        CrashStrandsDelivery(s, more, s.deliveries[d].owner.value.consumer, d);
      }
    } else {
      var more := CanBeAnswered(s, d);
      assert Answered(NextAll(s, more), d);
    }
  }

  /** The events of the batches whose handler returned, each by its delivery and its place in the batch. */
  function HandledEvents(s: Bus): set<(nat, nat)> {
    set d: nat, j: nat |
      && d < |s.deliveries| && s.deliveries[d].succeeded && s.deliveries[d].message < |s.messages|
      && s.messages[s.deliveries[d].message].Batch? && j < |s.messages[s.deliveries[d].message].events|
      :: (d, j)
  }

  /** The total is the number of those events. */
  lemma TotalIsHandledEvents(consumers: nat, steps: seq<Step>)
    requires var s := NextAll(NewBus(consumers), steps);
             forall c :: 0 <= c < |s.consumers| ==> !ToCount(s.consumers[c])
    ensures var s := NextAll(NewBus(consumers), steps); s.received == |HandledEvents(s)|
  {
    hide NextAll;
    var s := NextAll(NewBus(consumers), steps);
    TotalsAgree(consumers, steps);
    TotalIsUnits(s.deliveries, SucceededSize(s.messages));
    assert HandledEvents(s) == Units(s.deliveries, SucceededSize(s.messages));
  }

  // ----- a verdict that is in ----------------------------------------------------------

  /** From a wait with the verdict in, a thread can only go on to answer it. */
  ghost predicate Hears(x: Delivery, ok: bool) {
    x.done && x.handled == ok
    && (x.thread.Waiting? || x.thread.Woken? || x.thread == Returned(if ok then HANDLED else REQUEUE))
  }

  lemma StepHears(s: Bus, step: Step, d: nat, ok: bool)
    requires Good(s) && d < |s.deliveries| && Hears(s.deliveries[d], ok)
    ensures d < |Next(s, step).deliveries| && Hears(Next(s, step).deliveries[d], ok)
  {
    hide GoodDelivery, SizeOf;
    forall c | 0 <= c < |s.consumers| ensures GoodConsumer(s.messages, s.deliveries, c, s.consumers[c]) {
    }
  }

  /** A delivery whose verdict came in while its thread waits is answered with that verdict and no other. */
  lemma {:induction false} DoneIsHeard(s: Bus, steps: seq<Step>, d: nat)
    requires Good(s) && QueueKnown(s)
    requires d < |s.deliveries| && s.deliveries[d].done && s.deliveries[d].thread.Waiting?
    ensures var t := NextAll(s, steps);
            d < |t.deliveries| && t.deliveries[d].handled == s.deliveries[d].handled
            && (t.deliveries[d].thread.Waiting? || t.deliveries[d].thread.Woken?
                || t.deliveries[d].thread == Returned(if s.deliveries[d].handled then HANDLED else REQUEUE))
  {
    hide Good, NextAll, QueueKnown;
    RunHears(s, steps, d, s.deliveries[d].handled);
  }

  lemma {:induction false} RunHears(s: Bus, steps: seq<Step>, d: nat, ok: bool)
    requires Good(s) && QueueKnown(s) && d < |s.deliveries| && Hears(s.deliveries[d], ok)
    ensures d < |NextAll(s, steps).deliveries| && Hears(NextAll(s, steps).deliveries[d], ok)
    decreases |steps|
  {
    hide Good, Next, Hears, QueueKnown;
    if steps != [] {
      StepHears(s, steps[0], d, ok);
      StepGood(s, steps[0]);
      RunHears(Next(s, steps[0]), steps[1..], d, ok);
    }
  }

  // ----- the order of hand-over ---------------------------------------------------------

  /** One step takes the delivery parked first, or parks one more behind the others, or leaves them. */
  lemma StepParks(s: Bus, step: Step)
    ensures var t := Next(s, step);
            || t.pending == s.pending
            || (s.pending != [] && t.pending == s.pending[1..])
            || (exists d: nat :: d < |s.deliveries| && s.deliveries[d].thread.Arrived? && t.pending == s.pending + [d])
    ensures |Next(s, step).deliveries| >= |s.deliveries|
    ensures forall d :: 0 <= d < |s.deliveries| && Next(s, step).deliveries[d].thread.Arrived? ==>
              s.deliveries[d].thread.Arrived?
  {
    hide SizeOf;
    if step.Read? && step.d < |s.deliveries| {
      ThreadParks(s, step, step.d);
    }
  }

  lemma ThreadParks(s: Bus, step: Step, d: nat)
    requires d < |s.deliveries|
    ensures var t := ThreadStep(s, step, d);
            t.pending == s.pending || (s.deliveries[d].thread.Arrived? && t.pending == s.pending + [d])
  {
  }

  /** Parked since this state: the delivery has yet to come, or to be read. */
  ghost predicate YetToPark(s: Bus, since: seq<nat>) {
    forall d :: d in since && d < |s.deliveries| ==> s.deliveries[d].thread.Arrived?
  }

  /**
   First parked, first handed over: after any run, what was parked before it and still is parked is the
   end of what was, in the order it was, ahead of everything parked since.
   */
  lemma {:induction false} ParkedFirstOut(s: Bus, steps: seq<Step>) returns (gone: nat, since: seq<nat>)
    requires Good(s)
    ensures gone <= |s.pending| && NextAll(s, steps).pending == s.pending[gone..] + since
    ensures forall d :: d in since ==> d !in s.pending
  {
    hide Good, NextAll, YetToPark;
    gone, since := ParkedInOrder(s, steps);
    ParkedOnce(s, since);
  }

  lemma {:induction false} ParkedInOrder(s: Bus, steps: seq<Step>) returns (gone: nat, since: seq<nat>)
    ensures gone <= |s.pending| && NextAll(s, steps).pending == s.pending[gone..] + since
    ensures YetToPark(s, since)
    decreases |steps|
  {
    hide Next, YetToPark;
    if steps == [] {
      gone, since := 0, [];
      assert s.pending[0..] + [] == s.pending;
      NoneToPark(s);
    } else {
      var t := Next(s, steps[0]);
      StepParks(s, steps[0]);
      gone, since := ParkedInOrder(t, steps[1..]);
      EarlierYet(s, t, since);
      if t.pending == s.pending {
      } else if s.pending != [] && t.pending == s.pending[1..] {
        assert s.pending[1..][gone..] == s.pending[gone + 1..];
        gone := gone + 1;
      } else {
        var d: nat :| d < |s.deliveries| && s.deliveries[d].thread.Arrived? && t.pending == s.pending + [d];
        if gone <= |s.pending| {
          MoreToPark(s, d, since);
          assert (s.pending + [d])[gone..] == s.pending[gone..] + [d];
          since := [d] + since;
        } else {
          gone := |s.pending|;
        }
      }
    }
  }

  lemma NoneToPark(s: Bus)
    ensures YetToPark(s, [])
  {
  }

  lemma EarlierYet(s: Bus, t: Bus, since: seq<nat>)
    requires YetToPark(t, since) && |s.deliveries| <= |t.deliveries|
    requires forall d :: 0 <= d < |s.deliveries| && t.deliveries[d].thread.Arrived? ==> s.deliveries[d].thread.Arrived?
    ensures YetToPark(s, since)
  {
  }

  lemma MoreToPark(s: Bus, d: nat, since: seq<nat>)
    requires YetToPark(s, since) && d < |s.deliveries| && s.deliveries[d].thread.Arrived?
    ensures YetToPark(s, [d] + since)
  {
  }

  lemma ParkedOnce(s: Bus, since: seq<nat>)
    requires Good(s) && YetToPark(s, since)
    ensures forall d :: d in since ==> d !in s.pending
  {
    hide GoodDelivery, GoodConsumer;
    forall d | d in s.pending ensures d !in since {
      var i :| 0 <= i < |s.pending| && s.pending[i] == d;
      assert Offered(s.messages, s.deliveries, s.pending[i]);
    }
  }
}
