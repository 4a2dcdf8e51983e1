/**
 The subscriber's own code, run by itself: one parked delivery, the loop that hands parked
 deliveries to a handler, and the loop that lets them go when stopping. How these interleave
 with the delivery threads is the subject of Handshake.
 */
module Subscribing {
  import opened Ordering
  import opened Models
  import opened Totals

  /** A parked batch, with who settled it and what became of it. */
  class Delivery {
    const events: seq<Event>
    var settled: bool
    var handled: bool
    var done: bool

    constructor (events: seq<Event>)
      ensures this.events == events && !settled && !handled && !done
    {
      this.events := events;
      settled, handled, done := false, false, false;
    }

    /** Settled from now on; true if it was not before. */
    method Settle() returns (first: bool)
      modifies this`settled
      ensures settled && first == !old(settled)
    {
      if settled { return false; }
      settled := true;
      first := true;
    }

    method Finish(ok: bool)
      modifies this`handled, this`done
      ensures handled == ok && done
    {
      handled := ok;
      done := true;
    }
  }

  datatype Outcome = Returns | Raises

  /** What became of one delivery taken from the queue. */
  datatype Fate = WentBack | Refused | Stored

  /** What a sweep over parked deliveries depends on: each one's batch, and whether it went back meanwhile. */
  datatype Slot = Slot(events: seq<Event>, settled: bool)

  /** How far a sweep gets, how many events it reports, and the batches its handler was called with. */
  datatype Sweep = Sweep(taken: nat, received: nat, handed: seq<seq<Event>>)

  /** Skip what went back; hand over the rest in order; stop at the first batch the handler refuses. */
  function Swept(slots: seq<Slot>, call: nat, outcome: nat -> Outcome): Sweep
    decreases |slots|
  {
    if slots == [] then Sweep(0, 0, [])
    else if slots[0].settled then
      var rest := Swept(slots[1..], call, outcome);
      Sweep(1 + rest.taken, rest.received, rest.handed)
    else if outcome(call).Raises? then Sweep(1, 0, [slots[0].events])
    else
      var rest := Swept(slots[1..], call + 1, outcome);
      Sweep(1 + rest.taken, |slots[0].events| + rest.received, [slots[0].events] + rest.handed)
  }

  function EventCount(batches: seq<seq<Event>>): nat {
    if batches == [] then 0 else |batches[0]| + EventCount(batches[1..])
  }

  function Unsettled(slots: seq<Slot>): seq<seq<Event>> {
    if slots == [] then [] else (if slots[0].settled then [] else [slots[0].events]) + Unsettled(slots[1..])
  }

  /** A sweep hands over the unsettled deliveries it takes, each once and in order. */
  lemma {:induction false} SweptInOrder(slots: seq<Slot>, call: nat, outcome: nat -> Outcome)
    ensures var r := Swept(slots, call, outcome); r.taken <= |slots| && r.handed == Unsettled(slots[..r.taken])
    decreases |slots|
  {
    if slots != [] {
      var r := Swept(slots, call, outcome);
      assert slots[..1][1..] == [];
      if slots[0].settled {
        SweptInOrder(slots[1..], call, outcome);
        assert slots[..r.taken][1..] == slots[1..][..r.taken - 1];
      } else if outcome(call).Returns? {
        SweptInOrder(slots[1..], call + 1, outcome);
        assert slots[..r.taken][1..] == slots[1..][..r.taken - 1];
      }
    }
  }

  /**
   A sweep reports exactly the events of the batches whose handler returned: all of those
   handed over when it ended for want of more, all but the last when it ended on a refusal.
   */
  lemma {:induction false} SweptAccounts(slots: seq<Slot>, call: nat, outcome: nat -> Outcome)
    ensures var r := Swept(slots, call, outcome);
            && (forall n :: call <= n < call + |r.handed| - 1 ==> outcome(n).Returns?)
            && (if EndedRefused(r, call, outcome)
                then r.received == EventCount(r.handed[..|r.handed| - 1])
                else r.received == EventCount(r.handed) && r.taken == |slots|)
    decreases |slots|
  {
    hide EventCount;
    NoneCounted();
    if slots != [] {
      var r := Swept(slots, call, outcome);
      if slots[0].settled {
        SweptAccounts(slots[1..], call, outcome);
      } else if outcome(call).Returns? {
        SweptAccounts(slots[1..], call + 1, outcome);
        PrependAccounts(slots[0].events, Swept(slots[1..], call + 1, outcome).handed);
      } else {
        assert [slots[0].events][..0] == [];
      }
    }
  }

  /** What is reported is the number of events of those batches. */
  lemma {:induction false} EventCountIs(batches: seq<seq<Event>>)
    ensures EventCount(batches) == |set i: nat, j: nat | i < |batches| && j < |batches[i]| :: (i, j)|
  {
    var size := (batch: seq<Event>) => |batch|;
    CountIsTotal(batches, size);
    TotalIsUnits(batches, size);
    assert Units(batches, size) == set i: nat, j: nat | i < |batches| && j < |batches[i]| :: (i, j);
  }

  lemma {:induction false} CountIsTotal(batches: seq<seq<Event>>, size: seq<Event> -> nat)
    requires forall batch :: size(batch) == |batch|
    ensures EventCount(batches) == Total(batches, size)
  {
    if batches != [] { CountIsTotal(batches[1..], size); }
  }

  lemma NoneCounted()
    ensures EventCount([]) == 0
  {
  }

  lemma PrependAccounts(first: seq<Event>, rest: seq<seq<Event>>)
    ensures EventCount([first] + rest) == |first| + EventCount(rest)
    ensures rest != [] ==> EventCount(([first] + rest)[..|rest|]) == |first| + EventCount(rest[..|rest| - 1])
  {
    assert ([first] + rest)[1..] == rest;
    if rest != [] { assert ([first] + rest)[..|rest|][1..] == rest[..|rest| - 1]; }
  }

  /** A sweep part of the way: what is done, and what is to come, make up the whole. */
  ghost predicate SweptSoFar(slots: seq<Slot>, i: nat, call: nat, outcome: nat -> Outcome, received: nat,
                             done: seq<seq<Event>>)
  {
    i <= |slots| &&
    var all, rest := Swept(slots, call, outcome), Swept(slots[i..], call + |done|, outcome);
    all.taken == i + rest.taken && all.received == received + rest.received && all.handed == done + rest.handed
  }

  lemma SweepNone(slots: seq<Slot>, call: nat, outcome: nat -> Outcome)
    ensures SweptSoFar(slots, 0, call, outcome, 0, [])
  {
    assert slots[0..] == slots;
    assert [] + Swept(slots, call, outcome).handed == Swept(slots, call, outcome).handed;
  }

  lemma SweepOne(slots: seq<Slot>, i: nat, call: nat, outcome: nat -> Outcome, received: nat, done: seq<seq<Event>>)
    requires i < |slots| && SweptSoFar(slots, i, call, outcome, received, done)
    ensures var slot := slots[i];
            if slot.settled then SweptSoFar(slots, i + 1, call, outcome, received, done)
            else if outcome(call + |done|).Raises? then
              Swept(slots, call, outcome) == Sweep(i + 1, received, done + [slot.events])
            else SweptSoFar(slots, i + 1, call, outcome, received + |slot.events|, done + [slot.events])
  {
    var slot, rest := slots[i], Swept(slots[i..], call + |done|, outcome);
    assert slots[i..][0] == slot && slots[i..][1..] == slots[i + 1..];
    if !slot.settled && outcome(call + |done|).Returns? {
      var later := Swept(slots[i + 1..], call + |done| + 1, outcome);
      assert done + ([slot.events] + later.handed) == (done + [slot.events]) + later.handed;
    }
  }

  /** At the end of what is parked, the sweep is what has been done. */
  lemma SweepOver(slots: seq<Slot>, i: nat, call: nat, outcome: nat -> Outcome, received: nat, done: seq<seq<Event>>)
    ensures i == |slots| && SweptSoFar(slots, i, call, outcome, received, done) ==>
              Swept(slots, call, outcome) == Sweep(i, received, done)
  {
    if i == |slots| { assert slots[i..] == []; }
  }

  /** A sweep that ended because its handler refused a batch. */
  predicate EndedRefused(r: Sweep, call: nat, outcome: nat -> Outcome) {
    r.handed != [] && outcome(call + |r.handed| - 1).Raises?
  }

  twostate predicate Untouched(d: Delivery)
    reads d
  {
    d.settled == old(d.settled) && d.done == old(d.done) && d.handled == old(d.handled)
  }

  /** A delivery taken from the queue: as it was if it had gone back, otherwise with its verdict in. */
  twostate predicate Over(d: Delivery, refused: bool)
    reads d
  {
    d.settled && (if old(d.settled) then Untouched(d) else d.done && (d.handled <==> !refused))
  }

  class Subscriber {
    var pending: seq<Delivery>
    /** What the handler does on its n-th call. */
    const outcome: nat -> Outcome
    /** The batches the handler has been called with. */
    var handed: seq<seq<Event>>

    constructor (outcome: nat -> Outcome)
      ensures pending == [] && handed == [] && this.outcome == outcome
    {
      pending, handed := [], [];
      this.outcome := outcome;
    }

    function Slots(): (slots: seq<Slot>)
      reads this, pending
      ensures |slots| == |pending|
    {
      seq(|pending|, i requires 0 <= i < |pending| reads this, pending => Slot(pending[i].events, pending[i].settled))
    }

    /** One sweep over what is parked. */
    method Consume() returns (received: nat)
      requires Distinct(pending)
      modifies this`pending, this`handed, pending
      ensures var r := Swept(old(Slots()), |old(handed)|, outcome);
              && r.taken <= |old(pending)|
              && received == r.received && handed == old(handed) + r.handed
              && pending == old(pending)[r.taken..]
              && (forall i :: 0 <= i < r.taken ==>
                    Over(old(pending[i]), i == r.taken - 1 && EndedRefused(r, |old(handed)|, outcome)))
              && (forall i :: r.taken <= i < |old(pending)| ==> Untouched(old(pending[i])))
    {
      hide Swept;
      ghost var slots, call := Slots(), |handed|;
      ghost var i, done, refused;
      received, i, done, refused := Drain();
      assert refused <==> EndedRefused(Swept(slots, call, outcome), call, outcome);
    }

    /** The loop of `Consume`: how far it got, what it handed over, and whether it ended on a refusal. */
    method Drain() returns (received: nat, ghost i: nat, ghost done: seq<seq<Event>>, ghost refused: bool)
      requires Distinct(pending)
      modifies this`pending, this`handed, pending
      ensures i <= |old(pending)| && pending == old(pending)[i..] && handed == old(handed) + done
      ensures Swept(old(Slots()), |old(handed)|, outcome) == Sweep(i, received, done)
      ensures refused <==> done != [] && outcome(|old(handed)| + |done| - 1).Raises?
      ensures forall j :: 0 <= j < i ==> Over(old(pending[j]), j == i - 1 && refused)
      ensures forall j :: i <= j < |old(pending)| ==> Untouched(old(pending[j]))
    {
      hide Swept, SweptSoFar, Distinct;
      ghost var start, slots, base := pending, Slots(), handed;
      DistinctPairs(pending);
      received, i, done, refused := 0, 0, [], false;
      assert start[0..] == start && base + [] == base;
      SweepNone(slots, |base|, outcome);
      while pending != []
        invariant i <= |start| && pending == start[i..] && handed == base + done && !refused
        invariant SweptSoFar(slots, i, |base|, outcome, received, done)
        invariant forall n :: |base| <= n < |base| + |done| ==> outcome(n).Returns?
        invariant forall j :: 0 <= j < i ==> Over(start[j], false)
        invariant forall j :: i <= j < |start| ==> Untouched(start[j])
        decreases |start| - i
      {
        var delivery := pending[0];
        pending := pending[1..];
        SweepOne(slots, i, |base|, outcome, received, done);
        i := i + 1;
        var fate := HandOver(delivery);
        if fate.WentBack? { continue; }
        done := done + [delivery.events];
        if fate.Refused? {
          refused := true;
          return;
        }
        received := received + |delivery.events|;
      }
      SweepOver(slots, i, |base|, outcome, received, done);
    }

    /** One delivery settled and given to the handler, or left as it was if somebody settled it first. */
    method HandOver(delivery: Delivery) returns (fate: Fate)
      modifies this`handed, delivery
      ensures delivery.settled
      ensures old(delivery.settled) ==> fate == WentBack && Untouched(delivery) && handed == old(handed)
      ensures !old(delivery.settled) ==>
                && delivery.done && handed == old(handed) + [delivery.events]
                && fate == (if outcome(|old(handed)|).Raises? then Fate.Refused else Fate.Stored)
                && (delivery.handled <==> fate.Stored?)
    {
      var first := delivery.Settle();
      if !first { return WentBack; }
      var call := |handed|;
      handed := handed + [delivery.events];
      if outcome(call).Raises? {
        delivery.Finish(false);
        return Fate.Refused;
      }
      delivery.Finish(true);
      fate := Stored;
    }

    /** Let go of everything parked, so that no delivery thread waits out its time. */
    method ReleasePending()
      requires Distinct(pending)
      modifies this`pending, pending
      ensures pending == []
      ensures forall i :: 0 <= i < |old(pending)| ==> Over(old(pending[i]), true)
    {
      ghost var start := pending;
      ghost var i := 0;
      DistinctPairs(pending);
      while pending != []
        invariant 0 <= i <= |start| && pending == start[i..]
        invariant forall j :: 0 <= j < i ==> Over(start[j], true)
        invariant forall j :: i <= j < |start| ==> Untouched(start[j])
        decreases |start| - i
      {
        var delivery := pending[0];
        pending := pending[1..];
        i := i + 1;
        var first := delivery.Settle();
        if first {
          delivery.Finish(false);
        }
      }
    }
  }
}
