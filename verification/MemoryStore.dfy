/**
 Runs in memory, each with a ring of its newest events. First what one event does to all of
 them, as a function; then the class that does it in place.
 */
module MemoryStore {
  import opened Wrappers
  import opened Ordering
  import opened Models
  import opened Folding
  import opened Paging
  import opened Listing

  datatype RunState = RunState(flow: FlowSnapshot, events: seq<Event>, oldestSeq: Option<int>, highestSeq: int)

  /** The stored runs; `order` is the insertion order the dictionary remembers. */
  datatype Mem = Mem(order: seq<string>, runs: map<string, RunState>)

  datatype Limits = Limits(maxEvents: int, maxRuns: Option<int>)

  const EMPTY := Mem([], map[])

  predicate ValidLimits(limits: Limits) {
    limits.maxEvents >= 1 && (limits.maxRuns.Some? ==> limits.maxRuns.value >= 1)
  }

  /** `deque(maxlen=n)`: only the newest `n` entries stay. */
  function Newest<T>(s: seq<T>, n: nat): seq<T> {
    if |s| <= n then s else s[|s| - n..]
  }

  function NewRun(e: Event): RunState {
    RunState(FlowFromEvent(e), [], None, 0)
  }

  function AbsorbEvent(run: RunState, e: Event, maxEvents: nat): RunState
    requires maxEvents >= 1
  {
    var ring := Newest(run.events + [e], maxEvents);
    RunState(Fold(run.flow, e), ring, Some(ring[0].seqNo), if e.seqNo > run.highestSeq then e.seqNo else run.highestSeq)
  }

  ghost predicate WellFormed(m: Mem) {
    && (forall r :: r in m.order <==> r in m.runs)
    && Distinct(m.order)
    && (forall r :: r in m.runs ==> m.runs[r].flow.runId == r)
  }

  /** `min(runs.values(), key=observed_at)`: the earliest inserted among the least recently observed. */
  function OldestObserved(order: seq<string>, runs: map<string, RunState>): (victim: string)
    requires order != [] && forall r :: r in order ==> r in runs
    ensures victim in order
    ensures forall r :: r in order ==> runs[victim].flow.observedAt <= runs[r].flow.observedAt
  {
    var front, last := order[..|order| - 1], order[|order| - 1];
    assert order == front + [last];
    if front == [] then last
    else
      var best := OldestObserved(front, runs);
      if runs[last].flow.observedAt < runs[best].flow.observedAt then last else best
  }

  /** The run at this place was observed before all ahead of it, and no later than those behind. */
  ghost predicate OldestAt(order: seq<string>, runs: map<string, RunState>, at: nat)
    requires forall r :: r in order ==> r in runs
  {
    && at < |order|
    && (forall j :: 0 <= j < at ==> runs[order[at]].flow.observedAt < runs[order[j]].flow.observedAt)
    && (forall j :: at <= j < |order| ==> runs[order[at]].flow.observedAt <= runs[order[j]].flow.observedAt)
  }

  /** Of the runs least recently observed, the one inserted first. */
  ghost predicate FirstOldest(order: seq<string>, runs: map<string, RunState>, victim: string)
    requires forall r :: r in order ==> r in runs
  {
    exists i: nat :: i < |order| && OldestAt(order, runs, i) && order[i] == victim
  }

  lemma OldestAtPush(front: seq<string>, last: string, runs: map<string, RunState>, at: nat)
    requires forall r :: r in front + [last] ==> r in runs
    requires forall r :: r in front ==> r in runs
    requires OldestAt(front, runs, at)
    ensures OldestAt(front + [last], runs,
                     if runs[last].flow.observedAt < runs[front[at]].flow.observedAt then |front| else at)
  {
  }

  /** A tie goes to the run inserted first. */
  lemma {:induction false} OldestIsFirstOldest(order: seq<string>, runs: map<string, RunState>)
    requires order != [] && forall r :: r in order ==> r in runs
    ensures FirstOldest(order, runs, OldestObserved(order, runs))
  {
    hide OldestAt;
    var front, last := order[..|order| - 1], order[|order| - 1];
    assert order == front + [last];
    if front == [] {
      AloneIsOldest(order, runs);
    } else {
      OldestIsFirstOldest(front, runs);
      var i: nat :| i < |front| && OldestAt(front, runs, i) && front[i] == OldestObserved(front, runs);
      OldestAtPush(front, last, runs, i);
    }
  }

  lemma AloneIsOldest(order: seq<string>, runs: map<string, RunState>)
    requires |order| == 1 && order[0] in runs
    ensures OldestAt(order, runs, 0)
  {
  }

  lemma OldestOfOne(order: seq<string>, runs: map<string, RunState>)
    requires |order| == 1 && order[0] in runs
    ensures OldestObserved(order, runs) == order[0]
  {
  }

  /** One more run to choose between. */
  lemma OldestStep(order: seq<string>, runs: map<string, RunState>, i: nat)
    requires 1 <= i < |order| && forall r :: r in order ==> r in runs
    ensures (forall r :: r in order[..i] ==> r in runs) && (forall r :: r in order[..i + 1] ==> r in runs)
    ensures var best := OldestObserved(order[..i], runs);
            OldestObserved(order[..i + 1], runs)
            == if runs[order[i]].flow.observedAt < runs[best].flow.observedAt then order[i] else best
  {
    assert order[..i + 1][..i] == order[..i];
  }

  function Without(order: seq<string>, gone: string): (rest: seq<string>)
    ensures forall r :: r in rest <==> r in order && r != gone
    ensures |rest| <= |order|
  {
    if order == [] then []
    else
      assert order == [order[0]] + order[1..];
      (if order[0] == gone then [] else [order[0]]) + Without(order[1..], gone)
  }

  lemma {:induction false} WithoutDistinct(order: seq<string>, gone: string)
    requires Distinct(order)
    ensures Distinct(Without(order, gone))
  {
    if order != [] {
      var rest := Without(order[1..], gone);
      WithoutDistinct(order[1..], gone);
      if order[0] != gone {
        assert Without(order, gone) == [order[0]] + rest;
        assert Without(order, gone)[1..] == rest;
      } else {
        assert Without(order, gone) == rest;
      }
    }
  }

  function Remove(m: Mem, gone: string): Mem {
    Mem(Without(m.order, gone), m.runs - {gone})
  }

  function Evicted(m: Mem, maxRuns: Option<int>): Mem
    requires m.order != [] && forall r :: r in m.order ==> r in m.runs
  {
    if maxRuns.None? || |m.order| <= maxRuns.value then m else Remove(m, OldestObserved(m.order, m.runs))
  }

  /** What one event does to the store: fold, ring, and at most one run evicted for a new one. */
  function ApplyEvent(limits: Limits, m: Mem, e: Event): Mem
    requires ValidLimits(limits) && WellFormed(m)
  {
    var r := e.runId;
    if r in m.runs then
      m.(runs := m.runs[r := AbsorbEvent(m.runs[r], e, limits.maxEvents)])
    else
      var kept := Evicted(Seeded(m, e), limits.maxRuns);
      // The new run can itself be the victim; its event is then folded into nothing.
      if r in kept.runs then kept.(runs := kept.runs[r := AbsorbEvent(NewRun(e), e, limits.maxEvents)]) else kept
  }

  // ----- the same, field by field -----------------------------------------------------

  /** The events still kept of a run, in order of arrival. */
  function Kept(m: Mem, runId: string): seq<Event> {
    if runId in m.runs then m.runs[runId].events else []
  }

  /** When a run was last observed; one not stored yet, when the event that brings it was. */
  ghost function SeenAt(m: Mem, e: Event, r: string): real {
    if r in m.runs then m.runs[r].flow.observedAt else e.ts
  }

  /** With a newcomer at the end, the first of those observed longest ago stands here. */
  ghost predicate GoesFirst(m: Mem, e: Event, k: nat) {
    var all := m.order + [e.runId];
    k < |all| && forall j :: 0 <= j < |all| ==>
      SeenAt(m, e, all[k]) <= SeenAt(m, e, all[j]) && (j < k ==> SeenAt(m, e, all[k]) < SeenAt(m, e, all[j]))
  }

  /** No run goes for a run already stored, nor for a newcomer that fits; for any other exactly one goes. */
  ghost predicate MakesWay(m: Mem, t: Mem, e: Event, maxRuns: Option<int>) {
    var all := m.order + [e.runId];
    && (forall r :: r in t.runs && r != e.runId ==> r in m.runs && t.runs[r] == m.runs[r])
    && if e.runId in m.runs then t.order == m.order && t.runs.Keys == m.runs.Keys
       else if maxRuns.None? || |m.runs| < maxRuns.value then t.order == all && t.runs.Keys == m.runs.Keys + {e.runId}
       else exists k: nat :: k < |all| && GoesFirst(m, e, k) && t.order == all[..k] + all[k + 1..]
                             && t.runs.Keys == m.runs.Keys + {e.runId} - {all[k]}
  }

  /** The event is folded and becomes the newest kept; the oldest kept and the highest number ever are known. */
  ghost predicate Records(m: Mem, run: RunState, e: Event, maxEvents: int) {
    var known, events := e.runId in m.runs, Kept(m, e.runId) + [e];
    && run.flow == Fold(if known then m.runs[e.runId].flow else FlowFromEvent(e), e)
    && run.events != [] && |run.events| <= maxEvents
    && (run.events == events || (|run.events| == maxEvents < |events| && run.events == events[|events| - maxEvents..]))
    && run.oldestSeq == Some(run.events[0].seqNo)
    && run.highestSeq >= e.seqNo && run.highestSeq >= (if known then m.runs[e.runId].highestSeq else 0)
    && (run.highestSeq == e.seqNo || run.highestSeq == (if known then m.runs[e.runId].highestSeq else 0))
  }

  /** What becomes of the store when an event comes in. */
  ghost predicate TakesIn(limits: Limits, m: Mem, t: Mem, e: Event) {
    && MakesWay(m, t, e, limits.maxRuns)
    && (e.runId in t.runs ==> Records(m, t.runs[e.runId], e, limits.maxEvents))
  }

  lemma {:induction false} WithoutIs(order: seq<string>, k: nat)
    requires Distinct(order) && k < |order|
    ensures Without(order, order[k]) == order[..k] + order[k + 1..]
  {
    var rest := order[1..];
    if k == 0 {
      WithoutAbsent(rest, order[0]);
      assert order[..0] + order[1..] == rest;
    } else {
      hide Distinct;
      assert Distinct(rest) && order[0] !in rest;
      WithoutIs(rest, k - 1);
      assert order[k] == rest[k - 1] && order[k] in rest;
      assert Without(order, order[k]) == [order[0]] + Without(rest, order[k]);
      AroundHead(order, k);
    }
  }

  lemma AroundHead(order: seq<string>, k: nat)
    requires 0 < k < |order|
    ensures order[..k] + order[k + 1..] == [order[0]] + (order[1..][..k - 1] + order[1..][k - 1 + 1..])
  {
  }

  lemma {:induction false} WithoutAbsent(order: seq<string>, gone: string)
    requires gone !in order
    ensures Without(order, gone) == order
  {
    if order != [] { WithoutAbsent(order[1..], gone); }
  }

  lemma {:induction false} DistinctSize(order: seq<string>, keys: set<string>)
    requires Distinct(order) && forall r :: r in order <==> r in keys
    ensures |order| == |keys|
  {
    if order != [] {
      var rest := order[1..];
      assert order == [order[0]] + rest;
      DistinctSize(rest, keys - {order[0]});
    } else {
      assert keys == {};
    }
  }

  /** Over the limit the first of the runs observed longest ago goes, and only it; otherwise none. */
  ghost predicate MadeRoom(m: Mem, t: Mem, maxRuns: Option<int>)
    requires forall r :: r in m.order ==> r in m.runs
  {
    if maxRuns.None? || |m.runs| <= maxRuns.value then t == m
    else exists k: nat :: k < |m.order| && OldestAt(m.order, m.runs, k) && t.order == m.order[..k] + m.order[k + 1..]
                          && t.runs == m.runs - {m.order[k]}
  }

  lemma EvictedMadeRoom(m: Mem, maxRuns: Option<int>)
    requires WellFormed(m) && m.order != []
    ensures MadeRoom(m, Evicted(m, maxRuns), maxRuns)
  {
    hide OldestAt, OldestObserved, Without, Distinct;
    DistinctSize(m.order, m.runs.Keys);
    if maxRuns.Some? && |m.order| > maxRuns.value {
      OldestIsFirstOldest(m.order, m.runs);
      var k: nat :| k < |m.order| && OldestAt(m.order, m.runs, k) && m.order[k] == OldestObserved(m.order, m.runs);
      WithoutIs(m.order, k);
    }
  }

  lemma AbsorbRecords(limits: Limits, m: Mem, e: Event)
    requires ValidLimits(limits)
    ensures Records(m, AbsorbEvent(if e.runId in m.runs then m.runs[e.runId] else NewRun(e), e, limits.maxEvents), e,
                    limits.maxEvents)
  {
    hide Fold, FlowFromEvent;
  }

  lemma OldestGoesFirst(m: Mem, e: Event, k: nat)
    requires WellFormed(m) && e.runId !in m.runs
    requires forall r :: r in m.order + [e.runId] ==> r in Seeded(m, e).runs
    requires OldestAt(m.order + [e.runId], Seeded(m, e).runs, k)
    ensures GoesFirst(m, e, k)
  {
    hide Distinct;
    var s := Seeded(m, e);
    forall j | 0 <= j < |s.order| ensures SeenAt(m, e, s.order[j]) == s.runs[s.order[j]].flow.observedAt {
      assert s.order[j] in s.order;
    }
  }

  lemma NewcomerMakesWay(m: Mem, t: Mem, e: Event, maxRuns: Option<int>)
    requires WellFormed(m) && e.runId !in m.runs && WellFormed(Seeded(m, e)) && MadeRoom(Seeded(m, e), t, maxRuns)
    ensures MakesWay(m, t, e, maxRuns)
  {
    hide Distinct, OldestAt, GoesFirst, NewRun, MakesWay;
    var s := Seeded(m, e);
    OneMoreRun(m, e);
    if maxRuns.Some? && |m.runs| >= maxRuns.value {
      var k: nat :| k < |s.order| && OldestAt(s.order, s.runs, k) && t.order == s.order[..k] + s.order[k + 1..]
                    && t.runs == s.runs - {s.order[k]};
      OldestGoesFirst(m, e, k);
      OneMakesWay(m, t, e, maxRuns, k);
    } else {
      NoneMakesWay(m, e, maxRuns);
    }
  }

  lemma OneMoreRun(m: Mem, e: Event)
    requires e.runId !in m.runs
    ensures Seeded(m, e).runs.Keys == m.runs.Keys + {e.runId} && |Seeded(m, e).runs| == |m.runs| + 1
  {
    hide NewRun;
    assert Seeded(m, e).runs.Keys == m.runs.Keys + {e.runId};
  }

  lemma NoneMakesWay(m: Mem, e: Event, maxRuns: Option<int>)
    requires e.runId !in m.runs && (maxRuns.None? || |m.runs| < maxRuns.value)
    ensures MakesWay(m, Seeded(m, e), e, maxRuns)
  {
    hide NewRun, GoesFirst;
    OneMoreRun(m, e);
  }

  lemma OneMakesWay(m: Mem, t: Mem, e: Event, maxRuns: Option<int>, k: nat)
    requires e.runId !in m.runs && maxRuns.Some? && |m.runs| >= maxRuns.value && GoesFirst(m, e, k)
    requires var all := m.order + [e.runId];
             k < |all| && t.order == all[..k] + all[k + 1..] && t.runs == Seeded(m, e).runs - {all[k]}
    ensures MakesWay(m, t, e, maxRuns)
  {
    hide NewRun, GoesFirst;
    OneMoreRun(m, e);
    assert k < |m.order| + 1;
  }

  lemma MakesWayAlike(m: Mem, t: Mem, u: Mem, e: Event, maxRuns: Option<int>)
    requires MakesWay(m, t, e, maxRuns) && u.order == t.order && u.runs.Keys == t.runs.Keys
    requires forall r :: r in t.runs && r != e.runId ==> u.runs[r] == t.runs[r]
    ensures MakesWay(m, u, e, maxRuns)
  {
    hide GoesFirst;
  }

  /** One event, whatever is stored: who goes, who stays as it is, and what is kept of the event. */
  lemma ApplyTakesIn(limits: Limits, m: Mem, e: Event)
    requires ValidLimits(limits) && WellFormed(m)
    ensures TakesIn(limits, m, ApplyEvent(limits, m, e), e)
  {
    hide MakesWay, Records, MadeRoom, Evicted, AbsorbEvent, FlowFromEvent;
    AbsorbRecords(limits, m, e);
    if e.runId in m.runs {
      KnownMakesWay(m, e, limits.maxRuns);
      MakesWayAlike(m, m, ApplyEvent(limits, m, e), e, limits.maxRuns);
    } else {
      SeededWellFormed(m, e);
      EvictedMadeRoom(Seeded(m, e), limits.maxRuns);
      var kept := Evicted(Seeded(m, e), limits.maxRuns);
      NewcomerMakesWay(m, kept, e, limits.maxRuns);
      MakesWayAlike(m, kept, ApplyEvent(limits, m, e), e, limits.maxRuns);
    }
  }

  lemma MakesWayBounded(m: Mem, t: Mem, e: Event, maxRuns: int)
    requires MakesWay(m, t, e, Some(maxRuns)) && |m.runs| <= maxRuns && maxRuns >= 1
    requires forall r :: r in m.order ==> r in m.runs
    ensures |t.runs| <= maxRuns
  {
    hide GoesFirst;
    assert |t.runs| == |t.runs.Keys| && |m.runs| == |m.runs.Keys|;
    if e.runId !in m.runs && |m.runs| == maxRuns {
      var all, keys := m.order + [e.runId], m.runs.Keys + {e.runId};
      var k: nat :| k < |all| && GoesFirst(m, e, k) && t.runs.Keys == m.runs.Keys + {e.runId} - {all[k]};
      assert all[k] in all;
      OneFewer(keys, all[k]);
    }
  }

  lemma OrderStored(m: Mem)
    requires WellFormed(m)
    ensures forall r :: r in m.order ==> r in m.runs
  {
  }

  lemma OneFewer(keys: set<string>, gone: string)
    requires gone in keys
    ensures |keys - {gone}| == |keys| - 1
  {
  }

  /** A batch never leaves more runs stored than the limit. */
  lemma {:induction false} BatchBounded(limits: Limits, m: Mem, events: seq<Event>)
    requires ValidLimits(limits) && WellFormed(m) && limits.maxRuns.Some? && |m.runs| <= limits.maxRuns.value
    ensures |ApplyEvents(limits, m, events).runs| <= limits.maxRuns.value
    decreases |events|
  {
    hide ApplyEvent, WellFormed, MakesWay, Records;
    if events != [] {
      ApplyWellFormed(limits, m, events[0]);
      ApplyTakesIn(limits, m, events[0]);
      OrderStored(m);
      MakesWayBounded(m, ApplyEvent(limits, m, events[0]), events[0], limits.maxRuns.value);
      BatchBounded(limits, ApplyEvent(limits, m, events[0]), events[1..]);
    }
  }

  lemma KnownMakesWay(m: Mem, e: Event, maxRuns: Option<int>)
    requires e.runId in m.runs
    ensures MakesWay(m, m, e, maxRuns)
  {
  }

  lemma EmptyWellFormed()
    ensures WellFormed(EMPTY)
  {
  }

  lemma RemoveWellFormed(m: Mem, gone: string)
    requires WellFormed(m)
    ensures WellFormed(Remove(m, gone))
  {
    WithoutDistinct(m.order, gone);
  }

  lemma ApplyWellFormed(limits: Limits, m: Mem, e: Event)
    requires ValidLimits(limits) && WellFormed(m)
    ensures WellFormed(ApplyEvent(limits, m, e))
  {
    if e.runId in m.runs {
      UpdateWellFormed(m, e.runId, AbsorbEvent(m.runs[e.runId], e, limits.maxEvents));
    } else {
      SeededWellFormed(m, e);
      EvictedWellFormed(Seeded(m, e), limits.maxRuns);
      var kept := Evicted(Seeded(m, e), limits.maxRuns);
      if e.runId in kept.runs {
        UpdateWellFormed(kept, e.runId, AbsorbEvent(NewRun(e), e, limits.maxEvents));
      }
    }
  }

  lemma UpdateWellFormed(m: Mem, r: string, run: RunState)
    requires WellFormed(m) && r in m.runs && run.flow.runId == r
    ensures WellFormed(m.(runs := m.runs[r := run]))
  {
  }

  /** The stored state just after a run is first heard of. */
  function Seeded(m: Mem, e: Event): Mem {
    Mem(m.order + [e.runId], m.runs[e.runId := NewRun(e)])
  }

  lemma SeededWellFormed(m: Mem, e: Event)
    requires WellFormed(m) && e.runId !in m.runs
    ensures WellFormed(Seeded(m, e))
  {
    DistinctPush(m.order, e.runId);
  }

  lemma EvictedWellFormed(m: Mem, maxRuns: Option<int>)
    requires WellFormed(m) && m.order != []
    ensures WellFormed(Evicted(m, maxRuns))
  {
    RemoveWellFormed(m, OldestObserved(m.order, m.runs));
  }

  /** `apply_many`: one event at a time, in order. */
  function ApplyEvents(limits: Limits, m: Mem, events: seq<Event>): (after: Mem)
    requires ValidLimits(limits) && WellFormed(m)
    ensures WellFormed(after)
    decreases |events|
  {
    if events == [] then m
    else
      ApplyWellFormed(limits, m, events[0]);
      ApplyEvents(limits, ApplyEvent(limits, m, events[0]), events[1..])
  }

  lemma {:induction false} ApplyEventsConcat(limits: Limits, m: Mem, a: seq<Event>, b: seq<Event>)
    requires ValidLimits(limits) && WellFormed(m)
    ensures ApplyEvents(limits, m, a + b) == ApplyEvents(limits, ApplyEvents(limits, m, a), b)
    decreases |a|
  {
    if a == [] {
      assert a + b == b;
    } else {
      assert (a + b)[0] == a[0] && (a + b)[1..] == a[1..] + b;
      ApplyWellFormed(limits, m, a[0]);
      ApplyEventsConcat(limits, ApplyEvent(limits, m, a[0]), a[1..], b);
    }
  }

  lemma ApplySingle(limits: Limits, m: Mem, e: Event)
    requires ValidLimits(limits) && WellFormed(m)
    ensures ApplyEvents(limits, m, [e]) == ApplyEvent(limits, m, e)
  {
    ApplyWellFormed(limits, m, e);
    assert [e][1..] == [];
  }

  function FlowsOf(m: Mem): Flows {
    map r | r in m.runs :: m.runs[r].flow
  }

  lemma ViewKeyed(m: Mem)
    requires WellFormed(m)
    ensures Listing.Keyed(FlowsOf(m))
  {
  }

  function StoredFlow(m: Mem, runId: string): Option<FlowSnapshot> {
    if runId in m.runs then Some(m.runs[runId].flow) else None
  }

  /** The numbers a run still has in memory, each with the event that arrived first under it. */
  function LogOf(m: Mem, runId: string): Log {
    if runId in m.runs then FirstArrivals(m.runs[runId].events) else map[]
  }

  function StoredPage(m: Mem, runId: string, sinceSeq: int, limit: int): Result<EventPage, ReadError> {
    if limit < 1 then Err(LimitTooSmall) else Ok(PageOf(LogOf(m, runId), sinceSeq, limit))
  }

  /** What a read of events answers, in terms of the events still kept of the run. */
  ghost predicate ServedFrom(page: Result<EventPage, ReadError>, kept: seq<Event>, sinceSeq: int, limit: int) {
    if limit < 1 then page == Err(LimitTooSmall)
    else page.Ok? && Serves(page.value, set e | e in kept :: e.seqNo, sinceSeq, limit)
         && forall e :: e in page.value.events ==> FirstToArrive(kept, e)
  }

  lemma ReadServes(m: Mem, runId: string, sinceSeq: int, limit: int)
    ensures ServedFrom(StoredPage(m, runId, sinceSeq, limit), Kept(m, runId), sinceSeq, limit)
  {
    hide PageOf, Serves, FirstArrivals, FirstToArrive;
    if limit >= 1 {
      var log := LogOf(m, runId);
      FirstArrivalsKeyed(Kept(m, runId));
      FirstArrivalsNumbers(Kept(m, runId));
      FirstArrivalsFirst(Kept(m, runId));
      assert log == FirstArrivals(Kept(m, runId)) by { NothingArrived(); }
      PageServes(log, sinceSeq, limit);
    }
  }

  lemma NothingArrived()
    ensures FirstArrivals([]) == map[]
  {
  }

  function StoredListing(m: Mem, filter: Filter, limit: int, marker: Option<string>): Result<FlowPage, ReadError> {
    Positional(FlowsOf(m), filter, limit, marker)
  }

  /** What a listing answers, whatever is stored: the flows wanted, or which of its two errors. */
  lemma ListingOffers(m: Mem, filter: Filter, limit: int, marker: Option<string>)
    requires WellFormed(m)
    ensures Answers(StoredListing(m, filter, limit, marker), FlowsOf(m), filter, limit, marker,
                    NamesOneAsked(FlowsOf(m), filter, marker))
  {
    hide Answers, NamesOneAsked, Positional, FlowsOf, Listing.Keyed;
    ViewKeyed(m);
    PositionalOffers(FlowsOf(m), filter, limit, marker);
  }

  lemma BySeqNoOrder()
    ensures WeakOrder(BY_SEQ_NO)
  {
  }

  /** The first of a history sorted by number carries the least number. */
  lemma OldestIsFirst(stored: seq<Event>)
    requires Ordered(BY_SEQ_NO, stored) && stored != []
    ensures FirstArrivals(stored).Keys != {}
    ensures Oldest(FirstArrivals(stored)) == Some(stored[0].seqNo)
  {
    FirstArrivalsKeyed(stored);
    var log := FirstArrivals(stored);
    assert stored[0] in stored;
    var least := LeastNumber(log.Keys);
    assert log[least] in stored;
    var k :| 0 <= k < |stored| && stored[k] == log[least];
    if k > 0 { assert !BY_SEQ_NO(stored[k], stored[0]); }
  }

  /** Sorting the history and selecting from it reads the log. */
  lemma SortedHistory(events: seq<Event>, expected: int, limit: int)
    requires limit >= 1
    ensures var stored := SortBy(BY_SEQ_NO, events);
            && Oldest(FirstArrivals(events)) == (if stored != [] then Some(stored[0].seqNo) else None)
            && Contiguous(stored, expected, limit) == Take(Stretch(FirstArrivals(events), expected), limit)
  {
    var stored := SortBy(BY_SEQ_NO, events);
    BySeqNoOrder();
    SortByOrdered(BY_SEQ_NO, events);
    FirstArrivalsSorted(events);
    if stored != [] { OldestIsFirst(stored); }
    ContiguousIsStretch(stored, expected, limit);
  }

  // ----- the class --------------------------------------------------------------

  /** The object behind one entry of the store; State() is its value. */
  class Run {
    var flow: FlowSnapshot
    var events: seq<Event>
    var oldestSeq: Option<int>
    var highestSeq: int

    constructor (flow: FlowSnapshot)
      ensures State() == RunState(flow, [], None, 0)
    {
      this.flow := flow;
      events := [];
      oldestSeq := None;
      highestSeq := 0;
    }

    function State(): RunState
      reads this
    {
      RunState(flow, events, oldestSeq, highestSeq)
    }
  }

  /** The store in place; View() is its value, and each method says what becomes of that. */
  class MemoryDataSource {
    const limits: Limits
    var runs: map<string, Run>
    var order: seq<string>

    ghost function View(): Mem
      reads this, runs.Values
    {
      Mem(order, map r | r in runs :: runs[r].State())
    }

    ghost predicate Valid()
      reads this, runs.Values
    {
      && ValidLimits(limits)
      && WellFormed(View())
    }

    constructor (limits: Limits)
      requires ValidLimits(limits)
      ensures Valid() && this.limits == limits && View() == EMPTY && runs == map[]
    {
      this.limits := limits;
      runs := map[];
      order := [];
    }

    /** Construction refuses bounds that could hold nothing. */
    static method Create(limits: Limits) returns (made: Option<MemoryDataSource>)
      ensures made.Some? <==> limits.maxEvents >= 1 && (limits.maxRuns.Some? ==> limits.maxRuns.value >= 1)
      ensures made.Some? ==> fresh(made.value) && made.value.Valid() && made.value.View() == EMPTY
    {
      if limits.maxEvents < 1 || (limits.maxRuns.Some? && limits.maxRuns.value < 1) {
        return None;
      }
      var source := new MemoryDataSource(limits);
      made := Some(source);
    }

    /** The same, in place. */
    method Apply(event: Event)
      requires Valid()
      modifies this, runs.Values
      ensures Valid() && fresh(runs.Values - old(runs.Values))
      ensures View() == ApplyEvent(limits, old(View()), event)
      ensures TakesIn(limits, old(View()), View(), event)
    {
      hide TakesIn, MakesWay, Distinct, Fold, AbsorbEvent;
      ghost var before := View();
      ApplyWellFormed(limits, before, event);
      ApplyTakesIn(limits, before, event);
      if event.runId in runs {
        FoldInto(runs[event.runId], event);
      } else {
        var run := Admit(event);
        FoldInto(run, event);
      }
    }

    /** `apply_many`: one event at a time, in order. */
    method ApplyMany(events: seq<Event>)
      requires Valid()
      modifies this, runs.Values
      ensures Valid() && fresh(runs.Values - old(runs.Values))
      ensures View() == ApplyEvents(limits, old(View()), events)
    {
      hide ApplyEvent, WellFormed;
      ghost var before := View();
      var i := 0;
      while i < |events|
        invariant 0 <= i <= |events|
        invariant Valid() && fresh(runs.Values - old(runs.Values))
        invariant WellFormed(before) && View() == ApplyEvents(limits, before, events[..i])
      {
        ApplyEventsConcat(limits, before, events[..i], [events[i]]);
        ApplySingle(limits, View(), events[i]);
        assert events[..i + 1] == events[..i] + [events[i]];
        Apply(events[i]);
        i := i + 1;
      }
      assert events[..|events|] == events;
    }

    /** Fold an event into one run's object; the other runs' objects are untouched. */
    method FoldInto(run: Run, event: Event)
      requires ValidLimits(limits) && WellFormed(View())
      requires event.runId in runs ==> runs[event.runId] == run
      requires run.flow.runId == event.runId
      modifies run
      ensures run.State() == AbsorbEvent(old(run.State()), event, limits.maxEvents)
      ensures View() == (if event.runId in runs
                         then old(View()).(runs := old(View()).runs[event.runId := run.State()]) else old(View()))
    {
      ghost var before := View();
      forall r | r in runs && r != event.runId ensures runs[r] != run {
        assert before.runs[r].flow.runId == r;
      }
      RecordOn(run, event);
      forall r | r in runs && r != event.runId ensures View().runs[r] == before.runs[r] {
        assert runs[r] != run;
      }
      assert event.runId in runs ==> View().runs == before.runs[event.runId := run.State()];
      assert event.runId !in runs ==> View().runs == before.runs;
    }

    /** Start a run, and make room for it. The run started can be the one that has to go. */
    method Admit(event: Event) returns (run: Run)
      requires Valid() && event.runId !in runs
      modifies this
      ensures fresh(run) && run.State() == NewRun(event)
      ensures View() == Evicted(Seeded(old(View()), event), limits.maxRuns)
      ensures MakesWay(old(View()), View(), event, limits.maxRuns)
      ensures runs.Values <= old(runs.Values) + {run}
      ensures forall r :: r in runs ==> (runs[r] == run <==> r == event.runId)
    {
      hide WellFormed, Evicted, FlowFromEvent, MadeRoom, MakesWay;
      ghost var before := View();
      run := new Run(FlowFromEvent(event));
      runs := runs[event.runId := run];
      order := order + [event.runId];
      assert View().runs == Seeded(before, event).runs;
      SeededWellFormed(before, event);
      EvictIfNeeded();
      NewcomerMakesWay(before, View(), event, limits.maxRuns);
    }

    /** Fold the event into the run and keep it in the bounded history. */
    method RecordOn(run: Run, event: Event)
      requires ValidLimits(limits)
      modifies run
      ensures run.State() == AbsorbEvent(old(run.State()), event, limits.maxEvents)
      ensures run.flow == Fold(old(run.flow), event) && run.oldestSeq == Some(run.events[0].seqNo)
      ensures run.highestSeq == if event.seqNo > old(run.highestSeq) then event.seqNo else old(run.highestSeq)
    {
      run.flow := Fold(run.flow, event);
      run.events := Newest(run.events + [event], limits.maxEvents);
      run.oldestSeq := Some(run.events[0].seqNo);
      if event.seqNo > run.highestSeq {
        run.highestSeq := event.seqNo;
      }
    }

    /** Over the run limit, the run observed longest ago goes. */
    method EvictIfNeeded()
      requires order != [] && WellFormed(View())
      modifies this
      ensures View() == Evicted(old(View()), limits.maxRuns)
      ensures MadeRoom(old(View()), View(), limits.maxRuns)
      ensures runs.Values <= old(runs.Values)
      ensures forall r :: r in runs ==> r in old(runs) && runs[r] == old(runs[r])
    {
      hide WellFormed, OldestObserved, Without, MadeRoom;
      ghost var before := View();
      EvictedMadeRoom(before, limits.maxRuns);
      if limits.maxRuns.None? || |order| <= limits.maxRuns.value { return; }
      var victim := PickVictim();
      runs := runs - {victim};
      order := Without(order, victim);
      assert View().runs == Remove(before, victim).runs;
    }

    /** `min` over the stored runs, by observation time. */
    method PickVictim() returns (victim: string)
      requires order != [] && WellFormed(View())
      ensures victim in runs && victim == OldestObserved(order, View().runs)
      ensures FirstOldest(order, View().runs, victim)
    {
      hide OldestObserved, Distinct, FirstOldest;
      ghost var stored := View().runs;
      victim := order[0];
      OldestOfOne(order[..1], stored);
      var i := 1;
      while i < |order|
        invariant 1 <= i <= |order|
        invariant forall r :: r in order[..i] ==> r in stored
        invariant victim in runs && victim == OldestObserved(order[..i], stored)
      {
        var r := order[i];
        OldestStep(order, stored, i);
        if runs[r].flow.observedAt < runs[victim].flow.observedAt {
          victim := r;
        }
        i := i + 1;
      }
      assert order[..|order|] == order;
      OldestIsFirstOldest(order, stored);
    }

    /** The store without that run. True exactly when the store had it. */
    method Forget(runId: string) returns (there: bool)
      requires Valid()
      modifies this
      ensures Valid() && runs.Values <= old(runs.Values)
      ensures there <==> runId in old(View()).runs
      ensures View() == Remove(old(View()), runId)
    {
      hide WellFormed, Without;
      RemoveWellFormed(View(), runId);
      there := runId in runs;
      ghost var before := View();
      runs := runs - {runId};
      order := Without(order, runId);
      assert View().runs == Remove(before, runId).runs;
    }

    method GetFlow(runId: string) returns (flow: Option<FlowSnapshot>)
      requires Valid()
      ensures flow == StoredFlow(View(), runId)
    {
      if runId in runs { flow := Some(runs[runId].flow); } else { flow := None; }
    }

    /** The page owed from the log of the ring, or the error for a limit below one. */
    method EventsSince(runId: string, sinceSeq: int, limit: int) returns (page: Result<EventPage, ReadError>)
      requires Valid()
      ensures page == StoredPage(View(), runId, sinceSeq, limit)
      ensures ServedFrom(page, if runId in runs then runs[runId].events else [], sinceSeq, limit)
    {
      hide ServedFrom;
      ReadServes(View(), runId, sinceSeq, limit);
      hide SortBy, Stretch, FirstArrivals, WellFormed;
      if limit < 1 { return Err(LimitTooSmall); }
      if runId !in runs {
        return Ok(EventPage([], sinceSeq, None, false));
      }
      var stored := SortBy(BY_SEQ_NO, runs[runId].events);
      var oldest := if stored != [] then Some(stored[0].seqNo) else None;
      var truncated := oldest.Some? && sinceSeq + 1 < oldest.value;
      var expected := if truncated then oldest.value else sinceSeq + 1;
      var selected := ContiguousFrom(stored, expected, limit);
      SortedHistory(runs[runId].events, expected, limit);
      page := Ok(EventPage(selected, if selected != [] then selected[|selected| - 1].seqNo else sinceSeq,
                           oldest, truncated));
    }

    /** The positional page of the catalogue, or one of its two errors. */
    method ListFlows(filter: Filter, limit: int, marker: Option<string>) returns (page: Result<FlowPage, ReadError>)
      requires Valid()
      ensures page == StoredListing(View(), filter, limit, marker)
      ensures Answers(page, FlowsOf(View()), filter, limit, marker, NamesOneAsked(FlowsOf(View()), filter, marker))
    {
      hide WellFormed, SortBy, Keep, Pick, PositionOf, PageAt, Enumerates, Answers, NamesOneAsked;
      ListingOffers(View(), filter, limit, marker);
      if limit < 1 { return Err(LimitTooSmall); }
      var flows := Snapshots(filter);
      var rows := SortBy(NEWEST_FIRST, flows);
      ViewKeyed(View());
      SelectAnyOrder(FlowsOf(View()), order, Passes(filter));
      assert rows == Catalogue(FlowsOf(View()), filter);
      var start := 0;
      if marker.Some? {
        var at := PositionOf(rows, marker.value);
        if at.None? { return Err(UnknownMarker(marker.value)); }
        start := at.value + 1;
      }
      page := Ok(PageAt(rows, start, limit));
    }

    /** The stored flows a filter lets through, in insertion order. */
    method Snapshots(filter: Filter) returns (flows: seq<FlowSnapshot>)
      requires Valid()
      ensures Enumerates(order, FlowsOf(View()))
      ensures flows == Keep(Pick(FlowsOf(View()), order), Passes(filter))
    {
      hide Keep, Pick, Distinct;
      ghost var stored := FlowsOf(View());
      ghost var test := Passes(filter);
      flows := [];
      var i := 0;
      KeepNone(stored, order[..0], test);
      while i < |order|
        invariant 0 <= i <= |order|
        invariant flows == Keep(Pick(stored, order[..i]), test)
      {
        assert order[i] in order;
        var flow := runs[order[i]].flow;
        KeepStep(stored, order, i, test);
        if Matches(flow, filter) {
          flows := flows + [flow];
        }
        i := i + 1;
      }
      assert order[..|order|] == order;
    }
  }

  lemma KeepNone(stored: Flows, order: seq<string>, test: FlowSnapshot -> bool)
    requires order == []
    ensures Keep(Pick(stored, order), test) == []
  {
  }

  /** One more run to look at. */
  lemma KeepStep(stored: Flows, order: seq<string>, i: nat, test: FlowSnapshot -> bool)
    requires i < |order| && forall r :: r in order ==> r in stored
    ensures Keep(Pick(stored, order[..i + 1]), test)
         == Keep(Pick(stored, order[..i]), test) + if test(stored[order[i]]) then [stored[order[i]]] else []
  {
    hide Keep;
    assert order[i] in order;
    assert Pick(stored, order[..i + 1]) == Pick(stored, order[..i]) + [stored[order[i]]];
    KeepPush(Pick(stored, order[..i]), stored[order[i]], test);
  }

  lemma {:induction false} KeepPush(flows: seq<FlowSnapshot>, flow: FlowSnapshot, test: FlowSnapshot -> bool)
    ensures Keep(flows + [flow], test) == Keep(flows, test) + if test(flow) then [flow] else []
  {
    if flows == [] {
      assert flows + [flow] == [flow];
      assert [flow][1..] == [];
    } else {
      assert (flows + [flow])[1..] == flows[1..] + [flow];
      KeepPush(flows[1..], flow, test);
    }
  }
}
