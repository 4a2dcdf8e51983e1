/**
 Fed the same history, the two stores answer the same reads as long as memory evicts nothing.
 And what eviction costs: the window that is kept, and how far the flag for it can be believed.
 */
module StoreAgreement {
  import opened Wrappers
  import opened Models
  import opened Folding
  import opened Paging
  import opened Listing
  import Memory = MemoryStore
  import Sql = SqlStore

  type Mem = Memory.Mem
  type Db = Sql.Db
  type Limits = Memory.Limits

  datatype Op = Batch(events: seq<Event>) | Forget(runId: string)

  function MemoryAfter(limits: Limits, m: Mem, history: seq<Op>): (after: Mem)
    requires Memory.ValidLimits(limits) && Memory.WellFormed(m)
    ensures Memory.WellFormed(after)
    decreases |history|
  {
    if history == [] then m
    else match history[0]
      case Batch(events) => MemoryAfter(limits, Memory.ApplyEvents(limits, m, events), history[1..])
      case Forget(r) =>
        Memory.RemoveWellFormed(m, r);
        MemoryAfter(limits, Memory.Remove(m, r), history[1..])
  }

  /** Whatever comes in and whatever is forgotten, no more runs are stored than the limit allows. */
  lemma {:induction false} NeverOverLimit(limits: Limits, m: Mem, history: seq<Op>)
    requires Memory.ValidLimits(limits) && Memory.WellFormed(m)
    requires limits.maxRuns.Some? && |m.runs| <= limits.maxRuns.value
    ensures |MemoryAfter(limits, m, history).runs| <= limits.maxRuns.value
    ensures |Memory.EMPTY.runs| == 0
    decreases |history|
  {
    hide Memory.WellFormed, Memory.ApplyEvents;
    if history != [] {
      match history[0] {
        case Batch(events) =>
          Memory.BatchBounded(limits, m, events);
          NeverOverLimit(limits, Memory.ApplyEvents(limits, m, events), history[1..]);
        case Forget(r) =>
          Memory.RemoveWellFormed(m, r);
          ForgetShrinks(m, r);
          NeverOverLimit(limits, Memory.Remove(m, r), history[1..]);
      }
    }
  }

  lemma ForgetShrinks(m: Mem, r: string)
    ensures |Memory.Remove(m, r).runs| <= |m.runs|
  {
    var rest := m.runs - {r};
    assert rest.Keys == m.runs.Keys - {r};
    assert |rest| == |rest.Keys| && |m.runs| == |m.runs.Keys|;
    if r in m.runs { assert m.runs.Keys == rest.Keys + {r}; } else { assert rest.Keys == m.runs.Keys; }
  }

  function DatabaseAfter(db: Db, history: seq<Op>): Db
    decreases |history|
  {
    if history == [] then db
    else match history[0]
      case Batch(events) => DatabaseAfter(Sql.ApplyEach(db, events), history[1..])
      case Forget(r) => DatabaseAfter(Sql.Dropped(db, {r}), history[1..])
  }

  // ----- when nothing is evicted ------------------------------------------------

  /** Whether storing this event leaves every run in place. */
  ghost predicate RoomForRun(limits: Limits, m: Mem, e: Event) {
    e.runId in m.runs || limits.maxRuns.None? || |m.order| < limits.maxRuns.value
  }

  /** Whether storing this event leaves the run's whole history in place. */
  ghost predicate RoomForEvent(limits: Limits, m: Mem, e: Event) {
    e.runId in m.runs ==> |m.runs[e.runId].events| < limits.maxEvents
  }

  /** No run is evicted anywhere along a history; with `full`, no event is either. */
  ghost predicate EvictsNothing(limits: Limits, m: Mem, history: seq<Op>, full: bool)
    requires Memory.ValidLimits(limits) && Memory.WellFormed(m)
    decreases |history|
  {
    if history == [] then true else
    match history[0]
    case Batch(events) =>
      && EventsFit(limits, m, events, full)
      && EvictsNothing(limits, Memory.ApplyEvents(limits, m, events), history[1..], full)
    case Forget(r) =>
      Memory.RemoveWellFormed(m, r);
      EvictsNothing(limits, Memory.Remove(m, r), history[1..], full)
  }

  ghost predicate EventsFit(limits: Limits, m: Mem, events: seq<Event>, full: bool)
    requires Memory.ValidLimits(limits) && Memory.WellFormed(m)
    decreases |events|
  {
    events != [] ==>
      && RoomForRun(limits, m, events[0])
      && (full ==> RoomForEvent(limits, m, events[0]))
      && (Memory.ApplyWellFormed(limits, m, events[0]);
          EventsFit(limits, Memory.ApplyEvent(limits, m, events[0]), events[1..], full))
  }

  /** The stores hold the same snapshots; with `full`, the same event under every number too. */
  ghost predicate InStep(m: Mem, db: Db, full: bool) {
    && Memory.WellFormed(m) && Sql.Consistent(db)
    && Memory.FlowsOf(m) == db.flows
    && (full ==> SameLogs(m, db))
  }

  function RunBefore(m: Mem, e: Event): Memory.RunState {
    if e.runId in m.runs then m.runs[e.runId] else Memory.NewRun(e)
  }

  lemma RunsAfter(limits: Limits, m: Mem, e: Event)
    requires Memory.ValidLimits(limits) && Memory.WellFormed(m) && RoomForRun(limits, m, e)
    ensures Memory.ApplyEvent(limits, m, e).runs
         == m.runs[e.runId := Memory.AbsorbEvent(RunBefore(m, e), e, limits.maxEvents)]
  {
  }

  lemma FlowsTogether(limits: Limits, m: Mem, db: Db, e: Event)
    requires Memory.ValidLimits(limits) && Memory.WellFormed(m) && RoomForRun(limits, m, e)
    requires Memory.FlowsOf(m) == db.flows
    ensures Memory.FlowsOf(Memory.ApplyEvent(limits, m, e)) == Sql.ApplyOne(db, e).flows
  {
    RunsAfter(limits, m, e);
    var now := Memory.FlowsOf(Memory.ApplyEvent(limits, m, e));
    assert e.runId in m.runs <==> e.runId in Memory.FlowsOf(m);
    assert now == Memory.FlowsOf(m)[e.runId := Fold(RunBefore(m, e).flow, e)];
  }

  ghost predicate SameLogs(m: Mem, db: Db) {
    forall r :: r in m.runs ==> FirstArrivals(m.runs[r].events) == Sql.Rows(db, r)
  }

  lemma LogsTogether(limits: Limits, m: Mem, db: Db, e: Event)
    requires Memory.ValidLimits(limits) && Memory.WellFormed(m)
    requires RoomForRun(limits, m, e) && RoomForEvent(limits, m, e)
    requires SameLogs(m, db) && (e.runId !in m.runs ==> e.runId !in db.events)
    ensures SameLogs(Memory.ApplyEvent(limits, m, e), Sql.ApplyOne(db, e))
  {
    var r, run := e.runId, RunBefore(m, e);
    var m', db' := Memory.ApplyEvent(limits, m, e), Sql.ApplyOne(db, e);
    RunsAfter(limits, m, e);
    FirstArrivalsPush(run.events, e);
    forall q | q in m'.runs ensures FirstArrivals(m'.runs[q].events) == Sql.Rows(db', q) {
      if q != r {
        assert m'.runs[q] == m.runs[q] && Sql.Rows(db', q) == Sql.Rows(db, q);
      } else {
        assert m'.runs[r].events == run.events + [e];
      }
    }
  }

  lemma StepTogether(limits: Limits, m: Mem, db: Db, e: Event, full: bool)
    requires Memory.ValidLimits(limits) && InStep(m, db, full)
    requires RoomForRun(limits, m, e) && (full ==> RoomForEvent(limits, m, e))
    ensures InStep(Memory.ApplyEvent(limits, m, e), Sql.ApplyOne(db, e), full)
  {
    Memory.ApplyWellFormed(limits, m, e);
    Sql.ApplyOneConsistent(db, e);
    FlowsTogether(limits, m, db, e);
    assert Memory.FlowsOf(m).Keys == m.runs.Keys;
    if full { LogsTogether(limits, m, db, e); }
  }

  lemma {:induction false} EventsTogether(limits: Limits, m: Mem, db: Db, events: seq<Event>, full: bool)
    requires Memory.ValidLimits(limits) && InStep(m, db, full) && EventsFit(limits, m, events, full)
    ensures InStep(Memory.ApplyEvents(limits, m, events), Sql.ApplyEach(db, events), full)
    decreases |events|
  {
    if events != [] {
      StepTogether(limits, m, db, events[0], full);
      EventsTogether(limits, Memory.ApplyEvent(limits, m, events[0]), Sql.ApplyOne(db, events[0]), events[1..], full);
    }
  }

  lemma ForgetTogether(m: Mem, db: Db, r: string, full: bool)
    requires InStep(m, db, full)
    ensures InStep(Memory.Remove(m, r), Sql.Dropped(db, {r}), full)
  {
    Memory.RemoveWellFormed(m, r);
    Sql.DroppedConsistent(db, {r});
    ForgetFlows(m, db, r);
    if full { ForgetLogs(m, db, r); }
  }

  lemma ForgetFlows(m: Mem, db: Db, r: string)
    requires Memory.FlowsOf(m) == db.flows
    ensures Memory.FlowsOf(Memory.Remove(m, r)) == Sql.Dropped(db, {r}).flows
  {
    assert Memory.FlowsOf(Memory.Remove(m, r)) == Memory.FlowsOf(m) - {r};
  }

  lemma ForgetLogs(m: Mem, db: Db, r: string)
    requires SameLogs(m, db)
    ensures SameLogs(Memory.Remove(m, r), Sql.Dropped(db, {r}))
  {
    var m', db' := Memory.Remove(m, r), Sql.Dropped(db, {r});
    forall q | q in m'.runs ensures FirstArrivals(m'.runs[q].events) == Sql.Rows(db', q) {
      assert m'.runs[q] == m.runs[q] && Sql.Rows(db', q) == Sql.Rows(db, q);
    }
  }

  lemma {:induction false} HistoryTogether(limits: Limits, m: Mem, db: Db, history: seq<Op>, full: bool)
    requires Memory.ValidLimits(limits) && InStep(m, db, full) && EvictsNothing(limits, m, history, full)
    ensures InStep(MemoryAfter(limits, m, history), DatabaseAfter(db, history), full)
    decreases |history|
  {
    if history != [] {
      match history[0] {
        case Batch(events) =>
          EventsTogether(limits, m, db, events, full);
          HistoryTogether(limits, Memory.ApplyEvents(limits, m, events), Sql.ApplyEach(db, events), history[1..], full);
        case Forget(r) =>
          ForgetTogether(m, db, r, full);
          HistoryTogether(limits, Memory.Remove(m, r), Sql.Dropped(db, {r}), history[1..], full);
      }
    }
  }

  /**
   For every history, of any runs in any arrival order with any repeats and split into
   batches anyhow, the database and an in-memory store that evicted nothing answer alike:
   every snapshot, and every page of every run from every position with every limit.
   */
  lemma StoresAgree(limits: Limits, history: seq<Op>, runId: string, sinceSeq: int, limit: int)
    requires Memory.ValidLimits(limits) && EvictsNothing(limits, Memory.EMPTY, history, true)
    ensures var m, db := MemoryAfter(limits, Memory.EMPTY, history), DatabaseAfter(Sql.EMPTY, history);
            && Memory.StoredFlow(m, runId) == Sql.Loaded(db, runId)
            && Memory.StoredPage(m, runId, sinceSeq, limit) == Sql.StoredPage(db, runId, sinceSeq, limit)
  {
    HistoryTogether(limits, Memory.EMPTY, Sql.EMPTY, history, true);
    var m, db := MemoryAfter(limits, Memory.EMPTY, history), DatabaseAfter(Sql.EMPTY, history);
    assert Memory.FlowsOf(m).Keys == m.runs.Keys;
    assert runId in m.runs <==> runId in db.events;
    assert Memory.LogOf(m, runId) == Sql.Rows(db, runId);
  }

  /** Snapshots and listings agree even when old events were evicted: only losing a whole run tells the stores apart. */
  lemma SnapshotsAgree(limits: Limits, history: seq<Op>, runId: string, filter: Filter, limit: int,
                       marker: Option<string>)
    requires Memory.ValidLimits(limits) && EvictsNothing(limits, Memory.EMPTY, history, false)
    ensures var m, db := MemoryAfter(limits, Memory.EMPTY, history), DatabaseAfter(Sql.EMPTY, history);
            && Memory.StoredFlow(m, runId) == Sql.Loaded(db, runId)
            && (limit >= 1 && OnTheWalk(db.flows, filter, marker) ==>
                  Memory.StoredListing(m, filter, limit, marker) == Sql.StoredListing(db, filter, limit, marker))
  {
    HistoryTogether(limits, Memory.EMPTY, Sql.EMPTY, history, false);
    var m, db := MemoryAfter(limits, Memory.EMPTY, history), DatabaseAfter(Sql.EMPTY, history);
    assert Memory.FlowsOf(m).Keys == m.runs.Keys;
    if limit >= 1 { PagesAgree(db.flows, filter, limit, marker); }
  }

  // ----- the bounded history ------------------------------------------------------

  lemma NewestPush<T>(s: seq<T>, x: T, n: nat)
    requires n >= 1
    ensures Memory.Newest(Memory.Newest(s, n) + [x], n) == Memory.Newest(s + [x], n)
  {
  }

  /** A run's part of the store is exactly the newest of the events it was given. */
  ghost predicate KeepsNewest(limits: Limits, m: Mem, mine: seq<Event>, runId: string)
    requires Memory.ValidLimits(limits)
  {
    if mine == [] then runId !in m.runs
    else runId in m.runs && m.runs[runId].events == Memory.Newest(mine, limits.maxEvents)
  }

  lemma KeepsNewestStep(limits: Limits, m: Mem, mine: seq<Event>, runId: string, e: Event)
    requires Memory.ValidLimits(limits) && Memory.WellFormed(m) && RoomForRun(limits, m, e)
    requires KeepsNewest(limits, m, mine, runId)
    ensures KeepsNewest(limits, Memory.ApplyEvent(limits, m, e), if e.runId == runId then mine + [e] else mine, runId)
  {
    RunsAfter(limits, m, e);
    NewestPush(mine, e, limits.maxEvents);
    assert Memory.Newest([e], limits.maxEvents) == [] + [e];
  }

  /** As long as no run is evicted, a run's history is the newest of its events, whatever is stored beside it. */
  lemma {:induction false} HistoryIsNewest(limits: Limits, m: Mem, mine: seq<Event>, events: seq<Event>, runId: string)
    requires Memory.ValidLimits(limits) && Memory.WellFormed(m) && EventsFit(limits, m, events, false)
    requires KeepsNewest(limits, m, mine, runId)
    ensures KeepsNewest(limits, Memory.ApplyEvents(limits, m, events), mine + OfRun(events, runId), runId)
    decreases |events|
  {
    if events == [] {
      assert mine + OfRun(events, runId) == mine;
    } else {
      var e := events[0];
      Memory.ApplyWellFormed(limits, m, e);
      KeepsNewestStep(limits, m, mine, runId, e);
      var mine' := if e.runId == runId then mine + [e] else mine;
      HistoryIsNewest(limits, Memory.ApplyEvent(limits, m, e), mine', events[1..], runId);
      OfRunNext(mine, events, runId);
    }
  }

  lemma OfRunNext(mine: seq<Event>, events: seq<Event>, runId: string)
    requires events != []
    ensures mine + OfRun(events, runId)
         == (if events[0].runId == runId then mine + [events[0]] else mine) + OfRun(events[1..], runId)
  {
    hide OfRun;
    var rest := OfRun(events[1..], runId);
    OfRunHead(events, runId);
    if events[0].runId == runId {
      assert mine + ([events[0]] + rest) == (mine + [events[0]]) + rest;
    } else {
      assert [] + rest == rest;
    }
  }

  lemma OfRunHead(events: seq<Event>, runId: string)
    requires events != []
    ensures OfRun(events, runId) == (if events[0].runId == runId then [events[0]] else []) + OfRun(events[1..], runId)
  {
  }

  // ----- what the flag is worth -----------------------------------------------------

  ghost predicate Arrived(events: seq<Event>, number: int) {
    exists e :: e in events && e.seqNo == number
  }

  /** Everything in a window is beyond a number; the window is not empty. */
  ghost predicate AllBeyond(window: seq<Event>, number: int) {
    window != [] && forall e :: e in window ==> e.seqNo > number
  }

  lemma BeyondIsBelowOldest(window: seq<Event>, number: int)
    ensures AllBeyond(window, number)
       <==> Oldest(FirstArrivals(window)).Some? && number < Oldest(FirstArrivals(window)).value
  {
    FirstArrivalsKeyed(window);
    var log := FirstArrivals(window);
    if window != [] {
      assert window[0].seqNo in log.Keys;
      var least := Oldest(log).value;
      assert log[least] in window;
      forall e | e in window ensures least <= e.seqNo {
        assert e.seqNo in log.Keys;
      }
    } else {
      assert log.Keys == {};
    }
  }

  /** The truncated flag tells the truth about a reader: its next event had arrived and was evicted. */
  ghost predicate FlagRight(m: Mem, mine: seq<Event>, runId: string, sinceSeq: int, limit: int)
    requires limit >= 1
  {
    Memory.StoredPage(m, runId, sinceSeq, limit).value.truncated
    <==> Arrived(mine, sinceSeq + 1) && sinceSeq + 1 !in Memory.LogOf(m, runId)
  }

  /** What the store still has of a run, in the order it arrived. */
  function Ring(m: Mem, runId: string): seq<Event> {
    if runId in m.runs then m.runs[runId].events else []
  }

  /**
   Whatever a store holds, and whatever a run was ever given: a reader is told of a hole exactly when
   all that is kept lies beyond its next number. So the flag is right for it exactly when, if all that
   is kept lies beyond, the number had arrived, and otherwise, if it had arrived, it is still kept.
   */
  lemma FlagExactly(m: Mem, mine: seq<Event>, runId: string, sinceSeq: int, limit: int)
    requires limit >= 1
    ensures var ring := Ring(m, runId);
            && Memory.StoredPage(m, runId, sinceSeq, limit).value.truncated == AllBeyond(ring, sinceSeq + 1)
            && (forall s :: s in Memory.LogOf(m, runId) <==> Arrived(ring, s))
            && (FlagRight(m, mine, runId, sinceSeq, limit)
                <==> if AllBeyond(ring, sinceSeq + 1) then Arrived(mine, sinceSeq + 1)
                     else Arrived(mine, sinceSeq + 1) ==> Arrived(ring, sinceSeq + 1))
  {
    hide AllBeyond;
    var ring := Ring(m, runId);
    assert Memory.LogOf(m, runId) == FirstArrivals(ring);
    FirstArrivalsKeyed(ring);
    BeyondIsBelowOldest(ring, sinceSeq + 1);
    NotBeyond(ring, sinceSeq + 1);
  }

  lemma NotBeyond(window: seq<Event>, number: int)
    ensures AllBeyond(window, number) ==> !Arrived(window, number)
  {
  }

  /** A run's events came in sequence, from number 1. */
  ghost predicate InSequence(mine: seq<Event>) {
    forall i :: 0 <= i < |mine| ==> mine[i].seqNo == i + 1
  }

  /** What is kept of a run fed in sequence: its last numbers, as many as there is room for. */
  lemma WindowNumbers(mine: seq<Event>, maxEvents: nat)
    requires InSequence(mine) && maxEvents >= 1
    ensures var kept := Memory.Newest(mine, maxEvents);
            var gone := |mine| - |kept|;
            && (forall s :: Arrived(kept, s) <==> gone < s <= |mine|)
            && (forall s :: AllBeyond(kept, s) <==> mine != [] && s <= gone)
  {
    hide Arrived, AllBeyond;
    var kept := Memory.Newest(mine, maxEvents);
    forall i | 0 <= i < |kept| ensures kept[i].seqNo == |mine| - |kept| + i + 1 {
      assert kept[i] == mine[|mine| - |kept| + i];
    }
    forall s
      ensures Arrived(kept, s) <==> |mine| - |kept| < s <= |mine|
      ensures AllBeyond(kept, s) <==> mine != [] && s <= |mine| - |kept|
    {
      NumbersInStep(kept, |mine| - |kept|, s);
    }
  }

  lemma NumbersInStep(window: seq<Event>, before: int, s: int)
    requires forall i :: 0 <= i < |window| ==> window[i].seqNo == before + i + 1
    ensures Arrived(window, s) <==> before < s <= before + |window|
    ensures AllBeyond(window, s) <==> window != [] && s <= before
  {
    if before < s <= before + |window| { assert window[s - before - 1] in window; }
    if window != [] { assert window[0] in window; }
  }

  /**
   When a run is fed in sequence from 1, memory holds exactly the last of its numbers, as many
   as it is allowed; and a reader is told of a hole exactly when its next event was evicted.
   */
  lemma EvictionWindow(limits: Limits, events: seq<Event>, runId: string, sinceSeq: int, limit: int)
    requires Memory.ValidLimits(limits) && EventsFit(limits, Memory.EMPTY, events, false)
    requires InSequence(OfRun(events, runId)) && limit >= 1
    requires 0 <= sinceSeq <= |OfRun(events, runId)|
    ensures var m := Memory.ApplyEvents(limits, Memory.EMPTY, events);
            var n := |OfRun(events, runId)|;
            var kept := if n < limits.maxEvents then n else limits.maxEvents;
            && (forall s :: s in Memory.LogOf(m, runId) <==> n - kept < s <= n)
            && Memory.StoredPage(m, runId, sinceSeq, limit).value.truncated == (sinceSeq + 1 <= n - kept)
  {
    hide Memory.ApplyEvents, Memory.LogOf, Memory.StoredPage, OfRun, InSequence, Arrived, AllBeyond;
    var m := Memory.ApplyEvents(limits, Memory.EMPTY, events);
    FlagExactly(m, OfRun(events, runId), runId, sinceSeq, limit);
    RingIsNewest(limits, events, runId);
    WindowNumbers(OfRun(events, runId), limits.maxEvents);
  }

  /** As long as no run is evicted, what is kept of a run is the newest of what it was given. */
  lemma RingIsNewest(limits: Limits, events: seq<Event>, runId: string)
    requires Memory.ValidLimits(limits) && EventsFit(limits, Memory.EMPTY, events, false)
    ensures Ring(Memory.ApplyEvents(limits, Memory.EMPTY, events), runId)
         == Memory.Newest(OfRun(events, runId), limits.maxEvents)
  {
    HistoryIsNewest(limits, Memory.EMPTY, [], events, runId);
    assert [] + OfRun(events, runId) == OfRun(events, runId);
  }

  /**
   A clean window: every number below what is kept has arrived, and every number that arrived and is
   gone lies below what is kept. With nothing kept it is clean only if nothing ever arrived.
   */
  ghost predicate CleanWindow(mine: seq<Event>, kept: seq<Event>) {
    && (forall s :: s >= 1 && AllBeyond(kept, s) ==> Arrived(mine, s))
    && (forall s :: s >= 1 && Arrived(mine, s) && !Arrived(kept, s) ==> AllBeyond(kept, s))
  }

  ghost predicate AlwaysRight(m: Mem, mine: seq<Event>, runId: string, limit: int)
    requires limit >= 1
  {
    forall sinceSeq :: sinceSeq >= 0 ==> FlagRight(m, mine, runId, sinceSeq, limit)
  }

  /** Whatever was evicted, runs among it, the flag is right for every reader exactly when the window is clean. */
  lemma FlagRightForAll(m: Mem, mine: seq<Event>, runId: string, limit: int)
    requires limit >= 1
    ensures AlwaysRight(m, mine, runId, limit) <==> CleanWindow(mine, Ring(m, runId))
  {
    hide AllBeyond, FlagRight, Arrived, Ring;
    var ring := Ring(m, runId);
    forall sinceSeq: int
      ensures FlagRight(m, mine, runId, sinceSeq, limit)
         <==> if AllBeyond(ring, sinceSeq + 1) then Arrived(mine, sinceSeq + 1)
              else Arrived(mine, sinceSeq + 1) ==> Arrived(ring, sinceSeq + 1)
      ensures AllBeyond(ring, sinceSeq + 1) ==> !Arrived(ring, sinceSeq + 1)
    {
      FlagExactly(m, mine, runId, sinceSeq, limit);
      NotBeyond(ring, sinceSeq + 1);
    }
    if AlwaysRight(m, mine, runId, limit) {
      forall s | s >= 1
        ensures AllBeyond(ring, s) ==> Arrived(mine, s)
        ensures Arrived(mine, s) && !Arrived(ring, s) ==> AllBeyond(ring, s)
      {
        assert FlagRight(m, mine, runId, s - 1, limit);
      }
    }
    if CleanWindow(mine, ring) {
      forall sinceSeq | sinceSeq >= 0 ensures FlagRight(m, mine, runId, sinceSeq, limit) {
        var s := sinceSeq + 1;
        assert AllBeyond(ring, s) ==> Arrived(mine, s);
        assert Arrived(mine, s) && !Arrived(ring, s) ==> AllBeyond(ring, s);
      }
    }
  }

  /** While no run is evicted, that is a condition on the order of arrival alone. */
  lemma FlagByArrivalOrder(limits: Limits, events: seq<Event>, runId: string, limit: int)
    requires Memory.ValidLimits(limits) && EventsFit(limits, Memory.EMPTY, events, false) && limit >= 1
    ensures var m, mine := Memory.ApplyEvents(limits, Memory.EMPTY, events), OfRun(events, runId);
            AlwaysRight(m, mine, runId, limit) <==> CleanWindow(mine, Memory.Newest(mine, limits.maxEvents))
  {
    hide AlwaysRight, CleanWindow, EventsFit, Ring, Memory.ApplyEvents, OfRun;
    RingIsNewest(limits, events, runId);
    FlagRightForAll(Memory.ApplyEvents(limits, Memory.EMPTY, events), OfRun(events, runId), runId, limit);
  }

  /** A run that is gone altogether is never reported: the flag is wrong about each of its events. */
  lemma GoneRunIsSilent(m: Mem, mine: seq<Event>, runId: string, sinceSeq: int, limit: int)
    requires limit >= 1 && runId !in m.runs
    ensures Memory.StoredPage(m, runId, sinceSeq, limit) == Ok(EventPage([], sinceSeq, None, false))
    ensures FlagRight(m, mine, runId, sinceSeq, limit) <==> !Arrived(mine, sinceSeq + 1)
  {
    assert Memory.LogOf(m, runId).Keys == {};
  }

  /** With room for one run, an event of another observed no earlier makes a run go, although its ring had room. */
  lemma RunEvictedInSilence(limits: Limits, first: Event, other: Event, limit: int)
    requires Memory.ValidLimits(limits) && limits.maxRuns == Some(1) && limit >= 1
    requires first.seqNo == 1 && other.runId != first.runId && other.ts >= first.ts
    ensures var m := Memory.ApplyEvents(limits, Memory.EMPTY, [first, other]);
            var mine := OfRun([first, other], first.runId);
            && mine == [first] && first.runId !in m.runs
            && !FlagRight(m, mine, first.runId, 0, limit)
            && CleanWindow(mine, Memory.Newest(mine, limits.maxEvents))
  {
    hide CleanWindow, FlagRight;
    var r := first.runId;
    Memory.EmptyWellFormed();
    Memory.ApplyWellFormed(limits, Memory.EMPTY, first);
    var m1 := Memory.ApplyEvent(limits, Memory.EMPTY, first);
    OneRunAfter(limits, first);
    Memory.ApplyWellFormed(limits, m1, other);
    Memory.ApplySingle(limits, Memory.EMPTY, first);
    Memory.ApplySingle(limits, m1, other);
    Memory.ApplyEventsConcat(limits, Memory.EMPTY, [first], [other]);
    assert [first] + [other] == [first, other];
    EvictedByOther(limits, m1, r, other);
    OfRunAll([first], r);
    OfRunNone([other], r);
    OfRunConcat([first], [other], r);
    assert OfRun([first, other], r) == [first] + [] == [first];
    assert Arrived([first], 1) by { assert first in [first]; }
    GoneRunIsSilent(Memory.ApplyEvent(limits, m1, other), [first], r, 0, limit);
    OneEventIsClean(first);
    assert Memory.Newest([first], limits.maxEvents) == [first];
  }

  lemma OneEventIsClean(first: Event)
    requires first.seqNo == 1
    ensures CleanWindow([first], [first])
  {
    assert first in [first];
    forall s | s >= 1 ensures !AllBeyond([first], s) {
      assert first in [first] && first.seqNo <= s;
    }
  }

  lemma OneRunAfter(limits: Limits, first: Event)
    requires Memory.ValidLimits(limits) && Memory.WellFormed(Memory.EMPTY)
    ensures var m := Memory.ApplyEvent(limits, Memory.EMPTY, first);
            && m.order == [first.runId] && first.runId in m.runs
            && m.runs[first.runId].flow.observedAt == first.ts
  {
    assert Memory.Seeded(Memory.EMPTY, first).order == [first.runId];
  }

  lemma EvictedByOther(limits: Limits, m: Mem, r: string, other: Event)
    requires Memory.ValidLimits(limits) && Memory.WellFormed(m) && limits.maxRuns == Some(1)
    requires m.order == [r] && r in m.runs && other.runId !in m.runs && m.runs[r].flow.observedAt <= other.ts
    ensures r !in Memory.ApplyEvent(limits, m, other).runs
  {
    hide Memory.WellFormed, Memory.AbsorbEvent;
    var seeded := Memory.Seeded(m, other);
    assert seeded.order == [r, other.runId];
    assert seeded.order[..1] == [r];
    Memory.OldestOfOne(seeded.order[..1], seeded.runs);
    Memory.OldestStep(seeded.order, seeded.runs, 1);
    assert seeded.order[..2] == seeded.order;
    assert Memory.OldestObserved(seeded.order, seeded.runs) == r;
  }

  /**
   A number evicted in silence: with room for two, numbers 2, 1 and 3 in that order leave 1 and 3.
   A reader at 1 gets nothing and is told of no hole, although 2 is gone and 3 is stored; if the
   flow has finished, that is where its stream ends.
   */
  lemma EvictedInSilence(limits: Limits, second: Event, first: Event, third: Event, limit: int)
    requires Memory.ValidLimits(limits) && limits.maxEvents == 2 && limit >= 1
    requires second.seqNo == 2 && first.seqNo == 1 && third.seqNo == 3
    requires second.runId == first.runId == third.runId
    requires third.kind == FlowState && IsFinishState(third.state)
    ensures var m := Memory.ApplyEvents(limits, Memory.EMPTY, [second, first, third]);
            var page := Memory.StoredPage(m, first.runId, 1, limit).value;
            && page.events == [] && !page.truncated
            && 3 in Memory.LogOf(m, first.runId) && 2 !in Memory.LogOf(m, first.runId)
            && Memory.StoredFlow(m, first.runId).Some? && Memory.StoredFlow(m, first.runId).value.IsFinished()
  {
    hide Memory.ApplyEvents, EventsFit, OfRun, FirstArrivals, Stretch;
    var r, events := first.runId, [second, first, third];
    RingOf(limits, events, r);
    var m := Memory.ApplyEvents(limits, Memory.EMPTY, events);
    assert Memory.Newest(events, 2) == [first, third];
    LastDecides(limits, [second, first], third);
    assert [second, first] + [third] == events;
    OneAndThree(first, third);
  }

  lemma OneAndThree(first: Event, third: Event)
    requires first.seqNo == 1 && third.seqNo == 3
    ensures var log := FirstArrivals([first, third]);
            log == map[1 := first, 3 := third] && Oldest(log) == Some(1)
  {
    FirstArrivalsHead(first, [third]);
    FirstArrivalsHead(third, []);
    assert [third] + [] == [third] && [first] + [third] == [first, third];
    assert 1 in FirstArrivals([first, third]).Keys;
  }

  /** A run that is alone keeps its newest events. */
  lemma RingOf(limits: Limits, events: seq<Event>, runId: string)
    requires Memory.ValidLimits(limits) && events != [] && forall e :: e in events ==> e.runId == runId
    ensures var m := Memory.ApplyEvents(limits, Memory.EMPTY, events);
            runId in m.runs && m.runs[runId].events == Memory.Newest(events, limits.maxEvents)
  {
    OneRunFits(limits, Memory.EMPTY, events, runId);
    HistoryIsNewest(limits, Memory.EMPTY, [], events, runId);
    OfRunAll(events, runId);
    assert [] + events == events;
  }

  /** The events of one run evict no run. */
  lemma {:induction false} OneRunFits(limits: Limits, m: Mem, events: seq<Event>, runId: string)
    requires Memory.ValidLimits(limits) && Memory.WellFormed(m) && (m.order == [] || runId in m.runs)
    requires forall e :: e in events ==> e.runId == runId
    ensures EventsFit(limits, m, events, false)
    decreases |events|
  {
    if events != [] {
      assert events[0] in events;
      Memory.ApplyWellFormed(limits, m, events[0]);
      assert RoomForRun(limits, m, events[0]);
      RunsAfter(limits, m, events[0]);
      OneRunFits(limits, Memory.ApplyEvent(limits, m, events[0]), events[1..], runId);
    }
  }

  /** A run stored last shows the state its last event brought. */
  lemma LastDecides(limits: Limits, before: seq<Event>, last: Event)
    requires Memory.ValidLimits(limits) && last.kind == FlowState
    requires forall e :: e in before ==> e.runId == last.runId
    ensures var m := Memory.ApplyEvents(limits, Memory.EMPTY, before + [last]);
            last.runId in m.runs && m.runs[last.runId].flow.state == last.state
  {
    var m := Memory.ApplyEvents(limits, Memory.EMPTY, before);
    Memory.ApplyEventsConcat(limits, Memory.EMPTY, before, [last]);
    Memory.ApplySingle(limits, m, last);
    OneRunFits(limits, Memory.EMPTY, before + [last], last.runId);
    FitsToTheEnd(limits, Memory.EMPTY, before, last);
    RunsAfter(limits, m, last);
  }

  lemma {:induction false} FitsToTheEnd(limits: Limits, m: Mem, before: seq<Event>, last: Event)
    requires Memory.ValidLimits(limits) && Memory.WellFormed(m) && EventsFit(limits, m, before + [last], false)
    ensures RoomForRun(limits, Memory.ApplyEvents(limits, m, before), last)
    decreases |before|
  {
    if before == [] {
      assert (before + [last])[0] == last;
    } else {
      assert (before + [last])[0] == before[0] && (before + [last])[1..] == before[1..] + [last];
      Memory.ApplyWellFormed(limits, m, before[0]);
      FitsToTheEnd(limits, Memory.ApplyEvent(limits, m, before[0]), before[1..], last);
    }
  }

  /** Number 2 arriving before number 1: a reader at 0 is told of a hole, though nothing was evicted. */
  lemma EarlyArrivalLooksEvicted(limits: Limits, second: Event)
    requires Memory.ValidLimits(limits) && second.seqNo == 2
    ensures var m := Memory.ApplyEvents(limits, Memory.EMPTY, [second]);
            Memory.StoredPage(m, second.runId, 0, 1) == Ok(EventPage([second], 2, Some(2), true))
  {
    hide Memory.ApplyEvents;
    RingOf(limits, [second], second.runId);
    var m := Memory.ApplyEvents(limits, Memory.EMPTY, [second]);
    assert m.runs[second.runId].events == [second];
    FirstArrivalsPush([], second);
    assert [] + [second] == [second];
    var log := Memory.LogOf(m, second.runId);
    assert log == map[2 := second];
    assert 2 in log.Keys;
    assert Oldest(log) == Some(2);
    assert Stretch(log, 3) == [] && Stretch(log, 2) == [second];
    assert PageOf(log, 0, 1) == EventPage([second], 2, Some(2), true);
  }
}
