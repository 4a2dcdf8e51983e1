/**
 Two tables, flows by run and events by run and number, and what batches, forgets and prunes do
 to them. A transaction is one atomic step.
 */
module SqlStore {
  import opened Wrappers
  import opened Ordering
  import opened Models
  import opened Folding
  import opened Paging
  import opened Listing

  /** Both tables; the event rows are grouped by the first half of their key. */
  datatype Db = Db(flows: Flows, events: map<string, Log>)

  const EMPTY := Db(map[], map[])

  function Loaded(db: Db, runId: string): Option<FlowSnapshot> {
    if runId in db.flows then Some(db.flows[runId]) else None
  }

  function Rows(db: Db, runId: string): Log {
    if runId in db.events then db.events[runId] else map[]
  }

  // ----- one event at a time ---------------------------------------------------

  /** What storing a single event does: fold it, and keep its row unless the key is taken. */
  function ApplyOne(db: Db, e: Event): Db {
    var r := e.runId;
    Db(db.flows[r := Fold(Loaded(db, r).GetOr(FlowFromEvent(e)), e)],
       db.events[r := Record(Rows(db, r), e)])
  }

  function ApplyEach(db: Db, events: seq<Event>): Db
    decreases |events|
  {
    if events == [] then db else ApplyEach(ApplyOne(db, events[0]), events[1..])
  }

  lemma {:induction false} ApplyEachConcat(db: Db, a: seq<Event>, b: seq<Event>)
    ensures ApplyEach(db, a + b) == ApplyEach(ApplyEach(db, a), b)
    decreases |a|
  {
    if a == [] {
      assert a + b == b;
    } else {
      assert (a + b)[0] == a[0] && (a + b)[1..] == a[1..] + b;
      ApplyEachConcat(ApplyOne(db, a[0]), a[1..], b);
    }
  }

  // ----- a run at a time -------------------------------------------------------

  function RecordAll(log: Log, events: seq<Event>): Log
    decreases |events|
  {
    if events == [] then log else RecordAll(Record(log, events[0]), events[1..])
  }

  /** The snapshot after one run's share of a batch, seeded from its first event when new. */
  function Snapshot(stored: Option<FlowSnapshot>, events: seq<Event>): Option<FlowSnapshot> {
    if events == [] then stored else Some(FoldAll(stored.GetOr(FlowFromEvent(events[0])), events))
  }

  lemma SnapshotStep(stored: Option<FlowSnapshot>, e: Event, rest: seq<Event>)
    ensures Snapshot(stored, [e] + rest) == Snapshot(Some(Fold(stored.GetOr(FlowFromEvent(e)), e)), rest)
  {
    var seed := stored.GetOr(FlowFromEvent(e));
    assert ([e] + rest)[1..] == rest;
    assert FoldAll(seed, [e] + rest) == FoldAll(Fold(seed, e), rest);
  }

  /** Only a run's own events matter to its two sets of rows. */
  lemma {:induction false} EachOnRun(db: Db, events: seq<Event>, runId: string)
    ensures Loaded(ApplyEach(db, events), runId) == Snapshot(Loaded(db, runId), OfRun(events, runId))
    ensures Rows(ApplyEach(db, events), runId) == RecordAll(Rows(db, runId), OfRun(events, runId))
    ensures runId in ApplyEach(db, events).events <==> runId in db.events || OfRun(events, runId) != []
    decreases |events|
  {
    if events != [] {
      var e, rest := events[0], events[1..];
      EachOnRun(ApplyOne(db, e), rest, runId);
      var mine := OfRun(rest, runId);
      if e.runId == runId {
        assert OfRun(events, runId) == [e] + mine && ([e] + mine)[1..] == mine;
        SnapshotStep(Loaded(db, runId), e, mine);
      } else {
        assert OfRun(events, runId) == mine;
      }
    }
  }

  /** A batch can be split anywhere. */
  lemma BatchingDoesNotMatter(db: Db, a: seq<Event>, b: seq<Event>)
    ensures ApplyEach(ApplyEach(db, a), b) == ApplyEach(db, a + b)
  {
    ApplyEachConcat(db, a, b);
  }

  // ----- invariants ------------------------------------------------------------

  /** Every flow row has event rows and the other way round, and each row sits under its key. */
  ghost predicate Consistent(db: Db) {
    && db.flows.Keys == db.events.Keys
    && Listing.Keyed(db.flows)
    && (forall r :: r in db.events ==> db.events[r] != map[] && Paging.Keyed(db.events[r])
                                       && forall s :: s in db.events[r] ==> db.events[r][s].runId == r)
  }

  function Dropped(db: Db, gone: set<string>): Db {
    Db(db.flows - gone, db.events - gone)
  }

  function StaleRuns(db: Db, before: real): set<string> {
    set r | r in db.flows && db.flows[r].observedAt < before
  }

  /** A run survives exactly when it is stored and was not last observed before the bound; survivors are untouched. */
  lemma PruneSpares(db: Db, before: real)
    requires Consistent(db)
    ensures var kept := Dropped(db, StaleRuns(db, before));
            forall r ::
              && (r in kept.flows <==> r in db.flows && db.flows[r].observedAt >= before)
              && (r in kept.events <==> r in kept.flows)
              && (r in kept.flows ==> kept.flows[r] == db.flows[r] && kept.events[r] == db.events[r])
  {
    var kept := Dropped(db, StaleRuns(db, before));
    forall r ensures r in kept.events <==> r in db.flows && !(db.flows[r].observedAt < before) {
      assert r in db.flows.Keys <==> r in db.events.Keys;
    }
  }

  lemma ApplyOneConsistent(db: Db, e: Event)
    requires Consistent(db)
    ensures Consistent(ApplyOne(db, e))
  {
    assert e.seqNo in Record(Rows(db, e.runId), e);
  }

  lemma {:induction false} ApplyEachConsistent(db: Db, events: seq<Event>)
    requires Consistent(db)
    ensures Consistent(ApplyEach(db, events))
    decreases |events|
  {
    if events != [] {
      ApplyOneConsistent(db, events[0]);
      ApplyEachConsistent(ApplyOne(db, events[0]), events[1..]);
    }
  }

  lemma DroppedConsistent(db: Db, gone: set<string>)
    requires Consistent(db)
    ensures Consistent(Dropped(db, gone))
  {
    assert Dropped(db, gone).flows.Keys == db.flows.Keys - gone;
    assert Dropped(db, gone).events.Keys == db.events.Keys - gone;
  }

  /** What a client of the store can ask for. */
  datatype Command = Batch(events: seq<Event>) | Forget(runId: string) | Prune(before: real)

  function Execute(db: Db, c: Command): Db {
    match c
    case Batch(events) => ApplyEach(db, events)
    case Forget(runId) => Dropped(db, {runId})
    case Prune(before) => Dropped(db, StaleRuns(db, before))
  }

  function ExecuteAll(db: Db, commands: seq<Command>): Db
    decreases |commands|
  {
    if commands == [] then db else ExecuteAll(Execute(db, commands[0]), commands[1..])
  }

  /**
   Over any sequence of batches, forgets and prunes, the runs with a flow row are exactly
   the runs with event rows.
   */
  lemma {:induction false} FlowsAndEventsTogether(db: Db, commands: seq<Command>)
    requires Consistent(db)
    ensures Consistent(ExecuteAll(db, commands))
    ensures ExecuteAll(db, commands).flows.Keys == ExecuteAll(db, commands).events.Keys
    decreases |commands|
  {
    if commands != [] {
      match commands[0] {
        case Batch(events) => ApplyEachConsistent(db, events);
        case Forget(runId) => DroppedConsistent(db, {runId});
        case Prune(before) => DroppedConsistent(db, StaleRuns(db, before));
      }
      FlowsAndEventsTogether(Execute(db, commands[0]), commands[1..]);
    }
  }

  // ----- redelivery ------------------------------------------------------------

  ghost predicate AllStored(db: Db, events: seq<Event>) {
    forall e :: e in events ==> e.seqNo in Rows(db, e.runId)
  }

  /** Events whose numbers are stored already change no event row, in any order and however often. */
  lemma {:induction false} RedeliveryKeepsRows(db: Db, events: seq<Event>)
    requires AllStored(db, events)
    ensures ApplyEach(db, events).events == db.events
    decreases |events|
  {
    if events != [] {
      assert events[0] in events;
      assert ApplyOne(db, events[0]).events == db.events;
      forall e | e in events[1..] ensures e.seqNo in Rows(ApplyOne(db, events[0]), e.runId) {
        assert e in events;
      }
      RedeliveryKeepsRows(ApplyOne(db, events[0]), events[1..]);
    }
  }

  lemma {:induction false} StoredAfterwards(db: Db, events: seq<Event>)
    ensures AllStored(ApplyEach(db, events), events)
    ensures forall r, s :: s in Rows(db, r) ==> s in Rows(ApplyEach(db, events), r)
    decreases |events|
  {
    if events != [] {
      StoredAfterwards(ApplyOne(db, events[0]), events[1..]);
      assert events[0].seqNo in Rows(ApplyOne(db, events[0]), events[0].runId);
      forall r, s | s in Rows(db, r) ensures s in Rows(ApplyOne(db, events[0]), r) {
      }
    }
  }

  /** Redelivering the end of what was stored changes nothing in either table. */
  lemma TailRedeliveryIsNoOp(db: Db, a: seq<Event>, b: seq<Event>)
    ensures var stored := ApplyEach(db, a + b); ApplyEach(stored, b) == stored
  {
    var stored := ApplyEach(db, a + b);
    var again := ApplyEach(stored, b);
    ApplyEachConcat(db, a, b);
    StoredAfterwards(ApplyEach(db, a), b);
    RedeliveryKeepsRows(stored, b);
    forall r ensures Loaded(again, r) == Loaded(stored, r) {
      TailSnapshot(db, a, b, r);
    }
    SameFlows(again, stored);
  }

  lemma TailSnapshot(db: Db, a: seq<Event>, b: seq<Event>, r: string)
    ensures Loaded(ApplyEach(ApplyEach(db, a + b), b), r) == Loaded(ApplyEach(db, a + b), r)
  {
    var stored := ApplyEach(db, a + b);
    EachOnRun(stored, b, r);
    EachOnRun(db, a + b, r);
    OfRunConcat(a, b, r);
    if OfRun(b, r) != [] {
      ReplayIdempotent(Loaded(db, r).GetOr(FlowFromEvent(OfRun(a + b, r)[0])), OfRun(a, r), OfRun(b, r));
    }
  }

  lemma SameFlows(a: Db, b: Db)
    requires forall r :: Loaded(a, r) == Loaded(b, r)
    ensures a.flows == b.flows
  {
    forall r ensures r in a.flows <==> r in b.flows {
      assert Loaded(a, r) == Loaded(b, r);
    }
    forall r | r in a.flows ensures a.flows[r] == b.flows[r] {
      assert Loaded(a, r) == Loaded(b, r);
    }
  }

  /** Every field a batch writes last on a run already has that value. */
  ghost predicate AllAbsorbed(db: Db, batch: seq<Event>) {
    forall r :: OfRun(batch, r) != [] ==> AbsorbedBy(db, r, OfRun(batch, r))
  }

  ghost predicate AbsorbedBy(db: Db, r: string, mine: seq<Event>) {
    r in db.flows && Absorbed(Summary(mine), db.flows[r])
  }

  /**
   Delivering any batch, of any runs, leaves both tables alone exactly when every event's number
   is stored and every field the batch writes last on each run already has that value.
   */
  lemma RedeliveryCondition(db: Db, batch: seq<Event>)
    requires Consistent(db)
    ensures ApplyEach(db, batch) == db <==> AllStored(db, batch) && AllAbsorbed(db, batch)
  {
    hide Absorbed, ApplyEach, Summary, FoldAll;
    var after := ApplyEach(db, batch);
    forall r
      ensures Loaded(after, r) == Loaded(db, r) <==> (OfRun(batch, r) != [] ==> AbsorbedBy(db, r, OfRun(batch, r)))
    {
      EachOnRun(db, batch, r);
      RunUnchanged(db, r, OfRun(batch, r));
    }
    if after == db {
      StoredAfterwards(db, batch);
    }
    if AllStored(db, batch) && AllAbsorbed(db, batch) {
      RedeliveryKeepsRows(db, batch);
      SameFlows(after, db);
    }
  }

  lemma RunUnchanged(db: Db, r: string, mine: seq<Event>)
    ensures Snapshot(Loaded(db, r), mine) == Loaded(db, r) <==> (mine != [] ==> AbsorbedBy(db, r, mine))
  {
    hide Absorbed, Summary, FoldAll;
    if r in db.flows { RedeliveryIsNoOp(db.flows[r], mine); }
  }

  // ----- reading ---------------------------------------------------------------

  /** `select ... where seq > since order by seq`. */
  function RowsAfter(log: Log, sinceSeq: int): (rows: seq<Event>)
    ensures |rows| == |Ahead(log, sinceSeq)|
  {
    var numbers := SortedNumbers(Ahead(log, sinceSeq));
    seq(|numbers|, i requires 0 <= i < |numbers| => assert numbers[i] in numbers; log[numbers[i]])
  }

  lemma RowsAfterSpec(log: Log, sinceSeq: int)
    requires Paging.Keyed(log)
    ensures Ascending(BY_SEQ_NO, RowsAfter(log, sinceSeq))
    ensures forall e :: e in RowsAfter(log, sinceSeq) <==> e.seqNo > sinceSeq && e.seqNo in log && log[e.seqNo] == e
  {
    var numbers, rows := SortedNumbers(Ahead(log, sinceSeq)), RowsAfter(log, sinceSeq);
    SortedNumbersAscend(Ahead(log, sinceSeq));
    forall i | 0 <= i < |numbers| ensures rows[i].seqNo == numbers[i] && numbers[i] in Ahead(log, sinceSeq) {
      assert numbers[i] in numbers;
    }
    forall i, j | 0 <= i < j < |rows| ensures BY_SEQ_NO(rows[i], rows[j]) {
      assert numbers[i] < numbers[j];
    }
    forall e ensures e in rows <==> e.seqNo > sinceSeq && e.seqNo in log && log[e.seqNo] == e {
      if e.seqNo > sinceSeq && e.seqNo in log && log[e.seqNo] == e {
        assert e.seqNo in numbers;
        var i :| 0 <= i < |numbers| && numbers[i] == e.seqNo;
        assert rows[i] == e;
      }
    }
  }

  lemma RowsAreLog(log: Log, sinceSeq: int)
    requires Paging.Keyed(log)
    ensures forall s :: s in FirstArrivals(RowsAfter(log, sinceSeq)) <==> s in log && s > sinceSeq
    ensures forall s :: s in log && s > sinceSeq ==> FirstArrivals(RowsAfter(log, sinceSeq))[s] == log[s]
  {
    var rows := RowsAfter(log, sinceSeq);
    RowsAfterSpec(log, sinceSeq);
    FirstArrivalsKeyed(rows);
    forall s | s in log && s > sinceSeq ensures s in FirstArrivals(rows) {
      assert log[s] in rows;
    }
  }

  /**
   Asking the database for no more rows than the page may hold, and only then dropping what
   lies beyond a hole, gives the same page as selecting from the whole history.
   */
  lemma LimitedQueryIsPage(log: Log, sinceSeq: int, limit: int)
    requires Paging.Keyed(log) && limit >= 1
    ensures Contiguous(Take(RowsAfter(log, sinceSeq), limit), Expected(log, sinceSeq), limit)
         == PageOf(log, sinceSeq, limit).events
  {
    var rows, x := RowsAfter(log, sinceSeq), Expected(log, sinceSeq);
    RowsAfterSpec(log, sinceSeq);
    forall e | e in rows ensures e.seqNo >= x {
      assert e.seqNo in log;
    }
    LimitFirst(rows, x, limit);
    ContiguousIsStretch(rows, x, limit);
    RowsAreLog(log, sinceSeq);
    StretchLocal(FirstArrivals(rows), log, x);
  }

  lemma RowsKeyed(db: Db, runId: string)
    requires Consistent(db)
    ensures Paging.Keyed(Rows(db, runId))
  {
  }

  /** A run has a flow row exactly when it has event rows. */
  lemma KnownRunHasRows(db: Db, runId: string)
    ensures Consistent(db) ==> (runId in db.flows <==> exists s :: s in Rows(db, runId))
  {
    EmptyLog(Rows(db, runId));
  }

  lemma EmptyLog(log: Log)
    ensures log == map[] <==> forall s :: s !in log
  {
    if forall s :: s !in log { assert log == map[]; }
  }

  function StoredPage(db: Db, runId: string, sinceSeq: int, limit: int): Result<EventPage, ReadError> {
    if limit < 1 then Err(LimitTooSmall) else Ok(PageOf(Rows(db, runId), sinceSeq, limit))
  }

  /** What a read of events answers, in terms of the rows of the run. */
  ghost predicate ServedFrom(page: Result<EventPage, ReadError>, rows: Log, sinceSeq: int, limit: int) {
    if limit < 1 then page == Err(LimitTooSmall)
    else page.Ok? && Serves(page.value, rows.Keys, sinceSeq, limit)
         && forall e :: e in page.value.events ==> e.seqNo in rows && rows[e.seqNo] == e
  }

  lemma ReadServes(db: Db, runId: string, sinceSeq: int, limit: int)
    requires Consistent(db)
    ensures ServedFrom(StoredPage(db, runId, sinceSeq, limit), Rows(db, runId), sinceSeq, limit)
  {
    hide PageOf, Serves;
    RowsKeyed(db, runId);
    if limit >= 1 { PageServes(Rows(db, runId), sinceSeq, limit); }
  }

  function StoredListing(db: Db, filter: Filter, limit: int, marker: Option<string>): Result<FlowPage, ReadError> {
    Keyset(db.flows, filter, limit, marker)
  }

  // ----- the class -------------------------------------------------------------

  class SqlDataSource {
    var flows: Flows
    var events: map<string, Log>

    function View(): Db
      reads this
    {
      Db(flows, events)
    }

    constructor ()
      ensures View() == EMPTY && Consistent(View())
    {
      flows, events := map[], map[];
    }

    /** Run by run, the tables end where event by event they would. */
    method ApplyMany(batch: seq<Event>)
      modifies this
      ensures View() == ApplyEach(old(View()), batch)
    {
      if batch == [] { return; }
      var order, byRun := GroupByRun(batch);
      ghost var db, goal := View(), ApplyEach(View(), batch);
      var i := 0;
      while i < |order|
        invariant 0 <= i <= |order|
        invariant Halfway(View(), db, goal, order, i)
      {
        var r := order[i];
        assert r in order;
        ghost var seen := View();
        FreshInOrder(order, i);
        ApplyRun(r, byRun[r]);
        OthersUntouched(seen, View(), r);
        assert SameRun(seen, db, r);
        RunDone(db, batch, View(), r);
        OneMoreRun(seen, View(), db, goal, order, i);
        i := i + 1;
      }
      forall r ensures SameRun(View(), goal, r) {
        assert order[..|order|] == order;
        if r !in order { EachOnRun(db, batch, r); }
      }
      SameDatabase(View(), goal);
    }

    /** One run's share of a batch. */
    method ApplyRun(runId: string, mine: seq<Event>)
      requires mine != [] && forall e :: e in mine ==> e.runId == runId
      modifies this
      ensures flows == old(flows)[runId := Snapshot(Loaded(old(View()), runId), mine).value]
      ensures events == old(events)[runId := RecordAll(Rows(old(View()), runId), mine)]
    {
      var snapshot := if runId in flows then flows[runId] else FlowFromEvent(mine[0]);
      var i := 0;
      while i < |mine|
        invariant 0 <= i <= |mine|
        invariant FoldAll(snapshot, mine[i..]) == Snapshot(Loaded(View(), runId), mine).value
      {
        assert mine[i..][1..] == mine[i + 1..];
        snapshot := Fold(snapshot, mine[i]);
        i := i + 1;
      }
      flows := flows[runId := snapshot];

      var rows := if runId in events then events[runId] else map[];
      i := 0;
      while i < |mine|
        invariant 0 <= i <= |mine|
        invariant RecordAll(rows, mine[i..]) == RecordAll(Rows(old(View()), runId), mine)
      {
        assert mine[i..][1..] == mine[i + 1..];
        // A taken key is an integrity error, caught and ignored.
        if mine[i].seqNo !in rows {
          rows := rows[mine[i].seqNo := mine[i]];
        }
        i := i + 1;
      }
      events := events[runId := rows];
    }

    /** Both tables without that run. True exactly when there was a flow row. */
    method Forget(runId: string) returns (there: bool)
      modifies this
      ensures View() == Dropped(old(View()), {runId})
      ensures there <==> runId in old(flows)
    {
      there := runId in flows;
      events := events - {runId};
      flows := flows - {runId};
    }

    /** Both tables without the runs observed too long ago, and the number of those. */
    method Prune(before: real) returns (count: nat)
      modifies this
      ensures View() == Dropped(old(View()), StaleRuns(old(View()), before))
      ensures forall r :: r in flows <==> r in old(flows) && old(flows)[r].observedAt >= before
      ensures forall r :: r in flows ==> flows[r] == old(flows)[r]
      ensures forall r :: r in events <==> r in old(events) && (r in old(flows) ==> old(flows)[r].observedAt >= before)
      ensures forall r :: r in events ==> events[r] == old(events)[r]
      ensures count == |set r | r in old(flows) && old(flows)[r].observedAt < before|
    {
      var stale := set r | r in flows && flows[r].observedAt < before;
      assert stale == StaleRuns(View(), before);
      if stale == {} {
        assert flows - stale == flows && events - stale == events;
        return 0;
      }
      events := events - stale;
      flows := flows - stale;
      count := |stale|;
    }

    method GetFlow(runId: string) returns (flow: Option<FlowSnapshot>)
      ensures flow == Loaded(View(), runId)
      ensures Consistent(View()) ==>
                && (flow.Some? ==> flow.value.runId == runId)
                && (flow.None? <==> forall s :: s !in Rows(View(), runId))
    {
      KnownRunHasRows(View(), runId);
      if runId in flows { flow := Some(flows[runId]); } else { flow := None; }
    }

    method EventsSince(runId: string, sinceSeq: int, limit: int) returns (page: Result<EventPage, ReadError>)
      requires Consistent(View())
      ensures page == StoredPage(View(), runId, sinceSeq, limit)
      ensures ServedFrom(page, if runId in events then events[runId] else map[], sinceSeq, limit)
    {
      hide Consistent, ServedFrom;
      ReadServes(View(), runId, sinceSeq, limit);
      hide Contiguous, Stretch, RowsAfter, Take;
      if limit < 1 { return Err(LimitTooSmall); }
      RowsKeyed(View(), runId);
      var log: Log := if runId in events then events[runId] else map[];
      var oldest := if log.Keys == {} then None else Some(LeastNumber(log.Keys));
      var rows := Take(RowsAfter(log, sinceSeq), limit);
      var truncated := oldest.Some? && sinceSeq + 1 < oldest.value;
      var expected := if truncated then oldest.value else sinceSeq + 1;
      var selected := ContiguousFrom(rows, expected, limit);
      LimitedQueryIsPage(log, sinceSeq, limit);
      page := Ok(EventPage(selected, if selected != [] then selected[|selected| - 1].seqNo else sinceSeq,
                           oldest, truncated));
    }

    method ListFlows(filter: Filter, limit: int, marker: Option<string>) returns (page: Result<FlowPage, ReadError>)
      ensures page == StoredListing(View(), filter, limit, marker)
      ensures Listing.Keyed(flows) ==>
                Answers(page, flows, filter, limit, marker, marker.Some? && marker.value in flows)
      ensures Listing.Keyed(flows) && limit >= 1 && OnTheWalk(flows, filter, marker) ==>
                page == Positional(flows, filter, limit, marker)
    {
      hide Select, Positional, FirstOf, Listing.Keyed, OnTheWalk, Matches, Answers;
      if Listing.Keyed(flows) { KeysetOffers(flows, filter, limit, marker); }
      if limit < 1 { return Err(LimitTooSmall); }
      KeysetOnTheWalk(flows, filter, limit, marker);
      var selected;
      if marker.Some? {
        if marker.value !in flows { return Err(UnknownMarker(marker.value)); }
        var anchor := flows[marker.value];
        selected := Select(flows, PassesAfter(filter, anchor));
      } else {
        selected := Select(flows, Passes(filter));
      }
      page := Ok(FirstOf(selected, limit));
    }
  }

  /** Two databases hold the same rows for one run. */
  ghost predicate SameRun(a: Db, b: Db, r: string) {
    Loaded(a, r) == Loaded(b, r) && Rows(a, r) == Rows(b, r) && (r in a.events <==> r in b.events)
  }

  /** The first `i` runs are done, the others are as they were. */
  ghost predicate Halfway(now: Db, before: Db, goal: Db, order: seq<string>, i: nat)
    requires i <= |order|
  {
    && (forall r :: r in order[..i] ==> SameRun(now, goal, r))
    && (forall r :: r !in order[..i] ==> SameRun(now, before, r))
  }

  lemma OthersUntouched(seen: Db, now: Db, r: string)
    requires r in now.flows && now.flows == seen.flows[r := now.flows[r]]
    requires r in now.events && now.events == seen.events[r := now.events[r]]
    ensures forall q :: q != r ==> SameRun(now, seen, q)
  {
  }

  lemma OneMoreRun(seen: Db, now: Db, before: Db, goal: Db, order: seq<string>, i: nat)
    requires i < |order| && Halfway(seen, before, goal, order, i)
    requires SameRun(now, goal, order[i])
    requires forall q :: q != order[i] ==> SameRun(now, seen, q)
    ensures Halfway(now, before, goal, order, i + 1)
  {
    assert order[..i + 1] == order[..i] + [order[i]];
    forall q | q in order[..i + 1] ensures SameRun(now, goal, q) {
      if q != order[i] { assert SameRun(now, seen, q) && SameRun(seen, goal, q); }
    }
    forall q | q !in order[..i + 1] ensures SameRun(now, before, q) {
      assert SameRun(now, seen, q) && SameRun(seen, before, q);
    }
  }

  lemma SameDatabase(a: Db, b: Db)
    requires forall r :: SameRun(a, b, r)
    ensures a == b
  {
    forall r ensures Loaded(a, r) == Loaded(b, r) {
      assert SameRun(a, b, r);
    }
    SameFlows(a, b);
    forall r ensures r in a.events <==> r in b.events {
      assert SameRun(a, b, r);
    }
    forall r | r in a.events ensures a.events[r] == b.events[r] {
      assert SameRun(a, b, r);
    }
    assert a.events == b.events;
  }

  /** A run whose share was applied in one go is where event by event would have left it. */
  lemma RunDone(db: Db, batch: seq<Event>, now: Db, r: string)
    requires OfRun(batch, r) != []
    requires Loaded(now, r) == Snapshot(Loaded(db, r), OfRun(batch, r))
    requires Rows(now, r) == RecordAll(Rows(db, r), OfRun(batch, r)) && r in now.events
    ensures SameRun(now, ApplyEach(db, batch), r)
  {
    EachOnRun(db, batch, r);
  }

  lemma {:induction false} FreshInOrder(order: seq<string>, i: nat)
    requires Distinct(order) && i < |order|
    ensures order[i] !in order[..i]
  {
    DistinctPairs(order);
  }

  ghost predicate Grouped(batch: seq<Event>, byRun: map<string, seq<Event>>) {
    forall r :: if r in byRun then byRun[r] == OfRun(batch, r) != [] else OfRun(batch, r) == []
  }

  lemma NothingGrouped()
    ensures Distinct<string>([]) && Grouped([], map[]) && ByAppearance([], [])
    ensures forall r :: FirstAt([], r) == 0
  {
  }

  lemma GroupedPush(batch: seq<Event>, e: Event, byRun: map<string, seq<Event>>)
    requires Grouped(batch, byRun)
    ensures Grouped(batch + [e], byRun[e.runId := (if e.runId in byRun then byRun[e.runId] else []) + [e]])
  {
    forall r ensures OfRun(batch + [e], r) == OfRun(batch, r) + if r == e.runId then [e] else [] {
      OfRunConcat(batch, [e], r);
      assert OfRun([e][1..], r) == [];
    }
  }

  /** Where a run first appears in a batch; the batch's length if nowhere. */
  function FirstAt(batch: seq<Event>, runId: string): (at: nat)
    ensures at <= |batch|
    ensures at < |batch| ==> batch[at].runId == runId
    ensures forall i :: 0 <= i < at ==> batch[i].runId != runId
  {
    if batch == [] then 0 else if batch[0].runId == runId then 0 else 1 + FirstAt(batch[1..], runId)
  }

  /** One more event moves no first appearance; it is one itself when its run is new. */
  lemma {:induction false} FirstAtPush(batch: seq<Event>, e: Event, runId: string)
    ensures FirstAt(batch + [e], runId) == FirstAtAfter(FirstAt(batch, runId), |batch|, e.runId == runId)
  {
    if batch == [] {
      assert batch + [e] == [e];
    } else {
      assert (batch + [e])[0] == batch[0] && (batch + [e])[1..] == batch[1..] + [e];
      FirstAtPush(batch[1..], e, runId);
    }
  }

  /** Runs in the order in which they first appear in a batch. */
  ghost predicate ByAppearance(batch: seq<Event>, order: seq<string>) {
    && (forall i :: 0 <= i < |order| ==> FirstAt(batch, order[i]) < |batch|)
    && (forall i, j :: 0 <= i < j < |order| ==> FirstAt(batch, order[i]) < FirstAt(batch, order[j]))
  }

  lemma ByAppearancePush(batch: seq<Event>, e: Event, order: seq<string>)
    requires ByAppearance(batch, order)
    requires forall r :: FirstAt(batch, r) < |batch| ==> r in order
    ensures ByAppearance(batch + [e], if e.runId in order then order else order + [e.runId])
    ensures forall r :: FirstAt(batch + [e], r) < |batch + [e]| ==> r in order || r == e.runId
  {
    hide FirstAt, ByAppearance;
    forall r ensures FirstAt(batch + [e], r) == FirstAtAfter(FirstAt(batch, r), |batch|, e.runId == r) {
      FirstAtPush(batch, e, r);
    }
    StillByAppearance(batch, e, order);
    if e.runId !in order {
      assert FirstAt(batch, e.runId) == |batch|;
      LastToAppear(batch + [e], order, e.runId, |batch|);
    }
  }

  function FirstAtAfter(was: nat, size: nat, same: bool): nat {
    if was < size || same then was else was + 1
  }

  lemma StillByAppearance(batch: seq<Event>, e: Event, order: seq<string>)
    requires ByAppearance(batch, order)
    requires forall r :: FirstAt(batch + [e], r) == FirstAtAfter(FirstAt(batch, r), |batch|, e.runId == r)
    ensures ByAppearance(batch + [e], order)
    ensures forall i :: 0 <= i < |order| ==> FirstAt(batch + [e], order[i]) < |batch|
  {
    hide FirstAt;
    forall i | 0 <= i < |order| ensures FirstAt(batch + [e], order[i]) == FirstAt(batch, order[i]) < |batch| {
    }
    forall i, j | 0 <= i < j < |order| ensures FirstAt(batch + [e], order[i]) < FirstAt(batch + [e], order[j]) {
      assert FirstAt(batch, order[i]) < FirstAt(batch, order[j]);
    }
  }

  lemma LastToAppear(batch: seq<Event>, order: seq<string>, r: string, at: nat)
    requires ByAppearance(batch, order) && FirstAt(batch, r) == at < |batch|
    requires forall i :: 0 <= i < |order| ==> FirstAt(batch, order[i]) < at
    ensures ByAppearance(batch, order + [r])
  {
    hide FirstAt;
  }

  /** Split a batch by run, keeping each run's events in the order they came. */
  method GroupByRun(batch: seq<Event>) returns (order: seq<string>, byRun: map<string, seq<Event>>)
    ensures Distinct(order) && ByAppearance(batch, order)
    ensures forall r :: r in order <==> r in byRun
    ensures Grouped(batch, byRun)
  {
    hide Distinct, Grouped, ByAppearance, FirstAt, OfRun;
    order, byRun := [], map[];
    NothingGrouped();
    var i := 0;
    while i < |batch|
      invariant 0 <= i <= |batch|
      invariant Distinct(order)
      invariant forall r :: r in order <==> r in byRun
      invariant Grouped(batch[..i], byRun) && ByAppearance(batch[..i], order)
      invariant forall r :: FirstAt(batch[..i], r) < i ==> r in order
    {
      var e := batch[i];
      assert batch[..i + 1] == batch[..i] + [e];
      GroupedPush(batch[..i], e, byRun);
      ByAppearancePush(batch[..i], e, order);
      if e.runId !in byRun {
        DistinctPush(order, e.runId);
        order := order + [e.runId];
      }
      byRun := byRun[e.runId := (if e.runId in byRun then byRun[e.runId] else []) + [e]];
      i := i + 1;
    }
    assert batch[..|batch|] == batch;
  }
}
