/**
 Ending a stream and resuming one: when a cursor says `end`, and what a client that is cut
 off and reconnects, any number of times, receives in all.
 */
module Resuming {
  import opened Wrappers
  import opened Models
  import opened Folding
  import opened Paging
  import opened Numbering
  import opened Diffing
  import opened RoundTrip
  import opened Polling
  import opened Streaming
  import Decimal
  import Sse
  import Memory = MemoryStore
  import Sql = SqlStore

  // ----- when a page is empty ----------------------------------------------------

  /** A reader gets nothing exactly when there is nothing, or its next number is a hole not yet behind the window. */
  lemma EmptyPageExactly(log: Log, sinceSeq: int, limit: nat)
    requires limit >= 1
    ensures PageOf(log, sinceSeq, limit).events == [] <==>
              log.Keys == {} || (Oldest(log).value <= sinceSeq + 1 && sinceSeq + 1 !in log)
  {
    if log.Keys != {} {
      assert Oldest(log).value in log;
    }
  }

  /**
   Whatever a log holds, a poll of it that says `end` leaves stored events unread exactly when the
   flow has finished, the reader's next number is a hole not behind the window, and something lies
   beyond the hole.
   */
  lemma EndLeavesUnread(log: Log, sinceSeq: int, limit: nat, flow: Option<FlowSnapshot>)
    requires limit >= 1
    ensures PageOf(log, sinceSeq, limit).events == [] && Finished(flow) && Ahead(log, sinceSeq) != {}
       <==> && Finished(flow) && sinceSeq + 1 !in log
            && (exists s :: s in log && s > sinceSeq)
            && (exists s :: s in log && s <= sinceSeq)
  {
    EmptyPageExactly(log, sinceSeq, limit);
    if s :| s in log && s > sinceSeq { assert s in Ahead(log, sinceSeq); }
    if Ahead(log, sinceSeq) != {} {
      var s :| s in Ahead(log, sinceSeq);
      assert Oldest(log).value in log;
    }
  }

  ghost predicate Holds(log: Log, n: nat) {
    forall s :: s in log <==> 1 <= s <= n
  }

  /** Over a history without holes, a reader inside it gets nothing exactly when it has everything. */
  lemma EmptyMeansDrained(log: Log, n: nat, sinceSeq: int, limit: nat)
    requires Holds(log, n) && 0 <= sinceSeq <= n && limit >= 1
    ensures PageOf(log, sinceSeq, limit).events == [] <==> sinceSeq == n
    ensures !PageOf(log, sinceSeq, limit).truncated
  {
    EmptyPageExactly(log, sinceSeq, limit);
    if n > 0 {
      assert 1 in log;
      assert Oldest(log) == Some(1);
    } else {
      assert forall s :: s !in log;
      assert log.Keys == {};
    }
  }

  // ----- the end comes after everything --------------------------------------------

  /** The event rows of a run are the numbers of its events. */
  lemma RowsOfRun(log: seq<Event>, r: string, n: nat)
    requires NumberedTo(OfRun(log, r), n)
    ensures Holds(Sql.Rows(Sql.ApplyEach(Sql.EMPTY, log), r), n)
  {
    hide OfRun, FoldAll;
    var mine := OfRun(log, r);
    Sql.EachOnRun(Sql.EMPTY, log, r);
    RecordedNumbers(mine, n);
  }

  lemma RecordedNumbers(mine: seq<Event>, n: nat)
    requires NumberedTo(mine, n)
    ensures Holds(Sql.RecordAll(map[], mine), n)
  {
    OnlyThese(map[], mine);
    var log := Sql.RecordAll(map[], mine);
    forall s ensures s in log <==> 1 <= s <= n {
      if 1 <= s <= n { assert mine[s - 1] in mine && mine[s - 1].seqNo == s; }
      if s in log {
        var e :| e in mine && e.seqNo == s;
        var i :| 0 <= i < |mine| && mine[i] == e;
      }
    }
  }

  /** Whether a diff tells of the flow's own state at all. */
  predicate TellsState(was: Option<FlowSnapshot>, now: FlowSnapshot) {
    was.None? || was.value.state != now.state
  }

  /** The state a flow shows when `k` of the `n` events of a batch are stored, given the one it showed before. */
  function StateAt(prior: Option<string>, was: Option<FlowSnapshot>, now: FlowSnapshot, k: nat, n: nat)
    : Option<string>
  {
    if TellsState(was, now) && (k == n || (k > 0 && !now.IsFinished())) then now.state else prior
  }

  lemma {:induction false} AtomsKeepState(f: FlowSnapshot, events: seq<Event>)
    requires forall e :: e in events ==> IsAtomEvent(e)
    ensures FoldAll(f, events).state == f.state
    decreases |events|
  {
    if events != [] {
      assert events[0] in events;
      AtomsKeepState(Fold(f, events[0]), events[1..]);
    }
  }

  /** Part of the way through the batch of a finishing flow nothing but atoms has been told of. */
  lemma FinishingPart(stored: FlowSnapshot, was: Option<FlowSnapshot>, now: FlowSnapshot, last: int, ts: real, k: nat)
    requires k < |Diff(was, now, last, ts)| && now.IsFinished()
    ensures FoldAll(stored, Diff(was, now, last, ts)[..k]).state == stored.state
  {
    var events, atoms := Diff(was, now, last, ts), AtomEvents(was, now, now.AtomNames());
    AtomEventsAreAtomic(was, now, now.AtomNames());
    forall e | e in events[..k] ensures IsAtomEvent(e) {
      var i :| 0 <= i < k && events[i] == e;
      assert Unstamped(was, now)[i] == atoms[i] && atoms[i] in atoms;
    }
    AtomsKeepState(stored, events[..k]);
  }

  /** Part of the way through any other batch the flow's own event, if there is one, has been stored. */
  lemma StartedPart(stored: FlowSnapshot, was: Option<FlowSnapshot>, now: FlowSnapshot, last: int, ts: real, k: nat)
    requires 0 < k <= |Diff(was, now, last, ts)| && !now.IsFinished()
    ensures FoldAll(stored, Diff(was, now, last, ts)[..k]).state
         == if TellsState(was, now) then now.state else stored.state
  {
    hide Diff, FoldAll, FlowEvents, IsAtomEvent;
    var events, own := Diff(was, now, last, ts), |FlowEvents(was, now)|;
    OwnFirst(was, now, last, ts);
    assert events[..k] == events[..own] + events[own..k];
    FoldAllConcat(stored, events[..own], events[own..k]);
    forall e | e in events[own..k] ensures IsAtomEvent(e) {
      var i :| own <= i < k && events[i] == e;
    }
    AtomsKeepState(FoldAll(stored, events[..own]), events[own..k]);
    if own == 0 {
      FoldNone(stored);
      assert events[..own] == [];
    } else {
      FoldOne(stored, events[0]);
      assert events[..own] == [events[0]];
    }
  }

  /** The events of a flow that has not finished: its own, if its state is news, and then its atoms'. */
  lemma OwnFirst(was: Option<FlowSnapshot>, now: FlowSnapshot, last: int, ts: real)
    requires !now.IsFinished()
    ensures var events, own := Diff(was, now, last, ts), |FlowEvents(was, now)|;
            && own == (if TellsState(was, now) then 1 else 0) && own <= |events|
            && (own == 1 ==> events[0].kind == FlowState && events[0].state == now.state)
            && (forall i :: own <= i < |events| ==> IsAtomEvent(events[i]))
  {
    hide AtomEvents;
    var events, own := Diff(was, now, last, ts), |FlowEvents(was, now)|;
    var atoms := AtomEvents(was, now, now.AtomNames());
    AtomEventsAreAtomic(was, now, now.AtomNames());
    forall i | own <= i < |events| ensures IsAtomEvent(events[i]) {
      assert Unstamped(was, now)[i] == atoms[i - own] && atoms[i - own] in atoms;
    }
    if own == 1 { assert Unstamped(was, now)[0] == FlowEvents(was, now)[0]; }
  }

  /** The state a flow has part of the way through a batch, whatever was stored of it and whatever was last seen. */
  lemma StateUnderway(stored: FlowSnapshot, was: Option<FlowSnapshot>, now: FlowSnapshot, last: int, ts: real, k: nat)
    requires WellNamed(now) && k <= |Diff(was, now, last, ts)|
    ensures FoldAll(stored, Diff(was, now, last, ts)[..k]).state
         == StateAt(stored.state, was, now, k, |Diff(was, now, last, ts)|)
  {
    hide Diff, FoldAll;
    var events := Diff(was, now, last, ts);
    if k == |events| {
      assert events[..k] == events;
      DiffEffect(stored, was, now, last, ts);
    } else if k == 0 {
      FoldNone(stored);
      assert events[..k] == [];
    } else if now.IsFinished() {
      FinishingPart(stored, was, now, last, ts, k);
    } else {
      StartedPart(stored, was, now, last, ts, k);
    }
  }

  function BatchFor(w: Watch, now: FlowSnapshot): seq<Event> {
    Diff(Known(w.previous, now.runId), now, Last(w.counters, now.runId), now.observedAt)
  }

  /** The state the sink shows of a run, if it shows any. */
  function PriorState(w: Watch, runId: string): Option<string> {
    if runId in w.sink.flows then w.sink.flows[runId].state else None
  }

  /** A moment of a run: a poller and its sink, and the run's next batch stored up to some event. */
  datatype Moment = Moment(w: Watch, log: seq<Event>, now: FlowSnapshot, k: nat)

  /** A moment in a history in which nothing was refused, whatever the poller remembers: there is no hole. */
  ghost predicate Unbroken(m: Moment, runId: string) {
    && Booked(m.w, m.log) && GapFree(m.log, m.w.counters)
    && WellNamed(m.now) && m.now.runId == runId && m.k <= |BatchFor(m.w, m.now)|
  }

  function StoreAt(m: Moment): Db {
    Sql.ApplyEach(m.w.sink, BatchFor(m.w, m.now)[..if m.k <= |BatchFor(m.w, m.now)| then m.k else 0])
  }

  /** The last number stored. */
  function LastAt(m: Moment): int {
    Last(m.w.counters, m.now.runId) + m.k
  }

  /** Whether the run looks finished. */
  predicate LooksFinished(m: Moment) {
    var r := m.now.runId;
    IsFinishState(StateAt(PriorState(m.w, r), Known(m.w.previous, r), m.now, m.k, |BatchFor(m.w, m.now)|))
  }

  /** What a store without holes holds of a run part of the way through a batch. */
  lemma BatchUnderway(m: Moment, runId: string)
    requires Unbroken(m, runId)
    ensures LastAt(m) >= 0 && Holds(Sql.Rows(StoreAt(m), runId), LastAt(m))
    ensures Finished(Sql.Loaded(StoreAt(m), runId)) <==> LooksFinished(m)
  {
    hide Diff, Sql.ApplyEach, Holds, StateAt, IsFinishState, GapFree;
    var w, now := m.w, m.now;
    PartNumbers(w, m.log, now, m.k);
    var part := BatchFor(w, now)[..m.k];
    assert forall e :: e in part ==> e in BatchFor(w, now);
    DiffNumbers(Known(w.previous, runId), now, Last(w.counters, runId), now.observedAt);
    OtherRunsUntouched(w.sink, part, runId);
    PartState(w, m.log, now, m.k);
  }

  lemma PartNumbers(w: Watch, log: seq<Event>, now: FlowSnapshot, k: nat)
    requires Booked(w, log) && GapFree(log, w.counters) && k <= |BatchFor(w, now)|
    ensures Last(w.counters, now.runId) >= 0
    ensures Holds(Sql.Rows(Sql.ApplyEach(w.sink, BatchFor(w, now)[..k]), now.runId), Last(w.counters, now.runId) + k)
  {
    hide Diff, FoldAll, WellNamed;
    var r, last := now.runId, Last(w.counters, now.runId);
    var events := BatchFor(w, now);
    var part := events[..k];
    assert NumberedTo(OfRun(log, r), last);
    DiffNumbers(Known(w.previous, r), now, last, now.observedAt);
    assert forall e :: e in part ==> e in events;
    MoreNumbers(log, w.counters, r, part);
    assert NumberedTo(OfRun(log + part, r), Last(Numbered(w.counters, r, k), r));
    RowsOfRun(log + part, r, last + k);
    Sql.ApplyEachConcat(Sql.EMPTY, log, part);
  }

  lemma PartState(w: Watch, log: seq<Event>, now: FlowSnapshot, k: nat)
    requires Booked(w, log) && WellNamed(now) && k <= |BatchFor(w, now)|
    ensures Finished(Sql.Snapshot(Sql.Loaded(w.sink, now.runId), BatchFor(w, now)[..k]))
       <==> IsFinishState(StateAt(PriorState(w, now.runId), Known(w.previous, now.runId), now, k, |BatchFor(w, now)|))
  {
    hide Diff, FoldAll, Sql.ApplyEach, WellNamed, IsFinishState;
    var r, was, last := now.runId, Known(w.previous, now.runId), Last(w.counters, now.runId);
    var events := BatchFor(w, now);
    DiffNumbers(was, now, last, now.observedAt);
    NoStateIsUnfinished();
    if r in w.sink.flows {
      StateUnderway(w.sink.flows[r], was, now, last, now.observedAt, k);
      if k == 0 { FoldNone(w.sink.flows[r]); assert events[..k] == []; }
    } else {
      StateUnderway(FlowFromEvent(events[0]), was, now, last, now.observedAt, k);
    }
  }

  lemma NoStateIsUnfinished()
    ensures !IsFinishState(None)
  {
  }

  /**
   The two reads of a poll at any two moments of a run's history, batches or polls apart: it says
   `end` exactly when the cursor had read all there was at the first and the run looked finished at
   the second. It then misses events exactly when some landed in between.
   */
  lemma EndExactly(first: Moment, second: Moment, runId: string, sinceSeq: int, limit: nat)
    requires Unbroken(first, runId) && Unbroken(second, runId) && limit >= 1
    requires 0 <= sinceSeq <= LastAt(first)
    ensures var ends := PageOf(Sql.Rows(StoreAt(first), runId), sinceSeq, limit).events == []
                        && Finished(Sql.Loaded(StoreAt(second), runId));
            && (ends <==> sinceSeq == LastAt(first) && LooksFinished(second))
            && (ends ==> (Ahead(Sql.Rows(StoreAt(second), runId), sinceSeq) != {} <==> LastAt(second) > LastAt(first)))
  {
    hide PageOf, Unbroken, LooksFinished, StoreAt, LastAt;
    BatchUnderway(first, runId);
    BatchUnderway(second, runId);
    EmptyMeansDrained(Sql.Rows(StoreAt(first), runId), LastAt(first), sinceSeq, limit);
    if LastAt(second) > sinceSeq { assert sinceSeq + 1 in Ahead(Sql.Rows(StoreAt(second), runId), sinceSeq); }
  }

  /**
   A poll whose reads are one step: `end` comes only with everything stored read. With the batch
   complete it comes exactly when the run has finished, if the batch tells of its state, and if it does
   not, when it was shown finished before. In the middle of a batch it comes exactly when the run was
   shown finished before and the batch has not told otherwise yet, or never will.
   */
  lemma EndComesAfterEverything(m: Moment, runId: string, sinceSeq: int, limit: nat)
    requires Unbroken(m, runId) && limit >= 1 && 0 <= sinceSeq <= LastAt(m)
    ensures var n := |BatchFor(m.w, m.now)|;
            var prior, tells := PriorState(m.w, runId), TellsState(Known(m.w.previous, runId), m.now);
            var ends := PageOf(Sql.Rows(StoreAt(m), runId), sinceSeq, limit).events == []
                        && Finished(Sql.Loaded(StoreAt(m), runId));
            && (ends ==> sinceSeq == LastAt(m) && Ahead(Sql.Rows(StoreAt(m), runId), sinceSeq) == {})
            && (m.k == n ==>
                  (ends <==> sinceSeq == LastAt(m) && if tells then m.now.IsFinished() else IsFinishState(prior)))
            && (m.k < n ==> (ends <==> sinceSeq == LastAt(m) && IsFinishState(prior)
                                       && (tells && m.k > 0 ==> m.now.IsFinished())))
  {
    hide PageOf, StoreAt, Booked, GapFree;
    EndExactly(m, m, runId, sinceSeq, limit);
  }

  /** For a run that was not finished before, `end` comes exactly after the whole of a finishing batch. */
  lemma EndOfUnfinished(m: Moment, runId: string, sinceSeq: int, limit: nat)
    requires Unbroken(m, runId) && limit >= 1 && 0 <= sinceSeq <= LastAt(m)
    requires Showing(m.w) && !IsFinishState(PriorState(m.w, runId)) && m.now.IsFinished()
    ensures PageOf(Sql.Rows(StoreAt(m), runId), sinceSeq, limit).events == []
            && Finished(Sql.Loaded(StoreAt(m), runId))
       <==> sinceSeq == LastAt(m) && m.k == |BatchFor(m.w, m.now)|
  {
    hide PageOf, StoreAt, GapFree, Diff;
    EndComesAfterEverything(m, runId, sinceSeq, limit);
    if runId in m.w.previous { assert Shows(m.w.sink, m.w.previous[runId]); }
  }

  /** With the two reads of a poll apart, the end can come before an event that landed in between. */
  lemma EndCanPrecedeAnEvent(c: Setting, first: Event, second: Event)
    requires ValidSetting(c) && c.limits.maxRuns.None?
    requires first.seqNo == 1 && second.seqNo == 2 && first.runId == second.runId == c.runId
    requires first.kind == FlowState && !IsFinishState(first.state)
    requires second.kind == FlowState && IsFinishState(second.state)
    ensures var m := Memory.ApplyEvent(c.limits, Memory.EMPTY, first);
            Memory.WellFormed(m) &&
            var w := Run(c, World(m, 1, false, false, []), [ReadEvents, Write(second), AskFinished]);
            && w.sent == [End] && w.sinceSeq == 1
            && 2 in Memory.LogOf(w.m, c.runId)
  {
    hide Memory.ApplyEvent, Memory.WellFormed, Memory.LogOf, Memory.StoredFlow, PageOf, Run, IsFinishState;
    Memory.EmptyWellFormed();
    var m := Memory.ApplyEvent(c.limits, Memory.EMPTY, first);
    OneStored(c.limits, first);
    TwoStored(c.limits, first, second);
    EmptyMeansDrained(Memory.LogOf(m, c.runId), 1, 1, c.limit);
    NothingSent(PageOf(Memory.LogOf(m, c.runId), 1, c.limit), 1);
    var w0 := World(m, 1, false, false, []);
    var w1 := Step(c, w0, ReadEvents);
    EmptyPageStays(Memory.LogOf(m, c.runId), 1, c.limit);
    assert w1 == World(m, 1, true, false, []);
    var w2 := Step(c, w1, Write(second));
    var w3 := Step(c, w2, AskFinished);
    assert w3.sent == [End] && w3.sinceSeq == 1;
    ThreeSteps(c, w0, ReadEvents, Write(second), AskFinished);
  }

  lemma EmptyPageStays(log: Log, sinceSeq: int, limit: nat)
    ensures var page := PageOf(log, sinceSeq, limit); page.events == [] ==> page.nextSeq == sinceSeq
  {
  }

  lemma NothingSent(page: EventPage, sinceSeq: int)
    requires page.events == [] && !page.truncated
    ensures PageFrames(page) == []
  {
  }

  lemma ThreeSteps(c: Setting, w: World, a: Action, b: Action, d: Action)
    requires ValidSetting(c) && Memory.WellFormed(w.m)
    requires Memory.WellFormed(Step(c, w, a).m) && Memory.WellFormed(Step(c, Step(c, w, a), b).m)
    ensures Run(c, w, [a, b, d]) == Step(c, Step(c, Step(c, w, a), b), d)
  {
    hide Step, Memory.WellFormed;
    var w2 := Step(c, Step(c, w, a), b);
    StepWellFormed(c, w2, d);
    assert [a, b, d][1..] == [b, d] && [b, d][1..] == [d] && [d][1..] == [];
    assert Run(c, w2, [d]) == Run(c, Step(c, w2, d), []);
  }

  lemma OneStored(limits: Memory.Limits, first: Event)
    requires Memory.ValidLimits(limits) && limits.maxRuns.None? && first.seqNo == 1
    ensures var m := Memory.ApplyEvent(limits, Memory.EMPTY, first);
            && Memory.WellFormed(m) && first.runId in m.runs && m.runs[first.runId].events == [first]
            && Memory.LogOf(m, first.runId) == map[1 := first]
  {
    Memory.ApplyWellFormed(limits, Memory.EMPTY, first);
    var m := Memory.ApplyEvent(limits, Memory.EMPTY, first);
    assert m.runs[first.runId].events == [first];
    FirstArrivalsPush([], first);
    assert [] + [first] == [first];
  }

  lemma TwoStored(limits: Memory.Limits, first: Event, second: Event)
    requires Memory.ValidLimits(limits) && limits.maxRuns.None?
    requires first.seqNo == 1 && second.seqNo == 2 && first.runId == second.runId
    requires second.kind == FlowState && IsFinishState(second.state)
    ensures var m := Memory.ApplyEvent(limits, Memory.EMPTY, first);
            Memory.WellFormed(m) &&
            var later := Memory.ApplyEvent(limits, m, second);
            && Memory.WellFormed(later) && 2 in Memory.LogOf(later, first.runId)
            && Finished(Memory.StoredFlow(later, first.runId))
  {
    hide Memory.WellFormed, IsFinishState, FirstArrivals;
    Memory.EmptyWellFormed();
    OneStored(limits, first);
    var m := Memory.ApplyEvent(limits, Memory.EMPTY, first);
    var r, later := first.runId, Memory.ApplyEvent(limits, m, second);
    Memory.ApplyWellFormed(limits, m, second);
    assert later.runs[r] == Memory.AbsorbEvent(m.runs[r], second, limits.maxEvents);
    assert later.runs[r].events[|later.runs[r].events| - 1] == second;
    assert second in later.runs[r].events;
    FirstArrivalsKeyed(later.runs[r].events);
  }

  // ----- where a resumed stream starts --------------------------------------------------

  datatype BadRequest = NotAnInteger(text: string) | LimitBelowOne(limit: int)

  function GetInt(raw: Option<string>, default: int): Result<int, BadRequest> {
    if raw.None? || raw.value == "" then Ok(default)
    else
      var n := Decimal.Parse(raw.value);
      if n.None? then Err(NotAnInteger(raw.value)) else Ok(n.value)
  }

  /** An explicit `since_seq` wins; then the header a browser sends by itself; then the start. */
  function ResumePoint(explicit: Option<string>, header: Option<string>): Result<int, BadRequest> {
    if explicit.Some? then GetInt(explicit, 0)
    else if header.None? then Ok(0)
    else
      var n := Decimal.Parse(header.value);
      if n.None? then Err(NotAnInteger(header.value)) else Ok(n.value)
  }

  const DEFAULT_EVENT_LIMIT := 200

  /**
   A printed explicit number wins over any header, a printed header counts otherwise, and with neither a
   stream starts at 0, as it does when the explicit one is given but empty. Text that is no number is an
   error where it is read and harmless where it is not.
   */
  lemma ResumesWhere(n: int, text: string, header: Option<string>)
    ensures ResumePoint(Some(Decimal.Render(n)), header) == Ok(n)
    ensures ResumePoint(None, Some(Decimal.Render(n))) == Ok(n)
    ensures ResumePoint(None, None) == Ok(0) && ResumePoint(Some(""), header) == Ok(0)
    ensures Decimal.Parse(text).None? ==> ResumePoint(None, Some(text)) == Err(NotAnInteger(text))
    ensures Decimal.Parse(text).None? && text != "" ==> ResumePoint(Some(text), header) == Err(NotAnInteger(text))
  {
    hide Decimal.Parse, Decimal.Render;
    Decimal.RenderParse(n);
  }

  /** The page size a request gets: at least one, at most the server's maximum. */
  function PageLimit(raw: Option<string>, maxLimit: int): (limit: Result<int, BadRequest>)
    ensures limit.Ok? && maxLimit >= 1 ==> 1 <= limit.value <= maxLimit
    ensures raw.Some? && raw.value != "" && Decimal.Parse(raw.value).None? ==> limit == Err(NotAnInteger(raw.value))
    ensures raw.Some? && raw.value != "" && Decimal.Parse(raw.value).Some? ==>
              var asked := Decimal.Parse(raw.value).value;
              && (asked < 1 <==> limit.Err?) && (asked < 1 ==> limit == Err(LimitBelowOne(asked)))
              && (1 <= asked <= maxLimit ==> limit == Ok(asked))
              && (asked >= 1 && asked > maxLimit ==> limit == Ok(maxLimit))
    ensures raw.GetOr("") == "" ==> limit == Ok(if maxLimit < 200 then maxLimit else 200)
  {
    var asked := GetInt(raw, DEFAULT_EVENT_LIMIT);
    if asked.Err? then asked
    else if asked.value < 1 then Err(LimitBelowOne(asked.value))
    else Ok(if asked.value < maxLimit then asked.value else maxLimit)
  }

  // ----- cut off and reconnected ----------------------------------------------------------

  /** One connection: the cursor at the server's end, and the frames on their way. */
  datatype Connection = Connection(sinceSeq: int, ended: bool, inFlight: seq<StreamFrame>)

  /** The run's history, what the client has received in all, the last id it was sent, and its connection. */
  datatype Link = Link(history: seq<Event>, received: seq<Event>, lastId: string, conn: Option<Connection>)

  datatype LinkStep = Grow(event: Event) | PollNow(limit: nat, finished: bool) | Deliver | Cut | Reconnect

  function Header(lastId: string): Option<string> {
    if lastId == "" then None else Some(lastId)
  }

  function Polled(c: Connection, history: seq<Event>, limit: nat, finished: bool): Connection {
    var page := PageOf(FirstArrivals(history), c.sinceSeq, limit);
    var ends := page.events == [] && finished;
    Connection(page.nextSeq, ends, c.inFlight + PageFrames(page) + if ends then [End] else [])
  }

  /** A step that cannot happen changes nothing: the history only grows by its next number. */
  function Next(l: Link, s: LinkStep): Link {
    match s
    case Grow(e) => if e.seqNo == |l.history| + 1 then l.(history := l.history + [e]) else l
    case PollNow(limit, finished) =>
      if l.conn.None? || l.conn.value.ended || limit < 1 then l
      else l.(conn := Some(Polled(l.conn.value, l.history, limit, finished)))
    case Deliver =>
      if l.conn.None? || l.conn.value.inFlight == [] then l
      else
        var c := l.conn.value;
        var rest := Some(c.(inFlight := c.inFlight[1..]));
        if c.inFlight[0].Item? then
          var e := c.inFlight[0].event;
          l.(received := l.received + [e], lastId := Decimal.Render(e.seqNo), conn := rest)
        else l.(conn := rest)
    case Cut => l.(conn := None)
    case Reconnect =>
      var start := ResumePoint(None, Header(l.lastId));
      if l.conn.Some? || start.Err? then l else l.(conn := Some(Connection(start.value, false, [])))
  }

  function NextAll(l: Link, steps: seq<LinkStep>): Link
    decreases |steps|
  {
    if steps == [] then l else NextAll(Next(l, steps[0]), steps[1..])
  }

  ghost predicate Gapless(frames: seq<StreamFrame>) {
    forall f :: f in frames ==> !f.Gap?
  }

  /** What the client has is the start of the history; what is in flight continues it; nothing is a gap. */
  ghost predicate InOrder(l: Link) {
    && NumberedTo(l.history, |l.history|)
    && l.received <= l.history
    && l.lastId == (if l.received == [] then "" else Decimal.Render(|l.received|))
    && (l.conn.Some? ==>
          var c := l.conn.value;
          && Gapless(c.inFlight)
          && c.sinceSeq == |l.received| + |EventsIn(c.inFlight)| <= |l.history|
          && l.received + EventsIn(c.inFlight) == l.history[..c.sinceSeq])
  }

  lemma EventsInHead(frames: seq<StreamFrame>)
    requires frames != []
    ensures EventsIn(frames) == (if frames[0].Item? then [frames[0].event] else []) + EventsIn(frames[1..])
  {
  }

  lemma {:induction false} EventsInConcat(a: seq<StreamFrame>, b: seq<StreamFrame>)
    ensures EventsIn(a + b) == EventsIn(a) + EventsIn(b)
  {
    if a == [] {
      assert a + b == b;
      NoMoreEvents(false);
    } else {
      hide EventsIn;
      assert (a + b)[0] == a[0] && (a + b)[1..] == a[1..] + b;
      EventsInHead(a);
      EventsInHead(a + b);
      EventsInConcat(a[1..], b);
      var first := if a[0].Item? then [a[0].event] else [];
      assert first + (EventsIn(a[1..]) + EventsIn(b)) == (first + EventsIn(a[1..])) + EventsIn(b);
    }
  }

  lemma {:induction false} HistoryLog(history: seq<Event>)
    requires NumberedTo(history, |history|)
    ensures Holds(FirstArrivals(history), |history|)
    ensures forall s :: 1 <= s <= |history| ==> FirstArrivals(history)[s] == history[s - 1]
  {
    if history != [] {
      HistoryLog(history[..|history| - 1]);
    }
  }

  /** A page of such a history is the next stretch of it. */
  lemma HistoryPage(history: seq<Event>, sinceSeq: nat, limit: nat)
    requires NumberedTo(history, |history|) && sinceSeq <= |history| && limit >= 1
    ensures var page := PageOf(FirstArrivals(history), sinceSeq, limit);
            && !page.truncated && page.nextSeq == sinceSeq + |page.events| <= |history|
            && page.events == history[sinceSeq..page.nextSeq]
            && page.nextSeq == (if sinceSeq + limit <= |history| then sinceSeq + limit else |history|)
  {
    hide Stretch, FirstArrivals;
    var log := FirstArrivals(history);
    HistoryLog(history);
    EmptyMeansDrained(log, |history|, sinceSeq, limit);
    HistoryStretch(history, sinceSeq);
    var page := PageOf(log, sinceSeq, limit);
    assert Stretch(log, sinceSeq + 1) == history[sinceSeq..];
    if page.events != [] {
      assert page.events[|page.events| - 1] == history[sinceSeq + |page.events| - 1];
    }
  }

  /** From any point of such a history, the stretch is all the rest of it. */
  lemma HistoryStretch(history: seq<Event>, sinceSeq: nat)
    requires NumberedTo(history, |history|) && sinceSeq <= |history|
    ensures Stretch(FirstArrivals(history), sinceSeq + 1) == history[sinceSeq..]
  {
    hide FirstArrivals, Stretch;
    var log := FirstArrivals(history);
    var run := Stretch(log, sinceSeq + 1);
    HistoryLog(history);
    StretchAt(log, sinceSeq + 1, |run|);
    if |run| > 0 { StretchAt(log, sinceSeq + 1, |run| - 1); }
    forall i | 0 <= i < |run| ensures sinceSeq + i < |history| && run[i] == history[sinceSeq + i] {
      StretchAt(log, sinceSeq + 1, i);
    }
  }

  lemma {:induction false} ItemsEvents(events: seq<Event>)
    ensures EventsIn(Items(events)) == events && Gapless(Items(events))
  {
    if events != [] {
      ItemsEvents(events[1..]);
      assert Items(events)[1..] == Items(events[1..]);
    }
  }

  lemma NoMoreEvents(ends: bool)
    ensures var tail := if ends then [End] else []; EventsIn(tail) == [] && Gapless(tail)
  {
    assert [End][1..] == [];
  }

  lemma GaplessConcat(a: seq<StreamFrame>, b: seq<StreamFrame>)
    requires Gapless(a) && Gapless(b)
    ensures Gapless(a + b)
  {
  }

  /** What a poll adds to what is on its way. */
  function Addition(page: EventPage, finished: bool): seq<StreamFrame> {
    PageFrames(page) + if page.events == [] && finished then [End] else []
  }

  /** A page that is not truncated adds its events, and no gap. */
  lemma AdditionInOrder(inFlight: seq<StreamFrame>, page: EventPage, finished: bool)
    requires Gapless(inFlight) && !page.truncated
    ensures Gapless(inFlight + Addition(page, finished))
    ensures EventsIn(inFlight + Addition(page, finished)) == EventsIn(inFlight) + page.events
  {
    hide EventsIn, Gapless;
    var tail := if page.events == [] && finished then [End] else [];
    assert PageFrames(page) == Items(page.events);
    ItemsEvents(page.events);
    NoMoreEvents(page.events == [] && finished);
    EventsInConcat(PageFrames(page), tail);
    EventsInConcat(inFlight, Addition(page, finished));
    GaplessConcat(PageFrames(page), tail);
    GaplessConcat(inFlight, Addition(page, finished));
    assert page.events + [] == page.events;
  }

  lemma PollInOrder(l: Link, limit: nat, finished: bool)
    requires InOrder(l) && l.conn.Some? && !l.conn.value.ended && limit >= 1
    ensures InOrder(Next(l, PollNow(limit, finished)))
    ensures var c, d := l.conn.value, Next(l, PollNow(limit, finished)).conn.value;
            && d.sinceSeq == (if c.sinceSeq + limit <= |l.history| then c.sinceSeq + limit else |l.history|)
            && (d.ended ==> d.sinceSeq == |l.history|)
  {
    hide PageOf, FirstArrivals, EventsIn, Gapless, NumberedTo, PageFrames;
    var c := l.conn.value;
    HistoryPage(l.history, c.sinceSeq, limit);
    var page := PageOf(FirstArrivals(l.history), c.sinceSeq, limit);
    AdditionInOrder(c.inFlight, page, finished);
    assert (c.inFlight + PageFrames(page)) + (if page.events == [] && finished then [End] else [])
        == c.inFlight + Addition(page, finished);
    assert l.history[..page.nextSeq] == l.history[..c.sinceSeq] + page.events;
    assert l.received + (EventsIn(c.inFlight) + page.events) == (l.received + EventsIn(c.inFlight)) + page.events;
  }

  /**
   What one poll of a connection sends: the next events of the history, up to the limit, or, when the
   client has been sent them all and the run has finished, the end and nothing else.
   */
  lemma PollSends(l: Link, limit: nat, finished: bool)
    requires InOrder(l) && l.conn.Some? && !l.conn.value.ended && limit >= 1
    ensures var c, d := l.conn.value, Next(l, PollNow(limit, finished)).conn.value;
            && (d.ended <==> finished && c.sinceSeq == |l.history|)
            && c.sinceSeq <= d.sinceSeq
            && d.sinceSeq == (if c.sinceSeq + limit <= |l.history| then c.sinceSeq + limit else |l.history|)
            && d.inFlight == c.inFlight + if d.ended then [End] else Items(l.history[c.sinceSeq..d.sinceSeq])
  {
    hide PageOf, FirstArrivals, EventsIn, Gapless, NumberedTo;
    var c := l.conn.value;
    HistoryPage(l.history, c.sinceSeq, limit);
    var page := PageOf(FirstArrivals(l.history), c.sinceSeq, limit);
    assert PageFrames(page) == Items(page.events);
    assert page.events == [] <==> c.sinceSeq == |l.history|;
    if page.events == [] && finished {
      assert Items(page.events) == [];
      assert c.inFlight + [] + [End] == c.inFlight + [End];
    } else {
      assert c.inFlight + Items(page.events) + [] == c.inFlight + Items(page.events);
    }
  }

  lemma DeliverInOrder(l: Link)
    requires InOrder(l) && l.conn.Some? && l.conn.value.inFlight != []
    ensures InOrder(Next(l, Deliver))
  {
    hide EventsIn, NumberedTo;
    var c := l.conn.value;
    assert c.inFlight[0] in c.inFlight;
    assert forall f :: f in c.inFlight[1..] ==> f in c.inFlight;
    EventsInHead(c.inFlight);
    if c.inFlight[0].Item? {
      var e, rest := c.inFlight[0].event, EventsIn(c.inFlight[1..]);
      assert l.received + ([e] + rest) == (l.received + [e]) + rest;
      assert (l.received + [e]) + rest == l.history[..c.sinceSeq];
      NextOfHistory(l.history, l.received, e, rest, c.sinceSeq);
    } else {
      assert [] + EventsIn(c.inFlight[1..]) == EventsIn(c.inFlight[1..]);
    }
  }

  lemma NextOfHistory(history: seq<Event>, received: seq<Event>, e: Event, rest: seq<Event>, upTo: nat)
    requires NumberedTo(history, |history|) && upTo <= |history|
    requires (received + [e]) + rest == history[..upTo]
    ensures received + [e] <= history && e.seqNo == |received + [e]|
  {
    assert ((received + [e]) + rest)[|received|] == e;
    assert history[|received|] == e;
    forall i | 0 <= i < |received + [e]| ensures (received + [e])[i] == history[i] {
      assert ((received + [e]) + rest)[i] == history[..upTo][i];
    }
  }

  lemma StepInOrder(l: Link, s: LinkStep)
    requires InOrder(l)
    ensures InOrder(Next(l, s)) && l.received <= Next(l, s).received && l.history <= Next(l, s).history
  {
    match s {
      case Grow(e) =>
        if l.conn.Some? && e.seqNo == |l.history| + 1 {
          assert (l.history + [e])[..l.conn.value.sinceSeq] == l.history[..l.conn.value.sinceSeq];
        }
      case PollNow(limit, finished) =>
        if l.conn.Some? && !l.conn.value.ended && limit >= 1 { PollInOrder(l, limit, finished); }
      case Deliver =>
        if l.conn.Some? && l.conn.value.inFlight != [] { DeliverInOrder(l); }
      case Cut =>
      case Reconnect =>
        Decimal.RenderParse(|l.received|);
        assert l.received == l.history[..|l.received|];
    }
  }

  lemma {:induction false} RunInOrder(l: Link, steps: seq<LinkStep>)
    requires InOrder(l)
    ensures InOrder(NextAll(l, steps)) && l.received <= NextAll(l, steps).received
    decreases |steps|
  {
    hide Next, InOrder;
    if steps != [] {
      StepInOrder(l, steps[0]);
      RunInOrder(Next(l, steps[0]), steps[1..]);
    }
  }

  const UNCONNECTED := Link([], [], "", None)

  /**
   Cut off after any frame and reconnected with the last id received, any number of times,
   while the history grows: the client has at every moment the first so many events of the
   history, none repeated and none missing. Beside any other client of the same history, one
   never cut off among them, whichever has received less has the beginning of what the other has.
   */
  lemma ReconnectLosesNothing(steps: seq<LinkStep>, others: seq<LinkStep>)
    requires NextAll(UNCONNECTED, steps).history == NextAll(UNCONNECTED, others).history
    ensures var cut, whole := NextAll(UNCONNECTED, steps), NextAll(UNCONNECTED, others);
            && cut.received <= cut.history
            && (cut.received <= whole.received || whole.received <= cut.received)
            && (|cut.received| == |whole.received| ==> cut.received == whole.received)
  {
    RunInOrder(UNCONNECTED, steps);
    RunInOrder(UNCONNECTED, others);
  }

  function DeliverAll(l: Link, n: nat): Link
    decreases n
  {
    if n == 0 then l else DeliverAll(Next(l, Deliver), n - 1)
  }

  lemma {:induction false} DeliverAllArrives(l: Link)
    requires InOrder(l) && l.conn.Some? && l.conn.value.sinceSeq == |l.history|
    ensures DeliverAll(l, |l.conn.value.inFlight|).received == l.history
    decreases |l.conn.value.inFlight|
  {
    var c := l.conn.value;
    if c.inFlight == [] {
      assert l.received + [] == l.received;
      assert l.history[..|l.history|] == l.history;
    } else {
      DeliverInOrder(l);
      DeliverAllArrives(Next(l, Deliver));
    }
  }

  function PollMany(l: Link, limit: nat, finished: bool, n: nat): Link
    decreases n
  {
    if n == 0 then l else PollMany(Next(l, PollNow(limit, finished)), limit, finished, n - 1)
  }

  /** A connection whose `end` is on its way has read everything. */
  ghost predicate EndedAtTheEnd(l: Link) {
    l.conn.Some? && (l.conn.value.ended ==> l.conn.value.sinceSeq == |l.history|)
  }

  /** Each poll brings the cursor a page nearer the end of the history. */
  lemma {:induction false} PollsReachTheEnd(l: Link, limit: nat, finished: bool, n: nat)
    requires InOrder(l) && EndedAtTheEnd(l) && limit >= 1 && l.conn.value.sinceSeq + n * limit >= |l.history|
    ensures var t := PollMany(l, limit, finished, n);
            && InOrder(t) && t.conn.Some? && t.conn.value.sinceSeq == |t.history|
            && t.history == l.history && t.received == l.received
    decreases n
  {
    hide InOrder, Polled;
    if n == 0 {
      CursorWithin(l);
    } else {
      var next := Next(l, PollNow(limit, finished));
      OneFewer(n, limit);
      if l.conn.value.ended {
        assert next == l;
        AlreadyThere(|l.history|, n - 1, limit);
      } else {
        PollInOrder(l, limit, finished);
        if next.conn.value.sinceSeq == |l.history| { AlreadyThere(|l.history|, n - 1, limit); }
      }
      PollsReachTheEnd(next, limit, finished, n - 1);
    }
  }

  lemma CursorWithin(l: Link)
    requires InOrder(l) && l.conn.Some?
    ensures l.conn.value.sinceSeq <= |l.history|
  {
  }

  lemma OneFewer(n: nat, limit: nat)
    requires n > 0
    ensures n * limit == (n - 1) * limit + limit
  {
  }

  lemma AlreadyThere(size: nat, n: nat, limit: nat)
    ensures size + n * limit >= size
  {
  }

  /**
   However it was cut before, and whatever the page size: one reconnection, enough polls to page
   through the history, and delivery bring everything.
   */
  lemma ReconnectCatchesUp(steps: seq<LinkStep>, limit: nat, finished: bool, polls: nat)
    requires limit >= 1 && polls * limit >= |NextAll(UNCONNECTED, steps).history|
    ensures var l := PollMany(Next(Next(NextAll(UNCONNECTED, steps), Cut), Reconnect), limit, finished, polls);
            && l.conn.Some?
            && DeliverAll(l, |l.conn.value.inFlight|).received == l.history == NextAll(UNCONNECTED, steps).history
  {
    hide InOrder, DeliverAll, PollMany;
    var l := NextAll(UNCONNECTED, steps);
    UnconnectedInOrder();
    RunInOrder(UNCONNECTED, steps);
    StepInOrder(l, Cut);
    StepInOrder(Next(l, Cut), Reconnect);
    var again := Next(Next(l, Cut), Reconnect);
    ReconnectConnects(Next(l, Cut));
    PollsReachTheEnd(again, limit, finished, polls);
    DeliverAllArrives(PollMany(again, limit, finished, polls));
  }

  lemma UnconnectedInOrder()
    ensures InOrder(UNCONNECTED)
  {
  }

  lemma ReconnectConnects(l: Link)
    requires InOrder(l) && l.conn.None?
    ensures var t := Next(l, Reconnect);
            t.conn.Some? && !t.conn.value.ended && t.conn.value.sinceSeq == |l.received| && t.history == l.history
  {
    Decimal.RenderParse(|l.received|);
  }

  // ----- the same, on the wire --------------------------------------------------------------

  function KindText(kind: EventKind): string {
    match kind
    case FlowState => "flow_state"
    case AtomState => "atom_state"
    case AtomProgress => "atom_progress"
    case FlowStructure => "flow_structure"
    case FlowResult => "flow_result"
    case Heartbeat => "heartbeat"
  }

  /** What a frame looks like on the wire; `json` is the payload's rendering. */
  function ChunkOf(f: StreamFrame, json: StreamFrame -> string): Sse.Chunk {
    match f
    case Gap(n) => Sse.Data(json(f), Some("gap"), None, None)
    case Item(e) => Sse.Data(json(f), Some(KindText(e.kind)), Some(Decimal.Render(e.seqNo)), None)
    case End => Sse.Data("{}", Some("end"), None, None)
  }

  /** What a browser is told a frame is, kind by kind, and what it is handed with it. */
  ghost predicate HeardAs(f: StreamFrame, m: Sse.Message, json: StreamFrame -> string) {
    && (f.Gap? <==> m.eventType == "gap")
    && (f.End? <==> m.eventType == "end")
    && (f.Item? && f.event.kind == FlowState <==> m.eventType == "flow_state")
    && (f.Item? && f.event.kind == AtomState <==> m.eventType == "atom_state")
    && (f.Item? && f.event.kind == AtomProgress <==> m.eventType == "atom_progress")
    && (f.Item? && f.event.kind == FlowStructure <==> m.eventType == "flow_structure")
    && (f.Item? && f.event.kind == FlowResult <==> m.eventType == "flow_result")
    && (f.Item? && f.event.kind == Heartbeat <==> m.eventType == "heartbeat")
    && m.data == (if f.End? then "{}" else json(f))
  }

  lemma OneHeard(lastId: string, f: StreamFrame, json: StreamFrame -> string)
    ensures var c := ChunkOf(f, json);
            c.Data? && HeardAs(f, Sse.Intended(lastId, c.data, c.event, c.id), json)
  {
    var c := ChunkOf(f, json);
    assert |"flow_state"| == 10 && |"atom_state"| == 10 && |"flow_structure"| == 14 && |"flow_result"| == 11;
    assert "flow_state"[0] == 'f' && "atom_state"[0] == 'a' && |"atom_progress"| == 13 && |"heartbeat"| == 9;
    assert |"gap"| == 3 && |"end"| == 3 && "gap"[0] == 'g' && "end"[0] == 'e';
  }

  function ChunksOf(frames: seq<StreamFrame>, json: StreamFrame -> string): seq<Sse.Chunk> {
    if frames == [] then [] else [ChunkOf(frames[0], json)] + ChunksOf(frames[1..], json)
  }

  /** The id a client would send back after reading these frames. */
  function LastIdAfter(lastId: string, frames: seq<StreamFrame>): string
    decreases |frames|
  {
    if frames == [] then lastId
    else LastIdAfter(if frames[0].Item? then Decimal.Render(frames[0].event.seqNo) else lastId, frames[1..])
  }

  lemma ChunkLegible(f: StreamFrame, json: StreamFrame -> string)
    requires Sse.CR !in json(f)
    ensures var c := ChunkOf(f, json); c.Data? && Sse.Legible(c.data, c.event, c.id) && c.retry.None?
  {
    assert Sse.OneLine("gap") && Sse.OneLine("end") && Sse.CR !in "{}";
    if f.Item? {
      Decimal.RenderParse(f.event.seqNo);
      KindOneLine(f.event.kind);
    }
  }

  lemma KindOneLine(kind: EventKind)
    ensures Sse.OneLine(KindText(kind))
  {
  }

  lemma {:induction false} ChunksLegible(frames: seq<StreamFrame>, json: StreamFrame -> string)
    requires forall f :: Sse.CR !in json(f)
    ensures Sse.Tidy(ChunksOf(frames, json)) && Sse.AllLegible(ChunksOf(frames, json))
  {
    if frames != [] {
      ChunkLegible(frames[0], json);
      ChunksLegible(frames[1..], json);
    }
  }

  lemma {:induction false} IdsIntended(lastId: string, frames: seq<StreamFrame>, json: StreamFrame -> string)
    ensures var messages := Sse.IntendedAll(lastId, ChunksOf(frames, json));
            && |messages| == |frames|
            && (forall i :: 0 <= i < |frames| ==> messages[i].lastEventId == LastIdAfter(lastId, frames[..i + 1]))
            && (forall i :: 0 <= i < |frames| ==> HeardAs(frames[i], messages[i], json))
    decreases |frames|
  {
    hide HeardAs;
    if frames != [] {
      OneHeard(lastId, frames[0], json);
      var id := if frames[0].Item? then Decimal.Render(frames[0].event.seqNo) else lastId;
      IdsIntended(id, frames[1..], json);
      var messages := Sse.IntendedAll(lastId, ChunksOf(frames, json));
      var rest := Sse.IntendedAll(id, ChunksOf(frames[1..], json));
      assert ChunksOf(frames, json)[1..] == ChunksOf(frames[1..], json);
      assert messages[1..] == rest;
      forall i | 0 <= i < |frames| ensures messages[i].lastEventId == LastIdAfter(lastId, frames[..i + 1]) {
        if i > 0 {
          assert messages[i] == rest[i - 1];
          assert frames[..i + 1][1..] == frames[1..][..i];
        } else {
          assert frames[..1][1..] == [];
        }
      }
      forall i | 0 <= i < |frames| ensures HeardAs(frames[i], messages[i], json) {
        if i > 0 { assert messages[i] == rest[i - 1] && frames[i] == frames[1..][i - 1]; }
      }
    }
  }

  /**
   The bytes of a stream, parsed as a browser does: one message per frame, of the type that says what it
   is and with its payload intact, and the id it would resume from always that of the last event so far.
   */
  lemma WireKeepsIds(lastId: string, frames: seq<StreamFrame>, json: StreamFrame -> string)
    requires forall f :: Sse.CR !in json(f)
    requires Sse.OneLine(lastId) && Sse.NUL !in lastId
    ensures var messages := Sse.Receive(lastId, Sse.Print(ChunksOf(frames, json)));
            && |messages| == |frames|
            && (forall i :: 0 <= i < |frames| ==> messages[i].lastEventId == LastIdAfter(lastId, frames[..i + 1]))
            && (forall i :: 0 <= i < |frames| ==> HeardAs(frames[i], messages[i], json))
  {
    hide HeardAs;
    ChunksLegible(frames, json);
    Sse.PrintThenParse(lastId, ChunksOf(frames, json));
    IdsIntended(lastId, frames, json);
  }
}
