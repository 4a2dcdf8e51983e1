/** A source diffed into a store, poll after poll: what holds over whole histories, refusals among them. */
module Polling {
  import opened Wrappers
  import opened Models
  import opened Folding
  import opened Paging
  import opened Listing
  import opened Numbering
  import opened Diffing
  import opened RoundTrip
  import Sql = SqlStore
  import Memory = MemoryStore

  type Db = Sql.Db

  /** What one pass over a listing does to the counters and to the sink, and what it emitted. */
  datatype Pass = Pass(counters: Counters, sink: Db, emitted: seq<Event>)

  function Known(previous: Flows, runId: string): Option<FlowSnapshot> {
    if runId in previous then Some(previous[runId]) else None
  }

  function PassOne(previous: Flows, p: Pass, s: FlowSnapshot): Pass {
    var events := Diff(Known(previous, s.runId), s, Last(p.counters, s.runId), s.observedAt);
    Pass(Numbered(p.counters, s.runId, |events|), Sql.ApplyEach(p.sink, events), p.emitted + events)
  }

  function PassAll(previous: Flows, p: Pass, listing: seq<FlowSnapshot>): Pass {
    if listing == [] then p
    else PassOne(previous, PassAll(previous, p, listing[..|listing| - 1]), listing[|listing| - 1])
  }

  function Seen(listing: seq<FlowSnapshot>): Flows {
    if listing == [] then map[]
    else Seen(listing[..|listing| - 1])[listing[|listing| - 1].runId := listing[|listing| - 1]]
  }

  lemma {:induction false} SeenSpec(listing: seq<FlowSnapshot>)
    ensures Listing.Keyed(Seen(listing))
    ensures forall r :: r in Seen(listing) <==> exists s :: s in listing && s.runId == r
    ensures forall r :: r in Seen(listing) ==> Seen(listing)[r] in listing
  {
    if listing != [] {
      var front, last := listing[..|listing| - 1], listing[|listing| - 1];
      SeenSpec(front);
      assert forall s :: s in listing <==> s in front || s == last by { assert listing == front + [last]; }
    }
  }

  /** The poller and the store it feeds. */
  datatype Watch = Watch(previous: Flows, counters: Counters, sink: Db, polls: nat, events: nat, flowsSeen: nat)

  const FRESH := Watch(map[], map[], Sql.EMPTY, 0, 0, 0)

  /** How a poll can go: read in full and stored; not readable; or stored only up to some flow. */
  datatype Poll = Stored(listing: seq<FlowSnapshot>) | ReadFailed | ApplyFailed(listing: seq<FlowSnapshot>, at: nat)

  /** The poller and its sink after one poll. */
  function After(w: Watch, poll: Poll): Watch {
    match poll
    case Stored(listing) =>
      var p := PassAll(w.previous, StartOf(w), listing);
      Watch(Seen(listing), p.counters, p.sink, w.polls + 1, w.events + |p.emitted|, |Seen(listing)|)
    case ReadFailed => w
    case ApplyFailed(listing, at) =>
      if at >= |listing| then w
      else
        // The numbers of the batch that failed are gone; nothing else of it happened.
        var p := PassAll(w.previous, StartOf(w), listing[..at]);
        w.(counters := PassOne(w.previous, p, listing[at]).counters, sink := p.sink)
  }

  /** The events a poll stored: all of them, or those of the flows before the one refused. */
  function Emitted(w: Watch, poll: Poll): seq<Event> {
    match poll
    case Stored(listing) => PassAll(w.previous, StartOf(w), listing).emitted
    case ReadFailed => []
    case ApplyFailed(listing, at) =>
      if at >= |listing| then [] else PassAll(w.previous, StartOf(w), listing[..at]).emitted
  }

  function PollAll(w: Watch, polls: seq<Poll>): Watch
    decreases |polls|
  {
    if polls == [] then w else PollAll(After(w, polls[0]), polls[1..])
  }

  function EmittedAll(w: Watch, polls: seq<Poll>): seq<Event>
    decreases |polls|
  {
    if polls == [] then [] else Emitted(w, polls[0]) + EmittedAll(After(w, polls[0]), polls[1..])
  }

  // ----- what is kept ------------------------------------------------------------

  /** Every run's events carry exactly the numbers from 1 to the last one handed out, in order. */
  ghost predicate GapFree(log: seq<Event>, counters: Counters) {
    forall r :: NumberedTo(OfRun(log, r), Last(counters, r))
  }

  ghost predicate NumberedTo(mine: seq<Event>, last: int) {
    |mine| == last && forall i :: 0 <= i < |mine| ==> mine[i].seqNo == i + 1
  }

  ghost predicate Shows(sink: Db, s: FlowSnapshot) {
    s.runId in sink.flows && Mirrors(sink.flows[s.runId], s)
  }

  /** What holds whatever the sink refused: the sink is the log, and knows every run seen. */
  ghost predicate Booked(w: Watch, log: seq<Event>) {
    && Listing.Keyed(w.previous)
    && (forall r :: r in w.previous ==> WellNamed(w.previous[r]) && r in w.sink.flows)
    && w.sink == Sql.ApplyEach(Sql.EMPTY, log)
  }

  /** The sink shows every flow as it was last seen. */
  ghost predicate Showing(w: Watch) {
    forall r :: r in w.previous ==> Shows(w.sink, w.previous[r])
  }

  /** What holds after every poll that went well. */
  ghost predicate Faithful(w: Watch, log: seq<Event>) {
    Booked(w, log) && Showing(w) && GapFree(log, w.counters) && w.events == |log|
  }

  /** A listing of distinct runs, atoms filed under their names. */
  ghost predicate Proper(listing: seq<FlowSnapshot>) {
    DistinctRuns(listing) && forall i :: 0 <= i < |listing| ==> WellNamed(listing[i])
  }

  /** When storing a flow's diff makes the sink show it, whatever the sink shows now. */
  ghost predicate ComesRight(previous: Flows, sink: Db, s: FlowSnapshot) {
    s.runId in sink.flows ==> Heals(sink.flows[s.runId], Known(previous, s.runId), s)
  }

  ghost predicate AllComeRight(previous: Flows, sink: Db, listing: seq<FlowSnapshot>) {
    forall i :: 0 <= i < |listing| ==> ComesRight(previous, sink, listing[i])
  }

  /** A change since the flow was last seen that the events can carry; no run back from the dead. */
  ghost predicate ReportableFlow(previous: Flows, sink: Db, s: FlowSnapshot) {
    && WellNamed(s)
    && (if s.runId in previous then Carried(previous[s.runId], s) else s.runId !in sink.flows)
  }

  ghost predicate Reportable(previous: Flows, sink: Db, listing: seq<FlowSnapshot>) {
    && DistinctRuns(listing)
    && (forall i :: 0 <= i < |listing| ==> ReportableFlow(previous, sink, listing[i]))
  }

  /** A diff's events are all the run's own, numbered on from the last number. */
  lemma DiffNumbers(was: Option<FlowSnapshot>, now: FlowSnapshot, last: int, ts: real)
    ensures var events := Diff(was, now, last, ts);
            && (forall e :: e in events ==> e.runId == now.runId)
            && (forall i :: 0 <= i < |events| ==> events[i].seqNo == last + 1 + i)
            && (was.None? ==> events != [])
  {
    hide AtomEvents, NewEvent;
    EventsAreOfRun(was, now);
    var plain, events := Unstamped(was, now), Diff(was, now, last, ts);
    forall e | e in events ensures e.runId == now.runId {
      var i :| 0 <= i < |events| && events[i] == e;
      assert plain[i] in plain;
      assert plain[i] in AtomEvents(was, now, now.AtomNames()) || plain[i] in FlowEvents(was, now);
    }
  }

  /** Folding one run's events leaves every other run's rows alone. */
  lemma OtherRunsUntouched(sink: Db, events: seq<Event>, runId: string)
    requires forall e :: e in events ==> e.runId == runId
    ensures forall r :: r != runId ==> Sql.Loaded(Sql.ApplyEach(sink, events), r) == Sql.Loaded(sink, r)
    ensures Sql.Loaded(Sql.ApplyEach(sink, events), runId) == Sql.Snapshot(Sql.Loaded(sink, runId), events)
  {
    forall r | r != runId ensures Sql.Loaded(Sql.ApplyEach(sink, events), r) == Sql.Loaded(sink, r) {
      OfRunNone(events, r);
      Sql.EachOnRun(sink, events, r);
    }
    OfRunAll(events, runId);
    Sql.EachOnRun(sink, events, runId);
  }

  /**
   Diffing one flow and storing the events makes the sink show it, exactly when the diff heals
   what the sink holds of it; a run never stored before always shows.
   */
  lemma OneFlow(previous: Flows, p: Pass, s: FlowSnapshot)
    requires WellNamed(s) && (s.runId in previous ==> s.runId in p.sink.flows)
    ensures var q := PassOne(previous, p, s);
            && s.runId in q.sink.flows
            && (Shows(q.sink, s) <==> ComesRight(previous, p.sink, s))
            && (ComesRight(previous, q.sink, s) <==> ComesRight(previous, p.sink, s))
            && (forall r :: r != s.runId ==> Sql.Loaded(q.sink, r) == Sql.Loaded(p.sink, r))
  {
    hide Diff, FoldAll, Heals, Mirrors, Sql.ApplyEach;
    var was, last := Known(previous, s.runId), Last(p.counters, s.runId);
    var events := Diff(was, s, last, s.observedAt);
    DiffNumbers(was, s, last, s.observedAt);
    OtherRunsUntouched(p.sink, events, s.runId);
    if s.runId in p.sink.flows {
      HealsExactly(p.sink.flows[s.runId], was, s, last, s.observedAt);
      HealsTwice(p.sink.flows[s.runId], was, s, last, s.observedAt);
      if events == [] { FoldNone(p.sink.flows[s.runId]); }
    } else {
      FirstRoundTrip(s, last, s.observedAt);
      HealsWhenRight(FoldAll(FlowFromEvent(events[0]), events), was, s);
    }
  }

  /** What a sink that shows the flow as last seen makes of it: right exactly when the events carry the change. */
  lemma ComesRightWhenShown(previous: Flows, sink: Db, s: FlowSnapshot)
    requires Listing.Keyed(previous) && WellNamed(s)
    requires s.runId in previous ==> WellNamed(previous[s.runId]) && Shows(sink, previous[s.runId])
    ensures s.runId in previous ==> (ComesRight(previous, sink, s) <==> Carried(previous[s.runId], s))
  {
    hide Heals, Carried, Mirrors;
    if s.runId in previous { HealsWhenCarried(sink.flows[s.runId], previous[s.runId], s); }
  }

  lemma NothingStored(sink: Db)
    ensures Sql.ApplyEach(sink, []) == sink
  {
  }

  // ----- one pass over a listing --------------------------------------------------

  /** What holds part of the way through a listing. */
  ghost predicate Underway(w: Watch, log: seq<Event>, listing: seq<FlowSnapshot>, n: nat, p: Pass)
    requires n <= |listing|
  {
    && p.sink == Sql.ApplyEach(Sql.EMPTY, log + p.emitted)
    && w.sink.flows.Keys <= p.sink.flows.Keys
    && (forall i :: 0 <= i < n ==> listing[i].runId in p.sink.flows)
    && (forall i :: 0 <= i < n ==> (Shows(p.sink, listing[i]) <==> ComesRight(w.previous, w.sink, listing[i])))
    && (forall i :: 0 <= i < n ==>
          (ComesRight(w.previous, p.sink, listing[i]) <==> ComesRight(w.previous, w.sink, listing[i])))
    && (forall r :: (forall i :: 0 <= i < n ==> listing[i].runId != r) ==>
          Sql.Loaded(p.sink, r) == Sql.Loaded(w.sink, r))
  }

  lemma UnderwayNext(w: Watch, log: seq<Event>, listing: seq<FlowSnapshot>, n: nat, p: Pass)
    requires Booked(w, log) && Proper(listing) && n < |listing| && Underway(w, log, listing, n, p)
    ensures Underway(w, log, listing, n + 1, PassOne(w.previous, p, listing[n]))
  {
    hide Diff, FoldAll, Heals, Mirrors, Sql.ApplyEach, WellNamed;
    var s, q := listing[n], PassOne(w.previous, p, listing[n]);
    assert Sql.Loaded(p.sink, s.runId) == Sql.Loaded(w.sink, s.runId);
    OneFlow(w.previous, p, s);
    var events := Diff(Known(w.previous, s.runId), s, Last(p.counters, s.runId), s.observedAt);
    assert log + q.emitted == (log + p.emitted) + events;
    Sql.ApplyEachConcat(Sql.EMPTY, log + p.emitted, events);
    forall i | 0 <= i < n
      ensures listing[i].runId in q.sink.flows
      ensures Shows(q.sink, listing[i]) <==> ComesRight(w.previous, w.sink, listing[i])
      ensures ComesRight(w.previous, q.sink, listing[i]) <==> ComesRight(w.previous, w.sink, listing[i])
    {
      assert Sql.Loaded(q.sink, listing[i].runId) == Sql.Loaded(p.sink, listing[i].runId);
    }
    forall r | r in w.sink.flows ensures r in q.sink.flows {
      if r != s.runId { assert Sql.Loaded(q.sink, r) == Sql.Loaded(p.sink, r); }
    }
    forall r | forall i :: 0 <= i < n + 1 ==> listing[i].runId != r
      ensures Sql.Loaded(q.sink, r) == Sql.Loaded(w.sink, r)
    {
      assert listing[n].runId != r;
      assert forall i :: 0 <= i < n ==> listing[i].runId != r;
    }
  }

  /** Part of the way through any listing, each flow so far shows exactly when it comes right; the rest is untouched. */
  lemma {:induction false} PassKeeps(w: Watch, log: seq<Event>, listing: seq<FlowSnapshot>, n: nat)
    requires Booked(w, log) && Proper(listing) && n <= |listing|
    ensures Underway(w, log, listing, n, PassAll(w.previous, StartOf(w), listing[..n]))
    decreases n
  {
    hide PassOne, WellNamed, Heals, Mirrors;
    if n == 0 {
      assert log + [] == log && listing[..0] == [];
    } else {
      PassKeeps(w, log, listing, n - 1);
      assert listing[..n][..n - 1] == listing[..n - 1];
      UnderwayNext(w, log, listing, n - 1, PassAll(w.previous, StartOf(w), listing[..n - 1]));
    }
  }

  /** How many of a run's numbers were handed out and never stored. */
  function Burnt(log: seq<Event>, counters: Counters, r: string): int {
    Last(counters, r) - |OfRun(log, r)|
  }

  lemma MoreNumbers(log: seq<Event>, counters: Counters, runId: string, events: seq<Event>)
    requires GapFree(log, counters)
    requires forall e :: e in events ==> e.runId == runId
    requires forall i :: 0 <= i < |events| ==> events[i].seqNo == Last(counters, runId) + 1 + i
    ensures GapFree(log + events, Numbered(counters, runId, |events|))
  {
    forall r ensures NumberedTo(OfRun(log + events, r), Last(Numbered(counters, runId, |events|), r)) {
      OfRunConcat(log, events, r);
      assert NumberedTo(OfRun(log, r), Last(counters, r));
      if r == runId { OfRunAll(events, r); } else { OfRunNone(events, r); }
    }
  }

  lemma PassOneNumbers(previous: Flows, p: Pass, s: FlowSnapshot, log: seq<Event>)
    ensures var q := PassOne(previous, p, s);
            && (forall r :: Burnt(log + q.emitted, q.counters, r) == Burnt(log + p.emitted, p.counters, r))
            && (GapFree(log + p.emitted, p.counters) ==> GapFree(log + q.emitted, q.counters))
  {
    hide Diff, GapFree;
    var q, last := PassOne(previous, p, s), Last(p.counters, s.runId);
    var events := Diff(Known(previous, s.runId), s, last, s.observedAt);
    DiffNumbers(Known(previous, s.runId), s, last, s.observedAt);
    assert log + q.emitted == (log + p.emitted) + events;
    forall r ensures Burnt(log + q.emitted, q.counters, r) == Burnt(log + p.emitted, p.counters, r) {
      OfRunConcat(log + p.emitted, events, r);
      if r == s.runId { OfRunAll(events, r); } else { OfRunNone(events, r); }
    }
    if GapFree(log + p.emitted, p.counters) { MoreNumbers(log + p.emitted, p.counters, s.runId, events); }
  }

  /** A pass burns no number, whatever it lists. */
  lemma {:induction false} PassNumbers(previous: Flows, p: Pass, listing: seq<FlowSnapshot>, log: seq<Event>)
    ensures var q := PassAll(previous, p, listing);
            && (forall r :: Burnt(log + q.emitted, q.counters, r) == Burnt(log + p.emitted, p.counters, r))
            && (GapFree(log + p.emitted, p.counters) ==> GapFree(log + q.emitted, q.counters))
  {
    hide PassOne, GapFree, Burnt;
    if listing != [] {
      var front, last := listing[..|listing| - 1], listing[|listing| - 1];
      PassNumbers(previous, p, front, log);
      PassOneNumbers(previous, PassAll(previous, p, front), last, log);
    }
  }

  // ----- one poll -------------------------------------------------------------------

  /** A poll that can happen: runs listed once, and a refusal only where something was to be stored. */
  ghost predicate Possible(w: Watch, poll: Poll) {
    match poll
    case Stored(listing) => Proper(listing)
    case ReadFailed => true
    case ApplyFailed(listing, at) => Proper(listing) && Refused(w, listing, at)
  }

  /**
   A stored poll, whatever was refused before it: each flow listed shows exactly when it comes
   right, and so the sink as a whole shows what was last seen exactly when all do.
   */
  lemma StoredPoll(w: Watch, log: seq<Event>, listing: seq<FlowSnapshot>)
    requires Booked(w, log) && Proper(listing)
    ensures var after := After(w, Stored(listing));
            && Booked(after, log + Emitted(w, Stored(listing)))
            && (forall i :: 0 <= i < |listing| ==>
                  (Shows(after.sink, listing[i]) <==> ComesRight(w.previous, w.sink, listing[i])))
            && (Showing(after) <==> AllComeRight(w.previous, w.sink, listing))
  {
    hide PassAll, WellNamed, ComesRight, Shows, Seen;
    PassKeeps(w, log, listing, |listing|);
    assert listing[..|listing|] == listing;
    SeenSpec(listing);
    ShowingListed(After(w, Stored(listing)), w, listing);
  }

  lemma ShowingListed(after: Watch, w: Watch, listing: seq<FlowSnapshot>)
    requires DistinctRuns(listing) && after.previous == Seen(listing)
    requires forall i :: 0 <= i < |listing| ==>
               (Shows(after.sink, listing[i]) <==> ComesRight(w.previous, w.sink, listing[i]))
    ensures Showing(after) <==> AllComeRight(w.previous, w.sink, listing)
  {
    hide ComesRight, Shows, Seen;
    SeenSpec(listing);
    forall i | 0 <= i < |listing| ensures Seen(listing)[listing[i].runId] == listing[i] {
      var x := Seen(listing)[listing[i].runId];
      var j :| 0 <= j < |listing| && listing[j] == x;
    }
    if AllComeRight(w.previous, w.sink, listing) {
      forall r | r in after.previous ensures Shows(after.sink, after.previous[r]) {
        var i :| 0 <= i < |listing| && listing[i] == after.previous[r];
      }
    }
    if Showing(after) {
      forall i | 0 <= i < |listing| ensures ComesRight(w.previous, w.sink, listing[i]) {
        assert listing[i].runId in after.previous;
      }
    }
  }

  /**
   A refused poll: what was seen stays what it was, but the flows before the refused one are
   already stored as listed, and the numbers of the refused batch are gone.
   */
  lemma RefusedPoll(w: Watch, log: seq<Event>, listing: seq<FlowSnapshot>, at: nat)
    requires Booked(w, log) && Proper(listing) && at < |listing|
    ensures var poll := ApplyFailed(listing, at);
            var after := After(w, poll);
            && Booked(after, log + Emitted(w, poll)) && after.previous == w.previous && after.events == w.events
            && (forall i :: 0 <= i < at ==>
                  (Shows(after.sink, listing[i]) <==> ComesRight(w.previous, w.sink, listing[i])))
            && (forall i :: 0 <= i < at ==>
                  (ComesRight(w.previous, after.sink, listing[i]) <==> ComesRight(w.previous, w.sink, listing[i])))
            && (forall r :: (forall i :: 0 <= i < at ==> listing[i].runId != r) ==>
                  Sql.Loaded(after.sink, r) == Sql.Loaded(w.sink, r))
  {
    hide PassAll, WellNamed, ComesRight, Shows;
    PassKeeps(w, log, listing, at);
  }

  /** What a poll does to the count of burnt numbers: a refusal burns its batch's, nothing else burns any. */
  lemma PollBurns(w: Watch, log: seq<Event>, poll: Poll)
    requires Possible(w, poll)
    ensures var after, now := After(w, poll), log + Emitted(w, poll);
            && (forall r :: Burnt(now, after.counters, r) >= Burnt(log, w.counters, r))
            && (poll.ApplyFailed? ==> exists r :: Burnt(now, after.counters, r) > Burnt(log, w.counters, r))
            && (!poll.ApplyFailed? && GapFree(log, w.counters) ==> GapFree(now, after.counters))
  {
    hide PassAll, Diff, GapFree;
    assert log + [] == log;
    match poll {
      case Stored(listing) => PassNumbers(w.previous, StartOf(w), listing, log);
      case ReadFailed =>
      case ApplyFailed(listing, at) =>
        PassNumbers(w.previous, StartOf(w), listing[..at], log);
        var p := PassAll(w.previous, StartOf(w), listing[..at]);
        BatchBurnt(w.previous, p, listing[at], log + p.emitted);
        assert Burnt(log + p.emitted, PassOne(w.previous, p, listing[at]).counters, listing[at].runId)
             > Burnt(log, w.counters, listing[at].runId);
    }
  }

  lemma BatchBurnt(previous: Flows, p: Pass, s: FlowSnapshot, log: seq<Event>)
    ensures var q := PassOne(previous, p, s);
            forall r :: Burnt(log, q.counters, r)
                     == Burnt(log, p.counters, r) + if r == s.runId then |q.emitted| - |p.emitted| else 0
  {
    hide Diff;
  }

  /** A refusal breaks the numbering exactly when the refused flow had something to store. */
  lemma RefusalBurns(w: Watch, log: seq<Event>, listing: seq<FlowSnapshot>, at: nat)
    requires GapFree(log, w.counters) && at < |listing|
    ensures GapFree(log + Emitted(w, ApplyFailed(listing, at)), After(w, ApplyFailed(listing, at)).counters)
       <==> !Refused(w, listing, at)
  {
    hide PassAll, Diff;
    assert log + [] == log;
    PassNumbers(w.previous, StartOf(w), listing[..at], log);
    var p, s := PassAll(w.previous, StartOf(w), listing[..at]), listing[at];
    BatchBurnt(w.previous, p, s, log + p.emitted);
    var q := PassOne(w.previous, p, s);
    if Refused(w, listing, at) {
      assert NumberedTo(OfRun(log, s.runId), Last(w.counters, s.runId));
      assert Burnt(log + p.emitted, q.counters, s.runId) > 0;
    } else {
      assert q.counters == p.counters;
    }
  }

  /** A poll that is stored keeps everything; a poll that could not read changes nothing at all. */
  lemma PollKeepsFaithful(w: Watch, log: seq<Event>, poll: Poll)
    requires Faithful(w, log) && !poll.ApplyFailed?
    requires poll.Stored? ==> Reportable(w.previous, w.sink, poll.listing)
    ensures Faithful(After(w, poll), log + Emitted(w, poll))
    ensures poll.Stored? ==> forall i :: 0 <= i < |poll.listing| ==> Shows(After(w, poll).sink, poll.listing[i])
    ensures poll.ReadFailed? ==> After(w, poll) == w && Emitted(w, poll) == []
  {
    hide PassAll, WellNamed, Carried, Shows, Burnt, GapFree;
    assert log + [] == log;
    if poll.Stored? {
      forall i | 0 <= i < |poll.listing| ensures ComesRight(w.previous, w.sink, poll.listing[i]) {
        assert ReportableFlow(w.previous, w.sink, poll.listing[i]);
        ComesRightWhenShown(w.previous, w.sink, poll.listing[i]);
      }
      assert Proper(poll.listing) by {
        assert forall i :: 0 <= i < |poll.listing| ==> ReportableFlow(w.previous, w.sink, poll.listing[i]);
      }
      StoredPoll(w, log, poll.listing);
      PollBurns(w, log, poll);
    }
  }

  // ----- after a refusal ---------------------------------------------------------------

  /**
   When a flow shows again on the poll after a refusal: if it was stored before the refusal, its
   diff, still taken from before, must heal what was then listed; if not, nothing has changed for
   it, and it comes right exactly when it would have.
   */
  ghost predicate RightAgain(w: Watch, stored: seq<FlowSnapshot>, s: FlowSnapshot) {
    && (forall i :: 0 <= i < |stored| && stored[i].runId == s.runId ==>
          Heals(stored[i], Known(w.previous, s.runId), s))
    && ((forall i :: 0 <= i < |stored| ==> stored[i].runId != s.runId) ==> ComesRight(w.previous, w.sink, s))
  }

  /**
   After a refusal, whether the first or not, and then a poll stored in full, the sink shows a flow
   exactly when it is right again. Of what came before, only that the flows the refused poll stored
   came right is asked; for a sink that shows what was last seen that is a listing the events carry.
   */
  lemma AfterRefusal(w: Watch, log: seq<Event>, listing: seq<FlowSnapshot>, at: nat, again: seq<FlowSnapshot>)
    requires Booked(w, log) && Proper(listing) && at < |listing| && Proper(again)
    requires AllComeRight(w.previous, w.sink, listing[..at])
    ensures var later := After(After(w, ApplyFailed(listing, at)), Stored(again));
            forall j :: 0 <= j < |again| ==>
              (Shows(later.sink, again[j]) <==> RightAgain(w, listing[..at], again[j]))
  {
    hide After, PassAll, WellNamed, Mirrors, Heals, Emitted;
    RefusedPoll(w, log, listing, at);
    var between := After(w, ApplyFailed(listing, at));
    StoredPoll(between, log + Emitted(w, ApplyFailed(listing, at)), again);
    forall j | 0 <= j < |again|
      ensures ComesRight(between.previous, between.sink, again[j]) <==> RightAgain(w, listing[..at], again[j])
    {
      var s := again[j];
      if i :| 0 <= i < at && listing[i].runId == s.runId {
        assert ComesRight(w.previous, w.sink, listing[..at][i]);
        assert Shows(between.sink, listing[i]);
        HealsByLooks(between.sink.flows[s.runId], listing[i], Known(w.previous, s.runId), s);
        assert listing[..at][i] == listing[i];
      } else {
        assert Sql.Loaded(between.sink, s.runId) == Sql.Loaded(w.sink, s.runId);
      }
    }
  }

  /** A listing the events can carry comes right in full from a sink that shows what was last seen. */
  lemma ReportableIsRight(w: Watch, log: seq<Event>, listing: seq<FlowSnapshot>)
    requires Booked(w, log) && Showing(w) && Reportable(w.previous, w.sink, listing)
    ensures Proper(listing) && AllComeRight(w.previous, w.sink, listing)
  {
    hide WellNamed, Carried, Shows, ComesRight;
    forall i | 0 <= i < |listing| ensures WellNamed(listing[i]) && ComesRight(w.previous, w.sink, listing[i]) {
      assert ReportableFlow(w.previous, w.sink, listing[i]);
      NewOrCarried(w.previous, w.sink, listing[i]);
    }
  }

  lemma NewOrCarried(previous: Flows, sink: Db, s: FlowSnapshot)
    requires Listing.Keyed(previous) && ReportableFlow(previous, sink, s)
    requires s.runId in previous ==> WellNamed(previous[s.runId]) && Shows(sink, previous[s.runId])
    ensures ComesRight(previous, sink, s)
  {
    hide Carried, Heals, Mirrors;
    ComesRightWhenShown(previous, sink, s);
  }

  /** Polls of one and the same listing that are all refused somewhere, or cannot be read. */
  ghost predicate AllRefused(listing: seq<FlowSnapshot>, failures: seq<Poll>) {
    forall i :: 0 <= i < |failures| ==>
      || failures[i].ReadFailed?
      || (failures[i].ApplyFailed? && failures[i].listing == listing && failures[i].at < |listing|)
  }

  /** Refusals of a listing, wherever and however many, do not change which of its flows come right. */
  lemma {:induction false} RefusalsKeepRight(w: Watch, log: seq<Event>, listing: seq<FlowSnapshot>, failures: seq<Poll>)
    requires Booked(w, log) && Proper(listing) && AllRefused(listing, failures)
    ensures var later := PollAll(w, failures);
            && Booked(later, log + EmittedAll(w, failures)) && later.previous == w.previous
            && (AllComeRight(later.previous, later.sink, listing) <==> AllComeRight(w.previous, w.sink, listing))
    decreases |failures|
  {
    hide After, Emitted, Booked, Proper, ComesRight;
    if failures == [] {
      assert log + [] == log;
    } else {
      var poll, rest := failures[0], failures[1..];
      var next, now := After(w, poll), log + Emitted(w, poll);
      RefusalKeepsRight(w, log, listing, poll);
      RefusalsKeepRight(next, now, listing, rest);
      assert now + EmittedAll(next, rest) == log + EmittedAll(w, failures);
    }
  }

  lemma RefusalKeepsRight(w: Watch, log: seq<Event>, listing: seq<FlowSnapshot>, poll: Poll)
    requires Booked(w, log) && Proper(listing) && AllRefused(listing, [poll])
    ensures var next := After(w, poll);
            && Booked(next, log + Emitted(w, poll)) && next.previous == w.previous
            && (AllComeRight(next.previous, next.sink, listing) <==> AllComeRight(w.previous, w.sink, listing))
  {
    hide PassAll, WellNamed, Heals, Shows;
    assert [poll][0] == poll;
    assert log + [] == log;
    if poll.ApplyFailed? {
      RefusedPoll(w, log, listing, poll.at);
      var next := After(w, poll);
      forall i | 0 <= i < |listing|
        ensures ComesRight(next.previous, next.sink, listing[i]) <==> ComesRight(w.previous, w.sink, listing[i])
      {
        if i >= poll.at {
          assert forall k :: 0 <= k < poll.at ==> listing[k].runId != listing[i].runId;
          assert Sql.Loaded(next.sink, listing[i].runId) == Sql.Loaded(w.sink, listing[i].runId);
        }
      }
    }
  }

  /**
   A listing retried until it is stored, after any number of refusals of it anywhere and of
   unreadable polls, puts the sink right in full exactly when it would have had nothing been refused.
   */
  lemma RetryComesRight(w: Watch, log: seq<Event>, listing: seq<FlowSnapshot>, failures: seq<Poll>)
    requires Booked(w, log) && Proper(listing) && AllRefused(listing, failures)
    ensures Showing(After(PollAll(w, failures), Stored(listing))) <==> AllComeRight(w.previous, w.sink, listing)
  {
    hide After, Emitted, Booked, Proper, ComesRight, Showing, AllRefused;
    RefusalsKeepRight(w, log, listing, failures);
    StoredPoll(PollAll(w, failures), log + EmittedAll(w, failures), listing);
  }

  /**
   A refusal at a later flow can leave an earlier one wrong after the next full poll: seen in one
   state, stored in another by the refused poll, and back in the first when next listed, it is not
   diffed at all.
   */
  lemma RefusalCanDiverge(w: Watch, log: seq<Event>, a: FlowSnapshot, b: FlowSnapshot, other: Option<string>)
    requires Booked(w, log) && Showing(w) && a.runId in w.previous && w.previous[a.runId] == a && a.state != other
    requires WellNamed(b) && b.runId != a.runId && b.runId !in w.sink.flows
    ensures var listing := [a.(state := other), b];
            var later := After(After(w, ApplyFailed(listing, 1)), Stored([a]));
            && Reportable(w.previous, w.sink, listing)
            && later.previous == map[a.runId := a] && !Shows(later.sink, a)
  {
    hide After, PassAll, Mirrors, ComesRight;
    var moved := a.(state := other);
    var listing := [moved, b];
    forall k | k in a.atoms ensures AtomCarried(a.atoms[k], moved.atoms[k]) {
    }
    assert b.runId !in w.previous;
    forall i | 0 <= i < 2 ensures ReportableFlow(w.previous, w.sink, listing[i]) {
    }
    ReportableIsRight(w, log, listing);
    assert ComesRight(w.previous, w.sink, listing[0]);
    AfterRefusal(w, log, listing, 1, [a]);
    assert listing[..1] == [moved];
    assert !Heals(listing[..1][0], Known(w.previous, a.runId), a);
    AfterOne(After(w, ApplyFailed(listing, 1)), a);
    assert [a][0] == a;
  }

  /** So it is three polls after the start, for any two flows. */
  lemma DivergesFromFresh(a: FlowSnapshot, b: FlowSnapshot, other: Option<string>)
    requires WellNamed(a) && WellNamed(b) && b.runId != a.runId && a.state != other
    ensures var polls := [Stored([a]), ApplyFailed([a.(state := other), b], 1), Stored([a])];
            var end := PollAll(FRESH, polls);
            end.previous == map[a.runId := a] && !Shows(end.sink, a)
  {
    hide After, PassAll, WellNamed, Carried, Mirrors, GapFree, Emitted;
    var w := After(FRESH, Stored([a]));
    FreshIsFaithful();
    assert ReportableFlow(FRESH.previous, FRESH.sink, [a][0]);
    PollKeepsFaithful(FRESH, [], Stored([a]));
    AfterOne(FRESH, a);
    NothingElseStored(FRESH, [], a, b.runId);
    RefusalCanDiverge(w, [] + Emitted(FRESH, Stored([a])), a, b, other);
    var moved := [a.(state := other), b];
    ThreePolls(FRESH, Stored([a]), ApplyFailed(moved, 1), Stored([a]));
  }

  lemma ThreePolls(w: Watch, a: Poll, b: Poll, c: Poll)
    ensures PollAll(w, [a, b, c]) == After(After(After(w, a), b), c)
  {
    hide After;
    assert [a, b, c][1..] == [b, c] && [b, c][1..] == [c] && [c][1..] == [];
    assert PollAll(After(After(w, a), b), [c]) == After(After(After(w, a), b), c);
  }

  lemma NothingElseStored(w: Watch, log: seq<Event>, a: FlowSnapshot, r: string)
    requires Booked(w, log) && WellNamed(a) && r != a.runId
    ensures Sql.Loaded(After(w, Stored([a])).sink, r) == Sql.Loaded(w.sink, r)
  {
    hide PassAll, WellNamed, Shows, ComesRight;
    PassKeeps(w, log, [a], 1);
    assert [a][..1] == [a] && [a][0] == a;
  }

  /** Every poll that reads the source finds this flow in it, unchanged. */
  ghost predicate AlwaysLists(polls: seq<Poll>, a: FlowSnapshot) {
    forall i :: 0 <= i < |polls| && !polls[i].ReadFailed? ==> a in polls[i].listing
  }

  /**
   A flow the sink shows wrongly and that the source goes on listing unchanged stays wrong, over any
   history of stored, refused and unreadable polls, whatever else is listed.
   */
  lemma {:induction false} WrongStaysWrong(w: Watch, log: seq<Event>, polls: seq<Poll>, a: FlowSnapshot)
    requires Booked(w, log) && AllPossible(w, polls) && AlwaysLists(polls, a)
    requires a.runId in w.previous && w.previous[a.runId] == a && !Shows(w.sink, a)
    ensures !Shows(PollAll(w, polls).sink, a)
    decreases |polls|
  {
    hide After, Emitted, Booked, Possible, Shows;
    if polls != [] {
      WrongAfterPoll(w, log, polls[0], a);
      PollBooks(w, log, polls[0]);
      assert forall i :: 0 <= i < |polls[1..]| ==> polls[1..][i] == polls[i + 1];
      WrongStaysWrong(After(w, polls[0]), log + Emitted(w, polls[0]), polls[1..], a);
    }
  }

  lemma WrongAfterPoll(w: Watch, log: seq<Event>, poll: Poll, a: FlowSnapshot)
    requires Booked(w, log) && Possible(w, poll) && (!poll.ReadFailed? ==> a in poll.listing)
    requires a.runId in w.previous && w.previous[a.runId] == a && !Shows(w.sink, a)
    ensures var next := After(w, poll);
            a.runId in next.previous && next.previous[a.runId] == a && !Shows(next.sink, a)
  {
    hide PassAll, WellNamed, Heals, Mirrors;
    NothingToHeal(w.sink.flows[a.runId], a);
    assert !ComesRight(w.previous, w.sink, a);
    match poll {
      case ReadFailed =>
      case Stored(listing) =>
        StoredPoll(w, log, listing);
        SeenIsListed(listing, a);
      case ApplyFailed(listing, at) =>
        RefusedPoll(w, log, listing, at);
        var i :| 0 <= i < |listing| && listing[i] == a;
        if i >= at {
          assert forall k :: 0 <= k < at ==> listing[k].runId != a.runId;
          assert Sql.Loaded(After(w, poll).sink, a.runId) == Sql.Loaded(w.sink, a.runId);
        }
    }
  }

  /** What was seen of a run listed once is what was listed. */
  lemma SeenIsListed(listing: seq<FlowSnapshot>, a: FlowSnapshot)
    requires DistinctRuns(listing) && a in listing
    ensures a.runId in Seen(listing) && Seen(listing)[a.runId] == a
  {
    hide Seen;
    SeenSpec(listing);
    var x := Seen(listing)[a.runId];
    var i :| 0 <= i < |listing| && listing[i] == a;
    var j :| 0 <= j < |listing| && listing[j] == x;
    if i < j { assert listing[i].runId != listing[j].runId; }
    if j < i { assert listing[j].runId != listing[i].runId; }
  }

  lemma AfterOne(w: Watch, a: FlowSnapshot)
    ensures After(w, Stored([a])).previous == map[a.runId := a]
  {
    hide PassAll;
    var listing := [a];
    assert listing[..|listing| - 1] == [];
    assert Seen(listing) == map[a.runId := a];
  }

  // ----- whole histories -----------------------------------------------------------------

  /** Every poll of a sequence can happen in the state it finds. */
  ghost predicate AllPossible(w: Watch, polls: seq<Poll>)
    decreases |polls|
  {
    polls == [] || (Possible(w, polls[0]) && AllPossible(After(w, polls[0]), polls[1..]))
  }

  /** How many events refused polls stored; the poller does not count those. */
  function Uncounted(w: Watch, polls: seq<Poll>): nat
    decreases |polls|
  {
    if polls == [] then 0
    else (if polls[0].ApplyFailed? then |Emitted(w, polls[0])| else 0) + Uncounted(After(w, polls[0]), polls[1..])
  }

  lemma PollBooks(w: Watch, log: seq<Event>, poll: Poll)
    requires Booked(w, log) && Possible(w, poll)
    ensures Booked(After(w, poll), log + Emitted(w, poll))
    ensures After(w, poll).events == w.events + if poll.Stored? then |Emitted(w, poll)| else 0
    ensures poll.ReadFailed? ==> Emitted(w, poll) == []
  {
    hide PassAll, WellNamed, Shows, ComesRight;
    match poll {
      case Stored(listing) => StoredPoll(w, log, listing);
      case ReadFailed => assert log + [] == log;
      case ApplyFailed(listing, at) => RefusedPoll(w, log, listing, at);
    }
  }

  /**
   Over whole histories of the poller, refusals and unreadable sources among them: the sink holds
   exactly the events stored; the counter of events is short by exactly those that refused polls
   stored; and each run's numbers are exactly 1 up to the last handed out, in order, if and only
   if nothing was ever refused.
   */
  lemma {:induction false} PollerFaithful(w: Watch, log: seq<Event>, polls: seq<Poll>)
    requires Booked(w, log) && AllPossible(w, polls)
    ensures var end, all := PollAll(w, polls), log + EmittedAll(w, polls);
            && Booked(end, all)
            && end.events + Uncounted(w, polls) - w.events == |EmittedAll(w, polls)|
            && (forall r :: Burnt(all, end.counters, r) >= Burnt(log, w.counters, r))
            && (GapFree(log, w.counters) ==>
                  (GapFree(all, end.counters) <==> forall i :: 0 <= i < |polls| ==> !polls[i].ApplyFailed?))
    decreases |polls|
  {
    hide After, Emitted, Booked, Possible, Burnt, GapFree;
    if polls == [] {
      assert log + [] == log;
    } else {
      var next, now, rest := After(w, polls[0]), log + Emitted(w, polls[0]), polls[1..];
      PollBooks(w, log, polls[0]);
      PollBurns(w, log, polls[0]);
      PollerFaithful(next, now, rest);
      assert now + EmittedAll(next, rest) == log + EmittedAll(w, polls);
      assert forall i :: 0 <= i < |rest| ==> rest[i] == polls[i + 1];
      var end, all := PollAll(w, polls), log + EmittedAll(w, polls);
      if GapFree(log, w.counters) && polls[0].ApplyFailed? {
        var r :| Burnt(now, next.counters, r) > Burnt(log, w.counters, r);
        NoneBurnt(log, w.counters, r);
        NoneBurnt(all, end.counters, r);
      }
    }
  }

  lemma NoneBurnt(log: seq<Event>, counters: Counters, r: string)
    ensures GapFree(log, counters) ==> Burnt(log, counters, r) == 0
  {
    assert NumberedTo(OfRun(log, r), Last(counters, r)) ==> Burnt(log, counters, r) == 0;
  }

  lemma {:induction false} PollAllLast(w: Watch, polls: seq<Poll>, poll: Poll)
    ensures PollAll(w, polls + [poll]) == After(PollAll(w, polls), poll)
    decreases |polls|
  {
    hide After;
    if polls == [] {
      assert polls + [poll] == [poll] && [poll][1..] == [];
    } else {
      assert (polls + [poll])[0] == polls[0] && (polls + [poll])[1..] == polls[1..] + [poll];
      PollAllLast(After(w, polls[0]), polls[1..], poll);
    }
  }

  /**
   After any history, refusals among it, and then a poll stored in full: the sink shows what the
   source said exactly when each flow listed comes right from where the history left it.
   */
  lemma SinkShowsExactly(w: Watch, log: seq<Event>, polls: seq<Poll>, listing: seq<FlowSnapshot>)
    requires Booked(w, log) && AllPossible(w, polls) && Proper(listing)
    ensures var before, end := PollAll(w, polls), PollAll(w, polls + [Stored(listing)]);
            && (Showing(end) <==> AllComeRight(before.previous, before.sink, listing))
            && (forall i :: 0 <= i < |listing| ==>
                  (Shows(end.sink, listing[i]) <==> ComesRight(before.previous, before.sink, listing[i])))
  {
    hide After, Showing, AllComeRight, Shows, ComesRight, Proper, Booked;
    PollerFaithful(w, log, polls);
    PollAllLast(w, polls, Stored(listing));
    StoredPoll(PollAll(w, polls), log + EmittedAll(w, polls), listing);
  }

  lemma PassOneAbove(previous: Flows, p: Pass, s: FlowSnapshot, r: string)
    ensures var q := PassOne(previous, p, s);
            && Last(q.counters, r) >= Last(p.counters, r)
            && (forall e :: e in q.emitted && e.runId == r ==> e in p.emitted || e.seqNo > Last(p.counters, r))
  {
    hide Diff;
    var events := Diff(Known(previous, s.runId), s, Last(p.counters, s.runId), s.observedAt);
    DiffNumbers(Known(previous, s.runId), s, Last(p.counters, s.runId), s.observedAt);
    assert forall e :: e in events ==> e.runId == s.runId && e.seqNo > Last(p.counters, s.runId);
  }

  lemma {:induction false} PassAbove(previous: Flows, p: Pass, listing: seq<FlowSnapshot>, r: string)
    ensures var q := PassAll(previous, p, listing);
            && Last(q.counters, r) >= Last(p.counters, r)
            && (forall e :: e in q.emitted && e.runId == r ==> e in p.emitted || e.seqNo > Last(p.counters, r))
  {
    hide PassOne;
    if listing != [] {
      PassAbove(previous, p, listing[..|listing| - 1], r);
      PassOneAbove(previous, PassAll(previous, p, listing[..|listing| - 1]), listing[|listing| - 1], r);
    }
  }

  lemma PollAbove(w: Watch, poll: Poll, r: string)
    ensures Last(After(w, poll).counters, r) >= Last(w.counters, r)
    ensures forall e :: e in Emitted(w, poll) && e.runId == r ==> e.seqNo > Last(w.counters, r)
  {
    hide PassAll, PassOne;
    match poll {
      case Stored(listing) => PassAbove(w.previous, StartOf(w), listing, r);
      case ReadFailed =>
      case ApplyFailed(listing, at) =>
        if at < |listing| {
          PassAbove(w.previous, StartOf(w), listing[..at], r);
          PassOneAbove(w.previous, PassAll(w.previous, StartOf(w), listing[..at]), listing[at], r);
        }
    }
  }

  /** Numbers only go up: whatever is stored later lies above what was handed out before. */
  lemma {:induction false} NumbersGoOn(w: Watch, polls: seq<Poll>, r: string)
    ensures forall e :: e in EmittedAll(w, polls) && e.runId == r ==> e.seqNo > Last(w.counters, r)
    decreases |polls|
  {
    hide After, Emitted;
    if polls != [] {
      PollAbove(w, polls[0], r);
      NumbersGoOn(After(w, polls[0]), polls[1..], r);
    }
  }

  /** No event is numbered beyond what was handed out for its run. */
  ghost predicate Below(log: seq<Event>, counters: Counters) {
    forall e :: e in log ==> e.seqNo <= Last(counters, e.runId)
  }

  lemma PassOneBelow(previous: Flows, p: Pass, s: FlowSnapshot, log: seq<Event>)
    requires Below(log + p.emitted, p.counters)
    ensures Below(log + PassOne(previous, p, s).emitted, PassOne(previous, p, s).counters)
  {
    hide Diff;
    var q, last := PassOne(previous, p, s), Last(p.counters, s.runId);
    var events := Diff(Known(previous, s.runId), s, last, s.observedAt);
    DiffNumbers(Known(previous, s.runId), s, last, s.observedAt);
    forall e | e in log + q.emitted ensures e.seqNo <= Last(q.counters, e.runId) {
      if e in log + p.emitted {
        assert e.seqNo <= Last(p.counters, e.runId);
      } else {
        var i :| 0 <= i < |events| && events[i] == e;
      }
    }
  }

  lemma {:induction false} PassBelow(previous: Flows, p: Pass, listing: seq<FlowSnapshot>, log: seq<Event>)
    requires Below(log + p.emitted, p.counters)
    ensures Below(log + PassAll(previous, p, listing).emitted, PassAll(previous, p, listing).counters)
  {
    hide PassOne, Below;
    if listing != [] {
      PassBelow(previous, p, listing[..|listing| - 1], log);
      PassOneBelow(previous, PassAll(previous, p, listing[..|listing| - 1]), listing[|listing| - 1], log);
    }
  }

  /** Every poll keeps numbers within what was handed out, refused ones included. */
  lemma PollBelow(w: Watch, log: seq<Event>, poll: Poll)
    requires Below(log, w.counters)
    ensures Below(log + Emitted(w, poll), After(w, poll).counters)
  {
    hide PassAll, PassOne;
    assert log + [] == log;
    match poll {
      case Stored(listing) => PassBelow(w.previous, StartOf(w), listing, log);
      case ReadFailed =>
      case ApplyFailed(listing, at) =>
        if at < |listing| {
          var p := PassAll(w.previous, StartOf(w), listing[..at]);
          PassBelow(w.previous, StartOf(w), listing[..at], log);
          forall e | e in log + p.emitted
            ensures e.seqNo <= Last(PassOne(w.previous, p, listing[at]).counters, e.runId)
          {
            PassOneAbove(w.previous, p, listing[at], e.runId);
          }
        }
    }
  }

  /** And so does every history. */
  lemma {:induction false} HistoryBelow(w: Watch, log: seq<Event>, polls: seq<Poll>)
    requires Below(log, w.counters)
    ensures Below(log + EmittedAll(w, polls), PollAll(w, polls).counters)
    decreases |polls|
  {
    hide After, Emitted, Below;
    if polls == [] {
      assert log + [] == log;
    } else {
      PollBelow(w, log, polls[0]);
      HistoryBelow(After(w, polls[0]), log + Emitted(w, polls[0]), polls[1..]);
      assert (log + Emitted(w, polls[0])) + EmittedAll(After(w, polls[0]), polls[1..]) == log + EmittedAll(w, polls);
    }
  }

  /**
   No number of a refused batch is ever stored, whatever was refused before it and whatever is
   polled later: a reader who has come up to one is given nothing more, or is told of a hole.
   */
  lemma HoleForever(w: Watch, log: seq<Event>, listing: seq<FlowSnapshot>, at: nat, polls: seq<Poll>, hole: int,
                    limit: nat)
    requires Booked(w, log) && Below(log, w.counters) && limit >= 1
    requires Possible(w, ApplyFailed(listing, at)) && AllPossible(After(w, ApplyFailed(listing, at)), polls)
    requires Last(PassAll(w.previous, StartOf(w), listing[..at]).counters, listing[at].runId) < hole
    requires hole <= Last(After(w, ApplyFailed(listing, at)).counters, listing[at].runId)
    ensures var rows := Sql.Rows(PollAll(After(w, ApplyFailed(listing, at)), polls).sink, listing[at].runId);
            var page := PageOf(rows, hole - 1, limit);
            hole !in rows && (page.events == [] || page.truncated)
  {
    hide PassAll, PassOne, Diff, Stretch, FoldAll, Booked, AllPossible;
    var r, poll := listing[at].runId, ApplyFailed(listing, at);
    var next, now := After(w, poll), log + Emitted(w, poll);
    var p := PassAll(w.previous, StartOf(w), listing[..at]);
    var all := now + EmittedAll(next, polls);
    PollBooks(w, log, poll);
    PollerFaithful(next, now, polls);
    assert log + [] == log;
    PassBelow(w.previous, StartOf(w), listing[..at], log);
    NumbersGoOn(next, polls, r);
    BookedRows(PollAll(next, polls), all, r);
    forall e | e in OfRun(all, r) ensures e.seqNo != hole {
      assert e in now || e in EmittedAll(next, polls);
    }
  }

  /** A refused batch leaves at least one such number. */
  lemma RefusalLeavesHole(w: Watch, listing: seq<FlowSnapshot>, at: nat)
    requires Refused(w, listing, at)
    ensures Last(PassAll(w.previous, StartOf(w), listing[..at]).counters, listing[at].runId)
          < Last(After(w, ApplyFailed(listing, at)).counters, listing[at].runId)
  {
    hide PassAll;
    BatchAbove(w.previous, PassAll(w.previous, StartOf(w), listing[..at]), listing[at]);
  }

  lemma BatchAbove(previous: Flows, p: Pass, s: FlowSnapshot)
    ensures var q := PassOne(previous, p, s);
            |q.emitted| > |p.emitted| ==> Last(q.counters, s.runId) >= Last(p.counters, s.runId) + 1
  {
    hide Diff;
  }

  /** The rows of a run are the numbers of its events. */
  lemma BookedRows(w: Watch, log: seq<Event>, r: string)
    requires Booked(w, log)
    ensures forall s :: s in Sql.Rows(w.sink, r) <==> exists e :: e in OfRun(log, r) && e.seqNo == s
  {
    hide FoldAll, WellNamed;
    Sql.EachOnRun(Sql.EMPTY, log, r);
    OnlyThese(map[], OfRun(log, r));
  }

  /** Every poll of a sequence, in the state it finds, is one that can be reported in full. */
  ghost predicate AllReportable(w: Watch, polls: seq<Poll>)
    decreases |polls|
  {
    polls == [] ||
    (!polls[0].ApplyFailed? && (polls[0].Stored? ==> Reportable(w.previous, w.sink, polls[0].listing))
     && AllReportable(After(w, polls[0]), polls[1..]))
  }

  /** A history of polls that can all be reported in full keeps the whole invariant, any number of polls long. */
  lemma {:induction false} ReportedInFull(w: Watch, log: seq<Event>, polls: seq<Poll>)
    requires Faithful(w, log) && AllReportable(w, polls)
    ensures Faithful(PollAll(w, polls), log + EmittedAll(w, polls))
    decreases |polls|
  {
    hide After, Emitted, Faithful, Reportable;
    if polls == [] {
      assert log + [] == log;
    } else {
      var next := After(w, polls[0]);
      PollKeepsFaithful(w, log, polls[0]);
      ReportedInFull(next, log + Emitted(w, polls[0]), polls[1..]);
      assert (log + Emitted(w, polls[0])) + EmittedAll(next, polls[1..]) == log + EmittedAll(w, polls);
    }
  }

  lemma FreshIsFaithful()
    ensures Faithful(FRESH, [])
  {
    forall r ensures NumberedTo(OfRun([], r), Last(FRESH.counters, r)) {
    }
  }

  /**
   A batch the sink refused takes its numbers with it: when the flow is then stored on the
   next poll, its first event is not number 1 and a reader from the start is told of a hole.
   */
  lemma FailedApplyLeavesHole(s: FlowSnapshot)
    ensures var w := After(FRESH, ApplyFailed([s], 0));
            && w.previous == map[] && w.sink == Sql.EMPTY
            && Last(w.counters, s.runId) >= 1
            && var again := After(w, Stored([s]));
               PageOf(Sql.Rows(again.sink, s.runId), 0, 1).truncated
  {
    hide Diff, FoldAll;
    var events := Diff(None, s, 0, s.observedAt);
    DiffNumbers(None, s, 0, s.observedAt);
    var w := After(FRESH, ApplyFailed([s], 0));
    assert [s][..0] == [];
    var start := Pass(map[], Sql.EMPTY, []);
    assert w.counters == PassOne(map[], start, s).counters;
    assert Last(w.counters, s.runId) == |events|;
    var last := Last(w.counters, s.runId);
    var later := Diff(None, s, last, s.observedAt);
    DiffNumbers(None, s, last, s.observedAt);
    var again := After(w, Stored([s]));
    assert [s][..|[s]| - 1] == [];
    assert PassAll(map[], Pass(w.counters, Sql.EMPTY, []), []) == Pass(w.counters, Sql.EMPTY, []);
    assert w.previous == map[] && w.sink == Sql.EMPTY;
    assert again.sink == PassOne(map[], Pass(w.counters, Sql.EMPTY, []), s).sink;
    OfRunAll(later, s.runId);
    Sql.EachOnRun(Sql.EMPTY, later, s.runId);
    var log := Sql.Rows(again.sink, s.runId);
    OnlyThese(map[], later);
    assert later[0] in later;
    assert later[0].seqNo in log && 1 !in log;
  }

  lemma {:induction false} OnlyThese(log: Log, events: seq<Event>)
    ensures forall s :: s in Sql.RecordAll(log, events) <==> s in log || exists e :: e in events && e.seqNo == s
    decreases |events|
  {
    if events != [] {
      OnlyThese(Record(log, events[0]), events[1..]);
      assert events == [events[0]] + events[1..];
      assert events[0] in events;
    }
  }

  // ----- what a poll stores -----------------------------------------------------------

  lemma {:induction false} PassSink(previous: Flows, counters: Counters, sink: Db, listing: seq<FlowSnapshot>)
    ensures var q := PassAll(previous, Pass(counters, sink, []), listing);
            q.sink == Sql.ApplyEach(sink, q.emitted)
  {
    hide Diff;
    if listing == [] {
      NothingStored(sink);
    } else {
      var front, s := listing[..|listing| - 1], listing[|listing| - 1];
      PassSink(previous, counters, sink, front);
      var p := PassAll(previous, Pass(counters, sink, []), front);
      Sql.ApplyEachConcat(sink, p.emitted, Diff(Known(previous, s.runId), s, Last(p.counters, s.runId), s.observedAt));
    }
  }

  lemma PollSink(w: Watch, poll: Poll)
    ensures After(w, poll).sink == Sql.ApplyEach(w.sink, Emitted(w, poll))
  {
    hide PassAll, PassOne, Sql.ApplyEach;
    NothingStored(w.sink);
    match poll {
      case Stored(listing) => PassSink(w.previous, w.counters, w.sink, listing);
      case ReadFailed =>
      case ApplyFailed(listing, at) => if at < |listing| { PassSink(w.previous, w.counters, w.sink, listing[..at]); }
    }
  }

  // ----- the times stored ------------------------------------------------------------

  /**
   What a pass does to the time a listed flow is shown with. If a number went to its run, the sink shows the
   later of the time it showed and the time listed; if none did, its row is as it was.
   */
  ghost predicate FlowDated(w: Watch, t: Watch, s: FlowSnapshot) {
    var r := s.runId;
    if Last(t.counters, r) == Last(w.counters, r) then Sql.Loaded(t.sink, r) == Sql.Loaded(w.sink, r)
    else
      && r in t.sink.flows
      && t.sink.flows[r].observedAt
         == (if r in w.sink.flows && w.sink.flows[r].observedAt > s.observedAt then w.sink.flows[r].observedAt
             else s.observedAt)
  }

  ghost predicate Lists(listing: seq<FlowSnapshot>, runId: string, observedAt: real) {
    exists i :: 0 <= i < |listing| && listing[i].runId == runId && listing[i].observedAt == observedAt
  }

  /** Every event row that is new carries the time its run was listed with. */
  ghost predicate RowsDated(w: Watch, t: Watch, listing: seq<FlowSnapshot>) {
    forall r, n :: n in Sql.Rows(t.sink, r) && n !in Sql.Rows(w.sink, r) ==>
      Lists(listing, r, Sql.Rows(t.sink, r)[n].ts)
  }

  ghost predicate Unlisted(listing: seq<FlowSnapshot>, r: string) {
    forall i :: 0 <= i < |listing| ==> listing[i].runId != r
  }

  /** What storing the changes of a listing does to all the times a sink shows. */
  ghost predicate Dated(w: Watch, t: Watch, listing: seq<FlowSnapshot>) {
    && (forall i :: 0 <= i < |listing| ==> FlowDated(w, t, listing[i]))
    && (forall r :: Unlisted(listing, r) ==> Sql.Loaded(t.sink, r) == Sql.Loaded(w.sink, r))
    && RowsDated(w, t, listing)
  }

  /** Every event carries the time its run was listed with. */
  ghost predicate EventsDated(events: seq<Event>, listing: seq<FlowSnapshot>) {
    forall e :: e in events ==> Lists(listing, e.runId, e.ts)
  }

  lemma ListsMore(listing: seq<FlowSnapshot>, n: nat, runId: string, observedAt: real)
    requires n <= |listing| && Lists(listing[..n], runId, observedAt)
    ensures Lists(listing, runId, observedAt)
  {
    var i :| 0 <= i < n && listing[..n][i].runId == runId && listing[..n][i].observedAt == observedAt;
    assert listing[i].runId == runId;
  }

  /** Every event a poll emits is stamped with the time the flow of its run was listed with. */
  lemma {:induction false} PassStamps(previous: Flows, p: Pass, listing: seq<FlowSnapshot>)
    requires p.emitted == []
    ensures EventsDated(PassAll(previous, p, listing).emitted, listing)
  {
    hide Diff;
    if listing != [] {
      var front, s := listing[..|listing| - 1], listing[|listing| - 1];
      PassStamps(previous, p, front);
      var q := PassAll(previous, p, front);
      var events := Diff(Known(previous, s.runId), s, Last(q.counters, s.runId), s.observedAt);
      DiffNumbers(Known(previous, s.runId), s, Last(q.counters, s.runId), s.observedAt);
      DiffStamps(Known(previous, s.runId), s, Last(q.counters, s.runId), s.observedAt);
      forall e | e in q.emitted + events ensures Lists(listing, e.runId, e.ts) {
        if e in q.emitted { ListsMore(listing, |front|, e.runId, e.ts); }
      }
    }
  }

  lemma DiffStamps(was: Option<FlowSnapshot>, now: FlowSnapshot, last: int, ts: real)
    ensures forall e :: e in Diff(was, now, last, ts) ==> e.ts == ts
  {
    hide Unstamped;
  }

  /** A batch of one time, folded: nothing changes, or the later of the two times is shown. */
  lemma SnapshotDated(stored: Option<FlowSnapshot>, was: Option<FlowSnapshot>, now: FlowSnapshot, last: int)
    ensures var events := Diff(was, now, last, now.observedAt);
            var after := Sql.Snapshot(stored, events);
            if events == [] then after == stored
            else after.Some? && after.value.observedAt
                                == (if stored.Some? && stored.value.observedAt > now.observedAt
                                    then stored.value.observedAt else now.observedAt)
  {
    hide Diff, FoldAll;
    var events := Diff(was, now, last, now.observedAt);
    if events != [] {
      DiffStamps(was, now, last, now.observedAt);
      ObservedAfter(stored.GetOr(FlowFromEvent(events[0])), was, now, last, now.observedAt);
    }
  }

  lemma OneDated(previous: Flows, p: Pass, s: FlowSnapshot)
    ensures var q := PassOne(previous, p, s);
            var r := s.runId;
            && (forall o :: o != r ==> Sql.Loaded(q.sink, o) == Sql.Loaded(p.sink, o)
                                       && Last(q.counters, o) == Last(p.counters, o))
            && (if Last(q.counters, r) == Last(p.counters, r) then Sql.Loaded(q.sink, r) == Sql.Loaded(p.sink, r)
                else r in q.sink.flows
                     && q.sink.flows[r].observedAt
                        == (if r in p.sink.flows && p.sink.flows[r].observedAt > s.observedAt
                            then p.sink.flows[r].observedAt else s.observedAt))
  {
    hide Diff, FoldAll;
    var last := Last(p.counters, s.runId);
    var events := Diff(Known(previous, s.runId), s, last, s.observedAt);
    DiffNumbers(Known(previous, s.runId), s, last, s.observedAt);
    SnapshotDated(Sql.Loaded(p.sink, s.runId), Known(previous, s.runId), s, last);
    OtherRunsUntouched(p.sink, events, s.runId);
  }

  /** Where a pass stands, as a poller would. */
  function AsWatch(p: Pass): Watch {
    Watch(map[], p.counters, p.sink, 0, 0, 0)
  }

  lemma {:induction false} PassDates(previous: Flows, p: Pass, listing: seq<FlowSnapshot>)
    requires DistinctRuns(listing)
    ensures var q := PassAll(previous, p, listing);
            && (forall i :: 0 <= i < |listing| ==> FlowDated(AsWatch(p), AsWatch(q), listing[i]))
            && (forall r :: Unlisted(listing, r) ==>
                  Sql.Loaded(q.sink, r) == Sql.Loaded(p.sink, r) && Last(q.counters, r) == Last(p.counters, r))
  {
    hide PassOne, Last;
    if listing != [] {
      var front, s := listing[..|listing| - 1], listing[|listing| - 1];
      PassDates(previous, p, front);
      var q := PassAll(previous, p, front);
      OneDated(previous, q, s);
      assert Unlisted(front, s.runId);
      forall r | Unlisted(listing, r) ensures Unlisted(front, r) && r != s.runId {
      }
      forall i | 0 <= i < |front| ensures front[i].runId != s.runId {
      }
    }
  }

  /** The flows of a poll whose changes were stored. */
  function StoredPart(poll: Poll): seq<FlowSnapshot> {
    match poll
    case Stored(listing) => listing
    case ReadFailed => []
    case ApplyFailed(listing, at) => if at < |listing| then listing[..at] else []
  }

  lemma {:induction false} NewRowsAreEvents(log: Log, events: seq<Event>)
    ensures forall n :: n in Sql.RecordAll(log, events) && n !in log ==> Sql.RecordAll(log, events)[n] in events
    ensures forall n :: n in log ==> n in Sql.RecordAll(log, events) && Sql.RecordAll(log, events)[n] == log[n]
    decreases |events|
  {
    if events != [] {
      assert events == [events[0]] + events[1..];
      NewRowsAreEvents(Record(log, events[0]), events[1..]);
    }
  }

  lemma StoredStamps(w: Watch, poll: Poll)
    ensures EventsDated(Emitted(w, poll), StoredPart(poll))
  {
    hide PassAll, Lists;
    match poll {
      case Stored(listing) => PassStamps(w.previous, StartOf(w), listing);
      case ReadFailed =>
      case ApplyFailed(listing, at) => if at < |listing| { PassStamps(w.previous, StartOf(w), listing[..at]); }
    }
  }

  lemma PollRowsDated(w: Watch, poll: Poll)
    ensures RowsDated(w, After(w, poll), StoredPart(poll))
  {
    hide After, Emitted, StoredPart, Sql.ApplyEach, Lists, Sql.RecordAll;
    var events := Emitted(w, poll);
    PollSink(w, poll);
    StoredStamps(w, poll);
    forall r, n | n in Sql.Rows(After(w, poll).sink, r) && n !in Sql.Rows(w.sink, r)
      ensures Lists(StoredPart(poll), r, Sql.Rows(After(w, poll).sink, r)[n].ts)
    {
      Sql.EachOnRun(w.sink, events, r);
      NewRowsAreEvents(Sql.Rows(w.sink, r), OfRun(events, r));
      var e := Sql.Rows(After(w, poll).sink, r)[n];
      assert e in OfRun(events, r);
      assert e in events && e.runId == r;
    }
  }

  /**
   The times a sink shows after a poll, however it went: each flow whose changes were stored is shown with
   the later of the time it had and the time listed, if there was anything to store, and nothing else moves.
   */
  lemma PollDates(w: Watch, poll: Poll)
    requires DistinctRuns(StoredPart(poll))
    requires poll.ApplyFailed? && poll.at < |poll.listing| ==> Unlisted(StoredPart(poll), poll.listing[poll.at].runId)
    ensures Dated(w, After(w, poll), StoredPart(poll))
  {
    hide PassAll, RowsDated, Diff;
    PollRowsDated(w, poll);
    PassDates(w.previous, StartOf(w), StoredPart(poll));
    if poll.ReadFailed? { NoPass(w); }
  }

  /** The same for a poll that read a listing of distinct runs: all of it stored, or what stands before the refusal. */
  lemma ReadDates(w: Watch, listing: seq<FlowSnapshot>, failAt: Option<nat>)
    requires DistinctRuns(listing)
    ensures var poll := HowItWent(w, Some(listing), failAt);
            && (poll.Stored? ==> Dated(w, After(w, poll), listing))
            && (poll.ApplyFailed? ==> failAt.Some? && failAt.value < |listing|
                                      && Dated(w, After(w, poll), listing[..failAt.value]))
  {
    hide After, Dated, PassAll, PassOne;
    PollDates(w, HowItWent(w, Some(listing), failAt));
  }

  /** What is remembered of a whole catalogue is what the source stores. */
  lemma SeenWhole(flows: Flows)
    requires Listing.Keyed(flows)
    ensures Seen(Catalogue(flows, Filter(None, None))) == flows
  {
    hide Seen, Catalogue;
    var all := Catalogue(flows, Filter(None, None));
    CatalogueSpec(flows, Filter(None, None));
    SeenSpec(all);
    forall r ensures r in Seen(all) <==> r in flows {
      if r in flows { assert flows[r] in all; }
    }
  }

  lemma NoPass(w: Watch)
    ensures PassAll(w.previous, StartOf(w), []) == StartOf(w)
  {
  }

  // ----- the class -------------------------------------------------------------------

  class Poller {
    const sink: Sql.SqlDataSource
    const allocator: SequenceAllocator
    const pageSize: int
    var previous: Flows
    var polls: nat
    var events: nat
    var flowsSeen: nat

    ghost function View(): Watch
      reads this, sink, allocator
    {
      Watch(previous, allocator.counters, sink.View(), polls, events, flowsSeen)
    }

    constructor (sink: Sql.SqlDataSource, allocator: SequenceAllocator, pageSize: int)
      requires pageSize >= 1
      ensures this.sink == sink && this.allocator == allocator && this.pageSize == pageSize
      ensures View() == FRESH.(counters := allocator.counters, sink := sink.View())
    {
      this.sink, this.allocator, this.pageSize := sink, allocator, pageSize;
      previous, polls, events, flowsSeen := map[], 0, 0, 0;
    }

    /** The source's whole catalogue, each run once, whatever the page size. */
    method ReadAll(source: Memory.MemoryDataSource) returns (flows: seq<FlowSnapshot>)
      requires pageSize >= 1 && source.Valid()
      ensures Listing.Keyed(Memory.FlowsOf(source.View()))
      ensures flows == Catalogue(Memory.FlowsOf(source.View()), Filter(None, None)) && DistinctRuns(flows)
    {
      hide Positional, Catalogue, Start, PageAt, OnTheWalk, Memory.WellFormed, Memory.FlowsOf;
      Memory.ViewKeyed(source.View());
      ghost var stored := Memory.FlowsOf(source.View());
      ghost var all := Catalogue(stored, Filter(None, None));
      flows := [];
      var marker: Option<string> := None;
      WalkStarts(stored, Filter(None, None));
      while true
        invariant Listing.Keyed(stored) && OnTheWalk(stored, Filter(None, None), marker)
        invariant flows == all[..Start(stored, Filter(None, None), marker)]
        decreases |all| - Start(stored, Filter(None, None), marker)
      {
        ghost var start := Start(stored, Filter(None, None), marker);
        PageOnTheWalk(stored, Filter(None, None), pageSize, marker);
        var page := source.ListFlows(Filter(None, None), pageSize, marker);
        flows := flows + page.value.items;
        if page.value.nextMarker.None? {
          assert all == all[..start] + all[start..];
          CatalogueDistinct(stored, Filter(None, None));
          return;
        }
        assert all[..start] + all[start..start + pageSize] == all[..start + pageSize];
        marker := page.value.nextMarker;
      }
    }

    /**
     One poll of a source. `readable` is whether the source answers at all; `failAt` is the place
     in its listing whose events the sink refuses, if it refuses any. When either raises, what the
     poller has seen and its counters of polls and events stay as they were.
     */
    method PollOnce(source: Memory.MemoryDataSource, readable: bool, failAt: Option<nat>)
      returns (emitted: Option<nat>)
      requires pageSize >= 1 && source.Valid() && Listing.Keyed(previous)
      modifies this, sink, allocator
      ensures Listing.Keyed(previous) && source.Valid() && source.View() == old(source.View())
      ensures var poll := HowItWent(old(View()), Answer(old(source.View()), readable), failAt);
              && View() == After(old(View()), poll)
              && (emitted.Some? <==> poll.Stored?)
              && (emitted.Some? ==> emitted.value == |Emitted(old(View()), poll)|)
      ensures emitted.Some? ==>
                && readable && previous == Memory.FlowsOf(source.View()) && flowsSeen == |previous|
                && polls == old(polls) + 1 && events == old(events) + emitted.value
                && Dated(old(View()), View(), Catalogue(Memory.FlowsOf(source.View()), Filter(None, None)))
      ensures emitted.None? ==>
                && previous == old(previous) && flowsSeen == old(flowsSeen) && polls == old(polls)
                && events == old(events)
                && (!readable ==> View() == old(View()))
                && (readable ==>
                      var listing := Catalogue(Memory.FlowsOf(source.View()), Filter(None, None));
                      && failAt.Some? && failAt.value < |listing|
                      && Dated(old(View()), View(), listing[..failAt.value]))
    {
      hide PassAll, PassOne, After, Emitted, Refused, Catalogue, Memory.WellFormed, Memory.ValidLimits, Dated, Seen;
      if !readable {
        UnreadableChangesNothing(View());
        return None;
      }
      var listing := ReadAll(source);
      SeenWhole(Memory.FlowsOf(source.View()));
      emitted := Digest(listing, failAt);
    }

    /** Diff what the source listed, feed the sink, and remember what was seen if nothing was refused. */
    method Digest(listing: seq<FlowSnapshot>, failAt: Option<nat>) returns (emitted: Option<nat>)
      requires Listing.Keyed(previous)
      modifies this, sink, allocator
      ensures Listing.Keyed(previous)
      ensures var poll := HowItWent(old(View()), Some(listing), failAt);
              && View() == After(old(View()), poll)
              && (emitted.Some? <==> poll.Stored?)
              && (emitted.Some? ==> emitted.value == |Emitted(old(View()), poll)|)
      ensures emitted.Some? ==>
                && previous == Seen(listing) && flowsSeen == |previous| && polls == old(polls) + 1
                && events == old(events) + emitted.value
                && (DistinctRuns(listing) ==> Dated(old(View()), View(), listing))
      ensures emitted.None? ==>
                && previous == old(previous) && flowsSeen == old(flowsSeen) && polls == old(polls)
                && events == old(events) && failAt.Some? && failAt.value < |listing|
                && (DistinctRuns(listing) ==> Dated(old(View()), View(), listing[..failAt.value]))
    {
      hide PassAll, PassOne, Dated, Seen, DistinctRuns;
      if DistinctRuns(listing) { ReadDates(View(), listing, failAt); }
      var count := Sweep(listing, failAt);
      if count.None? { return None; }
      SeenSpec(listing);
      previous := CollectSeen(listing);
      polls := polls + 1;
      events := events + count.value;
      flowsSeen := |previous|;
      emitted := count;
    }

    /** One pass over a listing, up to the flow whose events the sink refuses. */
    method Sweep(listing: seq<FlowSnapshot>, failAt: Option<nat>) returns (count: Option<nat>)
      requires Listing.Keyed(previous)
      modifies sink, allocator
      ensures count.None? <==> failAt.Some? && Refused(old(View()), listing, failAt.value)
      ensures count.Some? ==>
                var p := PassAll(previous, StartOf(old(View())), listing);
                p == Pass(allocator.counters, sink.View(), p.emitted) && |p.emitted| == count.value
      ensures count.None? ==>
                var p := PassAll(previous, StartOf(old(View())), listing[..failAt.value]);
                sink.View() == p.sink && allocator.counters == PassOne(previous, p, listing[failAt.value]).counters
    {
      hide Diff, Sql.ApplyEach, Mirrors, Numbered, Tells;
      ghost var w := View();
      count := Some(0);
      var i := 0;
      while i < |listing|
        invariant 0 <= i <= |listing|
        invariant failAt.Some? && failAt.value < i ==> !Refused(w, listing, failAt.value)
        invariant count.Some?
        invariant var p := PassAll(w.previous, StartOf(w), listing[..i]);
                  p == Pass(allocator.counters, sink.View(), p.emitted) && |p.emitted| == count.value
      {
        var s := listing[i];
        assert listing[..i + 1][..i] == listing[..i];
        var was := if s.runId in previous then Some(previous[s.runId]) else None;
        var events := DiffFlow(was, s, allocator, Some(s.observedAt));
        if events.value != [] {
          if failAt == Some(i) { return None; }
          sink.ApplyMany(events.value);
          count := Some(count.value + |events.value|);
        } else {
          NothingStored(sink.View());
        }
        i := i + 1;
      }
      assert listing[..|listing|] == listing;
    }

    /** Every flow listed, by run: the last word on a run wins. */
    static method CollectSeen(listing: seq<FlowSnapshot>) returns (seen: Flows)
      ensures seen == Seen(listing)
    {
      seen := map[];
      for i := 0 to |listing|
        invariant seen == Seen(listing[..i])
      {
        assert listing[..i + 1][..i] == listing[..i];
        seen := seen[listing[i].runId := listing[i]];
      }
      assert listing[..|listing|] == listing;
    }
  }

  /** A pass begins from the poller's counters and its sink, with nothing emitted. */
  function StartOf(w: Watch): Pass {
    Pass(w.counters, w.sink, [])
  }

  /** Whether the sink was asked to store anything for the flow at this place of a listing. */
  ghost predicate Refused(w: Watch, listing: seq<FlowSnapshot>, at: nat) {
    at < |listing| &&
    var p := PassAll(w.previous, StartOf(w), listing[..at]);
    |PassOne(w.previous, p, listing[at]).emitted| > |p.emitted|
  }

  /** Every flow listed was seen before, in the same state and with the same atoms. */
  ghost predicate NothingHappened(w: Watch, listing: seq<FlowSnapshot>) {
    forall i :: 0 <= i < |listing| ==>
      var s := listing[i];
      s.runId in w.previous && w.previous[s.runId].state == s.state && w.previous[s.runId].atoms == s.atoms
  }

  /** A quiet poll stores nothing and costs no number, however often the listing comes in. */
  lemma QuietPoll(w: Watch, listing: seq<FlowSnapshot>)
    requires NothingHappened(w, listing)
    ensures Emitted(w, Stored(listing)) == []
    ensures var t := After(w, Stored(listing)); t.sink == w.sink && t.counters == w.counters && t.events == w.events
  {
    hide PassAll, NothingHappened;
    QuietPass(w, listing);
  }

  lemma {:induction false} QuietPass(w: Watch, listing: seq<FlowSnapshot>)
    requires NothingHappened(w, listing)
    ensures PassAll(w.previous, StartOf(w), listing) == StartOf(w)
  {
    hide Diff;
    if listing != [] {
      var front, s := listing[..|listing| - 1], listing[|listing| - 1];
      QuietPass(w, front);
      NothingNew(w.previous[s.runId], s, Last(w.counters, s.runId), s.observedAt);
      NothingStored(w.sink);
      assert StartOf(w).emitted + [] == StartOf(w).emitted;
    }
  }

  lemma UnreadableChangesNothing(w: Watch)
    ensures After(w, ReadFailed) == w && Emitted(w, ReadFailed) == []
  {
  }

  /** What a source has to say: all its flows in listing order, or nothing. */
  ghost function Answer(m: Memory.Mem, readable: bool): Option<seq<FlowSnapshot>> {
    if readable then Some(Catalogue(Memory.FlowsOf(m), Filter(None, None))) else None
  }

  ghost function HowItWent(w: Watch, read: Option<seq<FlowSnapshot>>, failAt: Option<nat>): Poll {
    if read.None? then ReadFailed
    else if failAt.Some? && Refused(w, read.value, failAt.value) then ApplyFailed(read.value, failAt.value)
    else Stored(read.value)
  }
}
