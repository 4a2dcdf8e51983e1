/**
 A poller started again over a store that already holds events: its numbers go on from what its
 allocator was given, not from what is stored, and a row whose key is taken is not written.
 */
module Restarting {
  import opened Wrappers
  import opened Models
  import opened Folding
  import opened Paging
  import opened Listing
  import opened Numbering
  import opened Diffing
  import opened Polling
  import Sql = SqlStore

  // ----- what a history stores -------------------------------------------------------

  /** Whatever the sink held before, after a history it holds that with the events stored applied. */
  lemma {:induction false} HistorySink(w: Watch, polls: seq<Poll>)
    ensures PollAll(w, polls).sink == Sql.ApplyEach(w.sink, EmittedAll(w, polls))
    decreases |polls|
  {
    hide After, Emitted, Sql.ApplyEach;
    if polls == [] {
      NothingStored(w.sink);
    } else {
      PollSink(w, polls[0]);
      HistorySink(After(w, polls[0]), polls[1..]);
      Sql.ApplyEachConcat(w.sink, Emitted(w, polls[0]), EmittedAll(After(w, polls[0]), polls[1..]));
    }
  }

  // ----- numbers never repeat ------------------------------------------------------------

  ghost predicate Rising(mine: seq<Event>) {
    forall i, j :: 0 <= i < j < |mine| ==> mine[i].seqNo < mine[j].seqNo
  }

  lemma RisingConcat(a: seq<Event>, b: seq<Event>, bound: int)
    requires Rising(a) && Rising(b)
    requires (forall e :: e in a ==> e.seqNo <= bound) && (forall e :: e in b ==> e.seqNo > bound)
    ensures Rising(a + b)
  {
    forall i, j | 0 <= i < j < |a + b| ensures (a + b)[i].seqNo < (a + b)[j].seqNo {
      if i < |a| <= j { assert (a + b)[i] in a && (a + b)[j] in b; }
    }
  }

  lemma BatchRises(previous: Flows, p: Pass, s: FlowSnapshot, r: string)
    requires Rising(OfRun(p.emitted, r)) && Below(p.emitted, p.counters)
    ensures Rising(OfRun(PassOne(previous, p, s).emitted, r))
  {
    hide Diff;
    var last := Last(p.counters, s.runId);
    var events := Diff(Known(previous, s.runId), s, last, s.observedAt);
    DiffNumbers(Known(previous, s.runId), s, last, s.observedAt);
    OfRunConcat(p.emitted, events, r);
    if r == s.runId {
      OfRunAll(events, r);
      forall e | e in OfRun(p.emitted, r) ensures e.seqNo <= last {
        assert e in p.emitted;
      }
      RisingConcat(OfRun(p.emitted, r), events, last);
    } else {
      OfRunNone(events, r);
    }
  }

  lemma {:induction false} PassRises(previous: Flows, p: Pass, listing: seq<FlowSnapshot>, r: string)
    requires p.emitted == []
    ensures Rising(OfRun(PassAll(previous, p, listing).emitted, r))
  {
    hide PassOne;
    if listing != [] {
      var front := listing[..|listing| - 1];
      PassRises(previous, p, front, r);
      PassBelow(previous, p, front, []);
      var q := PassAll(previous, p, front);
      assert [] + q.emitted == q.emitted;
      BatchRises(previous, q, listing[|listing| - 1], r);
    }
  }

  lemma PollRises(w: Watch, poll: Poll, r: string)
    ensures Rising(OfRun(Emitted(w, poll), r))
  {
    hide PassAll;
    match poll {
      case Stored(listing) => PassRises(w.previous, StartOf(w), listing, r);
      case ReadFailed =>
      case ApplyFailed(listing, at) => if at < |listing| { PassRises(w.previous, StartOf(w), listing[..at], r); }
    }
  }

  /** Over any history a run's numbers strictly rise, refusals or not. */
  lemma {:induction false} HistoryRises(w: Watch, polls: seq<Poll>, r: string)
    ensures Rising(OfRun(EmittedAll(w, polls), r))
    decreases |polls|
  {
    hide After, Emitted, Rising;
    if polls == [] {
      assert Rising([]) by { NothingRises(); }
    } else {
      var next, first := After(w, polls[0]), Emitted(w, polls[0]);
      var rest := EmittedAll(next, polls[1..]);
      PollRises(w, polls[0], r);
      HistoryRises(next, polls[1..], r);
      PollBelow(w, [], polls[0]);
      assert [] + first == first;
      NumbersGoOn(next, polls[1..], r);
      OfRunConcat(first, rest, r);
      RisingConcat(OfRun(first, r), OfRun(rest, r), Last(next.counters, r));
    }
  }

  lemma NothingRises()
    ensures Rising([])
  {
  }

  // ----- rows ---------------------------------------------------------------------------

  /** Rows already there stay as they are; a number not there takes the one event that carries it. */
  lemma {:induction false} RecordedOnce(log: Log, events: seq<Event>)
    requires Rising(events)
    ensures forall s :: s in log ==> s in Sql.RecordAll(log, events) && Sql.RecordAll(log, events)[s] == log[s]
    ensures forall e :: e in events && e.seqNo !in log ==>
              e.seqNo in Sql.RecordAll(log, events) && Sql.RecordAll(log, events)[e.seqNo] == e
    decreases |events|
  {
    if events != [] {
      var rest := events[1..];
      assert events == [events[0]] + rest;
      forall i, j | 0 <= i < j < |rest| ensures rest[i].seqNo < rest[j].seqNo {
        assert events[i + 1].seqNo < events[j + 1].seqNo;
      }
      RecordedOnce(Record(log, events[0]), rest);
      forall e | e in rest ensures e.seqNo != events[0].seqNo {
        var i :| 0 <= i < |rest| && rest[i] == e;
        assert events[0].seqNo < events[i + 1].seqNo;
      }
    }
  }

  /** An event that is stored in a row of its own, where there was none. */
  ghost predicate OwnRow(before: Db, after: Db, e: Event) {
    var rows := Sql.Rows(after, e.runId);
    e.seqNo !in Sql.Rows(before, e.runId) && e.seqNo in rows && rows[e.seqNo] == e
  }

  /**
   An event a poller hands out gets a row of its own exactly when its number is not stored yet. If it
   is, the old row stays. The snapshot folds the event either way.
   */
  lemma OwnRowExactly(w: Watch, polls: seq<Poll>, e: Event)
    requires e in EmittedAll(w, polls)
    ensures var end, r := PollAll(w, polls).sink, e.runId;
            && (OwnRow(w.sink, end, e) <==> e.seqNo !in Sql.Rows(w.sink, r))
            && (forall s :: s in Sql.Rows(w.sink, r) ==>
                  s in Sql.Rows(end, r) && Sql.Rows(end, r)[s] == Sql.Rows(w.sink, r)[s])
            && Sql.Loaded(end, r) == Sql.Snapshot(Sql.Loaded(w.sink, r), OfRun(EmittedAll(w, polls), r))
  {
    hide PollAll, EmittedAll, Sql.ApplyEach, FoldAll;
    HistorySink(w, polls);
    HistoryRises(w, polls, e.runId);
    Sql.EachOnRun(w.sink, EmittedAll(w, polls), e.runId);
    RecordedOnce(Sql.Rows(w.sink, e.runId), OfRun(EmittedAll(w, polls), e.runId));
    assert e in OfRun(EmittedAll(w, polls), e.runId);
  }

  // ----- reaching any number ----------------------------------------------------------------

  /** A flow of this run in a state it was not last seen in, with nothing else to say. */
  function Flipped(w: Watch, r: string): FlowSnapshot {
    var running := Some("RUNNING");
    var state := if r in w.previous && w.previous[r].state == running then Some("PENDING") else running;
    FlowSnapshot(r, "", state, None, None, 0.0, NO_META, map[])
  }

  lemma FlippedReports(w: Watch, r: string)
    ensures |Diff(Known(w.previous, r), Flipped(w, r), Last(w.counters, r), 0.0)| == 1
  {
    var now := Flipped(w, r);
    assert now.atoms.Keys == {};
    assert now.AtomNames() == [];
    assert AtomEvents(Known(w.previous, r), now, []) == [];
  }

  /** Listing it hands out the run's next number and no other. */
  lemma FlippedPoll(w: Watch, r: string)
    ensures var poll := Stored([Flipped(w, r)]);
            && Possible(w, poll)
            && |Emitted(w, poll)| == 1
            && Emitted(w, poll)[0].runId == r && Emitted(w, poll)[0].seqNo == Last(w.counters, r) + 1
            && Last(After(w, poll).counters, r) == Last(w.counters, r) + 1
  {
    hide Diff;
    var s := Flipped(w, r);
    var listing := [s];
    FlippedReports(w, r);
    DiffNumbers(Known(w.previous, r), s, Last(w.counters, r), 0.0);
    assert listing[..|listing| - 1] == [];
    assert PassAll(w.previous, StartOf(w), listing) == PassOne(w.previous, StartOf(w), s);
    var events := Diff(Known(w.previous, r), s, Last(w.counters, r), 0.0);
    assert [] + events == events && events[0] in events;
  }

  /** A source that keeps flipping a run's state makes the poller hand out any number above the last. */
  lemma {:induction false} ReachNumber(w: Watch, r: string, number: int) returns (polls: seq<Poll>, e: Event)
    requires number > Last(w.counters, r)
    ensures AllPossible(w, polls) && e in EmittedAll(w, polls) && e.runId == r && e.seqNo == number
    decreases number - Last(w.counters, r)
  {
    hide After, Emitted, Possible;
    var poll := Stored([Flipped(w, r)]);
    FlippedPoll(w, r);
    if number == Last(w.counters, r) + 1 {
      polls, e := [poll], Emitted(w, poll)[0];
      assert polls[1..] == [];
    } else {
      var rest;
      rest, e := ReachNumber(After(w, poll), r, number);
      polls := [poll] + rest;
      assert polls[0] == poll && polls[1..] == rest;
    }
  }

  /** The allocator was given, for every run, a number no stored one exceeds. */
  ghost predicate Resumed(w: Watch) {
    forall r, s :: s in Sql.Rows(w.sink, r) ==> s <= Last(w.counters, r)
  }

  ghost predicate AllOwnRows(w: Watch, polls: seq<Poll>) {
    forall e :: e in EmittedAll(w, polls) ==> OwnRow(w.sink, PollAll(w, polls).sink, e)
  }

  /**
   A poller over a store that already holds events, whatever the poller remembers: every event it will
   ever hand out gets a row of its own, whatever the source does, exactly when its allocator has been
   moved past every number stored. An allocator that starts anew over a store with any number from 1 up
   has not.
   */
  lemma RestartExactly(w: Watch)
    ensures (forall polls :: AllPossible(w, polls) ==> AllOwnRows(w, polls)) <==> Resumed(w)
    ensures w.counters == map[] && (exists r, s :: s in Sql.Rows(w.sink, r) && s >= 1) ==> !Resumed(w)
  {
    hide PollAll, EmittedAll, AllPossible, OwnRow;
    if Resumed(w) {
      forall polls, e | AllPossible(w, polls) && e in EmittedAll(w, polls)
        ensures OwnRow(w.sink, PollAll(w, polls).sink, e)
      {
        NumbersGoOn(w, polls, e.runId);
        OwnRowExactly(w, polls, e);
      }
    } else {
      var r, s :| s in Sql.Rows(w.sink, r) && s > Last(w.counters, r);
      var polls, e := ReachNumber(w, r, s);
      OwnRowExactly(w, polls, e);
      assert !AllOwnRows(w, polls);
    }
  }
}
