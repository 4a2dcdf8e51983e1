/** What a change of snapshot is reported as, and the code that reports it, one method a generator. */
module Diffing {
  import opened Wrappers
  import opened Models
  import opened Ordering
  import opened Numbering

  datatype DiffError = AcrossRuns(before: string, after: string)

  const UNSTAMPED_SEQ := 0
  const UNSTAMPED_TS := 0.0

  function NewEvent(flow: FlowSnapshot, kind: EventKind, atom: Option<AtomSnapshot>, state: Option<string>,
                    oldState: Option<string>, progress: Option<real>, details: Details): Event
  {
    Event(flow.runId, UNSTAMPED_SEQ, UNSTAMPED_TS, kind, flow.bookId,
          if atom.Some? then Some(atom.value.name) else None,
          if atom.Some? then atom.value.uuid else None,
          if atom.Some? then Some(atom.value.atomType) else None,
          state, oldState,
          if atom.Some? then atom.value.intention else None,
          progress, details)
  }

  function StateOf(was: Option<AtomSnapshot>): Option<string> {
    if was.Some? then was.value.state else None
  }

  /** A failure travels only when it is there and is news. */
  function News(was: Option<Payload>, now: Option<Payload>): Option<Payload> {
    if was == now then None else now
  }

  function AtomStateEvent(flow: FlowSnapshot, before: Option<AtomSnapshot>, current: AtomSnapshot): Event {
    NewEvent(flow, AtomState, Some(current), current.state, StateOf(before), Some(current.progress),
             NO_DETAILS.(failure := News(if before.Some? then before.value.failure else None, current.failure),
                         revertFailure := News(if before.Some? then before.value.revertFailure else None,
                                               current.revertFailure),
                         hasResult := current.hasResult))
  }

  function AtomProgressEvent(flow: FlowSnapshot, current: AtomSnapshot): Event {
    NewEvent(flow, AtomProgress, Some(current), current.state, None, Some(current.progress),
             NO_DETAILS.(progressDetails := current.progressDetails))
  }

  predicate ProgressChanged(before: Option<AtomSnapshot>, current: AtomSnapshot) {
    if before.None? then current.progress != 0.0 || current.progressDetails.Some?
    else before.value.progress != current.progress || before.value.progressDetails != current.progressDetails
  }

  predicate StateChanged(before: Option<AtomSnapshot>, current: AtomSnapshot) {
    before.None? || before.value.state != current.state
  }

  /** One atom's events: its state event before its progress event. */
  function EventsOfAtom(flow: FlowSnapshot, before: Option<AtomSnapshot>, current: AtomSnapshot): seq<Event> {
    (if StateChanged(before, current) then [AtomStateEvent(flow, before, current)] else []) +
    (if ProgressChanged(before, current) then [AtomProgressEvent(flow, current)] else [])
  }

  function AtomBefore(was: Option<FlowSnapshot>, name: string): Option<AtomSnapshot> {
    if was.Some? && name in was.value.atoms then Some(was.value.atoms[name]) else None
  }

  function AtomEvents(was: Option<FlowSnapshot>, now: FlowSnapshot, names: seq<string>): seq<Event>
    requires forall n :: n in names ==> n in now.atoms
  {
    if names == [] then []
    else
      var last := names[|names| - 1];
      assert names == names[..|names| - 1] + [last];
      AtomEvents(was, now, names[..|names| - 1]) + EventsOfAtom(now, AtomBefore(was, last), now.atoms[last])
  }

  /** At most one event of kind FlowState, naming flow and book only when nothing was seen before. */
  function FlowEvents(was: Option<FlowSnapshot>, now: FlowSnapshot): seq<Event> {
    if was.Some? && was.value.state == now.state then []
    else
      var details :=
        if was.None? then NO_DETAILS.(flowName := Some(now.name), bookName := now.bookName) else NO_DETAILS;
      [NewEvent(now, FlowState, None, now.state, if was.Some? then was.value.state else None, None, details)]
  }

  /** Atoms before the flow for a finished flow, the flow before its atoms for any other. */
  function Unstamped(was: Option<FlowSnapshot>, now: FlowSnapshot): seq<Event> {
    var atoms, flow := AtomEvents(was, now, now.AtomNames()), FlowEvents(was, now);
    if now.IsFinished() then atoms + flow else flow + atoms
  }

  function Stamp(events: seq<Event>, last: int, ts: real): (stamped: seq<Event>)
    ensures |stamped| == |events|
    ensures forall i :: 0 <= i < |events| ==> stamped[i] == events[i].(seqNo := last + 1 + i, ts := ts)
  {
    seq(|events|, i requires 0 <= i < |events| => events[i].(seqNo := last + 1 + i, ts := ts))
  }

  /** The events describing `was` -> `now`, numbered on from `last`. */
  function Diff(was: Option<FlowSnapshot>, now: FlowSnapshot, last: int, ts: real): seq<Event> {
    Stamp(Unstamped(was, now), last, ts)
  }

  // ----- what the events say, field by field ------------------------------------------

  /** The state event of the atom filed under `name`: where it is and where it was last seen. */
  ghost predicate SaysState(e: Event, was: Option<FlowSnapshot>, now: FlowSnapshot, name: string) {
    name in now.atoms &&
    var a, known := now.atoms[name], was.Some? && name in was.value.atoms;
    && e.kind == AtomState && e.atomName == Some(a.name) && e.atomUuid == a.uuid && e.atomType == Some(a.atomType)
    && e.state == a.state && e.intention == a.intention && e.progress == Some(a.progress)
    && e.oldState == (if known then was.value.atoms[name].state else None)
    && e.details.failure == (if known && was.value.atoms[name].failure == a.failure then None else a.failure)
    && e.details.revertFailure
       == (if known && was.value.atoms[name].revertFailure == a.revertFailure then None else a.revertFailure)
    && e.details.hasResult == a.hasResult
    && e.details.flowName.None? && e.details.bookName.None? && e.details.progressDetails.None?
  }

  /** The progress event of the atom filed under `name`: no state before, no failure. */
  ghost predicate SaysProgress(e: Event, now: FlowSnapshot, name: string) {
    name in now.atoms &&
    var a := now.atoms[name];
    && e.kind == AtomProgress && e.atomName == Some(a.name) && e.atomUuid == a.uuid && e.atomType == Some(a.atomType)
    && e.state == a.state && e.oldState.None? && e.intention == a.intention && e.progress == Some(a.progress)
    && e.details == Details(None, None, None, None, false, a.progressDetails)
  }

  /** The flow's own event: about no atom, with the flow's name and book the first time only. */
  ghost predicate SaysFlow(e: Event, was: Option<FlowSnapshot>, now: FlowSnapshot) {
    && e.kind == FlowState && e.atomName.None? && e.atomUuid.None? && e.atomType.None?
    && e.state == now.state && e.intention.None? && e.progress.None?
    && e.oldState == (if was.Some? then was.value.state else None)
    && e.details == (if was.None? then Details(Some(now.name), now.bookName, None, None, false, None)
                     else Details(None, None, None, None, false, None))
  }

  /** Names ascend; of two events of one atom the state comes before the progress. */
  ghost predicate InNameOrder(a: Event, nameA: string, b: Event, nameB: string) {
    StrLt(nameA, nameB) || (nameA == nameB && a.kind == AtomState && b.kind == AtomProgress)
  }

  ghost predicate ToldOf(events: seq<Event>, filed: seq<string>, name: string, kind: EventKind)
    requires |filed| == |events|
  {
    exists i :: 0 <= i < |events| && filed[i] == name && events[i].kind == kind
  }

  /** The events of the atoms named, `filed[i]` being the name the atom of the i-th is filed under. */
  ghost predicate TellsAtoms(events: seq<Event>, filed: seq<string>, was: Option<FlowSnapshot>, now: FlowSnapshot,
                             names: set<string>)
  {
    && |filed| == |events|
    && (forall i :: 0 <= i < |events| ==>
          filed[i] in names
          && (SaysState(events[i], was, now, filed[i]) || SaysProgress(events[i], now, filed[i])))
    && (forall i, j :: 0 <= i < j < |events| ==> InNameOrder(events[i], filed[i], events[j], filed[j]))
    && (forall n :: n in names && n in now.atoms ==>
          && (ToldOf(events, filed, n, AtomState) <==> StateNews(was, now.atoms[n], n))
          && (ToldOf(events, filed, n, AtomProgress) <==> ProgressNews(was, now.atoms[n], n)))
  }

  /**
   All the events of a diff: the atoms' in the order of their names, the flow's own before them, or
   after them once the flow has finished, if its state is news; all of the run and the book, numbered on
   from `last` and stamped `ts`.
   */
  ghost predicate Tells(events: seq<Event>, filed: seq<string>, was: Option<FlowSnapshot>, now: FlowSnapshot,
                        last: int, ts: real)
  {
    var news := was.Some? ==> was.value.state != now.state;
    var finished := now.state in {Some("SUCCESS"), Some("FAILURE"), Some("REVERTED"), Some("SUSPENDED")};
    && (forall i :: 0 <= i < |events| ==>
          && events[i].runId == now.runId && events[i].bookId == now.bookId
          && events[i].seqNo == last + 1 + i && events[i].ts == ts)
    && (news ==> events != [] && SaysFlow(events[if finished then |events| - 1 else 0], was, now))
    && TellsAtoms(if !news then events else if finished then events[..|events| - 1] else events[1..], filed,
                  was, now, now.atoms.Keys)
  }

  /** What was last seen under the name, if anything, was in another state. */
  ghost predicate StateNews(was: Option<FlowSnapshot>, a: AtomSnapshot, name: string) {
    was.Some? && name in was.value.atoms ==> was.value.atoms[name].state != a.state
  }

  /** A known atom's progress or its details differ; an unknown one has either to show. */
  ghost predicate ProgressNews(was: Option<FlowSnapshot>, a: AtomSnapshot, name: string) {
    if was.Some? && name in was.value.atoms
    then was.value.atoms[name].progress != a.progress || was.value.atoms[name].progressDetails != a.progressDetails
    else a.progress != 0.0 || a.progressDetails.Some?
  }

  lemma EventsOfAtomTell(was: Option<FlowSnapshot>, now: FlowSnapshot, name: string) returns (filed: seq<string>)
    requires name in now.atoms
    ensures TellsAtoms(EventsOfAtom(now, AtomBefore(was, name), now.atoms[name]), filed, was, now, {name})
  {
    var events := EventsOfAtom(now, AtomBefore(was, name), now.atoms[name]);
    filed := seq(|events|, i => name);
    if StateChanged(AtomBefore(was, name), now.atoms[name]) {
      assert events[0].kind == AtomState;
    }
    if ProgressChanged(AtomBefore(was, name), now.atoms[name]) {
      assert events[|events| - 1].kind == AtomProgress;
    }
  }

  lemma TellsBoth(a: seq<Event>, filedA: seq<string>, namesA: set<string>, b: seq<Event>, filedB: seq<string>,
                  name: string, was: Option<FlowSnapshot>, now: FlowSnapshot)
    requires TellsAtoms(a, filedA, was, now, namesA) && TellsAtoms(b, filedB, was, now, {name})
    requires forall n :: n in namesA ==> StrLt(n, name)
    ensures TellsAtoms(a + b, filedA + filedB, was, now, namesA + {name})
  {
    hide SaysState, SaysProgress, StateNews, ProgressNews, StrLt;
    StrLtTotal(name, name);
    var events, filed := a + b, filedA + filedB;
    forall n, kind
      ensures ToldOf(events, filed, n, kind) <==> ToldOf(a, filedA, n, kind) || ToldOf(b, filedB, n, kind)
    {
      if ToldOf(a, filedA, n, kind) {
        var i :| 0 <= i < |a| && filedA[i] == n && a[i].kind == kind;
        assert filed[i] == n && events[i].kind == kind;
      }
      if ToldOf(b, filedB, n, kind) {
        var i :| 0 <= i < |b| && filedB[i] == n && b[i].kind == kind;
        assert filed[|a| + i] == n && events[|a| + i].kind == kind;
      }
    }
  }

  lemma NothingToTell(was: Option<FlowSnapshot>, now: FlowSnapshot)
    ensures TellsAtoms([], [], was, now, {})
  {
  }

  lemma {:induction false} AtomEventsTell(was: Option<FlowSnapshot>, now: FlowSnapshot, names: seq<string>)
    returns (filed: seq<string>)
    requires (forall n :: n in names ==> n in now.atoms) && Ascending(BY_TEXT, names)
    ensures TellsAtoms(AtomEvents(was, now, names), filed, was, now, set n | n in names)
  {
    hide EventsOfAtom, TellsAtoms, StrLt, AtomBefore;
    if names == [] {
      NothingToTell(was, now);
      filed := [];
      assert (set n | n in names) == {};
    } else {
      var front, last := names[..|names| - 1], names[|names| - 1];
      assert names == front + [last];
      var before := AtomEventsTell(was, now, front);
      var mine := EventsOfAtomTell(was, now, last);
      forall n | n in front ensures StrLt(n, last) {
        var i :| 0 <= i < |front| && front[i] == n;
        assert BY_TEXT(names[i], names[|names| - 1]);
      }
      TellsBoth(AtomEvents(was, now, front), before, (set n | n in front),
                EventsOfAtom(now, AtomBefore(was, last), now.atoms[last]), mine, last, was, now);
      assert (set n | n in names) == (set n | n in front) + {last};
      filed := before + mine;
    }
  }

  lemma StampsTellAlike(a: seq<Event>, b: seq<Event>, filed: seq<string>, was: Option<FlowSnapshot>,
                        now: FlowSnapshot, names: set<string>)
    requires TellsAtoms(a, filed, was, now, names)
    requires |a| == |b| && forall i :: 0 <= i < |a| ==> b[i] == a[i].(seqNo := b[i].seqNo, ts := b[i].ts)
    ensures TellsAtoms(b, filed, was, now, names)
  {
    hide StateNews, ProgressNews, StrLt;
    forall n, kind ensures ToldOf(b, filed, n, kind) <==> ToldOf(a, filed, n, kind) {
    }
  }

  /** What a diff is: these events and no others, for any two snapshots of a run. */
  lemma DiffTells(was: Option<FlowSnapshot>, now: FlowSnapshot, last: int, ts: real) returns (filed: seq<string>)
    ensures Tells(Diff(was, now, last, ts), filed, was, now, last, ts)
  {
    hide AtomEvents, TellsAtoms, FlowEvents, SaysFlow, Tells, Ascending;
    var names := now.AtomNames();
    SortedNamesAscend(now.atoms.Keys);
    filed := AtomEventsTell(was, now, names);
    assert (set n | n in names) == now.atoms.Keys;
    EventsAreOfRun(was, now);
    FlowEventsTell(was, now);
    OrderedTells(AtomEvents(was, now, names), FlowEvents(was, now), filed, was, now, last, ts);
  }

  lemma OrderedTells(atoms: seq<Event>, flow: seq<Event>, filed: seq<string>, was: Option<FlowSnapshot>,
                     now: FlowSnapshot, last: int, ts: real)
    requires TellsAtoms(atoms, filed, was, now, now.atoms.Keys)
    requires if was.Some? && was.value.state == now.state then flow == []
             else |flow| == 1 && SaysFlow(flow[0], was, now)
    requires forall e :: e in atoms + flow ==> e.runId == now.runId && e.bookId == now.bookId
    ensures var ordered := if now.IsFinished() then atoms + flow else flow + atoms;
            Tells(Stamp(ordered, last, ts), filed, was, now, last, ts)
  {
    hide TellsAtoms, SaysFlow;
    var ordered := if now.IsFinished() then atoms + flow else flow + atoms;
    var events := Stamp(ordered, last, ts);
    forall i | 0 <= i < |events|
      ensures && events[i].runId == now.runId && events[i].bookId == now.bookId
              && events[i].seqNo == last + 1 + i && events[i].ts == ts
    {
      assert ordered[i] in atoms + flow;
    }
    AtomsStamped(atoms, flow, filed, was, now, last, ts);
    if flow != [] {
      StampSaysFlow(flow[0], events[if now.IsFinished() then |events| - 1 else 0], was, now);
    }
  }

  lemma AtomsStamped(atoms: seq<Event>, flow: seq<Event>, filed: seq<string>, was: Option<FlowSnapshot>,
                     now: FlowSnapshot, last: int, ts: real)
    requires TellsAtoms(atoms, filed, was, now, now.atoms.Keys) && |flow| <= 1
    ensures var events := Stamp(if now.IsFinished() then atoms + flow else flow + atoms, last, ts);
            TellsAtoms(if flow == [] then events else if now.IsFinished() then events[..|events| - 1] else events[1..],
                       filed, was, now, now.atoms.Keys)
  {
    hide TellsAtoms, IsFinishState, Stamp;
    if flow == [] {
      assert atoms + flow == atoms && flow + atoms == atoms;
      StampsTellAlike(atoms, Stamp(atoms, last, ts), filed, was, now, now.atoms.Keys);
    } else {
      var ahead, behind := Stamp(flow + atoms, last, ts)[1..], Stamp(atoms + flow, last, ts)[..|atoms|];
      forall i | 0 <= i < |atoms| ensures ahead[i] == atoms[i].(seqNo := ahead[i].seqNo, ts := ahead[i].ts) {
        assert (flow + atoms)[i + 1] == atoms[i];
      }
      if now.IsFinished() {
        StampsTellAlike(atoms, behind, filed, was, now, now.atoms.Keys);
      } else {
        StampsTellAlike(atoms, ahead, filed, was, now, now.atoms.Keys);
      }
    }
  }

  lemma FlowEventsTell(was: Option<FlowSnapshot>, now: FlowSnapshot)
    ensures if was.Some? && was.value.state == now.state then FlowEvents(was, now) == []
            else |FlowEvents(was, now)| == 1 && SaysFlow(FlowEvents(was, now)[0], was, now)
  {
  }

  lemma StampSaysFlow(e: Event, f: Event, was: Option<FlowSnapshot>, now: FlowSnapshot)
    requires SaysFlow(e, was, now) && f == e.(seqNo := f.seqNo, ts := f.ts)
    ensures SaysFlow(f, was, now)
  {
  }

  lemma {:induction false} AtomEventsAreOfRun(was: Option<FlowSnapshot>, now: FlowSnapshot, names: seq<string>)
    requires forall n :: n in names ==> n in now.atoms
    ensures forall e :: e in AtomEvents(was, now, names) ==> e.runId == now.runId && e.bookId == now.bookId
  {
    if names != [] {
      AtomEventsAreOfRun(was, now, names[..|names| - 1]);
    }
  }

  lemma EventsAreOfRun(was: Option<FlowSnapshot>, now: FlowSnapshot)
    ensures forall e :: e in AtomEvents(was, now, now.AtomNames()) + FlowEvents(was, now) ==>
              e.runId == now.runId && e.bookId == now.bookId
  {
    hide AtomEvents;
    AtomEventsAreOfRun(was, now, now.AtomNames());
  }

  lemma {:induction false} SameAtomsTellNothing(was: FlowSnapshot, now: FlowSnapshot, names: seq<string>)
    requires was.atoms == now.atoms && forall n :: n in names ==> n in now.atoms
    ensures AtomEvents(Some(was), now, names) == []
  {
    if names != [] { SameAtomsTellNothing(was, now, names[..|names| - 1]); }
  }

  /** A flow in the same state with the same atoms has nothing to report. */
  lemma NothingNew(was: FlowSnapshot, now: FlowSnapshot, last: int, ts: real)
    requires was.state == now.state && was.atoms == now.atoms
    ensures Diff(Some(was), now, last, ts) == []
  {
    hide AtomEvents;
    SameAtomsTellNothing(was, now, now.AtomNames());
  }

  // ----- the code, step by step ---------------------------------------------------

  /** What the generator yields for one atom. */
  method CollectOneAtom(flow: FlowSnapshot, before: Option<AtomSnapshot>, current: AtomSnapshot)
    returns (mine: seq<Event>)
    ensures mine == EventsOfAtom(flow, before, current)
    ensures mine == [] <==> before.Some? && before.value.state == current.state
                            && before.value.progress == current.progress
                            && before.value.progressDetails == current.progressDetails
    ensures |mine| <= 2 && (|mine| == 2 ==> mine[0].kind == AtomState && mine[1].kind == AtomProgress)
    ensures forall e :: e in mine ==> e.state == current.state && e.progress == Some(current.progress)
                                      && e.atomName == Some(current.name) && e.seqNo == 0 && e.ts == 0.0
                                      && e.runId == flow.runId && e.bookId == flow.bookId
    ensures forall e :: e in mine ==>
              e.oldState == if e.kind == AtomState && before.Some? then before.value.state else None
  {
    mine := [];
    if before.None? || before.value.state != current.state {
      mine := mine + [AtomStateEvent(flow, before, current)];
    }
    if ProgressChanged(before, current) {
      mine := mine + [AtomProgressEvent(flow, current)];
    }
  }

  lemma NextAtom(was: Option<FlowSnapshot>, now: FlowSnapshot, names: seq<string>, i: nat)
    requires i < |names| && forall n :: n in names ==> n in now.atoms
    ensures AtomEvents(was, now, names[..i + 1])
         == AtomEvents(was, now, names[..i]) + EventsOfAtom(now, AtomBefore(was, names[i]), now.atoms[names[i]])
  {
    assert names[..i + 1][..i] == names[..i];
  }

  /** The generator over atoms, in the order of the names given. */
  method CollectAtomEvents(was: Option<FlowSnapshot>, now: FlowSnapshot, names: seq<string>)
    returns (events: seq<Event>)
    requires forall n :: n in names ==> n in now.atoms
    ensures events == AtomEvents(was, now, names)
  {
    events := [];
    var i := 0;
    while i < |names|
      invariant 0 <= i <= |names|
      invariant events == AtomEvents(was, now, names[..i])
    {
      var name := names[i];
      var before := if was.Some? && name in was.value.atoms then Some(was.value.atoms[name]) else None;
      var mine := CollectOneAtom(now, before, now.atoms[name]);
      NextAtom(was, now, names, i);
      events := events + mine;
      i := i + 1;
    }
    assert names[..|names|] == names;
  }

  /** Number and stamp the events in emission order. */
  method StampAll(ordered: seq<Event>, runId: string, ts: real, allocator: SequenceAllocator)
    returns (events: seq<Event>)
    modifies allocator
    ensures events == Stamp(ordered, Last(old(allocator.counters), runId), ts)
    ensures allocator.counters == Numbered(old(allocator.counters), runId, |events|)
  {
    ghost var counters := allocator.counters;
    events := [];
    var i := 0;
    while i < |ordered|
      invariant 0 <= i <= |ordered|
      invariant events == Stamp(ordered, Last(counters, runId), ts)[..i]
      invariant allocator.counters == Numbered(counters, runId, i)
    {
      var next := allocator.Allocate(runId);
      events := events + [ordered[i].(seqNo := next, ts := ts)];
      i := i + 1;
    }
    assert events == Stamp(ordered, Last(counters, runId), ts);
  }

  /** Diff two snapshots of one run, drawing numbers only for what there is to report. */
  method DiffFlow(was: Option<FlowSnapshot>, now: FlowSnapshot, allocator: SequenceAllocator, ts: Option<real>)
    returns (result: Result<seq<Event>, DiffError>)
    modifies allocator
    ensures was.Some? && was.value.runId != now.runId ==>
              result == Err(AcrossRuns(was.value.runId, now.runId)) && allocator.counters == old(allocator.counters)
    ensures was.None? || was.value.runId == now.runId ==>
              && result == Ok(Diff(was, now, Last(old(allocator.counters), now.runId), ts.GetOr(now.observedAt)))
              && allocator.counters == Numbered(old(allocator.counters), now.runId, |result.value|)
    ensures result.Ok? ==>
              var last := Last(old(allocator.counters), now.runId);
              exists filed :: Tells(result.value, filed, was, now, last, ts.GetOr(now.observedAt))
  {
    hide Tells;
    if was.Some? && was.value.runId != now.runId {
      return Err(AcrossRuns(was.value.runId, now.runId));
    }
    var stamp := ts.GetOr(now.observedAt);
    var flowEvents := FlowEvents(was, now);
    var atomEvents := CollectAtomEvents(was, now, now.AtomNames());
    var ordered := if now.IsFinished() then atomEvents + flowEvents else flowEvents + atomEvents;
    var events := StampAll(ordered, now.runId, stamp, allocator);
    ghost var filed := DiffTells(was, now, Last(old(allocator.counters), now.runId), stamp);
    result := Ok(events);
  }

  /** The counters after `count` numbers went to a run. Nothing is allocated for nothing. */
  function Numbered(counters: Counters, runId: string, count: nat): Counters {
    if count == 0 then counters else counters[runId := Last(counters, runId) + count]
  }
}
