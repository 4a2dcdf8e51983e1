/** The values everything else is about: snapshots of flows and atoms, and events. */
module Models {
  import opened Wrappers
  import opened Ordering

  /** A JSON object the meter carries but never looks inside: failures, progress details, meta. */
  datatype Payload = Payload(text: string)

  const NO_META := Payload("{}")

  datatype AtomSnapshot = AtomSnapshot(
    name: string,
    uuid: Option<string>,
    atomType: string,
    state: Option<string>,
    intention: Option<string>,
    progress: real,
    progressDetails: Option<Payload>,
    failure: Option<Payload>,
    revertFailure: Option<Payload>,
    hasResult: bool,
    meta: Payload)

  const TASK := "task"

  /** `AtomSnapshot(name=name)`: every other field at its default. */
  function NewAtom(name: string): AtomSnapshot {
    AtomSnapshot(name, None, TASK, None, None, 0.0, None, None, None, false, NO_META)
  }

  datatype FlowSnapshot = FlowSnapshot(
    runId: string,
    name: string,
    state: Option<string>,
    bookId: Option<string>,
    bookName: Option<string>,
    observedAt: real,
    meta: Payload,
    atoms: map<string, AtomSnapshot>)
  {
    predicate IsFinished() {
      IsFinishState(state)
    }

    /** The names of the atoms, each once, sorted. */
    function AtomNames(): (names: seq<string>)
      ensures forall n :: n in names <==> n in atoms
    {
      SortedNames(atoms.Keys)
    }
  }

  const FLOW_FINISH_STATES: set<string> := {"SUCCESS", "FAILURE", "REVERTED", "SUSPENDED"}

  predicate IsFinishState(state: Option<string>) {
    state.Some? && state.value in FLOW_FINISH_STATES
  }

  datatype EventKind = FlowState | AtomState | AtomProgress | FlowStructure | FlowResult | Heartbeat

  /** The entries of an event's `details` that anything reads back. */
  datatype Details = Details(
    flowName: Option<string>,
    bookName: Option<string>,
    failure: Option<Payload>,
    revertFailure: Option<Payload>,
    hasResult: bool,
    progressDetails: Option<Payload>)

  const NO_DETAILS := Details(None, None, None, None, false, None)

  datatype Event = Event(
    runId: string,
    seqNo: int,
    ts: real,
    kind: EventKind,
    bookId: Option<string>,
    atomName: Option<string>,
    atomUuid: Option<string>,
    atomType: Option<string>,
    state: Option<string>,
    oldState: Option<string>,
    intention: Option<string>,
    progress: Option<real>,
    details: Details)

  /** The events of one run, in order. */
  function OfRun(events: seq<Event>, runId: string): (mine: seq<Event>)
    ensures forall e :: e in mine <==> e in events && e.runId == runId
  {
    if events == [] then []
    else
      assert events == [events[0]] + events[1..];
      (if events[0].runId == runId then [events[0]] else []) + OfRun(events[1..], runId)
  }

  lemma {:induction false} OfRunConcat(a: seq<Event>, b: seq<Event>, runId: string)
    ensures OfRun(a + b, runId) == OfRun(a, runId) + OfRun(b, runId)
  {
    if a == [] {
      assert a + b == b;
    } else {
      assert (a + b)[0] == a[0] && (a + b)[1..] == a[1..] + b;
      OfRunConcat(a[1..], b, runId);
    }
  }

  lemma {:induction false} OfRunAll(events: seq<Event>, runId: string)
    requires forall e :: e in events ==> e.runId == runId
    ensures OfRun(events, runId) == events
  {
    if events != [] {
      OfRunAll(events[1..], runId);
    }
  }

  lemma {:induction false} OfRunNone(events: seq<Event>, runId: string)
    requires forall e :: e in events ==> e.runId != runId
    ensures OfRun(events, runId) == []
  {
    if events != [] {
      OfRunNone(events[1..], runId);
    }
  }
}
