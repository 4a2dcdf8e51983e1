/**
 What folding events does to a snapshot: a whole sequence acts as a single patch, a set of
 per-field overwrites, and everything about replay and order follows from that.
 */
module Folding {
  import opened Wrappers
  import opened Models

  /** The snapshot a run starts from: identity only, no state and no atoms. */
  function FlowFromEvent(e: Event): FlowSnapshot {
    FlowSnapshot(e.runId, e.details.flowName.GetOr(""), None, e.bookId, e.details.bookName, e.ts, NO_META, map[])
  }

  function Max(a: real, b: real): real {
    if a < b then b else a
  }

  function Overwrite<T>(current: Option<T>, incoming: Option<T>): Option<T> {
    if incoming.Some? then incoming else current
  }

  function FoldAtom(atom: Option<AtomSnapshot>, e: Event, name: string): AtomSnapshot {
    var a := atom.GetOr(NewAtom(name));
    var b := a.(uuid := Overwrite(a.uuid, e.atomUuid),
                atomType := e.atomType.GetOr(a.atomType),
                intention := Overwrite(a.intention, e.intention),
                progress := e.progress.GetOr(a.progress));
    match e.kind
    case AtomState =>
      b.(state := e.state,
         failure := Overwrite(b.failure, e.details.failure),
         revertFailure := Overwrite(b.revertFailure, e.details.revertFailure),
         hasResult := b.hasResult || e.details.hasResult)
    case AtomProgress =>
      b.(progressDetails := e.details.progressDetails)
    case _ => b
  }

  predicate IsAtomEvent(e: Event) {
    e.kind == AtomState || e.kind == AtomProgress
  }

  /** A flow name counts only when it is there and not empty. */
  predicate Named(e: Event) {
    e.details.flowName.Some? && e.details.flowName.value != ""
  }

  function Fold(flow: FlowSnapshot, e: Event): FlowSnapshot {
    var f := flow.(observedAt := Max(flow.observedAt, e.ts));
    if e.kind == FlowState then
      f.(state := e.state, name := if Named(e) then e.details.flowName.value else f.name)
    else if IsAtomEvent(e) then
      if e.atomName.None? then f
      else
        var n := e.atomName.value;
        f.(atoms := f.atoms[n := FoldAtom(if n in f.atoms then Some(f.atoms[n]) else None, e, n)])
    else f
  }

  /** What an event leaves of one atom: what it brings, what was known, and the defaults of a new one. */
  ghost predicate AtomSays(a: AtomSnapshot, known: Option<AtomSnapshot>, e: Event, name: string) {
    && (known.None? ==> a.name == name) && (known.Some? ==> a.name == known.value.name && a.meta == known.value.meta)
    && a.uuid == (if e.atomUuid.Some? || known.None? then e.atomUuid else known.value.uuid)
    && a.atomType == (if e.atomType.Some? then e.atomType.value
                      else if known.Some? then known.value.atomType else "task")
    && a.intention == (if e.intention.Some? || known.None? then e.intention else known.value.intention)
    && a.progress == (if e.progress.Some? then e.progress.value else if known.Some? then known.value.progress else 0.0)
    && a.state == (if e.kind == AtomState then e.state else if known.Some? then known.value.state else None)
    && a.progressDetails == (if e.kind == AtomProgress then e.details.progressDetails
                             else if known.Some? then known.value.progressDetails else None)
    && a.failure == (if e.kind == AtomState && e.details.failure.Some? then e.details.failure
                     else if known.Some? then known.value.failure else None)
    && a.revertFailure == (if e.kind == AtomState && e.details.revertFailure.Some? then e.details.revertFailure
                           else if known.Some? then known.value.revertFailure else None)
    && (a.hasResult <==> (e.kind == AtomState && e.details.hasResult) || (known.Some? && known.value.hasResult))
  }

  /** What one event does to a snapshot, field by field: to the flow itself, to one atom, and to no other. */
  lemma FoldSays(f: FlowSnapshot, e: Event)
    ensures var g := Fold(f, e);
            && g.observedAt == (if f.observedAt < e.ts then e.ts else f.observedAt)
            && g.state == (if e.kind == FlowState then e.state else f.state)
            && g.name == (if e.kind == FlowState && e.details.flowName.GetOr("") != "" then e.details.flowName.value
                          else f.name)
            && (if e.kind in {AtomState, AtomProgress} && e.atomName.Some? then
                  var n := e.atomName.value;
                  && g.atoms.Keys == f.atoms.Keys + {n}
                  && (forall m :: m in f.atoms && m != n ==> g.atoms[m] == f.atoms[m])
                  && AtomSays(g.atoms[n], if n in f.atoms then Some(f.atoms[n]) else None, e, n)
                else g.atoms == f.atoms)
    ensures FlowFromEvent(e).observedAt == e.ts && FlowFromEvent(e).state.None? && FlowFromEvent(e).atoms == map[]
  {
    var g := Fold(f, e);
    if e.kind in {AtomState, AtomProgress} && e.atomName.Some? {
      var n := e.atomName.value;
      FoldAtomSays(if n in f.atoms then Some(f.atoms[n]) else None, e, n);
      assert g.atoms.Keys == f.atoms.Keys + {n};
    }
  }

  lemma FoldAtomSays(known: Option<AtomSnapshot>, e: Event, name: string)
    requires IsAtomEvent(e)
    ensures AtomSays(FoldAtom(known, e, name), known, e, name)
  {
  }

  function FoldAll(flow: FlowSnapshot, events: seq<Event>): FlowSnapshot
    decreases |events|
  {
    if events == [] then flow else FoldAll(Fold(flow, events[0]), events[1..])
  }

  lemma {:induction false} FoldAllConcat(flow: FlowSnapshot, a: seq<Event>, b: seq<Event>)
    ensures FoldAll(flow, a + b) == FoldAll(FoldAll(flow, a), b)
    decreases |a|
  {
    if a == [] {
      assert a + b == b;
    } else {
      assert (a + b)[0] == a[0] && (a + b)[1..] == a[1..] + b;
      FoldAllConcat(Fold(flow, a[0]), a[1..], b);
    }
  }

  /** Folding never changes which run, which book or what meta a snapshot has. */
  lemma {:induction false} FoldAllIdentity(flow: FlowSnapshot, events: seq<Event>)
    ensures var g := FoldAll(flow, events);
            g.runId == flow.runId && g.bookId == flow.bookId && g.bookName == flow.bookName && g.meta == flow.meta
    decreases |events|
  {
    if events != [] {
      FoldAllIdentity(Fold(flow, events[0]), events[1..]);
    }
  }

  // ----- events as patches ------------------------------------------------

  /** What a sequence of events writes on one atom. `None` leaves the field alone. */
  datatype AtomPatch = AtomPatch(
    uuid: Option<string>,
    atomType: Option<string>,
    intention: Option<string>,
    progress: Option<real>,
    state: Option<Option<string>>,
    failure: Option<Payload>,
    revertFailure: Option<Payload>,
    hasResult: bool,
    progressDetails: Option<Option<Payload>>)

  /** What a sequence of events writes on one flow. */
  datatype Patch = Patch(
    name: Option<string>,
    state: Option<Option<string>>,
    ts: Option<real>,
    atoms: map<string, AtomPatch>)

  const NOTHING := Patch(None, None, None, map[])

  function AtomPatchOf(e: Event): AtomPatch {
    var onState := e.kind == AtomState;
    AtomPatch(e.atomUuid, e.atomType, e.intention, e.progress,
              if onState then Some(e.state) else None,
              if onState then e.details.failure else None,
              if onState then e.details.revertFailure else None,
              onState && e.details.hasResult,
              if e.kind == AtomProgress then Some(e.details.progressDetails) else None)
  }

  function PatchOf(e: Event): Patch {
    Patch(if e.kind == FlowState && Named(e) then e.details.flowName else None,
          if e.kind == FlowState then Some(e.state) else None,
          Some(e.ts),
          if IsAtomEvent(e) && e.atomName.Some? then map[e.atomName.value := AtomPatchOf(e)] else map[])
  }

  function ThenAtom(p: AtomPatch, q: AtomPatch): AtomPatch {
    AtomPatch(Overwrite(p.uuid, q.uuid), Overwrite(p.atomType, q.atomType), Overwrite(p.intention, q.intention),
              Overwrite(p.progress, q.progress), Overwrite(p.state, q.state), Overwrite(p.failure, q.failure),
              Overwrite(p.revertFailure, q.revertFailure), p.hasResult || q.hasResult,
              Overwrite(p.progressDetails, q.progressDetails))
  }

  function Later(a: Option<real>, b: Option<real>): Option<real> {
    if a.None? then b else if b.None? then a else Some(Max(a.value, b.value))
  }

  /** Patches compose: the later one wins, field by field. */
  function Then(p: Patch, q: Patch): Patch {
    Patch(Overwrite(p.name, q.name), Overwrite(p.state, q.state), Later(p.ts, q.ts),
          map k | k in p.atoms.Keys + q.atoms.Keys ::
            if k !in p.atoms then q.atoms[k] else if k !in q.atoms then p.atoms[k]
            else ThenAtom(p.atoms[k], q.atoms[k]))
  }

  function ApplyAtom(p: AtomPatch, atom: Option<AtomSnapshot>, name: string): AtomSnapshot {
    var a := atom.GetOr(NewAtom(name));
    a.(uuid := Overwrite(a.uuid, p.uuid), atomType := p.atomType.GetOr(a.atomType),
       intention := Overwrite(a.intention, p.intention), progress := p.progress.GetOr(a.progress),
       state := p.state.GetOr(a.state), failure := Overwrite(a.failure, p.failure),
       revertFailure := Overwrite(a.revertFailure, p.revertFailure), hasResult := a.hasResult || p.hasResult,
       progressDetails := p.progressDetails.GetOr(a.progressDetails))
  }

  function AtomIn(f: FlowSnapshot, k: string): Option<AtomSnapshot> {
    if k in f.atoms then Some(f.atoms[k]) else None
  }

  function Apply(p: Patch, f: FlowSnapshot): FlowSnapshot {
    f.(name := p.name.GetOr(f.name), state := p.state.GetOr(f.state),
       observedAt := if p.ts.Some? then Max(f.observedAt, p.ts.value) else f.observedAt,
       atoms := map k | k in f.atoms.Keys + p.atoms.Keys ::
                  if k in p.atoms then ApplyAtom(p.atoms[k], AtomIn(f, k), k) else f.atoms[k])
  }

  /** The one patch a sequence of events amounts to. */
  function Summary(events: seq<Event>): Patch {
    if events == [] then NOTHING else Then(PatchOf(events[0]), Summary(events[1..]))
  }

  lemma ApplyOne(f: FlowSnapshot, e: Event)
    ensures Apply(PatchOf(e), f) == Fold(f, e)
  {
    assert Apply(PatchOf(e), f).atoms == Fold(f, e).atoms;
  }

  lemma ApplyThenAtom(p: AtomPatch, q: AtomPatch, atom: Option<AtomSnapshot>, name: string)
    ensures ApplyAtom(ThenAtom(p, q), atom, name) == ApplyAtom(q, Some(ApplyAtom(p, atom, name)), name)
  {
  }

  /** Applying a composition is applying one after the other. */
  lemma ApplyThen(p: Patch, q: Patch, f: FlowSnapshot)
    ensures Apply(Then(p, q), f) == Apply(q, Apply(p, f))
  {
    hide ApplyAtom, ThenAtom, Max;
    var both, one := Apply(Then(p, q), f), Apply(q, Apply(p, f));
    forall k | k in both.atoms ensures both.atoms[k] == one.atoms[k] {
      ApplyThenAtoms(p, q, f, k);
    }
    assert both.atoms.Keys == one.atoms.Keys;
    assert both.atoms == one.atoms;
    ApplyThenTimes(p, q, f);
  }

  lemma ApplyThenTimes(p: Patch, q: Patch, f: FlowSnapshot)
    ensures Apply(Then(p, q), f).observedAt == Apply(q, Apply(p, f)).observedAt
  {
  }

  lemma ApplyThenAtoms(p: Patch, q: Patch, f: FlowSnapshot, k: string)
    requires k in f.atoms || k in p.atoms || k in q.atoms
    ensures Apply(Then(p, q), f).atoms[k] == Apply(q, Apply(p, f)).atoms[k]
  {
    hide ApplyAtom, ThenAtom, Max;
    if k in p.atoms && k in q.atoms {
      ApplyThenAtom(p.atoms[k], q.atoms[k], AtomIn(f, k), k);
    }
  }

  lemma ApplyNothing(f: FlowSnapshot)
    ensures Apply(NOTHING, f) == f
  {
    assert Apply(NOTHING, f).atoms == f.atoms;
  }

  /** Folding event by event is applying the summary in one go. */
  lemma {:induction false} FoldIsSummary(f: FlowSnapshot, events: seq<Event>)
    ensures FoldAll(f, events) == Apply(Summary(events), f)
    decreases |events|
  {
    if events == [] {
      ApplyNothing(f);
    } else {
      ApplyOne(f, events[0]);
      FoldIsSummary(Fold(f, events[0]), events[1..]);
      ApplyThen(PatchOf(events[0]), Summary(events[1..]), f);
    }
  }

  // ----- replay -----------------------------------------------------------

  /** A patch writes nothing that is not already there. Checkable field by field before the write. */
  predicate Absorbed(p: Patch, f: FlowSnapshot) {
    && (p.name.Some? ==> p.name.value == f.name)
    && (p.state.Some? ==> p.state.value == f.state)
    && (p.ts.Some? ==> p.ts.value <= f.observedAt)
    && (forall k :: k in p.atoms ==> k in f.atoms && AbsorbedAtom(p.atoms[k], f.atoms[k]))
  }

  predicate AbsorbedAtom(p: AtomPatch, a: AtomSnapshot) {
    && (p.uuid.Some? ==> p.uuid == a.uuid)
    && (p.atomType.Some? ==> p.atomType.value == a.atomType)
    && (p.intention.Some? ==> p.intention == a.intention)
    && (p.progress.Some? ==> p.progress.value == a.progress)
    && (p.state.Some? ==> p.state.value == a.state)
    && (p.failure.Some? ==> p.failure == a.failure)
    && (p.revertFailure.Some? ==> p.revertFailure == a.revertFailure)
    && (p.hasResult ==> a.hasResult)
    && (p.progressDetails.Some? ==> p.progressDetails.value == a.progressDetails)
  }

  lemma AbsorbedAtomExactly(p: AtomPatch, a: AtomSnapshot, k: string)
    ensures ApplyAtom(p, Some(a), k) == a <==> AbsorbedAtom(p, a)
  {
  }

  /** A patch leaves a snapshot alone exactly when it writes nothing new. */
  lemma AbsorbedExactly(p: Patch, f: FlowSnapshot)
    ensures Apply(p, f) == f <==> Absorbed(p, f)
  {
    hide ApplyAtom, AbsorbedAtom;
    var g := Apply(p, f);
    forall k | k in p.atoms && k in f.atoms ensures g.atoms[k] == f.atoms[k] <==> AbsorbedAtom(p.atoms[k], f.atoms[k]) {
      AbsorbedAtomExactly(p.atoms[k], f.atoms[k], k);
    }
    if Apply(p, f) == f {
      forall k | k in p.atoms ensures k in f.atoms && AbsorbedAtom(p.atoms[k], f.atoms[k]) {
        assert k in g.atoms;
      }
    }
    if Absorbed(p, f) {
      assert g.atoms == f.atoms;
    }
  }

  /**
   Folding a redelivered batch leaves a snapshot alone exactly when every field the
   batch writes last already holds that value.
   */
  lemma RedeliveryIsNoOp(f: FlowSnapshot, batch: seq<Event>)
    ensures FoldAll(f, batch) == f <==> Absorbed(Summary(batch), f)
  {
    hide Apply, Absorbed;
    FoldIsSummary(f, batch);
    AbsorbedExactly(Summary(batch), f);
  }

  lemma AppliedIsAbsorbed(p: Patch, f: FlowSnapshot)
    ensures Absorbed(p, Apply(p, f))
  {
    hide ApplyAtom, AbsorbedAtom;
    forall k | k in p.atoms ensures AbsorbedAtom(p.atoms[k], Apply(p, f).atoms[k]) {
      AppliedAtomIsAbsorbed(p.atoms[k], AtomIn(f, k), k);
    }
  }

  lemma AppliedAtomIsAbsorbed(p: AtomPatch, atom: Option<AtomSnapshot>, name: string)
    ensures AbsorbedAtom(p, ApplyAtom(p, atom, name))
  {
  }

  /** Replaying the tail of what was already folded changes nothing. */
  lemma ReplayIdempotent(f: FlowSnapshot, a: seq<Event>, b: seq<Event>)
    ensures FoldAll(FoldAll(f, a + b), b) == FoldAll(f, a + b)
  {
    hide FoldAll, Summary, Apply;
    FoldAllConcat(f, a, b);
    FoldIsSummary(FoldAll(f, a), b);
    AppliedIsAbsorbed(Summary(b), FoldAll(f, a));
    RedeliveryIsNoOp(FoldAll(f, a + b), b);
  }

  // ----- order independence -----------------------------------------------

  predicate ForAtom(e: Event, k: string) {
    IsAtomEvent(e) && e.atomName == Some(k)
  }

  function AtomPart(events: seq<Event>, k: string): seq<Event> {
    if events == [] then []
    else (if ForAtom(events[0], k) then [events[0]] else []) + AtomPart(events[1..], k)
  }

  function FlowPart(events: seq<Event>): seq<Event> {
    if events == [] then []
    else (if events[0].kind == FlowState then [events[0]] else []) + FlowPart(events[1..])
  }

  function AtomWrites(events: seq<Event>): Option<AtomPatch> {
    if events == [] then None
    else
      var rest := AtomWrites(events[1..]);
      Some(if rest.Some? then ThenAtom(AtomPatchOf(events[0]), rest.value) else AtomPatchOf(events[0]))
  }

  function PatchAt(p: Patch, k: string): Option<AtomPatch> {
    if k in p.atoms then Some(p.atoms[k]) else None
  }

  /** What a sequence writes on one atom depends only on that atom's own events. */
  lemma {:induction false} SummaryOfAtom(events: seq<Event>, k: string)
    ensures PatchAt(Summary(events), k) == AtomWrites(AtomPart(events, k))
  {
    if events != [] {
      SummaryOfAtom(events[1..], k);
      var mine := AtomPart(events[1..], k);
      if ForAtom(events[0], k) {
        assert AtomPart(events, k) == [events[0]] + mine;
        assert ([events[0]] + mine)[1..] == mine;
      } else {
        assert AtomPart(events, k) == mine;
      }
    }
  }

  /** What a sequence writes on the flow itself depends only on the flow's own events. */
  lemma {:induction false} SummaryOfFlow(events: seq<Event>)
    ensures Summary(events).name == Summary(FlowPart(events)).name
    ensures Summary(events).state == Summary(FlowPart(events)).state
  {
    if events != [] {
      SummaryOfFlow(events[1..]);
      var mine := FlowPart(events[1..]);
      if events[0].kind == FlowState {
        assert FlowPart(events) == [events[0]] + mine;
        assert ([events[0]] + mine)[1..] == mine;
      } else {
        assert FlowPart(events) == mine;
      }
    }
  }

  /** The latest timestamp of a sequence is one of them and none is later. */
  lemma {:induction false} SummaryOfTime(events: seq<Event>)
    ensures Summary(events).ts.None? <==> events == []
    ensures events != [] ==> exists e :: e in events && Some(e.ts) == Summary(events).ts
    ensures forall e :: e in events ==> e.ts <= Summary(events).ts.value
  {
    if events != [] {
      SummaryOfTime(events[1..]);
      assert events[0] in events;
      assert forall e :: e in events[1..] ==> e in events;
      if |events| > 1 {
        var e :| e in events[1..] && Some(e.ts) == Summary(events[1..]).ts;
        assert e in events;
      }
      assert forall e :: e in events ==> e == events[0] || e in events[1..];
    }
  }

  lemma SameTime(a: seq<Event>, b: seq<Event>)
    requires forall e :: e in a <==> e in b
    ensures Summary(a).ts == Summary(b).ts
  {
    SummaryOfTime(a);
    SummaryOfTime(b);
    assert a != [] ==> a[0] in b;
    assert b != [] ==> b[0] in a;
  }

  /**
   Two arrival orders of the same events fold to the same snapshot when they agree on
   the order of the flow's own events and on the order of each atom's events. How the
   events of different atoms interleave does not matter.
   */
  lemma OrderIndependent(f: FlowSnapshot, a: seq<Event>, b: seq<Event>)
    requires multiset(a) == multiset(b)
    requires FlowPart(a) == FlowPart(b)
    requires forall k :: AtomPart(a, k) == AtomPart(b, k)
    ensures FoldAll(f, a) == FoldAll(f, b)
  {
    FoldIsSummary(f, a);
    FoldIsSummary(f, b);
    SummaryOfFlow(a);
    SummaryOfFlow(b);
    forall e ensures e in a <==> e in b {
      assert e in a <==> e in multiset(a);
      assert e in b <==> e in multiset(b);
    }
    SameTime(a, b);
    var p, q := Summary(a), Summary(b);
    forall k ensures PatchAt(p, k) == PatchAt(q, k) {
      SummaryOfAtom(a, k);
      SummaryOfAtom(b, k);
    }
    assert p.atoms == q.atoms by {
      forall k ensures k in p.atoms <==> k in q.atoms {
        assert PatchAt(p, k) == PatchAt(q, k);
      }
      forall k | k in p.atoms ensures p.atoms[k] == q.atoms[k] {
        assert PatchAt(p, k) == PatchAt(q, k);
      }
    }
  }

  /** Redelivering a batch that is not the tail of what was folded takes the snapshot back. */
  lemma StaleRedeliveryRegresses(f: FlowSnapshot, first: Event, second: Event)
    requires first.kind == FlowState && second.kind == FlowState && first.state != second.state
    ensures FoldAll(f, [first, second]).state == second.state
    ensures FoldAll(FoldAll(f, [first, second]), [first]).state == first.state
    ensures FoldAll(FoldAll(f, [first, second]), [first]) != FoldAll(f, [first, second])
  {
    assert [first, second][1..] == [second];
    var g := FoldAll(f, [first, second]);
    assert FoldAll(g, [first]) == FoldAll(Fold(g, first), [first][1..]);
    assert FoldAll(f, [first, second]) == FoldAll(Fold(Fold(f, first), second), [second][1..]);
  }
}
