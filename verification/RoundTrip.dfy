/**
 When folding undoes diffing: exact conditions for one step from a mirror of the old side, for one
 step from any store, and over whole timelines.
 */
module RoundTrip {
  import opened Wrappers
  import opened Ordering
  import opened Models
  import opened Folding
  import opened Diffing
  import Sql = SqlStore

  // ----- what the round trip restores ----------------------------------------------

  /** Two snapshots of an atom agree on everything but `meta`, which no event carries. */
  predicate SameAtom(stored: AtomSnapshot, real_: AtomSnapshot) {
    stored.(meta := real_.meta) == real_
  }

  /** The stored snapshot shows what the observed one shows. */
  ghost predicate Mirrors(stored: FlowSnapshot, seen: FlowSnapshot) {
    && stored.runId == seen.runId && stored.name == seen.name && stored.state == seen.state
    && stored.bookId == seen.bookId
    && stored.atoms.Keys == seen.atoms.Keys
    && (forall k :: k in seen.atoms ==> SameAtom(stored.atoms[k], seen.atoms[k]))
  }

  /** Atoms are filed under their own names. */
  ghost predicate WellNamed(s: FlowSnapshot) {
    forall k :: k in s.atoms ==> s.atoms[k].name == k
  }

  /**
   What one atom's change may be for the events to carry it. Nothing can be unlearned; an
   atom's identity travels only with an event of its own; failures and results travel only
   with a change of state.
   */
  predicate AtomCarried(before: AtomSnapshot, current: AtomSnapshot) {
    var moved := before.state != current.state;
    var reported := moved || ProgressChanged(Some(before), current);
    && (if reported then
          && (before.uuid.Some? ==> current.uuid.Some?)
          && (before.intention.Some? ==> current.intention.Some?)
        else
          before.uuid == current.uuid && before.intention == current.intention && before.atomType == current.atomType)
    && (if moved then
          && (before.failure.Some? ==> current.failure.Some?)
          && (before.revertFailure.Some? ==> current.revertFailure.Some?)
          && (before.hasResult ==> current.hasResult)
        else
          && before.failure == current.failure && before.revertFailure == current.revertFailure
          && before.hasResult == current.hasResult)
  }

  /** What the change between two snapshots of a run may be for the events to carry it. */
  ghost predicate Carried(was: FlowSnapshot, now: FlowSnapshot) {
    && was.name == now.name && was.bookId == now.bookId
    && was.atoms.Keys <= now.atoms.Keys
    && (forall k :: k in was.atoms ==> AtomCarried(was.atoms[k], now.atoms[k]))
  }

  // ----- numbers and stamps do not matter --------------------------------------------

  function Undated(f: FlowSnapshot): FlowSnapshot {
    f.(observedAt := 0.0)
  }

  lemma {:induction false} StampsDoNotMatter(f: FlowSnapshot, g: FlowSnapshot, a: seq<Event>, b: seq<Event>)
    requires Undated(f) == Undated(g) && |a| == |b|
    requires forall i :: 0 <= i < |a| ==> a[i].(seqNo := 0, ts := 0.0) == b[i].(seqNo := 0, ts := 0.0)
    ensures Undated(FoldAll(f, a)) == Undated(FoldAll(g, b))
    decreases |a|
  {
    if a != [] {
      assert a[0].(seqNo := 0, ts := 0.0) == b[0].(seqNo := 0, ts := 0.0);
      StampsDoNotMatter(Fold(f, a[0]), Fold(g, b[0]), a[1..], b[1..]);
    }
  }

  // ----- the effect of a diff ----------------------------------------------------------

  /** One atom after its own events. */
  function AtomAfter(stored: Option<AtomSnapshot>, flow: FlowSnapshot, before: Option<AtomSnapshot>,
                     current: AtomSnapshot): Option<AtomSnapshot>
  {
    var moved := if StateChanged(before, current)
                 then Some(FoldAtom(stored, AtomStateEvent(flow, before, current), current.name)) else stored;
    if ProgressChanged(before, current)
    then Some(FoldAtom(moved, AtomProgressEvent(flow, current), current.name)) else moved
  }

  lemma FoldOne(f: FlowSnapshot, e: Event)
    ensures FoldAll(f, [e]) == Fold(f, e)
  {
    assert [e][1..] == [];
  }

  /** A flow that differs from another in date and in what it says of the given atoms only. */
  ghost predicate OnlyAtoms(g: FlowSnapshot, f: FlowSnapshot) {
    g.(observedAt := f.observedAt, atoms := f.atoms) == f
  }

  lemma FoldOneAtom(f: FlowSnapshot, flow: FlowSnapshot, before: Option<AtomSnapshot>, current: AtomSnapshot)
    ensures var g := FoldAll(f, EventsOfAtom(flow, before, current));
            && OnlyAtoms(g, f)
            && AtomIn(g, current.name) == AtomAfter(AtomIn(f, current.name), flow, before, current)
            && (forall k :: k != current.name ==> AtomIn(g, k) == AtomIn(f, k))
  {
    var first := if StateChanged(before, current) then [AtomStateEvent(flow, before, current)] else [];
    var second := if ProgressChanged(before, current) then [AtomProgressEvent(flow, current)] else [];
    FoldAllConcat(f, first, second);
    if first != [] { FoldOne(f, first[0]); }
    if second != [] { FoldOne(FoldAll(f, first), second[0]); }
  }

  lemma {:induction false} FoldAtoms(f: FlowSnapshot, was: Option<FlowSnapshot>, now: FlowSnapshot, names: seq<string>)
    requires WellNamed(now) && Distinct(names) && forall n :: n in names ==> n in now.atoms
    ensures var g := FoldAll(f, AtomEvents(was, now, names));
            && OnlyAtoms(g, f)
            && (forall k :: AtomIn(g, k) == if k in names
                            then AtomAfter(AtomIn(f, k), now, AtomBefore(was, k), now.atoms[k]) else AtomIn(f, k))
    decreases |names|
  {
    hide FoldAll, AtomAfter, EventsOfAtom, AtomBefore, Distinct;
    if names == [] {
      FoldNone(f);
    } else {
      var front, last := names[..|names| - 1], names[|names| - 1];
      assert names == front + [last];
      DistinctFront(front, last);
      FoldAtoms(f, was, now, front);
      var h := FoldAll(f, AtomEvents(was, now, front));
      FoldAllConcat(f, AtomEvents(was, now, front), EventsOfAtom(now, AtomBefore(was, last), now.atoms[last]));
      FoldOneAtom(h, now, AtomBefore(was, last), now.atoms[last]);
    }
  }

  lemma FoldNone(f: FlowSnapshot)
    ensures FoldAll(f, []) == f
  {
  }

  lemma DistinctFront(front: seq<string>, last: string)
    requires Distinct(front + [last])
    ensures Distinct(front) && last !in front
  {
    var s := front + [last];
    DistinctPairs(s);
    DistinctPairs(front);
    forall i | 0 <= i < |front| ensures front[i] != last {
      assert s[i] != s[|front|];
    }
    forall i, j | 0 <= i < j < |front| ensures front[i] != front[j] {
      assert s[i] != s[j];
    }
  }

  lemma FoldFlowEvents(f: FlowSnapshot, was: Option<FlowSnapshot>, now: FlowSnapshot)
    ensures FlowToldOf(FoldAll(f, FlowEvents(was, now)), f, was, now)
  {
    if FlowEvents(was, now) != [] { FoldOne(f, FlowEvents(was, now)[0]); }
  }

  lemma NamesDistinct(now: FlowSnapshot)
    ensures Distinct(now.AtomNames())
  {
    SortedNamesAscend(now.atoms.Keys);
  }

  lemma StampsAside(f: FlowSnapshot, was: Option<FlowSnapshot>, now: FlowSnapshot, last: int, ts: real)
    ensures Undated(FoldAll(f, Diff(was, now, last, ts))) == Undated(FoldAll(f, Unstamped(was, now)))
  {
    hide FoldAll, Unstamped;
    StampsDoNotMatter(f, f, Diff(was, now, last, ts), Unstamped(was, now));
  }

  /** What a snapshot becomes, field by field and atom by atom, when told of `was` -> `now`. */
  ghost predicate ToldOf(g: FlowSnapshot, f: FlowSnapshot, was: Option<FlowSnapshot>, now: FlowSnapshot) {
    && g.runId == f.runId && g.bookId == f.bookId && g.bookName == f.bookName
    && g.state == (if was.Some? && was.value.state == now.state then f.state else now.state)
    && g.name == (if was.None? && now.name != "" then now.name else f.name)
    && (forall k :: AtomIn(g, k) == if k in now.atoms
                    then AtomAfter(AtomIn(f, k), now, AtomBefore(was, k), now.atoms[k]) else AtomIn(f, k))
  }

  /** The same for the flow's own event alone. */
  ghost predicate FlowToldOf(g: FlowSnapshot, f: FlowSnapshot, was: Option<FlowSnapshot>, now: FlowSnapshot) {
    && g.(observedAt := f.observedAt, name := f.name, state := f.state) == f
    && g.state == (if was.Some? && was.value.state == now.state then f.state else now.state)
    && g.name == (if was.None? && now.name != "" then now.name else f.name)
  }

  /** The same for the atoms' events alone. */
  ghost predicate AtomsToldOf(g: FlowSnapshot, f: FlowSnapshot, was: Option<FlowSnapshot>, now: FlowSnapshot) {
    && OnlyAtoms(g, f)
    && (forall k :: AtomIn(g, k) == if k in now.atoms
                    then AtomAfter(AtomIn(f, k), now, AtomBefore(was, k), now.atoms[k]) else AtomIn(f, k))
  }

  lemma BothToldOf(f: FlowSnapshot, h: FlowSnapshot, g: FlowSnapshot, was: Option<FlowSnapshot>, now: FlowSnapshot)
    requires (FlowToldOf(h, f, was, now) && AtomsToldOf(g, h, was, now))
          || (AtomsToldOf(h, f, was, now) && FlowToldOf(g, h, was, now))
    ensures ToldOf(g, f, was, now)
  {
    hide AtomAfter, AtomBefore;
    if FlowToldOf(h, f, was, now) && AtomsToldOf(g, h, was, now) {
      assert forall k :: AtomIn(h, k) == AtomIn(f, k);
    } else {
      assert forall k :: AtomIn(g, k) == AtomIn(h, k);
    }
  }

  lemma FoldAllAtoms(f: FlowSnapshot, was: Option<FlowSnapshot>, now: FlowSnapshot)
    requires WellNamed(now)
    ensures AtomsToldOf(FoldAll(f, AtomEvents(was, now, now.AtomNames())), f, was, now)
  {
    hide FoldAll, AtomEvents, AtomAfter, WellNamed, Distinct, SortedNames;
    NamesDistinct(now);
    FoldAtoms(f, was, now, now.AtomNames());
  }

  lemma UnstampedEffect(f: FlowSnapshot, was: Option<FlowSnapshot>, now: FlowSnapshot)
    requires WellNamed(now)
    ensures ToldOf(FoldAll(f, Unstamped(was, now)), f, was, now)
  {
    hide FoldAll, AtomEvents, FlowEvents, WellNamed, ToldOf, AtomsToldOf;
    var atoms, flow := AtomEvents(was, now, now.AtomNames()), FlowEvents(was, now);
    if now.IsFinished() {
      FoldAllConcat(f, atoms, flow);
      FoldAllAtoms(f, was, now);
      FoldFlowEvents(FoldAll(f, atoms), was, now);
      BothToldOf(f, FoldAll(f, atoms), FoldAll(f, atoms + flow), was, now);
    } else {
      FoldAllConcat(f, flow, atoms);
      FoldFlowEvents(f, was, now);
      FoldAllAtoms(FoldAll(f, flow), was, now);
      BothToldOf(f, FoldAll(f, flow), FoldAll(f, flow + atoms), was, now);
    }
  }

  /** What folding a diff onto any snapshot at all leaves. */
  lemma DiffEffect(f: FlowSnapshot, was: Option<FlowSnapshot>, now: FlowSnapshot, last: int, ts: real)
    requires WellNamed(now)
    ensures ToldOf(FoldAll(f, Diff(was, now, last, ts)), f, was, now)
  {
    hide Diff, Unstamped, FoldAll, AtomAfter, WellNamed;
    StampsAside(f, was, now, last, ts);
    UnstampedEffect(f, was, now);
    SameApartFromTime(FoldAll(f, Diff(was, now, last, ts)), FoldAll(f, Unstamped(was, now)));
    assert forall k :: AtomIn(FoldAll(f, Diff(was, now, last, ts)), k) == AtomIn(FoldAll(f, Unstamped(was, now)), k);
  }

  lemma SameApartFromTime(g: FlowSnapshot, h: FlowSnapshot)
    requires Undated(g) == Undated(h)
    ensures g == h.(observedAt := g.observedAt)
  {
  }

  // ----- one step -----------------------------------------------------------------------

  /** An atom known before comes out right exactly when its change is one the events carry. */
  lemma AtomStep(stored: AtomSnapshot, flow: FlowSnapshot, before: AtomSnapshot, current: AtomSnapshot)
    requires SameAtom(stored, before) && before.name == current.name
    ensures AtomAfter(Some(stored), flow, Some(before), current).Some?
    ensures SameAtom(AtomAfter(Some(stored), flow, Some(before), current).value, current)
       <==> AtomCarried(before, current)
  {
  }

  /** An atom seen for the first time always comes out right. */
  lemma NewAtomStep(flow: FlowSnapshot, current: AtomSnapshot)
    ensures AtomAfter(None, flow, None, current).Some?
    ensures SameAtom(AtomAfter(None, flow, None, current).value, current)
  {
  }

  /**
   Folding a diff onto a snapshot that mirrors the old side gives one that mirrors the new
   side, exactly when the change is one the events can carry.
   */
  lemma StepRoundTrip(stored: FlowSnapshot, was: FlowSnapshot, now: FlowSnapshot, last: int, ts: real)
    requires WellNamed(was) && WellNamed(now) && was.runId == now.runId
    requires Mirrors(stored, was)
    ensures Mirrors(FoldAll(stored, Diff(Some(was), now, last, ts)), now) <==> Carried(was, now)
  {
    hide Diff, FoldAll, AtomAfter, AtomCarried;
    var g := FoldAll(stored, Diff(Some(was), now, last, ts));
    DiffEffect(stored, Some(was), now, last, ts);
    forall k | k in now.atoms
      ensures k in g.atoms
      ensures SameAtom(g.atoms[k], now.atoms[k]) <==> (k in was.atoms ==> AtomCarried(was.atoms[k], now.atoms[k]))
    {
      assert AtomIn(g, k) == AtomAfter(AtomIn(stored, k), now, AtomBefore(Some(was), k), now.atoms[k]);
      if k in was.atoms {
        AtomStep(stored.atoms[k], now, was.atoms[k], now.atoms[k]);
      } else {
        NewAtomStep(now, now.atoms[k]);
      }
    }
    forall k | k !in now.atoms ensures k in g.atoms <==> k in was.atoms {
      assert AtomIn(g, k) == AtomIn(stored, k);
    }
  }

  /** The first observation of a run is reproduced without any condition. */
  lemma FirstRoundTrip(now: FlowSnapshot, last: int, ts: real)
    requires WellNamed(now)
    ensures var events := Diff(None, now, last, ts);
            && events != []
            && Mirrors(FoldAll(FlowFromEvent(events[0]), events), now)
            && (FoldAll(FlowFromEvent(events[0]), events).bookName == now.bookName
                <==> !now.IsFinished() || now.atoms == map[] || now.bookName.None?)
  {
    var events := Diff(None, now, last, ts);
    var seed := FlowFromEvent(events[0]);
    FirstEvent(now, last, ts);
    DiffEffect(seed, None, now, last, ts);
    var g := FoldAll(seed, events);
    forall k ensures k in g.atoms <==> k in now.atoms {
      assert AtomIn(g, k) == if k in now.atoms
        then AtomAfter(AtomIn(seed, k), now, AtomBefore(None, k), now.atoms[k]) else AtomIn(seed, k);
      if k in now.atoms { NewAtomStep(now, now.atoms[k]); }
    }
    forall k | k in now.atoms ensures SameAtom(g.atoms[k], now.atoms[k]) {
      assert AtomIn(g, k) == AtomAfter(AtomIn(seed, k), now, AtomBefore(None, k), now.atoms[k]);
      NewAtomStep(now, now.atoms[k]);
    }
  }

  /** The first event of a run is the flow's own, unless the run was first seen finished and with atoms. */
  lemma FirstEvent(now: FlowSnapshot, last: int, ts: real)
    ensures var events := Diff(None, now, last, ts);
            && events != [] && events[0].runId == now.runId && events[0].bookId == now.bookId
            && (if now.IsFinished() && now.atoms != map[]
                then events[0].details.flowName == None && events[0].details.bookName == None
                else events[0].details.flowName == Some(now.name) && events[0].details.bookName == now.bookName)
  {
    var names := now.AtomNames();
    if now.atoms == map[] {
      assert |names| == |now.atoms.Keys|;
    } else {
      assert names != [] by { var k :| k in now.atoms; assert k in names; }
      FirstAtomEvent(now, names);
    }
  }

  lemma {:induction false} FirstAtomEvent(now: FlowSnapshot, names: seq<string>)
    requires names != [] && forall n :: n in names ==> n in now.atoms
    ensures AtomEvents(None, now, names) != []
    ensures var e := AtomEvents(None, now, names)[0];
            IsAtomEvent(e) && e.runId == now.runId && e.bookId == now.bookId
            && e.details.flowName == None && e.details.bookName == None
  {
    if |names| > 1 {
      FirstAtomEvent(now, names[..|names| - 1]);
    }
  }

  // ----- from any store -----------------------------------------------------------------

  /**
   When one atom of a store in any condition comes out right. An atom the diff does not report
   must be right already; one it does report must hold nothing the diff leaves alone and the
   snapshot lacks.
   */
  predicate AtomHeals(stored: Option<AtomSnapshot>, before: Option<AtomSnapshot>, current: AtomSnapshot) {
    var moved, progressed := StateChanged(before, current), ProgressChanged(before, current);
    var a := stored.GetOr(NewAtom(current.name));
    if !moved && !progressed then stored.Some? && SameAtom(a, current)
    else
      && a.name == current.name
      && (a.uuid.Some? ==> current.uuid.Some?) && (a.intention.Some? ==> current.intention.Some?)
      && (progressed || a.progressDetails == current.progressDetails)
      && (if moved then
            && (a.failure == current.failure || News(FailureOf(before), current.failure).Some?)
            && (a.revertFailure == current.revertFailure
                || News(RevertFailureOf(before), current.revertFailure).Some?)
            && (a.hasResult ==> current.hasResult)
          else
            && a.state == current.state && a.failure == current.failure
            && a.revertFailure == current.revertFailure && a.hasResult == current.hasResult)
  }

  function FailureOf(before: Option<AtomSnapshot>): Option<Payload> {
    if before.Some? then before.value.failure else None
  }

  function RevertFailureOf(before: Option<AtomSnapshot>): Option<Payload> {
    if before.Some? then before.value.revertFailure else None
  }

  /** When a stored snapshot in any condition is put right by the diff between two others. */
  ghost predicate Heals(f: FlowSnapshot, was: Option<FlowSnapshot>, now: FlowSnapshot) {
    && f.runId == now.runId && f.bookId == now.bookId
    && (f.name == now.name || (was.None? && now.name != ""))
    && (f.state == now.state || was.None? || was.value.state != now.state)
    && f.atoms.Keys <= now.atoms.Keys
    && (forall k :: k in now.atoms ==> AtomHeals(AtomIn(f, k), AtomBefore(was, k), now.atoms[k]))
  }

  lemma AtomHealsExactly(stored: Option<AtomSnapshot>, flow: FlowSnapshot, before: Option<AtomSnapshot>,
                         current: AtomSnapshot)
    ensures AtomHeals(stored, before, current)
       <==> var after := AtomAfter(stored, flow, before, current); after.Some? && SameAtom(after.value, current)
  {
  }

  /** Folding a diff onto any snapshot whatever mirrors the new side exactly when it heals it. */
  lemma HealsExactly(f: FlowSnapshot, was: Option<FlowSnapshot>, now: FlowSnapshot, last: int, ts: real)
    requires WellNamed(now)
    ensures Mirrors(FoldAll(f, Diff(was, now, last, ts)), now) <==> Heals(f, was, now)
  {
    hide Diff, FoldAll, AtomAfter, AtomHeals;
    var g := FoldAll(f, Diff(was, now, last, ts));
    DiffEffect(f, was, now, last, ts);
    forall k | k in now.atoms
      ensures AtomHeals(AtomIn(f, k), AtomBefore(was, k), now.atoms[k])
         <==> k in g.atoms && SameAtom(g.atoms[k], now.atoms[k])
    {
      assert AtomIn(g, k) == AtomAfter(AtomIn(f, k), now, AtomBefore(was, k), now.atoms[k]);
      AtomHealsExactly(AtomIn(f, k), now, AtomBefore(was, k), now.atoms[k]);
    }
    forall k | k !in now.atoms ensures k in g.atoms <==> k in f.atoms {
      assert AtomIn(g, k) == AtomIn(f, k);
    }
  }

  /** Only what a snapshot shows matters to whether it is healed. */
  lemma HealsByLooks(f: FlowSnapshot, x: FlowSnapshot, was: Option<FlowSnapshot>, now: FlowSnapshot)
    requires Mirrors(f, x)
    ensures Heals(f, was, now) <==> Heals(x, was, now)
  {
    hide AtomHeals;
    forall k | k in now.atoms
      ensures AtomHeals(AtomIn(f, k), AtomBefore(was, k), now.atoms[k])
         <==> AtomHeals(AtomIn(x, k), AtomBefore(was, k), now.atoms[k])
    {
      if k in x.atoms { AtomHealsByLooks(f.atoms[k], x.atoms[k], AtomBefore(was, k), now.atoms[k]); }
    }
  }

  lemma AtomHealsByLooks(a: AtomSnapshot, x: AtomSnapshot, before: Option<AtomSnapshot>, current: AtomSnapshot)
    requires SameAtom(a, x)
    ensures AtomHeals(Some(a), before, current) <==> AtomHeals(Some(x), before, current)
  {
  }

  /** A snapshot that already shows the new side stays right, whatever the diff was taken from. */
  lemma HealsWhenRight(f: FlowSnapshot, was: Option<FlowSnapshot>, now: FlowSnapshot)
    requires Mirrors(f, now)
    ensures Heals(f, was, now)
  {
    forall k | k in now.atoms ensures AtomHeals(AtomIn(f, k), AtomBefore(was, k), now.atoms[k]) {
      assert SameAtom(f.atoms[k], now.atoms[k]);
    }
  }

  /** Folding a diff once does not change whether folding it again would heal. */
  lemma HealsTwice(f: FlowSnapshot, was: Option<FlowSnapshot>, now: FlowSnapshot, last: int, ts: real)
    requires WellNamed(now)
    ensures Heals(FoldAll(f, Diff(was, now, last, ts)), was, now) <==> Heals(f, was, now)
  {
    hide Diff, FoldAll, Heals, Mirrors, WellNamed;
    var events := Diff(was, now, last, ts);
    HealsExactly(f, was, now, last, ts);
    HealsExactly(FoldAll(f, events), was, now, last, ts);
    ReplayIdempotent(f, [], events);
    assert [] + events == events;
  }

  /** From a snapshot that shows the old side, to be healed is to be carried. */
  lemma HealsWhenCarried(f: FlowSnapshot, was: FlowSnapshot, now: FlowSnapshot)
    requires WellNamed(was) && WellNamed(now) && was.runId == now.runId && Mirrors(f, was)
    ensures Heals(f, Some(was), now) <==> Carried(was, now)
  {
    hide Diff, FoldAll, Heals, Carried, Mirrors;
    HealsExactly(f, Some(was), now, 0, 0.0);
    StepRoundTrip(f, was, now, 0, 0.0);
  }

  /** A snapshot that has not changed since heals nothing: what is right stays right, what is wrong wrong. */
  lemma NothingToHeal(f: FlowSnapshot, now: FlowSnapshot)
    ensures Heals(f, Some(now), now) <==> Mirrors(f, now)
  {
    forall k | k in now.atoms
      ensures AtomHeals(AtomIn(f, k), AtomBefore(Some(now), k), now.atoms[k])
         <==> k in f.atoms && SameAtom(f.atoms[k], now.atoms[k])
    {
    }
  }

  // ----- timelines ------------------------------------------------------------------------

  /** The batches of a timeline: each snapshot diffed against the one before, numbered on. */
  function Batches(was: Option<FlowSnapshot>, timeline: seq<FlowSnapshot>, last: int): seq<seq<Event>>
    decreases |timeline|
  {
    if timeline == [] then []
    else
      var events := Diff(was, timeline[0], last, timeline[0].observedAt);
      [events] + Batches(Some(timeline[0]), timeline[1..], last + |events|)
  }

  function Flatten(batches: seq<seq<Event>>): seq<Event> {
    if batches == [] then [] else batches[0] + Flatten(batches[1..])
  }

  /** What is stored after each batch. */
  function Trail(stored: FlowSnapshot, batches: seq<seq<Event>>): (trail: seq<FlowSnapshot>)
    ensures |trail| == |batches|
    decreases |batches|
  {
    if batches == [] then []
    else [FoldAll(stored, batches[0])] + Trail(FoldAll(stored, batches[0]), batches[1..])
  }

  lemma {:induction false} TrailEnd(stored: FlowSnapshot, batches: seq<seq<Event>>)
    requires batches != []
    ensures Trail(stored, batches)[|batches| - 1] == FoldAll(stored, Flatten(batches))
    decreases |batches|
  {
    var next := FoldAll(stored, batches[0]);
    FoldAllConcat(stored, batches[0], Flatten(batches[1..]));
    if |batches| > 1 {
      TrailEnd(next, batches[1..]);
    } else {
      assert batches[1..] == [] && Flatten(batches[1..]) == [];
    }
  }

  ghost predicate OneRun(timeline: seq<FlowSnapshot>) {
    && (forall i :: 0 <= i < |timeline| ==> WellNamed(timeline[i]))
    && (forall i :: 0 < i < |timeline| ==> timeline[i].runId == timeline[0].runId)
  }

  /** Every change along a timeline is one the events can carry. */
  ghost predicate AllCarried(timeline: seq<FlowSnapshot>) {
    forall i :: 0 < i < |timeline| ==> Carried(timeline[i - 1], timeline[i])
  }

  /** What is stored mirrors what was seen, at every point. */
  ghost predicate AllMirrored(trail: seq<FlowSnapshot>, seen: seq<FlowSnapshot>)
    requires |trail| == |seen|
  {
    forall i :: 0 <= i < |seen| ==> Mirrors(trail[i], seen[i])
  }

  lemma {:induction false} BatchCount(was: Option<FlowSnapshot>, timeline: seq<FlowSnapshot>, last: int)
    ensures |Batches(was, timeline, last)| == |timeline|
    decreases |timeline|
  {
    hide Diff;
    if timeline != [] {
      BatchCount(Some(timeline[0]), timeline[1..], last + |Diff(was, timeline[0], last, timeline[0].observedAt)|);
    }
  }

  lemma {:induction false} TrailRoundTrip(stored: FlowSnapshot, was: FlowSnapshot, rest: seq<FlowSnapshot>, last: int)
    requires OneRun([was] + rest) && Mirrors(stored, was)
    ensures |Batches(Some(was), rest, last)| == |rest|
    ensures AllMirrored(Trail(stored, Batches(Some(was), rest, last)), rest) <==> AllCarried([was] + rest)
    decreases |rest|
  {
    hide Diff;
    BatchCount(Some(was), rest, last);
    if rest != [] {
      assert ([was] + rest)[1] == rest[0];
      StepRoundTrip(stored, was, rest[0], last, rest[0].observedAt);
      TrailStep(stored, was, rest, last, Diff(Some(was), rest[0], last, rest[0].observedAt));
    }
  }

  lemma {:induction false} TrailStep(stored: FlowSnapshot, was: FlowSnapshot, rest: seq<FlowSnapshot>, last: int,
                                     events: seq<Event>)
    requires rest != [] && OneRun([was] + rest)
    requires Batches(Some(was), rest, last) == [events] + Batches(Some(rest[0]), rest[1..], last + |events|)
    requires |Batches(Some(was), rest, last)| == |rest|
    requires Mirrors(FoldAll(stored, events), rest[0]) <==> Carried(was, rest[0])
    ensures AllMirrored(Trail(stored, Batches(Some(was), rest, last)), rest) <==> AllCarried([was] + rest)
    decreases |rest|, 0
  {
    hide Diff, FoldAll, Mirrors, Carried, Trail, Batches, OneRun, AllCarried, AllMirrored;
    var next, batches := FoldAll(stored, events), Batches(Some(rest[0]), rest[1..], last + |events|);
    TrailHead(stored, events, batches);
    CarriedHead(was, rest);
    MirroredHead(next, Trail(next, batches), rest);
    if Carried(was, rest[0]) {
      assert [rest[0]] + rest[1..] == rest;
      OneRunTail(was, rest);
      TrailRoundTrip(next, rest[0], rest[1..], last + |events|);
    }
  }

  lemma TrailHead(stored: FlowSnapshot, events: seq<Event>, batches: seq<seq<Event>>)
    ensures Trail(stored, [events] + batches) == [FoldAll(stored, events)] + Trail(FoldAll(stored, events), batches)
  {
    assert ([events] + batches)[1..] == batches;
  }

  lemma OneRunTail(was: FlowSnapshot, rest: seq<FlowSnapshot>)
    requires OneRun([was] + rest)
    ensures OneRun(rest)
  {
    forall i | 0 <= i < |rest| ensures WellNamed(rest[i]) && rest[i].runId == was.runId {
      assert rest[i] == ([was] + rest)[i + 1];
    }
  }

  lemma CarriedHead(was: FlowSnapshot, rest: seq<FlowSnapshot>)
    requires rest != []
    ensures AllCarried([was] + rest) <==> Carried(was, rest[0]) && AllCarried(rest)
  {
    var whole := [was] + rest;
    if AllCarried(whole) {
      assert Carried(whole[1 - 1], whole[1]);
      forall i | 0 < i < |rest| ensures Carried(rest[i - 1], rest[i]) {
        assert Carried(whole[i + 1 - 1], whole[i + 1]);
      }
    }
    if Carried(was, rest[0]) && AllCarried(rest) {
      forall i | 0 < i < |whole| ensures Carried(whole[i - 1], whole[i]) {
        if i > 1 { assert Carried(rest[i - 1 - 1], rest[i - 1]); }
      }
    }
  }

  lemma MirroredHead(next: FlowSnapshot, tail: seq<FlowSnapshot>, rest: seq<FlowSnapshot>)
    requires rest != [] && |tail| == |rest| - 1
    ensures AllMirrored([next] + tail, rest) <==> Mirrors(next, rest[0]) && AllMirrored(tail, rest[1..])
  {
    if AllMirrored([next] + tail, rest) {
      assert Mirrors(([next] + tail)[0], rest[0]);
      forall i | 0 <= i < |tail| ensures Mirrors(tail[i], rest[1..][i]) {
        assert Mirrors(([next] + tail)[i + 1], rest[i + 1]);
      }
    }
    if Mirrors(next, rest[0]) && AllMirrored(tail, rest[1..]) {
      forall i | 0 <= i < |rest| ensures Mirrors(([next] + tail)[i], rest[i]) {
        if i > 0 { assert Mirrors(tail[i - 1], rest[1..][i - 1]); }
      }
    }
  }

  /** What a store holds after each batch of a run it had never heard of. */
  function History(batches: seq<seq<Event>>): (trail: seq<FlowSnapshot>)
    requires batches != [] && batches[0] != []
    ensures |trail| == |batches|
  {
    Trail(FlowFromEvent(batches[0][0]), batches)
  }

  /**
   Whole timelines of one run, any length. Every snapshot along the way is reproduced as it
   comes, exactly when every change along the way is one the events can carry.
   */
  lemma TimelineRoundTrip(timeline: seq<FlowSnapshot>, last: int)
    requires timeline != [] && OneRun(timeline)
    ensures var batches := Batches(None, timeline, last);
            && |batches| == |timeline| && batches[0] != []
            && (AllMirrored(History(batches), timeline) <==> AllCarried(timeline))
  {
    hide Diff, FoldAll, FlowFromEvent, Mirrors, Carried, AllCarried, AllMirrored, Trail;
    var start, rest := timeline[0], timeline[1..];
    FirstRoundTrip(start, last, start.observedAt);
    var first := Diff(None, start, last, start.observedAt);
    var seeded := FoldAll(FlowFromEvent(first[0]), first);
    assert [start] + rest == timeline;
    TrailRoundTrip(seeded, start, rest, last + |first|);
    TimelineHead(timeline, last, first);
    MirroredHead(seeded, Trail(seeded, Batches(Some(start), rest, last + |first|)), timeline);
  }

  lemma TimelineHead(timeline: seq<FlowSnapshot>, last: int, first: seq<Event>)
    requires timeline != [] && first != []
    requires Batches(None, timeline, last) == [first] + Batches(Some(timeline[0]), timeline[1..], last + |first|)
    ensures History(Batches(None, timeline, last))
         == [FoldAll(FlowFromEvent(first[0]), first)]
            + Trail(FoldAll(FlowFromEvent(first[0]), first), Batches(Some(timeline[0]), timeline[1..], last + |first|))
  {
    assert Batches(None, timeline, last)[1..] == Batches(Some(timeline[0]), timeline[1..], last + |first|);
  }

  /** Folding all the diffs of a timeline the events can carry gives its last snapshot, in any store. */
  lemma TimelineEnd(timeline: seq<FlowSnapshot>, last: int)
    requires timeline != [] && OneRun(timeline) && AllCarried(timeline)
    ensures var stored := Sql.Snapshot(None, Flatten(Batches(None, timeline, last)));
            stored.Some? && Mirrors(stored.value, timeline[|timeline| - 1])
  {
    var batches := Batches(None, timeline, last);
    TimelineRoundTrip(timeline, last);
    TrailEnd(FlowFromEvent(batches[0][0]), batches);
    FlattenHead(batches);
    assert Mirrors(History(batches)[|timeline| - 1], timeline[|timeline| - 1]);
  }

  lemma FlattenHead(batches: seq<seq<Event>>)
    requires batches != [] && batches[0] != []
    ensures Flatten(batches) != [] && Flatten(batches)[0] == batches[0][0]
  {
  }

  /** The book's name survives a timeline exactly when the first snapshot let it through. */
  lemma BookNameRoundTrip(timeline: seq<FlowSnapshot>, last: int)
    requires timeline != [] && OneRun(timeline)
    ensures var stored := Sql.Snapshot(None, Flatten(Batches(None, timeline, last)));
            var start := timeline[0];
            && stored.Some?
            && (stored.value.bookName == start.bookName
                <==> !start.IsFinished() || start.atoms == map[] || start.bookName.None?)
  {
    var start := timeline[0];
    var batches := Batches(None, timeline, last);
    var first := Diff(None, start, last, start.observedAt);
    FirstEvent(start, last, start.observedAt);
    assert batches[0] == first;
    FlattenHead(batches);
    FoldAllIdentity(FlowFromEvent(first[0]), Flatten(batches));
  }

  // ----- the observation time lags -----------------------------------------------------------

  lemma {:induction false} OneStamp(f: FlowSnapshot, events: seq<Event>, ts: real)
    requires events != [] && forall e :: e in events ==> e.ts == ts
    ensures FoldAll(f, events).observedAt == Max(f.observedAt, ts)
    decreases |events|
  {
    assert events[0] in events;
    if |events| == 1 {
      FoldNone(Fold(f, events[0]));
    } else {
      assert forall e :: e in events[1..] ==> e in events;
      OneStamp(Fold(f, events[0]), events[1..], ts);
    }
  }

  /** A diff moves the observation time only when it has something to report. */
  lemma ObservedAfter(f: FlowSnapshot, was: Option<FlowSnapshot>, now: FlowSnapshot, last: int, ts: real)
    ensures var events := Diff(was, now, last, ts);
            FoldAll(f, events).observedAt == if events == [] then f.observedAt else Max(f.observedAt, ts)
  {
    hide AtomEvents, FlowEvents, FoldAll;
    var events := Diff(was, now, last, ts);
    if events == [] { FoldNone(f); } else { OneStamp(f, events, ts); }
  }

  ghost predicate TimeGoesOn(timeline: seq<FlowSnapshot>) {
    forall i, j :: 0 <= i < j < |timeline| ==> timeline[i].observedAt <= timeline[j].observedAt
  }

  /** The last of some batches that reports anything is number `j`. */
  ghost predicate LastReport(batches: seq<seq<Event>>, j: int) {
    0 <= j < |batches| && batches[j] != [] && forall i :: j < i < |batches| ==> batches[i] == []
  }

  lemma {:induction false} ObservedTrail(stored: FlowSnapshot, was: Option<FlowSnapshot>, rest: seq<FlowSnapshot>,
                                         last: int)
    requires TimeGoesOn(rest) && (rest != [] ==> stored.observedAt <= rest[0].observedAt)
    ensures var batches := Batches(was, rest, last);
            var end := FoldAll(stored, Flatten(batches)).observedAt;
            && |batches| == |rest|
            && (end == stored.observedAt || (rest != [] && end <= rest[|rest| - 1].observedAt))
            && (forall j :: LastReport(batches, j) ==> end == rest[j].observedAt)
            && ((forall j :: 0 <= j < |batches| ==> batches[j] == []) ==> end == stored.observedAt)
    decreases |rest|
  {
    hide Diff, FoldAll, Fold, Flatten;
    BatchCount(was, rest, last);
    var batches := Batches(was, rest, last);
    if rest == [] {
      FoldNone(stored);
      assert Flatten(batches) == [] by { FlattenNone(); }
    } else {
      var events := Diff(was, rest[0], last, rest[0].observedAt);
      var next, tail := FoldAll(stored, events), Batches(Some(rest[0]), rest[1..], last + |events|);
      ObservedAfter(stored, was, rest[0], last, rest[0].observedAt);
      assert next.observedAt <= rest[0].observedAt;
      ObservedTrail(next, Some(rest[0]), rest[1..], last + |events|);
      assert batches == [events] + tail;
      FlattenFirst(events, tail);
      FoldAllConcat(stored, events, Flatten(tail));
      forall j | LastReport(batches, j) ensures FoldAll(stored, Flatten(batches)).observedAt == rest[j].observedAt {
        LastReportOfTail(events, tail, j);
      }
      NothingInTail(events, tail);
    }
  }

  lemma LastReportOfTail(events: seq<Event>, tail: seq<seq<Event>>, j: int)
    requires LastReport([events] + tail, j)
    ensures if j > 0 then LastReport(tail, j - 1) else events != [] && forall i :: 0 <= i < |tail| ==> tail[i] == []
  {
    assert forall i :: 0 <= i < |tail| ==> tail[i] == ([events] + tail)[i + 1];
  }

  lemma NothingInTail(events: seq<Event>, tail: seq<seq<Event>>)
    ensures (forall j :: 0 <= j < |[events] + tail| ==> ([events] + tail)[j] == []) ==>
              events == [] && forall i :: 0 <= i < |tail| ==> tail[i] == []
  {
    assert ([events] + tail)[0] == events;
    assert forall i :: 0 <= i < |tail| ==> tail[i] == ([events] + tail)[i + 1];
  }

  lemma FlattenNone()
    ensures Flatten([]) == []
  {
  }

  lemma FlattenFirst(events: seq<Event>, tail: seq<seq<Event>>)
    ensures Flatten([events] + tail) == events + Flatten(tail)
  {
    assert ([events] + tail)[1..] == tail;
  }

  /**
   What a store fed from a timeline shows as its observation time is that of the last snapshot
   with anything to report: so it is the source's own exactly when that one is as recent as the last.
   */
  lemma TimelineObserved(timeline: seq<FlowSnapshot>, last: int, j: int)
    requires timeline != [] && TimeGoesOn(timeline) && LastReport(Batches(None, timeline, last), j)
    ensures var stored := Sql.Snapshot(None, Flatten(Batches(None, timeline, last)));
            && j < |timeline| && stored.Some?
            && stored.value.observedAt == timeline[j].observedAt
            && (stored.value.observedAt == timeline[|timeline| - 1].observedAt
                <==> timeline[j].observedAt == timeline[|timeline| - 1].observedAt)
  {
    hide Diff, FoldAll, Fold;
    var batches := Batches(None, timeline, last);
    var start := timeline[0];
    FirstEvent(start, last, start.observedAt);
    DiffStamp(start, last);
    assert batches[0] == Diff(None, start, last, start.observedAt);
    FlattenHead(batches);
    ObservedTrail(FlowFromEvent(batches[0][0]), None, timeline, last);
  }

  lemma DiffStamp(now: FlowSnapshot, last: int)
    ensures forall e :: e in Diff(None, now, last, now.observedAt) ==> e.ts == now.observedAt
  {
    hide AtomEvents, FlowEvents;
  }

  // ----- finishing comes last ----------------------------------------------------------------

  lemma {:induction false} StateComesFromEvents(f: FlowSnapshot, events: seq<Event>)
    ensures var g := FoldAll(f, events);
            g.state == f.state || exists e :: e in events && e.kind == FlowState && e.state == g.state
    decreases |events|
  {
    if events != [] {
      var h := Fold(f, events[0]);
      StateComesFromEvents(h, events[1..]);
      assert events == [events[0]] + events[1..];
      if FoldAll(f, events).state == h.state && h.state != f.state {
        assert events[0] in events && events[0].kind == FlowState;
      } else if FoldAll(f, events).state != h.state {
        var e :| e in events[1..] && e.kind == FlowState && e.state == FoldAll(h, events[1..]).state;
        assert e in events;
      }
    }
  }

  lemma {:induction false} AtomEventsAreAtomic(was: Option<FlowSnapshot>, now: FlowSnapshot, names: seq<string>)
    requires forall n :: n in names ==> n in now.atoms
    ensures forall e :: e in AtomEvents(was, now, names) ==> IsAtomEvent(e)
  {
    if names != [] {
      AtomEventsAreAtomic(was, now, names[..|names| - 1]);
    }
  }

  /** Where a flow's own event can stand in a list of events of both kinds. */
  lemma FlowEventPlace(atoms: seq<Event>, flow: seq<Event>, finished: bool, i: nat)
    requires forall e :: e in atoms ==> IsAtomEvent(e)
    requires |flow| <= 1 && i < |atoms| + |flow|
    ensures var all := if finished then atoms + flow else flow + atoms;
            all[i].kind == FlowState ==> flow != [] && all[i] == flow[0] && (finished ==> i == |all| - 1)
  {
    var all := if finished then atoms + flow else flow + atoms;
    var k := if finished then i else i - |flow|;
    if 0 <= k < |atoms| { assert all[i] == atoms[k] && atoms[k] in atoms; }
  }

  /** Until a batch has been folded to its very end, a flow that was not finished does not look finished. */
  lemma FinishComesLast(stored: FlowSnapshot, was: Option<FlowSnapshot>, now: FlowSnapshot, last: int, ts: real, n: nat)
    requires !stored.IsFinished() && (was.Some? ==> !was.value.IsFinished())
    requires n < |Diff(was, now, last, ts)|
    ensures !FoldAll(stored, Diff(was, now, last, ts)[..n]).IsFinished()
  {
    var events := Diff(was, now, last, ts);
    AtomEventsAreAtomic(was, now, now.AtomNames());
    StateComesFromEvents(stored, events[..n]);
    var g := FoldAll(stored, events[..n]);
    if g.state != stored.state {
      var e :| e in events[..n] && e.kind == FlowState && e.state == g.state;
      var i :| 0 <= i < n && events[i] == e;
      FlowEventPlace(AtomEvents(was, now, now.AtomNames()), FlowEvents(was, now), now.IsFinished(), i);
    }
  }
}
