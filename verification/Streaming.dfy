/**
 What a poll of a cursor emits, and what its whole stream looks like whatever happens to the
 store in between.
 */
module Streaming {
  import opened Wrappers
  import opened Models
  import opened Paging
  import Memory = MemoryStore

  /** What a cursor puts on the wire. */
  datatype StreamFrame = Gap(resumeFrom: Option<int>) | Item(event: Event) | End

  function Items(events: seq<Event>): seq<StreamFrame> {
    seq(|events|, i requires 0 <= i < |events| => Item(events[i]))
  }

  /** The frames for one page. */
  function PageFrames(page: EventPage): seq<StreamFrame> {
    (if page.truncated then [Gap(page.oldestSeq)] else []) + Items(page.events)
  }

  lemma NoEndInPage(page: EventPage)
    ensures End !in PageFrames(page)
  {
  }

  predicate Finished(flow: Option<FlowSnapshot>) {
    flow.Some? && flow.value.IsFinished()
  }

  class EventCursor {
    const runId: string
    const batchLimit: int
    var sinceSeq: int
    var complete: bool

    constructor (runId: string, sinceSeq: int, batchLimit: int)
      ensures this.runId == runId && this.sinceSeq == sinceSeq && this.batchLimit == batchLimit && !complete
    {
      this.runId, this.sinceSeq, this.batchLimit, complete := runId, sinceSeq, batchLimit, false;
    }

    /** The first read: the next page, and the frames for it. */
    method ReadPage(page: EventPage) returns (frames: seq<StreamFrame>)
      modifies this
      ensures frames == PageFrames(page)
      ensures sinceSeq == page.nextSeq && complete == old(complete)
    {
      frames := [];
      if page.truncated {
        frames := frames + [Gap(page.oldestSeq)];
      }
      var i := 0;
      while i < |page.events|
        invariant 0 <= i <= |page.events|
        invariant frames == (if page.truncated then [Gap(page.oldestSeq)] else []) + Items(page.events[..i])
        invariant sinceSeq == old(sinceSeq) && complete == old(complete)
      {
        assert Items(page.events[..i + 1]) == Items(page.events[..i]) + [Item(page.events[i])];
        frames := frames + [Item(page.events[i])];
        i := i + 1;
      }
      assert page.events[..|page.events|] == page.events;
      sinceSeq := page.nextSeq;
    }

    /** One poll, both reads of it against the same store: the page's frames, and `end` when that is due. */
    method Poll(reader: Memory.MemoryDataSource) returns (frames: seq<StreamFrame>)
      requires reader.Valid() && batchLimit >= 1
      modifies this
      ensures var page := Memory.StoredPage(reader.View(), runId, old(sinceSeq), batchLimit).value;
              var ends := page.events == [] && Finished(Memory.StoredFlow(reader.View(), runId));
              && frames == PageFrames(page) + (if ends then [End] else [])
              && sinceSeq == page.nextSeq
              && complete == (old(complete) || ends)
      ensures var page := Memory.StoredPage(reader.View(), runId, old(sinceSeq), batchLimit).value;
              var flow := Memory.StoredFlow(reader.View(), runId);
              && (End in frames <==>
                    && page.events == [] && flow.Some?
                    && flow.value.state in {Some("SUCCESS"), Some("FAILURE"), Some("REVERTED"), Some("SUSPENDED")})
              && (End in frames ==> complete && frames[|frames| - 1] == End)
    {
      hide PageOf, PageFrames, Memory.LogOf, Memory.WellFormed, Memory.ServedFrom;
      var page := reader.EventsSince(runId, sinceSeq, batchLimit);
      frames := ReadPage(page.value);
      NoEndInPage(page.value);
      if page.value.events == [] {
        var flow := reader.GetFlow(runId);
        if Finished(flow) {
          frames := frames + [End];
          complete := true;
        }
      }
    }
  }

  // ----- no silent gap ------------------------------------------------------------

  /**
   A stream that never skips in silence: from `prev` on, each event is numbered one more
   than the event before it, or follows at once a gap frame naming its number; a gap frame
   stands only before such a skip; nothing follows the end.
   */
  ghost predicate NoSilentGap(prev: int, frames: seq<StreamFrame>)
    decreases |frames|
  {
    if frames == [] then true
    else match frames[0]
      case End => frames[1..] == []
      case Item(e) => e.seqNo == prev + 1 && NoSilentGap(e.seqNo, frames[1..])
      case Gap(n) =>
        && |frames| >= 2 && frames[1].Item?
        && n == Some(frames[1].event.seqNo) && frames[1].event.seqNo > prev + 1
        && NoSilentGap(frames[1].event.seqNo, frames[2..])
  }

  /** The number of the last event of a stream. */
  function Position(prev: int, frames: seq<StreamFrame>): int
    decreases |frames|
  {
    if frames == [] then prev
    else Position(if frames[0].Item? then frames[0].event.seqNo else prev, frames[1..])
  }

  function EventsIn(frames: seq<StreamFrame>): seq<Event> {
    if frames == [] then []
    else (if frames[0].Item? then [frames[0].event] else []) + EventsIn(frames[1..])
  }

  lemma PositionPastGap(prev: int, frames: seq<StreamFrame>)
    requires |frames| >= 2 && frames[0].Gap? && frames[1].Item?
    ensures Position(prev, frames) == Position(frames[1].event.seqNo, frames[2..])
    ensures EventsIn(frames) == [frames[1].event] + EventsIn(frames[2..])
  {
    assert frames[1..][0] == frames[1] && frames[1..][1..] == frames[2..];
  }

  lemma {:induction false} GapsConcat(prev: int, a: seq<StreamFrame>, b: seq<StreamFrame>)
    requires NoSilentGap(prev, a) && End !in a && NoSilentGap(Position(prev, a), b)
    ensures NoSilentGap(prev, a + b) && Position(prev, a + b) == Position(Position(prev, a), b)
    decreases |a|
  {
    hide EventsIn;
    if a == [] {
      assert a + b == b;
    } else {
      assert (a + b)[1..] == a[1..] + b;
      assert forall f :: f in a[1..] ==> f in a;
      if a[0].Gap? {
        assert (a + b)[2..] == a[2..] + b && (a + b)[1] == a[1];
        PositionPastGap(prev, a);
        PositionPastGap(prev, a + b);
        assert forall f :: f in a[2..] ==> f in a;
        GapsConcat(a[1].event.seqNo, a[2..], b);
      } else {
        GapsConcat(a[0].event.seqNo, a[1..], b);
      }
    }
  }

  ghost predicate Increasing(prev: int, events: seq<Event>) {
    && (forall i :: 0 <= i < |events| ==> events[i].seqNo > prev)
    && (forall i, j :: 0 <= i < j < |events| ==> events[i].seqNo < events[j].seqNo)
  }

  lemma IncreasingPush(prev: int, e: Event, events: seq<Event>)
    requires e.seqNo > prev && Increasing(e.seqNo, events)
    ensures Increasing(prev, [e] + events)
  {
  }

  /** In such a stream the event numbers strictly increase, all beyond the starting point. */
  lemma {:induction false} NumbersIncrease(prev: int, frames: seq<StreamFrame>)
    requires NoSilentGap(prev, frames)
    ensures Increasing(prev, EventsIn(frames))
    ensures Position(prev, frames) >= prev
    decreases |frames|
  {
    if frames != [] {
      if frames[0].Item? {
        NumbersIncrease(frames[0].event.seqNo, frames[1..]);
        IncreasingPush(prev, frames[0].event, EventsIn(frames[1..]));
      } else if frames[0].Gap? {
        PositionPastGap(prev, frames);
        NumbersIncrease(frames[1].event.seqNo, frames[2..]);
        IncreasingPush(prev, frames[1].event, EventsIn(frames[2..]));
      }
    }
  }

  lemma {:induction false} RunOfItems(prev: int, events: seq<Event>)
    requires forall i :: 0 <= i < |events| ==> events[i].seqNo == prev + 1 + i
    ensures NoSilentGap(prev, Items(events))
    ensures Position(prev, Items(events)) == prev + |events|
    ensures EventsIn(Items(events)) == events
    decreases |events|
  {
    if events != [] {
      assert Items(events)[1..] == Items(events[1..]);
      RunOfItems(prev + 1, events[1..]);
    }
  }

  /** Whatever a log holds, the frames for a page of it never skip in silence. */
  lemma PageNoSilentGap(log: Log, sinceSeq: int, limit: nat)
    requires Paging.Keyed(log) && limit >= 1
    ensures var page := PageOf(log, sinceSeq, limit);
            && NoSilentGap(sinceSeq, PageFrames(page)) && End !in PageFrames(page)
            && Position(sinceSeq, PageFrames(page)) == page.nextSeq
            && EventsIn(PageFrames(page)) == page.events
  {
    var page := PageOf(log, sinceSeq, limit);
    var x := Expected(log, sinceSeq);
    forall i | 0 <= i < |page.events| ensures page.events[i].seqNo == x + i {
      StretchAt(log, x, i);
    }
    PageAdvances(log, sinceSeq, limit);
    RunOfItems(x - 1, page.events);
    var items := Items(page.events);
    if page.truncated {
      var frames := [Gap(page.oldestSeq)] + items;
      assert frames[1..] == items && frames[2..] == items[1..];
    } else {
      assert [] + items == items;
    }
  }

  // ----- a cursor among writers -------------------------------------------------------

  /** What can happen between, and during, the polls of one cursor. */
  datatype Action = Write(event: Event) | Forget(runId: string) | ReadEvents | AskFinished

  /** `asking` is set between the two reads of a poll that found nothing new. */
  datatype World = World(m: Memory.Mem, sinceSeq: int, asking: bool, complete: bool, sent: seq<StreamFrame>)

  datatype Setting = Setting(limits: Memory.Limits, runId: string, limit: nat)

  ghost predicate ValidSetting(c: Setting) {
    Memory.ValidLimits(c.limits) && c.limit >= 1
  }

  function Step(c: Setting, w: World, a: Action): World
    requires ValidSetting(c) && Memory.WellFormed(w.m)
  {
    match a
    case Write(e) => w.(m := Memory.ApplyEvent(c.limits, w.m, e))
    case Forget(r) => w.(m := Memory.Remove(w.m, r))
    case ReadEvents =>
      if w.complete || w.asking then w
      else
        var page := Memory.StoredPage(w.m, c.runId, w.sinceSeq, c.limit).value;
        w.(sinceSeq := page.nextSeq, asking := page.events == [], sent := w.sent + PageFrames(page))
    case AskFinished =>
      if !w.asking then w
      else if Finished(Memory.StoredFlow(w.m, c.runId)) then
        w.(asking := false, complete := true, sent := w.sent + [End])
      else w.(asking := false)
  }

  ghost predicate Sound(start: int, w: World) {
    && Memory.WellFormed(w.m)
    && NoSilentGap(start, w.sent)
    && Position(start, w.sent) == w.sinceSeq
    && (w.complete <==> End in w.sent)
    && (w.asking ==> !w.complete)
  }

  lemma StepSound(c: Setting, start: int, w: World, a: Action)
    requires ValidSetting(c) && Sound(start, w)
    ensures Sound(start, Step(c, w, a)) && Step(c, w, a).sinceSeq >= w.sinceSeq
    ensures w.sent <= Step(c, w, a).sent
  {
    hide NoSilentGap, Position, PageOf, PageFrames;
    match a {
      case Write(e) => Memory.ApplyWellFormed(c.limits, w.m, e);
      case Forget(r) => Memory.RemoveWellFormed(w.m, r);
      case ReadEvents =>
        if !w.complete && !w.asking {
          var log := Memory.LogOf(w.m, c.runId);
          if c.runId in w.m.runs { FirstArrivalsKeyed(w.m.runs[c.runId].events); }
          PageNoSilentGap(log, w.sinceSeq, c.limit);
          PageAdvances(log, w.sinceSeq, c.limit);
          GapsConcat(start, w.sent, PageFrames(PageOf(log, w.sinceSeq, c.limit)));
        }
      case AskFinished =>
        if w.asking {
          EndIsQuiet(w.sinceSeq);
          GapsConcat(start, w.sent, [End]);
        }
    }
  }

  lemma EndIsQuiet(prev: int)
    ensures NoSilentGap(prev, [End]) && Position(prev, [End]) == prev
  {
  }

  function Run(c: Setting, w: World, actions: seq<Action>): World
    requires ValidSetting(c) && Memory.WellFormed(w.m)
    decreases |actions|
  {
    if actions == [] then w
    else
      StepWellFormed(c, w, actions[0]);
      Run(c, Step(c, w, actions[0]), actions[1..])
  }

  lemma StepWellFormed(c: Setting, w: World, a: Action)
    requires ValidSetting(c) && Memory.WellFormed(w.m)
    ensures Memory.WellFormed(Step(c, w, a).m)
  {
    match a {
      case Write(e) => Memory.ApplyWellFormed(c.limits, w.m, e);
      case Forget(r) => Memory.RemoveWellFormed(w.m, r);
      case ReadEvents =>
      case AskFinished =>
    }
  }

  lemma {:induction false} RunSound(c: Setting, start: int, w: World, actions: seq<Action>)
    requires ValidSetting(c) && Sound(start, w)
    ensures Sound(start, Run(c, w, actions)) && Run(c, w, actions).sinceSeq >= w.sinceSeq
    decreases |actions|
  {
    hide Step, Sound;
    if actions != [] {
      SoundWellFormed(start, w);
      StepSound(c, start, w, actions[0]);
      RunSound(c, start, Step(c, w, actions[0]), actions[1..]);
    }
  }

  lemma SoundWellFormed(start: int, w: World)
    requires Sound(start, w)
    ensures Memory.WellFormed(w.m)
  {
  }

  /**
   Over every interleaving of writes in any order with any repeats, of eviction, of forgotten
   runs and of the two reads of each poll: the numbers a cursor emits strictly increase, its
   position never goes back (StepSound), every skip is announced by a gap frame naming the number it
   resumes from, and every gap frame announces a skip.
   */
  lemma CursorNeverSkipsInSilence(c: Setting, m: Memory.Mem, start: int, actions: seq<Action>)
    requires ValidSetting(c) && Memory.WellFormed(m)
    ensures var w := Run(c, World(m, start, false, false, []), actions);
            && NoSilentGap(start, w.sent)
            && Increasing(start, EventsIn(w.sent))
            && w.sinceSeq == Position(start, w.sent) >= start
  {
    RunSound(c, start, World(m, start, false, false, []), actions);
    NumbersIncrease(start, Run(c, World(m, start, false, false, []), actions).sent);
  }

  // ----- what an end means --------------------------------------------------------------

  predicate FoundFinished(flow: Option<FlowSnapshot>) {
    flow.Some? && flow.value.state in {Some("SUCCESS"), Some("FAILURE"), Some("REVERTED"), Some("SUSPENDED")}
  }

  /** The end is sent, and the cursor done, exactly when it asks after an empty page and the run has finished. */
  lemma StepEnds(c: Setting, w: World, a: Action)
    requires ValidSetting(c) && Memory.WellFormed(w.m) && !w.complete
    ensures var t := Step(c, w, a);
            && (t.complete <==> a.AskFinished? && w.asking && FoundFinished(Memory.StoredFlow(w.m, c.runId)))
            && (t.complete ==> t.sent == w.sent + [End] && !t.asking)
            && (t.asking && !w.asking ==>
                  a.ReadEvents? && Memory.StoredPage(w.m, c.runId, w.sinceSeq, c.limit).value.events == [])
            && (a.ReadEvents? && !w.asking ==>
                  (t.asking <==> Memory.StoredPage(w.m, c.runId, w.sinceSeq, c.limit).value.events == []))
            && (w.asking && !t.asking ==> a.AskFinished?)
            && (w.asking ==> t.sinceSeq == w.sinceSeq)
  {
    hide PageOf, Memory.WellFormed, Memory.ApplyEvent, Memory.LogOf;
  }

  /** At this moment of a run the cursor read, and found nothing. */
  ghost predicate ReadNothing(c: Setting, w: World, actions: seq<Action>, j: nat)
    requires ValidSetting(c) && Memory.WellFormed(w.m)
  {
    j < |actions| && actions[j].ReadEvents? &&
    (var v := Run(c, w, actions[..j]);
     Memory.StoredPage(v.m, c.runId, v.sinceSeq, c.limit).value.events == [])
  }

  /** At this moment of a run the cursor asked, and the store showed the run finished. */
  ghost predicate AskedFinished(c: Setting, w: World, actions: seq<Action>, i: nat)
    requires ValidSetting(c) && Memory.WellFormed(w.m)
  {
    i < |actions| && actions[i].AskFinished? &&
    FoundFinished(Memory.StoredFlow(Run(c, w, actions[..i]).m, c.runId))
  }

  /**
   In every interleaving with writers: a cursor that is done read at some moment and found nothing, and at
   some later one asked and found the run finished, and its stream stands at the end sent then.
   */
  lemma {:induction false} EndWasDue(c: Setting, w: World, actions: seq<Action>) returns (j: nat, i: nat)
    requires ValidSetting(c) && Memory.WellFormed(w.m) && !w.complete && Run(c, w, actions).complete
    ensures AskedFinished(c, w, actions, i)
    ensures w.asking || (j < i && ReadNothing(c, w, actions, j))
    ensures Run(c, w, actions).sent == Run(c, w, actions[..i]).sent + [End]
    decreases |actions|
  {
    hide Step, Memory.WellFormed, PageOf;
    assert actions != [];
    var t := Step(c, w, actions[0]);
    StepWellFormed(c, w, actions[0]);
    StepEnds(c, w, actions[0]);
    assert actions[..0] == [];
    if t.complete {
      j, i := 0, 0;
      DoneStays(c, t, actions[1..]);
    } else {
      j, i := EndWasDue(c, t, actions[1..]);
      Later(c, w, actions, j);
      Later(c, w, actions, i);
      if t.asking && !w.asking { j, i := 0, i + 1; } else { j, i := j + 1, i + 1; }
    }
  }

  /** What holds at a moment of the rest of a run holds a step later of the whole. */
  lemma Later(c: Setting, w: World, actions: seq<Action>, n: nat)
    requires ValidSetting(c) && Memory.WellFormed(w.m) && actions != []
    ensures Memory.WellFormed(Step(c, w, actions[0]).m)
    ensures n < |actions| - 1 ==> Run(c, w, actions[..n + 1]) == Run(c, Step(c, w, actions[0]), actions[1..][..n])
    ensures AskedFinished(c, Step(c, w, actions[0]), actions[1..], n) ==> AskedFinished(c, w, actions, n + 1)
    ensures ReadNothing(c, Step(c, w, actions[0]), actions[1..], n) ==> ReadNothing(c, w, actions, n + 1)
  {
    hide Step, Memory.WellFormed, PageOf;
    StepWellFormed(c, w, actions[0]);
    if n < |actions| - 1 { assert actions[..n + 1][1..] == actions[1..][..n]; }
  }

  lemma {:induction false} DoneStays(c: Setting, w: World, actions: seq<Action>)
    requires ValidSetting(c) && Memory.WellFormed(w.m) && w.complete && !w.asking
    ensures Run(c, w, actions).sent == w.sent && Run(c, w, actions).complete
    decreases |actions|
  {
    hide Memory.WellFormed, PageOf, Memory.ApplyEvent;
    if actions != [] {
      StepWellFormed(c, w, actions[0]);
      DoneStays(c, Step(c, w, actions[0]), actions[1..]);
    }
  }
}
