/**
 Reading a run's event stream a page at a time: the gap-stopping selection, and what
 a page means in terms of the events a run has ever stored, independent of any store.
 */
module Paging {
  import opened Wrappers
  import opened Ordering
  import opened Models

  /** What a read of events returns, and whether it skipped to the oldest kept. */
  datatype EventPage = EventPage(events: seq<Event>, nextSeq: int, oldestSeq: Option<int>, truncated: bool)

  /** The two errors a datasource read raises. */
  datatype ReadError = LimitTooSmall | UnknownMarker(marker: string)

  const BY_SEQ_NO: (Event, Event) -> bool := (a: Event, b: Event) => a.seqNo < b.seqNo

  /** What the selection loop takes from a list, stated without the loop. */
  function Contiguous(events: seq<Event>, expected: int, limit: int): seq<Event>
    decreases |events|
  {
    if events == [] then []
    else if events[0].seqNo < expected then Contiguous(events[1..], expected, limit)
    else if events[0].seqNo != expected then []
    else if limit <= 1 then [events[0]]
    else [events[0]] + Contiguous(events[1..], expected + 1, limit - 1)
  }

  /** The selection, as a loop. */
  method ContiguousFrom(events: seq<Event>, expected: int, limit: int) returns (taken: seq<Event>)
    ensures taken == Contiguous(events, expected, limit)
  {
    taken := [];
    var next := expected;
    var i := 0;
    while i < |events|
      invariant 0 <= i <= |events|
      invariant next == expected + |taken|
      invariant |taken| == 0 || |taken| < limit
      invariant Contiguous(events, expected, limit) == taken + Contiguous(events[i..], next, limit - |taken|)
    {
      var event := events[i];
      assert events[i..][1..] == events[i + 1..];
      i := i + 1;
      if event.seqNo < next { continue; }
      if event.seqNo != next { break; }
      taken := taken + [event];
      next := next + 1;
      if |taken| >= limit { break; }
    }
  }

  // ----- the log of a run ----------------------------------------------------

  /** The first event to arrive under each number. */
  type Log = map<int, Event>

  function Record(log: Log, e: Event): Log {
    if e.seqNo in log then log else log[e.seqNo := e]
  }

  function FirstArrivals(events: seq<Event>): Log {
    if events == [] then map[] else Record(FirstArrivals(events[..|events| - 1]), events[|events| - 1])
  }

  /** Every entry sits under its own number. */
  ghost predicate Keyed(log: Log) {
    forall s :: s in log ==> log[s].seqNo == s
  }

  lemma {:induction false} FirstArrivalsKeyed(events: seq<Event>)
    ensures Keyed(FirstArrivals(events))
    ensures forall s :: s in FirstArrivals(events) ==> FirstArrivals(events)[s] in events
    ensures forall e :: e in events ==> e.seqNo in FirstArrivals(events)
  {
    if events != [] {
      var front := events[..|events| - 1];
      assert events == front + [events[|events| - 1]];
      FirstArrivalsKeyed(front);
    }
  }

  lemma FirstArrivalsNumbers(events: seq<Event>)
    ensures FirstArrivals(events).Keys == set e | e in events :: e.seqNo
  {
    hide FirstArrivals;
    FirstArrivalsKeyed(events);
    forall s | s in FirstArrivals(events) ensures exists e :: e in events && e.seqNo == s {
      assert FirstArrivals(events)[s] in events;
    }
  }

  /** The event is in the list and nothing ahead of it has its number. */
  ghost predicate FirstToArrive(events: seq<Event>, e: Event) {
    exists k :: 0 <= k < |events| && events[k] == e && forall j :: 0 <= j < k ==> events[j].seqNo != e.seqNo
  }

  lemma {:induction false} FirstArrivalsFirst(events: seq<Event>)
    ensures forall s :: s in FirstArrivals(events) ==> FirstToArrive(events, FirstArrivals(events)[s])
  {
    hide FirstToArrive;
    if events != [] {
      var front, last := events[..|events| - 1], events[|events| - 1];
      assert events == front + [last];
      FirstArrivalsFirst(front);
      FirstArrivalsKeyed(front);
      forall s | s in FirstArrivals(events) ensures FirstToArrive(events, FirstArrivals(events)[s]) {
        if s in FirstArrivals(front) {
          StillFirst(front, FirstArrivals(front)[s], last);
        } else {
          NowFirst(front, last);
        }
      }
    }
  }

  lemma StillFirst(events: seq<Event>, e: Event, next: Event)
    requires FirstToArrive(events, e)
    ensures FirstToArrive(events + [next], e)
  {
    var k :| 0 <= k < |events| && events[k] == e && forall j :: 0 <= j < k ==> events[j].seqNo != e.seqNo;
    assert (events + [next])[k] == e;
  }

  lemma NowFirst(events: seq<Event>, e: Event)
    requires forall f :: f in events ==> f.seqNo != e.seqNo
    ensures FirstToArrive(events + [e], e)
  {
    assert (events + [e])[|events|] == e;
  }

  lemma FirstArrivalsPush(events: seq<Event>, e: Event)
    ensures FirstArrivals(events + [e]) == Record(FirstArrivals(events), e)
  {
    assert (events + [e])[..|events|] == events;
  }

  lemma {:induction false} FirstArrivalsHead(e: Event, rest: seq<Event>)
    ensures FirstArrivals([e] + rest) == FirstArrivals(rest)[e.seqNo := e]
    decreases |rest|
  {
    if rest == [] {
      FirstArrivalsPush([], e);
      assert [] + [e] == [e] + [];
    } else {
      var front, last := rest[..|rest| - 1], rest[|rest| - 1];
      assert rest == front + [last] && [e] + rest == ([e] + front) + [last];
      FirstArrivalsHead(e, front);
      FirstArrivalsPush([e] + front, last);
    }
  }

  /** Sorting a history by number does not change which event arrived first under each number. */
  lemma {:induction false} FirstArrivalsInsert(events: seq<Event>, e: Event)
    ensures FirstArrivals(Insert(BY_SEQ_NO, events, e)) == Record(FirstArrivals(events), e)
  {
    if events == [] {
      FirstArrivalsPush([], e);
      assert [] + [e] == [e];
    } else {
      var front, last := events[..|events| - 1], events[|events| - 1];
      if BY_SEQ_NO(e, last) {
        FirstArrivalsInsert(front, e);
        FirstArrivalsPush(Insert(BY_SEQ_NO, front, e), last);
      } else {
        FirstArrivalsPush(events, e);
      }
    }
  }

  lemma {:induction false} FirstArrivalsSorted(events: seq<Event>)
    ensures FirstArrivals(SortBy(BY_SEQ_NO, events)) == FirstArrivals(events)
  {
    if events != [] {
      FirstArrivalsSorted(events[..|events| - 1]);
      FirstArrivalsInsert(SortBy(BY_SEQ_NO, events[..|events| - 1]), events[|events| - 1]);
    }
  }

  // ----- the meaning of a page ------------------------------------------------

  ghost function From(log: Log, x: int): set<int> {
    set s | s in log && s >= x
  }

  /** All the events from `x` up to the first hole. */
  function Stretch(log: Log, x: int): (run: seq<Event>)
    ensures run == [] <==> x !in log
    decreases |From(log, x)|
  {
    if x !in log then []
    else
      assert From(log, x + 1) == From(log, x) - {x};
      [log[x]] + Stretch(log, x + 1)
  }

  /** What a stretch holds: every event up to a hole, under its own number. */
  lemma {:induction false} StretchAt(log: Log, x: int, i: nat)
    requires i <= |Stretch(log, x)|
    ensures i < |Stretch(log, x)| ==> x + i in log && Stretch(log, x)[i] == log[x + i]
    ensures i == |Stretch(log, x)| ==> x + i !in log
    decreases i
  {
    if i > 0 { StretchAt(log, x + 1, i - 1); }
  }

  function Take<T>(s: seq<T>, n: nat): seq<T> {
    if |s| <= n then s else s[..n]
  }

  /** Where reading resumes: the next number, or the oldest one kept when that has gone. */
  function Expected(log: Log, sinceSeq: int): int {
    if Oldest(log).Some? && sinceSeq + 1 < Oldest(log).value then Oldest(log).value else sinceSeq + 1
  }

  function Oldest(log: Log): Option<int> {
    if log.Keys == {} then None else Some(LeastNumber(log.Keys))
  }

  /** The page a reader at `sinceSeq` is owed, whatever store keeps the log. */
  function PageOf(log: Log, sinceSeq: int, limit: nat): EventPage {
    var selected := Take(Stretch(log, Expected(log, sinceSeq)), limit);
    EventPage(selected, if selected != [] then selected[|selected| - 1].seqNo else sinceSeq,
              Oldest(log), Expected(log, sinceSeq) != sinceSeq + 1)
  }

  /**
   A page of the events stored under these numbers: the least of them, if there is any; whether the next
   one due lies below it; and from there, or else from the next one due, each number up to the limit or
   the first hole.
   */
  ghost predicate Serves(page: EventPage, numbers: set<int>, sinceSeq: int, limit: int) {
    && (page.oldestSeq.None? <==> numbers == {})
    && (page.oldestSeq.Some? ==>
          page.oldestSeq.value in numbers && forall n :: n in numbers ==> page.oldestSeq.value <= n)
    && (page.truncated <==> page.oldestSeq.Some? && sinceSeq + 1 < page.oldestSeq.value)
    && (var first := if page.truncated then page.oldestSeq.value else sinceSeq + 1;
        && |page.events| <= limit
        && (forall i :: 0 <= i < |page.events| ==> page.events[i].seqNo == first + i && first + i in numbers)
        && (|page.events| < limit ==> first + |page.events| !in numbers)
        && page.nextSeq == (if page.events == [] then sinceSeq else first + |page.events| - 1))
  }

  /** What a page holds, in terms of the numbers stored and nothing else. */
  lemma PageServes(log: Log, sinceSeq: int, limit: int)
    requires Keyed(log) && limit >= 1
    ensures Serves(PageOf(log, sinceSeq, limit), log.Keys, sinceSeq, limit)
    ensures forall e :: e in PageOf(log, sinceSeq, limit).events ==> e.seqNo in log && log[e.seqNo] == e
  {
    hide Stretch;
    var x, page := Expected(log, sinceSeq), PageOf(log, sinceSeq, limit);
    hide Serves;
    forall i | 0 <= i < |page.events| ensures OnPage(page.events[i], log, x + i) {
      StretchAt(log, x, i);
    }
    if |page.events| < limit { StretchAt(log, x, |page.events|); }
    ServesFrom(page, log, sinceSeq, limit, x);
  }

  ghost predicate OnPage(e: Event, log: Log, number: int) {
    number in log && log[number] == e && e.seqNo == number
  }

  lemma ServesFrom(page: EventPage, log: Log, sinceSeq: int, limit: int, x: int)
    requires page.oldestSeq == Oldest(log)
    requires page.truncated <==> page.oldestSeq.Some? && sinceSeq + 1 < page.oldestSeq.value
    requires x == if page.truncated then page.oldestSeq.value else sinceSeq + 1
    requires |page.events| <= limit && (|page.events| < limit ==> x + |page.events| !in log)
    requires forall i :: 0 <= i < |page.events| ==> OnPage(page.events[i], log, x + i)
    requires page.nextSeq == if page.events == [] then sinceSeq else page.events[|page.events| - 1].seqNo
    ensures Serves(page, log.Keys, sinceSeq, limit)
  {
    forall i | 0 <= i < |page.events| ensures page.events[i].seqNo == x + i && x + i in log.Keys {
      assert OnPage(page.events[i], log, x + i);
    }
    if page.events != [] {
      assert OnPage(page.events[|page.events| - 1], log, x + (|page.events| - 1));
    }
  }

  lemma {:induction false} StretchLocal(a: Log, b: Log, x: int)
    requires forall s :: s >= x ==> (s in a <==> s in b)
    requires forall s :: s >= x && s in a ==> a[s] == b[s]
    ensures Stretch(a, x) == Stretch(b, x)
    decreases |From(a, x)|
  {
    if x in a {
      assert From(a, x + 1) == From(a, x) - {x};
      StretchLocal(a, b, x + 1);
    }
  }

  lemma {:induction false} HeadOutOfReach(events: seq<Event>, expected: int)
    requires Ordered(BY_SEQ_NO, events) && events != [] && events[0].seqNo > expected
    ensures expected !in FirstArrivals(events)
  {
    FirstArrivalsKeyed(events);
    forall e | e in events ensures e.seqNo != expected {
      var k :| 0 <= k < |events| && events[k] == e;
      if k > 0 { assert !BY_SEQ_NO(events[k], events[0]); }
    }
  }

  lemma HeadTaken(log: Log, e: Event, limit: int)
    requires limit >= 1
    ensures Take(Stretch(log[e.seqNo := e], e.seqNo), limit)
         == [e] + Take(Stretch(log, e.seqNo + 1), limit - 1)
  {
    var grown := log[e.seqNo := e];
    StretchLocal(grown, log, e.seqNo + 1);
    assert Stretch(grown, e.seqNo) == [e] + Stretch(log, e.seqNo + 1);
  }

  /** On a list in number order, the selection loop takes exactly the page's events. */
  lemma {:induction false} ContiguousIsStretch(events: seq<Event>, expected: int, limit: int)
    requires Ordered(BY_SEQ_NO, events) && limit >= 1
    ensures Contiguous(events, expected, limit) == Take(Stretch(FirstArrivals(events), expected), limit)
    decreases |events|
  {
    if events != [] {
      var e, rest := events[0], events[1..];
      assert events == [e] + rest;
      FirstArrivalsHead(e, rest);
      if e.seqNo < expected {
        ContiguousIsStretch(rest, expected, limit);
        StretchLocal(FirstArrivals(events), FirstArrivals(rest), expected);
      } else if e.seqNo == expected {
        HeadTaken(FirstArrivals(rest), e, limit);
        if limit > 1 {
          ContiguousIsStretch(rest, expected + 1, limit - 1);
        }
      } else {
        HeadOutOfReach(events, expected);
      }
    }
  }

  /** Limiting the rows before selecting loses nothing when no row precedes `expected`. */
  lemma {:induction false} LimitFirst(rows: seq<Event>, expected: int, limit: int)
    requires Ascending(BY_SEQ_NO, rows) && limit >= 1
    requires forall e :: e in rows ==> e.seqNo >= expected
    ensures Contiguous(Take(rows, limit), expected, limit) == Contiguous(rows, expected, limit)
    decreases |rows|
  {
    if |rows| > limit && rows[0].seqNo == expected && limit > 1 {
      assert rows[..limit][1..] == rows[1..][..limit - 1];
      forall e | e in rows[1..] ensures e.seqNo >= expected + 1 {
        var k :| 0 <= k < |rows[1..]| && rows[1..][k] == e;
        assert BY_SEQ_NO(rows[0], rows[k + 1]);
      }
      LimitFirst(rows[1..], expected + 1, limit - 1);
    }
  }

  /** The numbers still to come for a reader. */
  function Ahead(log: Log, sinceSeq: int): set<int> {
    set s | s in log && s > sinceSeq
  }

  // ----- paging through a fixed log --------------------------------------------

  lemma PageAdvances(log: Log, sinceSeq: int, limit: nat)
    requires Keyed(log) && limit >= 1
    ensures var p := PageOf(log, sinceSeq, limit);
            && p.nextSeq >= sinceSeq
            && (p.events != [] ==> p.nextSeq == Expected(log, sinceSeq) + |p.events| - 1 && p.nextSeq in log)
            && (p.truncated ==> p.events != [])
  {
    var x, p := Expected(log, sinceSeq), PageOf(log, sinceSeq, limit);
    if p.events != [] {
      StretchAt(log, x, |p.events| - 1);
      assert p.events[|p.events| - 1] == Stretch(log, x)[|p.events| - 1];
    }
  }

  /** Ask again from `nextSeq` until a page comes back empty. */
  ghost function Drain(log: Log, sinceSeq: int, limit: nat): seq<EventPage>
    requires Keyed(log) && limit >= 1
    decreases |Ahead(log, sinceSeq)|
  {
    var p := PageOf(log, sinceSeq, limit);
    if p.events == [] then [p]
    else
      PageAdvances(log, sinceSeq, limit);
      assert p.nextSeq in Ahead(log, sinceSeq) && p.nextSeq !in Ahead(log, p.nextSeq);
      assert Ahead(log, p.nextSeq) < Ahead(log, sinceSeq);
      StrictSubsetSmaller(Ahead(log, p.nextSeq), Ahead(log, sinceSeq));
      [p] + Drain(log, p.nextSeq, limit)
  }

  lemma StrictSubsetSmaller<T>(a: set<T>, b: set<T>)
    requires a < b
    ensures |a| < |b|
  {
    assert b == a + (b - a);
    assert |b| == |a| + |b - a|;
  }

  function Events(pages: seq<EventPage>): seq<Event> {
    if pages == [] then [] else pages[0].events + Events(pages[1..])
  }

  lemma {:induction false} StretchSuffix(log: Log, x: int, n: nat)
    requires n <= |Stretch(log, x)|
    ensures Stretch(log, x)[n..] == Stretch(log, x + n)
    decreases n
  {
    if n > 0 {
      StretchSuffix(log, x + 1, n - 1);
      assert Stretch(log, x)[n..] == Stretch(log, x + 1)[n - 1..];
    }
  }

  /** Once a reader is past the oldest event kept, no later page can be truncated. */
  lemma DrainNotTruncated(log: Log, sinceSeq: int)
    requires Oldest(log).None? || sinceSeq + 1 >= Oldest(log).value
    ensures Expected(log, sinceSeq) == sinceSeq + 1
  {
  }

  lemma DrainStep(log: Log, sinceSeq: int, limit: nat)
    requires Keyed(log) && limit >= 1
    ensures var p := PageOf(log, sinceSeq, limit);
            p.events != [] ==>
              && Drain(log, sinceSeq, limit) == [p] + Drain(log, p.nextSeq, limit)
              && |Ahead(log, p.nextSeq)| < |Ahead(log, sinceSeq)|
              && Expected(log, p.nextSeq) == p.nextSeq + 1
              && Stretch(log, Expected(log, sinceSeq)) == p.events + Stretch(log, p.nextSeq + 1)
  {
    var p := PageOf(log, sinceSeq, limit);
    var x := Expected(log, sinceSeq);
    PageAdvances(log, sinceSeq, limit);
    if p.events != [] {
      assert p.nextSeq in Ahead(log, sinceSeq) && p.nextSeq !in Ahead(log, p.nextSeq);
      assert Ahead(log, p.nextSeq) < Ahead(log, sinceSeq);
      StrictSubsetSmaller(Ahead(log, p.nextSeq), Ahead(log, sinceSeq));
      DrainNotTruncated(log, p.nextSeq);
      StretchSuffix(log, x, |p.events|);
      assert Stretch(log, x) == p.events + Stretch(log, x)[|p.events|..];
    }
  }

  /** The drained events are the whole stretch, whatever the page size. */
  lemma {:induction false} DrainIsStretch(log: Log, sinceSeq: int, limit: nat)
    requires Keyed(log) && limit >= 1
    ensures Events(Drain(log, sinceSeq, limit)) == Stretch(log, Expected(log, sinceSeq))
    decreases |Ahead(log, sinceSeq)|
  {
    var p := PageOf(log, sinceSeq, limit);
    DrainStep(log, sinceSeq, limit);
    if p.events != [] {
      DrainIsStretch(log, p.nextSeq, limit);
      assert Drain(log, sinceSeq, limit)[1..] == Drain(log, p.nextSeq, limit);
    } else {
      assert [p][1..] == [];
    }
  }

  lemma {:induction false} DrainShape(log: Log, sinceSeq: int, limit: nat)
    requires Keyed(log) && limit >= 1
    ensures var pages := Drain(log, sinceSeq, limit);
            && |pages| >= 1 && pages[0] == PageOf(log, sinceSeq, limit)
            && pages[|pages| - 1].events == []
            && (forall i :: 0 < i < |pages| ==> !pages[i].truncated)
    decreases |Ahead(log, sinceSeq)|
  {
    var p := PageOf(log, sinceSeq, limit);
    DrainStep(log, sinceSeq, limit);
    if p.events != [] {
      var rest := Drain(log, p.nextSeq, limit);
      DrainShape(log, p.nextSeq, limit);
      forall i | 0 < i < |rest| + 1 ensures !([p] + rest)[i].truncated {
        assert ([p] + rest)[i] == rest[i - 1];
      }
    }
  }

  /**
   Page size does not matter: over a fixed log, draining with any limit of at least one
   yields, in order, the events of the single unlimited page; it ends in an empty page,
   and only the first page can be truncated.
   */
  lemma PageSizeIndependent(log: Log, sinceSeq: int, limit: nat, unlimited: nat)
    requires Keyed(log) && limit >= 1
    requires unlimited >= |log|
    ensures var pages := Drain(log, sinceSeq, limit);
            && Events(pages) == PageOf(log, sinceSeq, unlimited).events
            && pages[|pages| - 1].events == []
            && (forall i :: 0 < i < |pages| ==> !pages[i].truncated)
            && pages[0].truncated == PageOf(log, sinceSeq, unlimited).truncated
  {
    DrainIsStretch(log, sinceSeq, limit);
    DrainShape(log, sinceSeq, limit);
    StretchNoLonger(log, Expected(log, sinceSeq));
  }

  /** A stretch holds distinct numbers of the log, so it is no longer than the log. */
  lemma {:induction false} StretchNoLonger(log: Log, x: int)
    ensures |Stretch(log, x)| <= |From(log, x)| <= |log|
    decreases |From(log, x)|
  {
    if x in log {
      assert From(log, x + 1) == From(log, x) - {x};
      StretchNoLonger(log, x + 1);
    }
    assert From(log, x) <= log.Keys && |log.Keys| == |log|;
    if From(log, x) != log.Keys { StrictSubsetSmaller(From(log, x), log.Keys); }
  }
}
