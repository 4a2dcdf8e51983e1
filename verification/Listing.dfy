/**
 Listing flows, newest observation first. Two ways of finding the next page, by
 position after sorting everything and by a keyset condition in the query, and the
 walk that follows the markers.
 */
module Listing {
  import opened Wrappers
  import opened Ordering
  import opened Models
  import opened Paging

  /** What a listing returns: some flows, and where to continue if there are more. */
  datatype FlowPage = FlowPage(items: seq<FlowSnapshot>, nextMarker: Option<string>)

  datatype Filter = Filter(state: Option<string>, bookId: Option<string>)

  predicate Matches(f: FlowSnapshot, filter: Filter) {
    && (filter.state.None? || f.state == filter.state)
    && (filter.bookId.None? || f.bookId == filter.bookId)
  }

  /** The query's `where` clause, without and with a place to continue from. */
  function Passes(filter: Filter): FlowSnapshot -> bool {
    f => Matches(f, filter)
  }

  function PassesAfter(filter: Filter, anchor: FlowSnapshot): FlowSnapshot -> bool {
    f => Matches(f, filter) && Precedes(anchor, f)
  }

  /** A strict order on flows of distinct runs: later observation before earlier, then run id. */
  predicate Precedes(a: FlowSnapshot, b: FlowSnapshot) {
    a.observedAt > b.observedAt || (a.observedAt == b.observedAt && StrLt(a.runId, b.runId))
  }

  const NEWEST_FIRST: (FlowSnapshot, FlowSnapshot) -> bool := (a, b) => Precedes(a, b)

  type Flows = map<string, FlowSnapshot>

  /** Every row sits under its own run id. */
  ghost predicate Keyed(flows: Flows) {
    forall r :: r in flows ==> flows[r].runId == r
  }

  function Keep(flows: seq<FlowSnapshot>, test: FlowSnapshot -> bool): (kept: seq<FlowSnapshot>)
    ensures forall f :: f in kept <==> f in flows && test(f)
  {
    if flows == [] then []
    else
      assert flows == [flows[0]] + flows[1..];
      (if test(flows[0]) then [flows[0]] else []) + Keep(flows[1..], test)
  }

  /** Snapshots of the given runs, in the given order. */
  function Pick(flows: Flows, order: seq<string>): (picked: seq<FlowSnapshot>)
    requires forall r :: r in order ==> r in flows
    ensures |picked| == |order|
    ensures forall i :: 0 <= i < |order| ==> picked[i] == flows[order[i]]
  {
    seq(|order|, i requires 0 <= i < |order| => flows[order[i]])
  }

  /** An enumeration of a table's keys: each once, in any order. */
  ghost predicate Enumerates(order: seq<string>, flows: Flows) {
    && (forall r :: r in order <==> r in flows)
    && Distinct(order)
  }

  ghost predicate DistinctRuns(flows: seq<FlowSnapshot>) {
    forall i, j :: 0 <= i < j < |flows| ==> flows[i].runId != flows[j].runId
  }

  lemma {:induction false} KeepDistinct(flows: seq<FlowSnapshot>, test: FlowSnapshot -> bool)
    requires DistinctRuns(flows)
    ensures DistinctRuns(Keep(flows, test))
  {
    if flows != [] {
      var rest := Keep(flows[1..], test);
      KeepDistinct(flows[1..], test);
      if test(flows[0]) {
        forall j | 0 <= j < |rest| ensures flows[0].runId != rest[j].runId {
          assert rest[j] in flows[1..];
        }
      }
    }
  }

  lemma NewestFirstOrder()
    ensures WeakOrder(NEWEST_FIRST)
    ensures forall x :: !NEWEST_FIRST(x, x)
    ensures forall x, y, z :: NEWEST_FIRST(x, y) && NEWEST_FIRST(y, z) ==> NEWEST_FIRST(x, z)
    ensures forall x: FlowSnapshot, y: FlowSnapshot :: x.runId != y.runId ==> NEWEST_FIRST(x, y) || NEWEST_FIRST(y, x)
  {
    ByTextTotal();
    assert forall x: string, y: string :: StrLt(x, y) == BY_TEXT(x, y);
  }

  lemma {:induction false} InsertDistinct(flows: seq<FlowSnapshot>, f: FlowSnapshot)
    requires DistinctRuns(flows) && forall g :: g in flows ==> g.runId != f.runId
    ensures DistinctRuns(Insert(NEWEST_FIRST, flows, f))
  {
    if flows != [] {
      var front, last := flows[..|flows| - 1], flows[|flows| - 1];
      if NEWEST_FIRST(f, last) {
        InsertDistinct(front, f);
        var q := Insert(NEWEST_FIRST, front, f);
        forall i | 0 <= i < |q| ensures q[i].runId != last.runId {
          assert q[i] in multiset(q);
          assert q[i] == f || q[i] in front;
        }
      }
    }
  }

  lemma {:induction false} SortDistinct(flows: seq<FlowSnapshot>)
    requires DistinctRuns(flows)
    ensures DistinctRuns(SortBy(NEWEST_FIRST, flows))
  {
    if flows != [] {
      var front, last := flows[..|flows| - 1], flows[|flows| - 1];
      SortDistinct(front);
      var s := SortBy(NEWEST_FIRST, front);
      forall g | g in s ensures g.runId != last.runId {
        assert g in multiset(s);
        assert g in multiset(front);
      }
      InsertDistinct(s, last);
    }
  }

  lemma SortedFlows(flows: seq<FlowSnapshot>)
    requires DistinctRuns(flows)
    ensures Ascending(NEWEST_FIRST, SortBy(NEWEST_FIRST, flows))
    ensures forall f :: f in SortBy(NEWEST_FIRST, flows) <==> f in flows
  {
    NewestFirstOrder();
    SortByOrdered(NEWEST_FIRST, flows);
    SortDistinct(flows);
    var s := SortBy(NEWEST_FIRST, flows);
    assert forall f :: f in s <==> f in multiset(s);
    assert forall f :: f in flows <==> f in multiset(flows);
    forall i, j | 0 <= i < j < |s| ensures NEWEST_FIRST(s[i], s[j]) {
      assert !NEWEST_FIRST(s[j], s[i]);
    }
  }

  /** `select ... where test order by observed_at desc, run_id asc`. */
  function Select(flows: Flows, test: FlowSnapshot -> bool): seq<FlowSnapshot> {
    SortBy(NEWEST_FIRST, Keep(Pick(flows, SortedNames(flows.Keys)), test))
  }

  /** A selection is in listing order and holds exactly the rows that pass. */
  lemma {:induction false} SelectSpec(flows: Flows, order: seq<string>, test: FlowSnapshot -> bool)
    requires Keyed(flows) && Enumerates(order, flows)
    ensures var s := SortBy(NEWEST_FIRST, Keep(Pick(flows, order), test));
            && Ascending(NEWEST_FIRST, s)
            && (forall f :: f in s <==> f.runId in flows && flows[f.runId] == f && test(f))
  {
    var all := Pick(flows, order);
    DistinctPairs(order);
    forall i, j | 0 <= i < j < |all| ensures all[i].runId != all[j].runId {
      assert order[i] in order && order[j] in order;
    }
    KeepDistinct(all, test);
    SortedFlows(Keep(all, test));
    forall f ensures f in all <==> f.runId in flows && flows[f.runId] == f {
      if f in all {
        var i :| 0 <= i < |all| && all[i] == f;
        assert order[i] in order;
      }
      if f.runId in flows && flows[f.runId] == f {
        assert f.runId in order;
        var i :| 0 <= i < |order| && order[i] == f.runId;
        assert all[i] == f;
      }
    }
  }

  lemma KeysEnumerated(flows: Flows)
    ensures Enumerates(SortedNames(flows.Keys), flows)
  {
    SortedNamesAscend(flows.Keys);
  }

  /** The order rows come out of the table in does not show in the listing. */
  lemma SelectAnyOrder(flows: Flows, order: seq<string>, test: FlowSnapshot -> bool)
    requires Keyed(flows) && Enumerates(order, flows)
    ensures SortBy(NEWEST_FIRST, Keep(Pick(flows, order), test)) == Select(flows, test)
  {
    NewestFirstOrder();
    KeysEnumerated(flows);
    SelectSpec(flows, order, test);
    SelectSpec(flows, SortedNames(flows.Keys), test);
    AscendingUnique(NEWEST_FIRST, SortBy(NEWEST_FIRST, Keep(Pick(flows, order), test)), Select(flows, test));
  }

  /** All the flows a filter lets through, in listing order. */
  function Catalogue(flows: Flows, filter: Filter): seq<FlowSnapshot> {
    Select(flows, Passes(filter))
  }

  lemma CatalogueSpec(flows: Flows, filter: Filter)
    requires Keyed(flows)
    ensures Ascending(NEWEST_FIRST, Catalogue(flows, filter))
    ensures forall f :: f in Catalogue(flows, filter) <==> f.runId in flows && flows[f.runId] == f && Matches(f, filter)
  {
    KeysEnumerated(flows);
    SelectSpec(flows, SortedNames(flows.Keys), Passes(filter));
  }

  // ----- one page -------------------------------------------------------------

  function PositionOf(rows: seq<FlowSnapshot>, runId: string): (at: Option<nat>)
    ensures at.Some? ==> at.value < |rows| && rows[at.value].runId == runId
    ensures at.None? ==> forall f :: f in rows ==> f.runId != runId
  {
    if rows == [] then None
    else if rows[0].runId == runId then Some(0)
    else
      assert rows == [rows[0]] + rows[1..];
      var at := PositionOf(rows[1..], runId);
      if at.Some? then Some(at.value + 1) else None
  }

  function PageAt(rows: seq<FlowSnapshot>, start: nat, limit: int): FlowPage
    requires start <= |rows| && limit >= 1
  {
    var window := Take(rows[start..], limit);
    var more := |rows| > start + limit;
    FlowPage(window, if more && window != [] then Some(window[|window| - 1].runId) else None)
  }

  /** The in-memory listing: sort everything, then find the marker's position. */
  function Positional(flows: Flows, filter: Filter, limit: int, marker: Option<string>): Result<FlowPage, ReadError> {
    var rows := Catalogue(flows, filter);
    if limit < 1 then Err(LimitTooSmall)
    else if marker.None? then Ok(PageAt(rows, 0, limit))
    else
      var at := PositionOf(rows, marker.value);
      if at.None? then Err(UnknownMarker(marker.value)) else Ok(PageAt(rows, at.value + 1, limit))
  }

  /** The SQL listing: a condition on the marker's row, and one row more than asked for. */
  function Keyset(flows: Flows, filter: Filter, limit: int, marker: Option<string>): Result<FlowPage, ReadError> {
    if limit < 1 then Err(LimitTooSmall)
    else if marker.Some? && marker.value !in flows then Err(UnknownMarker(marker.value))
    else
      var selected :=
        if marker.None? then Select(flows, Passes(filter))
        else
          var anchor := flows[marker.value];
          Select(flows, PassesAfter(filter, anchor));
      Ok(FirstOf(selected, limit))
  }

  /** One row more than asked for says whether there is another page. */
  function FirstOf(selected: seq<FlowSnapshot>, limit: int): FlowPage
    requires limit >= 1
  {
    var rows := Take(selected, limit + 1);
    var window := Take(rows, limit);
    FlowPage(window, if |rows| > limit && window != [] then Some(window[|window| - 1].runId) else None)
  }

  lemma SamePage(rows: seq<FlowSnapshot>, start: nat, limit: int)
    requires start <= |rows| && limit >= 1
    ensures FirstOf(rows[start..], limit) == PageAt(rows, start, limit)
  {
    assert Take(Take(rows[start..], limit + 1), limit) == Take(rows[start..], limit);
  }

  /** The keyset condition selects exactly what follows the anchor in the catalogue. */
  lemma KeysetIsSuffix(flows: Flows, filter: Filter, at: nat)
    requires Keyed(flows) && at < |Catalogue(flows, filter)|
    ensures var rows := Catalogue(flows, filter);
            Select(flows, PassesAfter(filter, rows[at])) == rows[at + 1..]
  {
    var rows := Catalogue(flows, filter);
    var anchor := rows[at];
    var after := PassesAfter(filter, anchor);
    CatalogueSpec(flows, filter);
    NewestFirstOrder();
    KeysEnumerated(flows);
    SelectSpec(flows, SortedNames(flows.Keys), after);
    var selected := Select(flows, after);
    SuffixMembers(rows, at);
    AscendingUnique(NEWEST_FIRST, selected, rows[at + 1..]);
  }

  lemma SuffixMembers(rows: seq<FlowSnapshot>, at: nat)
    requires Ascending(NEWEST_FIRST, rows) && at < |rows|
    ensures forall f :: f in rows[at + 1..] <==> f in rows && NEWEST_FIRST(rows[at], f)
  {
    NewestFirstOrder();
    forall f ensures f in rows[at + 1..] <==> f in rows && NEWEST_FIRST(rows[at], f) {
      if f in rows && NEWEST_FIRST(rows[at], f) {
        var k :| 0 <= k < |rows| && rows[k] == f;
        assert forall i :: 0 <= i < at ==> !NEWEST_FIRST(rows[at], rows[i]);
        assert k > at && rows[at + 1..][k - (at + 1)] == f;
      }
      if f in rows[at + 1..] {
        var k :| 0 <= k < |rows[at + 1..]| && rows[at + 1..][k] == f;
        assert rows[at + 1 + k] == f;
      }
    }
  }

  /**
   The two stores' pages agree for a marker exactly when the marker is absent, names
   no run at all, or names a run the filter lets through. (A marker that exists but is
   filtered out is an error in memory and a position in SQL.)
   */
  lemma PagesAgree(flows: Flows, filter: Filter, limit: int, marker: Option<string>)
    requires Keyed(flows) && limit >= 1
    ensures Positional(flows, filter, limit, marker) == Keyset(flows, filter, limit, marker)
       <==> marker.None? || marker.value !in flows || Matches(flows[marker.value], filter)
  {
    hide Select, PositionOf, FirstOf, PageAt;
    var rows := Catalogue(flows, filter);
    CatalogueSpec(flows, filter);
    if marker.None? {
      SamePage(rows, 0, limit);
      assert rows[0..] == rows;
    } else {
      var at := PositionOf(rows, marker.value);
      if at.Some? {
        assert rows[at.value] in rows;
        KeysetIsSuffix(flows, filter, at.value);
        SamePage(rows, at.value + 1, limit);
      } else if marker.value in flows {
        assert flows[marker.value] in rows <==> Matches(flows[marker.value], filter);
      }
    }
  }

  // ----- a page, field by field -------------------------------------------------

  /** A flow in the state and of the book asked for, observed before the marker's flow or then and with a greater id. */
  ghost predicate Wanted(f: FlowSnapshot, flows: Flows, filter: Filter, marker: Option<string>) {
    && (filter.state.Some? ==> f.state == filter.state)
    && (filter.bookId.Some? ==> f.bookId == filter.bookId)
    && (marker.Some? && marker.value in flows ==>
          var at := flows[marker.value];
          at.observedAt > f.observedAt || (at.observedAt == f.observedAt && StrLt(at.runId, f.runId)))
  }

  /** Newest observation first, and of flows observed at once the smaller run id first. */
  ghost predicate NewestFirst(items: seq<FlowSnapshot>) {
    forall i, j :: 0 <= i < j < |items| ==>
      || items[i].observedAt > items[j].observedAt
      || (items[i].observedAt == items[j].observedAt && StrLt(items[i].runId, items[j].runId))
  }

  /**
   A page holds, in order and up to the limit, the first of the stored flows wanted; it has a marker
   exactly when one is left out, and then it is full and the marker names its last flow.
   */
  ghost predicate Offers(page: FlowPage, flows: Flows, filter: Filter, limit: int, marker: Option<string>) {
    && |page.items| <= limit
    && NewestFirst(page.items)
    && (forall f :: f in page.items ==>
          f.runId in flows && flows[f.runId] == f && Wanted(f, flows, filter, marker))
    && (forall r :: r in flows && Wanted(flows[r], flows, filter, marker) && flows[r] !in page.items ==>
          page.nextMarker.Some? && NewestFirst(page.items + [flows[r]]))
    && (page.nextMarker.Some? ==>
          && |page.items| == limit >= 1 && page.nextMarker.value == page.items[limit - 1].runId
          && exists r :: r in flows && Wanted(flows[r], flows, filter, marker) && flows[r] !in page.items)
  }

  /** The page a listing gives, or which of its two errors; `known` is whether the marker means anything to it. */
  ghost predicate Answers(page: Result<FlowPage, ReadError>, flows: Flows, filter: Filter, limit: int,
                          marker: Option<string>, known: bool)
  {
    if limit < 1 then page == Err(LimitTooSmall)
    else if marker.Some? && !known then page == Err(UnknownMarker(marker.value))
    else page.Ok? && Offers(page.value, flows, filter, limit, marker)
  }

  /** A marker naming a stored flow of the state and book asked for. */
  ghost predicate NamesOneAsked(flows: Flows, filter: Filter, marker: Option<string>) {
    marker.Some? && marker.value in flows && Wanted(flows[marker.value], flows, filter, None)
  }

  lemma FirstOffers(flows: Flows, filter: Filter, limit: int, marker: Option<string>, test: FlowSnapshot -> bool)
    requires Keyed(flows) && limit >= 1 && forall f :: test(f) <==> Wanted(f, flows, filter, marker)
    ensures Offers(FirstOf(Select(flows, test), limit), flows, filter, limit, marker)
  {
    hide Wanted, SortBy, Keep, Offers, FirstOf, NewestFirst, Ascending;
    KeysEnumerated(flows);
    SelectSpec(flows, SortedNames(flows.Keys), test);
    AscendingIsNewestFirst(Select(flows, test));
    FirstOfOffers(Select(flows, test), flows, filter, limit, marker);
  }

  lemma FirstOfOffers(rows: seq<FlowSnapshot>, flows: Flows, filter: Filter, limit: int, marker: Option<string>)
    requires limit >= 1 && NewestFirst(rows)
    requires forall f :: f in rows <==> f.runId in flows && flows[f.runId] == f && Wanted(f, flows, filter, marker)
    requires Keyed(flows)
    ensures Offers(FirstOf(rows, limit), flows, filter, limit, marker)
  {
    hide Wanted, NewestFirst, Take, FirstOf;
    var page := FirstOf(rows, limit);
    FirstOfIs(rows, limit);
    forall r | r in flows && Wanted(flows[r], flows, filter, marker) && flows[r] !in page.items
      ensures |rows| > limit && NewestFirst(page.items + [flows[r]])
    {
      assert flows[r] in rows;
      LeftOut(rows, limit, flows[r]);
    }
    if |rows| > limit {
      assert rows[limit] in rows;
      var r := rows[limit].runId;
      BehindTheFirst(rows, limit);
      assert r in flows && flows[r] == rows[limit];
      assert Wanted(flows[r], flows, filter, marker) && flows[r] !in page.items;
    }
  }

  lemma FirstOfIs(rows: seq<FlowSnapshot>, limit: int)
    requires limit >= 1 && NewestFirst(rows)
    ensures var page := FirstOf(rows, limit);
            && page.items == Take(rows, limit) && |page.items| <= limit && NewestFirst(page.items)
            && (forall f :: f in page.items ==> f in rows)
            && page.nextMarker == (if |rows| > limit then Some(rows[limit - 1].runId) else None)
            && (|rows| > limit ==> |page.items| == limit && page.items[limit - 1] == rows[limit - 1])
  {
    hide StrLt;
    var page := FirstOf(rows, limit);
    assert page.items == Take(rows, limit);
  }

  lemma LeftOut(rows: seq<FlowSnapshot>, limit: nat, f: FlowSnapshot)
    requires NewestFirst(rows) && f in rows && f !in Take(rows, limit)
    ensures |rows| > limit && NewestFirst(Take(rows, limit) + [f])
  {
    hide StrLt;
    var k :| 0 <= k < |rows| && rows[k] == f;
    assert k >= limit;
  }

  lemma BehindTheFirst(rows: seq<FlowSnapshot>, limit: nat)
    requires NewestFirst(rows) && limit < |rows|
    ensures rows[limit] !in Take(rows, limit)
  {
    hide StrLt;
    forall i | 0 <= i < limit ensures rows[i] != rows[limit] {
      StrLtTotal(rows[i].runId, rows[limit].runId);
    }
  }

  lemma AscendingIsNewestFirst(rows: seq<FlowSnapshot>)
    ensures Ascending(NEWEST_FIRST, rows) <==> NewestFirst(rows)
  {
    hide StrLt;
    forall i, j | 0 <= i < j < |rows|
      ensures NEWEST_FIRST(rows[i], rows[j])
           == (rows[i].observedAt > rows[j].observedAt
               || (rows[i].observedAt == rows[j].observedAt && StrLt(rows[i].runId, rows[j].runId)))
    {
    }
  }

  /** What the SQL listing answers: any stored run is a marker. */
  lemma KeysetOffers(flows: Flows, filter: Filter, limit: int, marker: Option<string>)
    requires Keyed(flows)
    ensures Answers(Keyset(flows, filter, limit, marker), flows, filter, limit, marker,
                    marker.Some? && marker.value in flows)
  {
    hide Offers, FirstOf, Select, StrLt;
    if limit >= 1 && (marker.Some? ==> marker.value in flows) {
      FirstOffers(flows, filter, limit, marker,
                  if marker.None? then Passes(filter) else PassesAfter(filter, flows[marker.value]));
    }
  }

  /** What the in-memory listing answers: a marker the filter leaves out is unknown to it. */
  lemma PositionalOffers(flows: Flows, filter: Filter, limit: int, marker: Option<string>)
    requires Keyed(flows)
    ensures Answers(Positional(flows, filter, limit, marker), flows, filter, limit, marker,
                    NamesOneAsked(flows, filter, marker))
  {
    hide Offers, Select, StrLt, Keyset, PositionOf;
    if limit >= 1 {
      PagesAgree(flows, filter, limit, marker);
      KeysetOffers(flows, filter, limit, marker);
      CatalogueSpec(flows, filter);
    }
  }

  // ----- the walk --------------------------------------------------------------

  /** A marker that a walk of this filter could have been given. */
  ghost predicate OnTheWalk(flows: Flows, filter: Filter, marker: Option<string>) {
    marker.None? || (marker.value in flows && Matches(flows[marker.value], filter))
  }

  lemma KeysetOnTheWalk(flows: Flows, filter: Filter, limit: int, marker: Option<string>)
    requires limit >= 1
    ensures Keyed(flows) && OnTheWalk(flows, filter, marker) ==>
              Keyset(flows, filter, limit, marker) == Positional(flows, filter, limit, marker)
  {
    hide Keyset, Positional, Keyed, Matches;
    if Keyed(flows) { PagesAgree(flows, filter, limit, marker); }
  }

  ghost function Start(flows: Flows, filter: Filter, marker: Option<string>): (start: nat)
    requires Keyed(flows) && OnTheWalk(flows, filter, marker)
    ensures start <= |Catalogue(flows, filter)|
  {
    CatalogueSpec(flows, filter);
    if marker.None? then 0
    else
      assert flows[marker.value] in Catalogue(flows, filter);
      PositionOf(Catalogue(flows, filter), marker.value).value + 1
  }

  lemma {:induction false} PositionIs(rows: seq<FlowSnapshot>, k: nat)
    requires DistinctRuns(rows) && k < |rows|
    ensures PositionOf(rows, rows[k].runId) == Some(k)
  {
    if k > 0 { PositionIs(rows[1..], k - 1); }
  }

  lemma CatalogueDistinct(flows: Flows, filter: Filter)
    requires Keyed(flows)
    ensures DistinctRuns(Catalogue(flows, filter))
  {
    CatalogueSpec(flows, filter);
    NewestFirstOrder();
    var all := Catalogue(flows, filter);
    forall i, j | 0 <= i < j < |all| ensures all[i].runId != all[j].runId {
      assert NEWEST_FIRST(all[i], all[j]) && all[i] in all && all[j] in all;
    }
  }

  /** The page a marker leads to starts just after the marker's flow. */
  lemma PageStarts(flows: Flows, filter: Filter, limit: int, marker: Option<string>)
    requires Keyed(flows) && limit >= 1 && OnTheWalk(flows, filter, marker)
    ensures Positional(flows, filter, limit, marker)
         == Ok(PageAt(Catalogue(flows, filter), Start(flows, filter, marker), limit))
  {
    hide Catalogue, PageAt, PositionOf;
    CatalogueSpec(flows, filter);
    if marker.Some? { assert flows[marker.value] in Catalogue(flows, filter); }
  }

  /** A marker naming the flow at `k` leads to `k + 1`. */
  lemma StartAfter(flows: Flows, filter: Filter, k: nat)
    requires Keyed(flows) && k < |Catalogue(flows, filter)|
    ensures var marker := Some(Catalogue(flows, filter)[k].runId);
            OnTheWalk(flows, filter, marker) && Start(flows, filter, marker) == k + 1
  {
    hide Catalogue, PositionOf;
    CatalogueSpec(flows, filter);
    CatalogueDistinct(flows, filter);
    assert Catalogue(flows, filter)[k] in Catalogue(flows, filter);
    PositionIs(Catalogue(flows, filter), k);
  }

  lemma WalkStarts(flows: Flows, filter: Filter)
    requires Keyed(flows)
    ensures OnTheWalk(flows, filter, None) && Start(flows, filter, None) == 0
  {
  }

  /** What a page holds and where its marker leads. */
  lemma PageOnTheWalk(flows: Flows, filter: Filter, limit: int, marker: Option<string>)
    requires Keyed(flows) && limit >= 1 && OnTheWalk(flows, filter, marker)
    ensures var rows := Catalogue(flows, filter);
            var start := Start(flows, filter, marker);
            && Positional(flows, filter, limit, marker) == Ok(PageAt(rows, start, limit))
            && (var page := PageAt(rows, start, limit);
                && (page.nextMarker.None? ==> page.items == rows[start..])
                && (page.nextMarker.Some? ==>
                      && page.items == rows[start..start + limit]
                      && OnTheWalk(flows, filter, page.nextMarker)
                      && Start(flows, filter, page.nextMarker) == start + limit))
  {
    hide Catalogue, PageAt, Positional, Start, OnTheWalk, Keyed;
    var rows := Catalogue(flows, filter);
    var start := Start(flows, filter, marker);
    PageStarts(flows, filter, limit, marker);
    PageWindow(rows, start, limit);
    if |rows| > start + limit {
      StartAfter(flows, filter, start + limit - 1);
    }
  }

  lemma PageWindow(rows: seq<FlowSnapshot>, start: nat, limit: int)
    requires start <= |rows| && limit >= 1
    ensures var page := PageAt(rows, start, limit);
            if |rows| > start + limit
            then page == FlowPage(rows[start..start + limit], Some(rows[start + limit - 1].runId))
            else page == FlowPage(rows[start..], None)
  {
    if |rows| > start + limit {
      assert rows[start..][..limit] == rows[start..start + limit];
    }
  }

  /** Follow the markers to the end. */
  ghost function Walk(flows: Flows, filter: Filter, limit: int, marker: Option<string>): seq<FlowSnapshot>
    requires Keyed(flows) && limit >= 1 && OnTheWalk(flows, filter, marker)
    decreases |Catalogue(flows, filter)| - Start(flows, filter, marker)
  {
    PageOnTheWalk(flows, filter, limit, marker);
    var page := Positional(flows, filter, limit, marker).value;
    if page.nextMarker.None? then page.items
    else page.items + Walk(flows, filter, limit, page.nextMarker)
  }

  /** From any point of the walk, what remains of the catalogue comes out, whatever the page size. */
  lemma {:induction false} WalkIsCatalogue(flows: Flows, filter: Filter, limit: int, marker: Option<string>)
    requires Keyed(flows) && limit >= 1 && OnTheWalk(flows, filter, marker)
    ensures Walk(flows, filter, limit, marker) == Catalogue(flows, filter)[Start(flows, filter, marker)..]
    decreases |Catalogue(flows, filter)| - Start(flows, filter, marker)
  {
    hide Catalogue, PageAt, Positional, Start, OnTheWalk, Keyed;
    var rows, start := Catalogue(flows, filter), Start(flows, filter, marker);
    PageOnTheWalk(flows, filter, limit, marker);
    var page := PageAt(rows, start, limit);
    if page.nextMarker.Some? {
      WalkIsCatalogue(flows, filter, limit, page.nextMarker);
      SplitAt(rows, start, limit);
    }
  }

  lemma SplitAt(rows: seq<FlowSnapshot>, start: nat, n: nat)
    requires start + n <= |rows|
    ensures rows[start..] == rows[start..start + n] + rows[start + n..]
  {
  }

  /**
   A full walk of either store lists every flow the filter lets through, each exactly
   once and in listing order.
   */
  lemma WalkListsEveryFlowOnce(flows: Flows, filter: Filter, limit: int)
    requires Keyed(flows) && limit >= 1
    ensures var all := Walk(flows, filter, limit, None);
            && NewestFirst(all) && DistinctRuns(all)
            && (forall f :: f in all <==>
                  f.runId in flows && flows[f.runId] == f && (filter.state.Some? ==> f.state == filter.state)
                  && (filter.bookId.Some? ==> f.bookId == filter.bookId))
    ensures forall marker :: OnTheWalk(flows, filter, marker) ==>
              Keyset(flows, filter, limit, marker) == Positional(flows, filter, limit, marker)
  {
    WalkIsCatalogue(flows, filter, limit, None);
    CatalogueSpec(flows, filter);
    var all := Walk(flows, filter, limit, None);
    assert all == Catalogue(flows, filter);
    AscendingIsNewestFirst(all);
    CatalogueDistinct(flows, filter);
    forall marker | OnTheWalk(flows, filter, marker)
      ensures Keyset(flows, filter, limit, marker) == Positional(flows, filter, limit, marker)
    {
      KeysetOnTheWalk(flows, filter, limit, marker);
    }
  }

  // ----- a store written to between two pages ------------------------------------------------

  /** What a walk that has come to a flow still lists, in the store as it is now: what now follows that flow. */
  lemma RestOfWalk(now: Flows, filter: Filter, limit: int, at: string)
    requires Keyed(now) && limit >= 1 && OnTheWalk(now, filter, Some(at))
    ensures forall f :: f in Walk(now, filter, limit, Some(at)) <==>
              f.runId in now && now[f.runId] == f && Matches(f, filter) && Precedes(now[at], f)
  {
    hide Walk, Catalogue, PositionOf;
    var rows := Catalogue(now, filter);
    CatalogueSpec(now, filter);
    CatalogueDistinct(now, filter);
    assert now[at] in rows;
    var k :| 0 <= k < |rows| && rows[k] == now[at];
    PositionIs(rows, k);
    WalkIsCatalogue(now, filter, limit, Some(at));
    StartAfter(now, filter, k);
    SuffixMembers(rows, k);
    assert NEWEST_FIRST(rows[k], rows[k]) == Precedes(rows[k], rows[k]);
  }

  /**
   A walk that has listed everything up to the flow at its marker, in a store that is then written to:
   a run already listed is listed again exactly when it now matches and stands behind the marker's flow
   as that now is, and a run not yet listed is never listed exactly when it does not.
   */
  lemma WrittenBetweenPages(was: Flows, now: Flows, filter: Filter, limit: int, at: string, runId: string)
    requires Keyed(was) && Keyed(now) && limit >= 1
    requires OnTheWalk(was, filter, Some(at)) && OnTheWalk(now, filter, Some(at)) && runId in now
    ensures var rest := Walk(now, filter, limit, Some(at));
            var listed := exists i :: 0 <= i < Start(was, filter, Some(at)) && Catalogue(was, filter)[i].runId == runId;
            var before := runId in was && Matches(was[runId], filter) && !Precedes(was[at], was[runId]);
            var behind := Matches(now[runId], filter) && Precedes(now[at], now[runId]);
            && (listed && now[runId] in rest <==> before && behind)
            && (!listed && now[runId] !in rest <==> !before && !behind)
            && (forall f :: f in rest && f.runId == runId ==> f == now[runId])
  {
    hide Walk, Catalogue;
    RestOfWalk(now, filter, limit, at);
    ListedExactly(was, filter, at, runId);
  }

  lemma ListedExactly(was: Flows, filter: Filter, at: string, runId: string)
    requires Keyed(was) && OnTheWalk(was, filter, Some(at))
    ensures (exists i :: 0 <= i < Start(was, filter, Some(at)) && Catalogue(was, filter)[i].runId == runId)
       <==> runId in was && Matches(was[runId], filter) && !Precedes(was[at], was[runId])
  {
    hide Catalogue, PositionOf;
    var rows := Catalogue(was, filter);
    CatalogueSpec(was, filter);
    CatalogueDistinct(was, filter);
    NewestFirstOrder();
    assert was[at] in rows;
    var k :| 0 <= k < |rows| && rows[k] == was[at];
    PositionIs(rows, k);
    StartAfter(was, filter, k);
    assert Start(was, filter, Some(at)) == k + 1;
    assert forall i :: k < i < |rows| ==> NEWEST_FIRST(rows[k], rows[i]);
    if i :| 0 <= i < k + 1 && rows[i].runId == runId {
      assert rows[i] in rows;
      if i < k { assert NEWEST_FIRST(rows[i], rows[k]); }
      assert !NEWEST_FIRST(rows[k], rows[i]);
    }
    if runId in was && Matches(was[runId], filter) && !Precedes(was[at], was[runId]) {
      assert was[runId] in rows;
      var i :| 0 <= i < |rows| && rows[i] == was[runId];
    }
  }
}
