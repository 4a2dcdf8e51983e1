# taskflow-meter, modelled and proved

taskflow-meter watches flow runs. It turns pairs of snapshots into a numbered event stream,
folds that stream back into snapshots in one of two stores, and serves it to readers that may be
cut off and come back. This project models that path, from the diff to the bytes a browser
parses, together with the two concurrent protocols on the way: the bounded pipeline that drops
its oldest entry rather than block, and the hand-over of a batch from a delivery thread to a
consumer beside a broker that redelivers.

`dafny verify dfyconfig.toml` checks everything.

## How it is laid out

| module | what it is about |
|---|---|
| `Wrappers`, `Ordering`, `Totals`, `Models` | optional values, the stable sort, sums, snapshots and events |
| `Folding` | folding events; a sequence of events acts as one patch |
| `Paging` | the gap-stopping selection, and what a page of a history means |
| `Listing` | pages of flows, by position and by keyset, and the walk along the markers |
| `MemoryStore`, `SqlStore`, `StoreAgreement` | the two stores, and that they answer alike |
| `Numbering`, `Diffing`, `RoundTrip` | numbers, diffs, and that folding undoes diffing |
| `Polling`, `Restarting` | the loop that diffs listings into a store, and the same over a store already filled |
| `Decimal`, `Sse`, `Driving` | numbers as text, frames as text, the client's parser, the driving loop |
| `Streaming`, `Resuming` | the cursor among writers, the end of a stream, reconnecting |
| `Pipelining`, `Interleaving`, `SentinelLoss` | the bounded pipeline: its code, every interleaving of it, and the sentinel |
| `Subscribing`, `Handshake` | the hand-over of batches: its code, and every interleaving of it |

Code that changes state is a class or a method here as it is there, and each such method is tied
by its `ensures` to a function of the old state; the theorems are then about those functions.
What an operation leaves in each field is stated again without those functions, as a predicate over the
states before and after (`Tells`, `TakesIn`, `Serves`, `Offers`, `Dated`, `FoldSays`).
The two protocols appear twice: their code run by itself (`EventPipeline`, `Subscriber`), and a
step machine with one step per queue, lock or counter operation, over every interleaving.
A log is the map from a number to the event that arrived first under it; it is what both stores
agree on, and `PageOf` says what a reader is owed from it.

## Where the code does less than it says

Each of these is a lemma, with the exact condition where there is one.

* `taskflow_meter/fold.py:15-18` promises that folding a diff reproduces the snapshot. It does so
  exactly for the changes `Carried` describes (`RoundTrip.StepRoundTrip`,
  `RoundTrip.TimelineRoundTrip`): no atom vanishes, the name and book stay, a failure, a result,
  a uuid or an intention once present stays present, and what only travels with a state or
  progress event changes only alongside one.
* The book's name is lost when a run is first seen finished and with atoms
  (`RoundTrip.BookNameRoundTrip`).
* Redelivering a batch that is not the tail of what was folded takes a snapshot back
  (`Folding.StaleRedeliveryRegresses`), although `taskflow_meter/datasource/sqlalchemy/source.py:139-141`
  calls a replay a no-op. The exact condition, for any batch, is `SqlStore.RedeliveryCondition`.
* A marker that exists but that the filter shuts out is an error in memory and a position in SQL
  (`Listing.PagesAgree`).
* A refused batch takes its numbers with it: numbering is gap-free if and only if nothing was ever
  refused (`Polling.PollerFaithful`), and the hole is there for good (`Polling.HoleForever`). It also
  leaves the poller comparing with what it saw before the refusal although part of the listing is
  stored (`taskflow_meter/poller.py:115-133`), so a flow that has meanwhile gone back is not
  corrected (`Polling.RefusalCanDiverge`), and never is while it stays so
  (`Polling.WrongStaysWrong`). When it does come right is `Polling.AfterRefusal`; a listing retried
  until it is stored does whenever it would have in the first place (`Polling.RetryComesRight`).
* A poller makes a new allocator unless it is given one (`taskflow_meter/poller.py:83`), and nothing in
  the package moves it on (`taskflow_meter/events.py:135-142`). Over a store that already holds events
  its numbers collide, and the new events get no rows: exactly when is `Restarting.RestartExactly`.
* `truncated` is documented as eviction (`taskflow_meter/datasource/base.py:67-70`). Number 2 arriving
  before number 1 raises it with nothing evicted (`StoreAgreement.EarlyArrivalLooksEvicted`), and
  2, 1, 3 with room for two evicts 2 without raising it (`StoreAgreement.EvictedInSilence`). A run
  evicted whole never raises it (`StoreAgreement.RunEvictedInSilence`). Whatever was evicted, it can be
  believed exactly under `StoreAgreement.FlagRightForAll`.
* `end` can come before events. With the two reads of a poll apart it does exactly when some land
  in between (`Resuming.EndExactly`, `Resuming.EndCanPrecedeAnEvent`). A run that was finished before,
  a suspended one that resumes for instance, can also end in mid-batch
  (`Resuming.EndComesAfterEverything`), and any run at a hole (`Resuming.EndLeavesUnread`).
* Making room can discard the sentinel that stops the sender (`SentinelLoss.SentinelCanBeLost`), and
  beside a running sender the entries ahead of it are no protection
  (`SentinelLoss.SentinelLostBehindAnEvent`): some interleaving loses it exactly when a producer
  is making room already, or what is queued, being put and still to arrive exceeds the queue's bound
  (`SentinelLoss.SentinelCanBeLostExactly`). The drop counter is exact only when no sentinel was
  discarded and the queue was never found empty (`Interleaving.LossIsCounted`).
* A handler that raises what `except Exception` does not catch strands its delivery for good
  (`Handshake.CrashStrandsDelivery`); from any other reachable state a verdict can still come
  (`Handshake.VerdictExactly`).
* The observation time of a stored flow lags through quiet polls (`RoundTrip.TimelineObserved`).
* The opening of a stream is read by a browser as one empty message
  (`Driving.ResponseAsRead`).

## Model

| member | source | states |
|---|---|---|
| Ordering.SortedNamesAscend | taskflow_meter/models.py:101-103 | sorted names ascend and none repeats |
| Ordering.StrLtIs | taskflow_meter/models.py:101-103 | one text comes before another exactly when it is a beginning of it or has the lesser character at the first place they differ |
| Ordering.SortByOrdered | taskflow_meter/datasource/memory.py:205 | the stable sort leaves no element before a lesser one, for any sort key that is a weak order |
| Ordering.AscendingUnique | taskflow_meter/datasource/memory.py:160-162 | a strict order leaves one way to list a set of rows, whatever order they came out of storage in |
| Folding.FoldAllIdentity | taskflow_meter/fold.py:51-80 | folding never changes run id, book id, book name or meta |
| Folding.FoldSays | taskflow_meter/fold.py:34-115 | what one event of any kind does to each field: the later time, a state from a FLOW_STATE event alone, a name that is there and not empty, and of one atom what the event brings, else what was known, else the default; no other atom moves |
| Folding.ApplyThen | taskflow_meter/fold.py:51-115 | patches compose: applying the field-wise later-wins combination is applying one after the other |
| Folding.FoldIsSummary | taskflow_meter/fold.py:51-115 | folding any sequence of events is applying one field-by-field patch computed from the events alone |
| Folding.AbsorbedExactly | taskflow_meter/fold.py:90-115 | a patch leaves a snapshot alone exactly when every field it writes already holds that value |
| Folding.RedeliveryIsNoOp | taskflow_meter/fold.py:51-115 | folding a batch again changes nothing exactly when each field it writes last already holds that value |
| Folding.ReplayIdempotent | taskflow_meter/fold.py:51-115 | folding the tail of what was already folded once more changes nothing, from any snapshot |
| Folding.SummaryOfAtom | taskflow_meter/fold.py:65-78 | what a sequence writes on one atom depends only on that atom's own events, in their order |
| Folding.SummaryOfFlow | taskflow_meter/fold.py:57-63 | what a sequence writes on the flow's state and name depends only on its FLOW_STATE events |
| Folding.SummaryOfTime | taskflow_meter/fold.py:55 | the timestamp written is that of some event and no event's is later |
| Folding.OrderIndependent | taskflow_meter/fold.py:51-115 | two arrival orders of the same events that agree on the flow's events and on each atom's fold to the same snapshot |
| Folding.StaleRedeliveryRegresses | taskflow_meter/datasource/sqlalchemy/source.py:129-131 | redelivering a batch that is not the tail takes the state back |
| Paging.ContiguousFrom | taskflow_meter/fold.py:118-138 | the loop takes what the recursive selection takes, for every list, start and limit |
| Paging.FirstArrivalsSorted | taskflow_meter/datasource/memory.py:205 | sorting a history by number keeps, for each number, the event that arrived first |
| Paging.StretchAt | taskflow_meter/fold.py:121-127 | a stretch holds every number from its start up to the first hole, each with its own event |
| Paging.ContiguousIsStretch | taskflow_meter/fold.py:118-138 | on a list in number order the selection is the stretch of the log from the expected number, cut at the limit; duplicates are harmless |
| Paging.LimitFirst | taskflow_meter/datasource/sqlalchemy/source.py:282-297 | limiting the rows before the gap-stopping selection loses nothing |
| Paging.PageAdvances | taskflow_meter/datasource/memory.py:215-222 | a page never moves a reader back, ends on a stored number, and a truncated page is never empty |
| Paging.PageServes | taskflow_meter/datasource/memory.py:205-222 | a page in terms of the numbers stored: the least of them, truncated exactly when the next one due lies below it, and each number from there up to the limit or the first hole |
| Paging.DrainIsStretch | taskflow_meter/datasource/memory.py:181-222 | asking again from next_seq until nothing comes gives the whole stretch |
| Paging.PageSizeIndependent | taskflow_meter/datasource/memory.py:181-222 | any limit of at least one yields, over all its pages, the events of one unlimited page; only the first page can be truncated, and the last is empty |
| Listing.SelectSpec | taskflow_meter/datasource/memory.py:152-162 | a listing is in order of observation descending and run id ascending, and holds exactly the rows that pass |
| Listing.SelectAnyOrder | taskflow_meter/datasource/memory.py:152-162 | the order rows are stored in does not show in a listing |
| Listing.KeysetIsSuffix | taskflow_meter/datasource/sqlalchemy/source.py:236-251 | the keyset condition selects exactly what follows the anchor in the full listing |
| Listing.PagesAgree | taskflow_meter/datasource/sqlalchemy/source.py:210-260 | the keyset page equals the positional page exactly when the marker is absent, unknown, or passes the filter |
| Listing.KeysetOffers | taskflow_meter/datasource/sqlalchemy/source.py:210-260 | a SQL page holds, up to the limit, the first of the flows in the state and of the book asked for that were observed before the marker's or then with a greater id, in that order; a marker exactly when one is left out; which error otherwise |
| Listing.PositionalOffers | taskflow_meter/datasource/memory.py:140-179 | the same of a page from memory, to which a marker the filter leaves out is unknown |
| Listing.PageOnTheWalk | taskflow_meter/datasource/memory.py:164-179 | a page is the next stretch of the listing, and its marker leads to just after it |
| Listing.WalkIsCatalogue | taskflow_meter/poller.py:139-148 | following markers terminates and yields the rest of the listing, for every limit |
| Listing.WalkListsEveryFlowOnce | taskflow_meter/datasource/memory.py:160-179 | a full walk lists every flow in the state and of the book asked for once, the later observed first and at one time the smaller run id first, and both stores give the same page at each of its markers |
| Listing.RestOfWalk | taskflow_meter/datasource/sqlalchemy/source.py:236-251 | what a walk come to a flow still lists is what stands behind that flow in the store as it now is |
| Listing.WrittenBetweenPages | taskflow_meter/datasource/memory.py:160-179 | in a store written to between two pages, a run is listed twice exactly when it stood up to the marker's flow before and stands behind it now, and never exactly when neither |
| MemoryStore.MemoryDataSource.Create | taskflow_meter/datasource/memory.py:63-74 | bounds below one are refused; otherwise the store is empty |
| MemoryStore.MemoryDataSource.Apply | taskflow_meter/datasource/memory.py:89-98 | no run goes for a known one or a newcomer that fits, exactly one for any other: the first inserted of those observed longest ago, the newcomer included; the others are as they were; of the event: fold, newest kept, oldest and highest number |
| MemoryStore.MemoryDataSource.ApplyMany | taskflow_meter/datasource/base.py:154-156 | a batch is its events one at a time |
| MemoryStore.MemoryDataSource.RecordOn | taskflow_meter/datasource/memory.py:97-112 | the fold, the ring that keeps only the newest, the number of its first event, and the highest number ever |
| MemoryStore.MemoryDataSource.Admit | taskflow_meter/datasource/memory.py:91-95 | a new run is seeded from the event, and when it does not fit the first of the runs observed longest ago goes, itself perhaps |
| MemoryStore.MemoryDataSource.EvictIfNeeded | taskflow_meter/datasource/memory.py:114-121 | over the limit exactly one run goes, observed before all inserted ahead of it and no later than those behind; the others' objects stay the same objects; within the limit none goes |
| MemoryStore.MemoryDataSource.PickVictim | taskflow_meter/datasource/memory.py:120 | the victim is the earliest inserted of those least recently observed: all ahead of it were observed later, none behind it earlier |
| MemoryStore.OldestObserved | taskflow_meter/datasource/memory.py:120 | no stored run was observed before the victim |
| MemoryStore.OldestIsFirstOldest | taskflow_meter/datasource/memory.py:120 | a tie goes to the run inserted first |
| MemoryStore.ApplyWellFormed | taskflow_meter/datasource/memory.py:89-98 | each stored run stays filed once, under its own id, whatever event arrives |
| MemoryStore.ApplyTakesIn | taskflow_meter/datasource/memory.py:89-121 | the same of any store and any event: who goes, who stays as it is, and what is kept of the event |
| MemoryStore.BatchBounded | taskflow_meter/datasource/memory.py:114-121 | no batch leaves more runs stored than max_runs |
| MemoryStore.MemoryDataSource.Forget | taskflow_meter/datasource/memory.py:128-131 | exactly that run goes, and the answer says whether it was there |
| MemoryStore.MemoryDataSource.GetFlow | taskflow_meter/datasource/memory.py:135-138 | the stored snapshot, or nothing for an unknown run |
| MemoryStore.MemoryDataSource.EventsSince | taskflow_meter/datasource/memory.py:181-222 | from the events still kept of the run: oldest_seq is the least of their numbers, none exactly when there are none, truncated or not; the first to arrive under each number from there; the error for a limit below one |
| MemoryStore.ReadServes | taskflow_meter/datasource/memory.py:181-222 | the same as a fact about any store, reader and limit |
| MemoryStore.MemoryDataSource.ListFlows | taskflow_meter/datasource/memory.py:140-179 | the flows in the state and of the book asked for that stand behind the marker's, in order and up to the limit, with a marker exactly when one is left out; or which of the two errors |
| MemoryStore.SortedHistory | taskflow_meter/datasource/memory.py:203-215 | sorting and selecting reads the log: its least number and its stretch |
| SqlStore.GroupByRun | taskflow_meter/datasource/sqlalchemy/source.py:115-117 | each run's share of a batch, in arrival order; runs once each, in the order of their first events |
| SqlStore.SqlDataSource.ApplyMany | taskflow_meter/datasource/sqlalchemy/source.py:105-121 | grouping by run leaves both tables exactly as storing one event after another would |
| SqlStore.SqlDataSource.ApplyRun | taskflow_meter/datasource/sqlalchemy/source.py:123-146 | one run's row is its folded snapshot; a taken key keeps its first row |
| SqlStore.SqlDataSource.Forget | taskflow_meter/datasource/sqlalchemy/source.py:169-178 | both tables lose exactly that run, and the answer says whether it was there |
| SqlStore.SqlDataSource.Prune | taskflow_meter/datasource/sqlalchemy/source.py:180-202 | a run survives exactly when it was not last observed before the bound, with its rows untouched; the count is that of the runs that went |
| SqlStore.PruneSpares | taskflow_meter/datasource/sqlalchemy/source.py:180-202 | so in both tables, for any database and bound |
| SqlStore.SqlDataSource.GetFlow | taskflow_meter/datasource/sqlalchemy/source.py:206-208 | the snapshot is the asked run's own, and there is none exactly when the run has no event row either |
| SqlStore.SqlDataSource.EventsSince | taskflow_meter/datasource/sqlalchemy/source.py:262-303 | from the rows of the run: oldest_seq is the least of their numbers, none exactly when there are none, truncated or not; the rows from there up to the limit or a hole, though the query is limited before gaps are looked for |
| SqlStore.ReadServes | taskflow_meter/datasource/sqlalchemy/source.py:262-303 | the same as a fact about any database, reader and limit |
| SqlStore.SqlDataSource.ListFlows | taskflow_meter/datasource/sqlalchemy/source.py:210-260 | the flows in the state and of the book asked for that stand behind the marker's, in order and up to the limit, with a marker exactly when one is left out, or which of the two errors; at a walk's markers the very page memory gives |
| SqlStore.EachOnRun | taskflow_meter/datasource/sqlalchemy/source.py:123-146 | only a run's own events matter to its flow row and its event rows |
| SqlStore.BatchingDoesNotMatter | taskflow_meter/datasource/sqlalchemy/source.py:105-121 | a batch can be split anywhere |
| SqlStore.FlowsAndEventsTogether | taskflow_meter/datasource/sqlalchemy/source.py:105-202 | over any sequence of batches, forgets and prunes the runs with a flow row are exactly those with event rows |
| SqlStore.StoredAfterwards | taskflow_meter/datasource/sqlalchemy/source.py:133-146 | every event of a batch has a row under its number afterwards, and no row is lost |
| SqlStore.RedeliveryKeepsRows | taskflow_meter/datasource/sqlalchemy/source.py:133-146 | events whose numbers are stored change no event row, in any order and however often |
| SqlStore.TailRedeliveryIsNoOp | taskflow_meter/datasource/sqlalchemy/source.py:123-146 | redelivering the tail of what was stored, over any runs, changes neither table |
| SqlStore.RedeliveryCondition | taskflow_meter/datasource/sqlalchemy/source.py:105-146 | delivering any batch, over any runs, changes neither table exactly when all its numbers are stored and each field it writes last on each run already has that value |
| SqlStore.RowsAfterSpec | taskflow_meter/datasource/sqlalchemy/source.py:279-291 | the query gives exactly the later rows, in number order |
| SqlStore.LimitedQueryIsPage | taskflow_meter/datasource/sqlalchemy/source.py:282-297 | the limited query followed by the selection gives the page of the whole history |
| StoreAgreement.StoresAgree | taskflow_meter/datasource/memory.py:89-222 | for every history of batches and forgets, the database and a memory store that evicted nothing return the same snapshot and the same page, for every run, position and limit |
| StoreAgreement.SnapshotsAgree | taskflow_meter/datasource/memory.py:135-179 | snapshots and listings agree even when old events were evicted |
| StoreAgreement.HistoryTogether | taskflow_meter/datasource/memory.py:89-131 | the simulation behind both: every batch and forget keeps the two stores in step |
| StoreAgreement.NeverOverLimit | taskflow_meter/datasource/memory.py:114-131 | over any history of batches and forgets no more runs are stored than max_runs |
| StoreAgreement.HistoryIsNewest | taskflow_meter/datasource/memory.py:100-112 | as long as no run is evicted, a run's ring is the newest of that run's events, whatever is stored beside it |
| StoreAgreement.EvictionWindow | taskflow_meter/datasource/memory.py:100-222 | fed in sequence, and no run evicted, memory holds exactly the last min(n, max) numbers, and truncated is reported exactly when the reader's next event was evicted |
| StoreAgreement.FlagExactly | taskflow_meter/datasource/memory.py:205-222 | whatever a store holds and whatever the run was ever given, truncated is reported exactly when all that is kept lies beyond the reader's next number; so it is right for a reader exactly when that number had arrived if so, and is still kept, had it arrived, if not |
| StoreAgreement.FlagRightForAll | taskflow_meter/datasource/base.py:67-70 | truncated means evicted for every reader exactly when every number below what is kept has arrived and every evicted number lies below it, runs evicted whole included |
| StoreAgreement.FlagByArrivalOrder | taskflow_meter/datasource/memory.py:100-112 | while no run is evicted, that is a condition on the order in which the run's events arrived alone |
| StoreAgreement.GoneRunIsSilent | taskflow_meter/datasource/memory.py:201-204 | a run that is gone altogether is never reported: the flag is wrong for every reader whose next event had arrived |
| StoreAgreement.RunEvictedInSilence | taskflow_meter/datasource/memory.py:114-126 | with room for one run, an event of another run observed no earlier makes a run with room in its ring go, and no reader is told |
| StoreAgreement.EvictedInSilence | taskflow_meter/datasource/memory.py:100-215 | arrivals 2, 1, 3 with room for two: a reader at 1 gets nothing and is told nothing, though 2 is gone, 3 is stored and the flow has finished |
| StoreAgreement.EarlyArrivalLooksEvicted | taskflow_meter/datasource/memory.py:207-213 | number 2 before number 1 is reported as truncated though nothing was evicted |
| Numbering.SequenceAllocator.Allocate | taskflow_meter/events.py:123-128 | the next number of that run; no other run's counter moves |
| Numbering.SequenceAllocator.ResumeFrom | taskflow_meter/events.py:135-142 | numbering continues after the given number, never backwards, other runs untouched |
| Numbering.SequenceAllocator.Forget | taskflow_meter/events.py:144-147 | that run's numbering starts over, other runs untouched |
| Diffing.CollectOneAtom | taskflow_meter/diff.py:120-124 | no event exactly when the atom was known and its state, progress and details are the same; of two events the state one is first; each carries the run, the book and the current state and progress, and the state event the one known before |
| Diffing.CollectAtomEvents | taskflow_meter/diff.py:111-124 | every atom's events, atom by atom in the order of the names given |
| Diffing.StampAll | taskflow_meter/diff.py:81-84 | consecutive numbers in emission order, and exactly as many drawn as there are events |
| Diffing.DiffFlow | taskflow_meter/diff.py:50-84 | every field of every event: the state known before as the old one, a failure only when it is news; which events there are, atoms by name and the state before the progress, the flow's own first or, once finished, last; numbers and stamp; an error and no number drawn across runs |
| Diffing.DiffTells | taskflow_meter/diff.py:50-223 | the same as a fact about any two snapshots of a run |
| Diffing.NothingNew | taskflow_meter/diff.py:65-67 | the same state and the same atoms have nothing to report, whatever else changed |
| RoundTrip.StampsDoNotMatter | taskflow_meter/fold.py:51-115 | numbers and timestamps of events decide nothing but the observation time |
| RoundTrip.FoldAtoms | taskflow_meter/diff.py:111-124 | folding the atoms' events touches each named atom by its own events only, and nothing else |
| RoundTrip.DiffEffect | taskflow_meter/diff.py:50-84 | what folding a diff onto any snapshot at all leaves, field by field and atom by atom |
| RoundTrip.AtomStep | taskflow_meter/diff.py:137-189 | an atom known before comes out right exactly when its change is one the events carry |
| RoundTrip.NewAtomStep | taskflow_meter/diff.py:137-189 | an atom seen for the first time always comes out right |
| RoundTrip.AtomHealsExactly | taskflow_meter/fold.py:83-115 | an atom in any stored condition comes out right exactly when what is not reported is right already and nothing stored is there that the events leave alone and the snapshot lacks |
| RoundTrip.StepRoundTrip | taskflow_meter/fold.py:15-18 | folding a diff onto what mirrors the old snapshot mirrors the new one exactly when the change is one the events carry |
| RoundTrip.HealsExactly | taskflow_meter/fold.py:15-18 | folding a diff onto any stored snapshot whatever mirrors the new one exactly when it heals it, a condition on the stored and the two observed snapshots |
| RoundTrip.HealsWhenRight | taskflow_meter/fold.py:51-115 | what already mirrors the new snapshot stays right, whatever the diff was taken from |
| RoundTrip.HealsTwice | taskflow_meter/fold.py:51-115 | folding a diff once does not change whether folding it again would heal |
| RoundTrip.HealsWhenCarried | taskflow_meter/fold.py:51-115 | from a mirror of the old snapshot, to be healed is to be a change the events carry |
| RoundTrip.FirstRoundTrip | taskflow_meter/fold.py:34-48 | a first observation is reproduced without condition, its book name exactly when the first event carried it |
| RoundTrip.FirstEvent | taskflow_meter/diff.py:76-104 | the first event carries the flow's identity unless the run was first seen finished and with atoms |
| RoundTrip.TimelineRoundTrip | taskflow_meter/fold.py:15-18 | over whole timelines of any length, every snapshot along the way is reproduced exactly when every change is one the events carry |
| RoundTrip.TimelineEnd | taskflow_meter/fold.py:15-18 | folding all the diffs of such a timeline gives its last snapshot |
| RoundTrip.BookNameRoundTrip | taskflow_meter/diff.py:76-104 | the book name survives a timeline exactly when the first snapshot was unfinished, had no atoms, or had none |
| RoundTrip.ObservedAfter | taskflow_meter/fold.py:55 | a diff moves the observation time only when it reports something |
| RoundTrip.TimelineObserved | taskflow_meter/diff.py:61-63 | the observation time shown is that of the last snapshot with anything to report, so it lags behind the source through quiet polls |
| RoundTrip.StateComesFromEvents | taskflow_meter/fold.py:57-63 | a folded state is the old one or that of some FLOW_STATE event |
| RoundTrip.FinishComesLast | taskflow_meter/diff.py:76-80 | no strict prefix of a diff makes an unfinished flow look finished |
| Polling.Poller.ReadAll | taskflow_meter/poller.py:139-148 | every stored flow exactly once, in listing order, whatever the page size |
| Polling.Poller.PollOnce | taskflow_meter/poller.py:106-137 | reads the whole source, then the whole new state of poller, counters and sink, for a poll that is stored, unreadable, or refused part of the way; new event rows carry the time their run was listed with, and a flow is shown with the later of its two times exactly when a number went to it; the count of events emitted |
| Polling.Poller.Digest | taskflow_meter/poller.py:112-137 | the same from a listing already read |
| Polling.Poller.Sweep | taskflow_meter/poller.py:115-126 | what the loop over a listing has stored and numbered when it ends, or when the sink refuses |
| Polling.SeenSpec | taskflow_meter/poller.py:113-116 | the runs seen are those listed, each under its own id |
| Polling.DiffNumbers | taskflow_meter/diff.py:81-84 | a diff's events are the run's own and numbered on without a gap; a first sight always has one |
| Polling.StoredStamps | taskflow_meter/poller.py:118-123 | every event a poll stores carries the time the flow of its run was listed with |
| Polling.PollDates | taskflow_meter/poller.py:118-126 | after a poll, however it went, a listed flow is shown with the later of the time it had and the time listed if a number went to it, and unchanged if none did; unlisted flows and old event rows do not move |
| Polling.QuietPoll | taskflow_meter/poller.py:106-137 | a listing in which no state and no atom changed stores nothing and costs no number |
| Polling.OneFlow | taskflow_meter/poller.py:115-126 | storing one flow's diff makes the sink show it exactly when the diff heals what the sink holds of it, and touches no other run |
| Polling.ComesRightWhenShown | taskflow_meter/poller.py:115-126 | from a sink that shows the flow as last seen, that is exactly when the change is one the events carry |
| Polling.MoreNumbers | taskflow_meter/events.py:123-128 | numbering on keeps every run's numbers exactly 1 to its last |
| Polling.PollKeepsFaithful | taskflow_meter/poller.py:106-137 | a stored poll keeps the invariant and shows every flow listed; an unreadable one changes nothing |
| Polling.PollerFaithful | taskflow_meter/poller.py:106-148 | over any history, refused and unreadable polls among them: the sink holds exactly the events stored, the event counter lacks exactly those refused polls stored, and each run's numbers are exactly 1 to the last handed out if and only if nothing was refused |
| Polling.SinkShowsExactly | taskflow_meter/poller.py:106-137 | after any such history and a poll stored in full, the sink shows what the source said exactly when every listed flow comes right from where the history left it |
| Polling.StoredPoll | taskflow_meter/poller.py:106-137 | the same for one poll, flow by flow |
| Polling.RefusedPoll | taskflow_meter/poller.py:115-133 | a refused poll has stored the flows before the refused one, yet what the poller remembers and its counters of polls and events stay as they were |
| Polling.RefusalBurns | taskflow_meter/poller.py:118-126 | a refusal breaks the numbering exactly when the refused flow had something to store |
| Polling.PollBurns | taskflow_meter/poller.py:106-137 | no poll ever gives a burnt number back, a refused one burns some, any other burns none |
| Polling.AfterRefusal | taskflow_meter/poller.py:115-133 | on the poll after a refusal, the first or a later one, a flow shows exactly when its diff, still taken from before the refusal, heals what the refused poll stored of it, or, if that stored nothing of it, when it would have come right anyway |
| Polling.RetryComesRight | taskflow_meter/poller.py:115-133 | a listing retried until it is stored, after any number of refusals of it anywhere and of unreadable polls, puts the whole sink right exactly when it would have had nothing been refused |
| Polling.ReportableIsRight | taskflow_meter/poller.py:115-126 | for a sink that shows what was last seen, that is so of every listing whose changes the events carry |
| Polling.RefusalsKeepRight | taskflow_meter/poller.py:115-133 | refusals of a listing, wherever and however many, do not change which of its flows come right |
| Polling.RefusalCanDiverge | taskflow_meter/poller.py:115-133 | a flow stored in another state by a refused poll and listed as before in the next is not diffed, and the sink keeps showing the other state |
| Polling.DivergesFromFresh | taskflow_meter/poller.py:115-133 | a new poller gets there in three polls, for any two flows |
| Polling.WrongStaysWrong | taskflow_meter/poller.py:115-133 | a flow the sink shows wrongly and that the source goes on listing unchanged stays wrong, over any history of stored, refused and unreadable polls, whatever else is listed |
| Polling.NumbersGoOn | taskflow_meter/events.py:123-128 | whatever is stored later lies above every number handed out before |
| Polling.HoleForever | taskflow_meter/poller.py:118-126 | no number of a refused batch is ever stored, whatever was refused before and whatever is polled later: a reader come up to one gets nothing more, or is told of a hole |
| Polling.RefusalLeavesHole | taskflow_meter/poller.py:118-126 | a refused batch leaves at least one such number |
| Polling.HistoryBelow | taskflow_meter/events.py:123-128 | over any history, refusals among it, no event is numbered beyond what was handed out for its run |
| Polling.ReportedInFull | taskflow_meter/poller.py:106-148 | over histories in which every change is carried and nothing refused, the sink always shows what was last listed, each run's numbers are exactly 1 to the last, and the counter is their total |
| Polling.FreshIsFaithful | taskflow_meter/poller.py:90 | a new poller on an empty sink satisfies the invariant |
| Polling.FailedApplyLeavesHole | taskflow_meter/poller.py:118-126 | a refused first batch takes its numbers with it: a later reader from the start is told of a hole |
| Restarting.HistorySink | taskflow_meter/poller.py:106-137 | whatever a sink held before, after any history of polls it holds that with the events stored applied |
| Restarting.HistoryRises | taskflow_meter/events.py:123-128 | over any history, refusals among it, the numbers of a run strictly rise |
| Restarting.OwnRowExactly | taskflow_meter/datasource/sqlalchemy/source.py:133-146 | an event a poller hands out gets a row of its own exactly when its number is not stored yet; the old row stays, and the snapshot folds the event either way |
| Restarting.ReachNumber | taskflow_meter/poller.py:106-137 | some source makes a poller hand out any number above the last |
| Restarting.RestartExactly | taskflow_meter/poller.py:83 | every event a poller will ever hand out over a store already filled gets a row of its own, whatever the source does, exactly when its allocator was moved past every number stored; a new allocator over a store with any number was not |
| Decimal.DigitsRoundTrip | taskflow_meter/api/sse.py:69 | the decimal digits of a number read back as the number |
| Decimal.RenderParse | taskflow_meter/api/service.py:185-186 | a printed id reads back as the id, whatever its sign |
| Decimal.ReadsToo | taskflow_meter/api/http.py:143-147 | blanks around a number, a plus sign and single underscores between digits do not matter |
| Decimal.ReadsOnly | taskflow_meter/api/http.py:143-147 | text with any other character in it than digits, signs, underscores and blanks is no number |
| Sse.FrameRead | taskflow_meter/api/sse.py:52-73 | a legible frame is read as exactly one message: its data with its line breaks, its name, its id |
| Sse.CommentRead | taskflow_meter/api/sse.py:76-78 | a comment is read as nothing, though its text is on the wire |
| Sse.StreamRead | taskflow_meter/api/sse.py:52-78 | any sequence of legible frames and comments is read as one message per frame, in order |
| Sse.FeedClean | taskflow_meter/api/sse.py:60-62 | no text whatever makes a client hold a CR in data, a line break in a name, or NUL in an id |
| Sse.SplitTerminated | taskflow_meter/api/sse.py:72 | the data lines put together again are the data |
| Sse.PrintThenParse | taskflow_meter/api/sse.py:52-78 | parsing a printed stream gives back its frames exactly when every frame is legible |
| Driving.IterFrames | taskflow_meter/api/sse.py:162-185 | the opening, each poll's frames, a keep-alive after each long silence, and nothing after completion |
| Driving.YieldedIntends | taskflow_meter/api/sse.py:174-185 | however keep-alives fall between the frames, a client is told the same |
| Driving.ResponseAsRead | taskflow_meter/api/sse.py:92-98 | a whole response is read as one empty message from the opening, then one message for each frame of the polls, in order |
| Driving.OpeningBytes | taskflow_meter/api/sse.py:92-98 | the first bytes of a response and those of a keep-alive, character by character |
| Driving.OpeningSetsRetry | taskflow_meter/api/sse.py:48-49 | the opening tells a browser to wait 3000 milliseconds before it reconnects |
| Driving.KeepAlivesFall | taskflow_meter/api/sse.py:173-184 | over polls without a frame, whatever came before, one keep-alive for every so many as are as long as the heartbeat, counted from the last frame or keep-alive: none is missing and none comes sooner |
| Driving.NothingAfterTheEnd | taskflow_meter/api/sse.py:178-179 | nothing is yielded after the poll that completed |
| Streaming.EventCursor.ReadPage | taskflow_meter/api/sse.py:100-126 | a gap frame exactly when the page is truncated, then its events; the cursor moves to the page's end |
| Streaming.EventCursor.Poll | taskflow_meter/api/sse.py:100-131 | the frames for the next page, and the end, last of all, exactly when it is empty and the stored state is SUCCESS, FAILURE, REVERTED or SUSPENDED |
| Streaming.PageNoSilentGap | taskflow_meter/api/sse.py:107-126 | the frames of any page of any log skip no number in silence |
| Streaming.GapsConcat | taskflow_meter/api/sse.py:100-131 | streams without silent gaps put end to end have none |
| Streaming.NumbersIncrease | taskflow_meter/api/sse.py:124-126 | in such a stream event numbers strictly increase |
| Streaming.StepSound | taskflow_meter/api/sse.py:100-131 | every write, eviction, forget and either read of a poll keeps the stream free of silent gaps and the position from going back |
| Streaming.CursorNeverSkipsInSilence | taskflow_meter/api/sse.py:100-131 | over every interleaving, numbers strictly increase and each skip is announced at once by a gap frame naming where it resumes |
| Streaming.EndWasDue | taskflow_meter/api/sse.py:100-147 | in every interleaving with writers a cursor that is done has read and found nothing, has later asked and found the run finished, and its stream stands at the end sent then |
| Resuming.EmptyPageExactly | taskflow_meter/datasource/memory.py:205-215 | a page is empty exactly when nothing is stored or the next number is a hole within the window |
| Resuming.EndLeavesUnread | taskflow_meter/api/sse.py:124-131 | over any log, a poll that says end leaves stored events unread exactly when the flow has finished and the reader's next number is a hole with something stored on either side |
| Resuming.EmptyMeansDrained | taskflow_meter/datasource/memory.py:205-215 | over a history without holes, empty means everything was read |
| Resuming.RowsOfRun | taskflow_meter/datasource/sqlalchemy/source.py:133-146 | the rows of a gap-free run are exactly the numbers 1 to its last |
| Resuming.StateUnderway | taskflow_meter/diff.py:76-80 | part of the way through any batch a flow shows, if the batch tells of its state at all, the new one once the batch is complete or, unless it is finishing, begun; otherwise the one stored, whatever that is |
| Resuming.BatchUnderway | taskflow_meter/poller.py:115-126 | what a store without holes holds of a run part of the way through a batch, a run back in the listing included: its numbers, and whether it looks finished |
| Resuming.EndExactly | taskflow_meter/api/sse.py:100-131 | over a history without holes, with the two reads of a poll at any two moments, any number of polls apart: end exactly when the cursor had all there was at the first and the run looked finished at the second; it then misses events exactly when some landed in between |
| Resuming.EndComesAfterEverything | taskflow_meter/api/sse.py:124-131 | with the two reads as one step, end comes only after everything stored; with the batch complete exactly when the run has finished, if the batch tells of its state, or was shown finished, if not; in mid-batch exactly when it was shown finished before and the batch has not told otherwise |
| Resuming.EndOfUnfinished | taskflow_meter/api/sse.py:124-131 | for a run not finished before, end comes exactly after the whole of its finishing batch |
| Resuming.EndCanPrecedeAnEvent | taskflow_meter/api/sse.py:102-128 | with its two reads apart, a poll can say end before an event that landed between them |
| Resuming.PageLimit | taskflow_meter/api/service.py:163-168 | text that is no integer and limits below one are refused, each with its own error; what is accepted lies between one and the server's maximum, and is what was asked for where that does |
| Resuming.ResumesWhere | taskflow_meter/api/service.py:170-189 | a printed explicit number wins over any header, a printed header counts otherwise, neither or an empty explicit one gives 0; other text is an error where it is read |
| Resuming.HistoryPage | taskflow_meter/datasource/memory.py:181-222 | a page of a history numbered from 1 is the next piece of it, never truncated |
| Resuming.StepInOrder | taskflow_meter/api/service.py:170-189 | growing, polling, delivering, cutting and reconnecting keep what the client has a beginning of the history |
| Resuming.PollSends | taskflow_meter/api/sse.py:100-131 | one poll of a connection sends the next events of the history up to the limit, or the end and nothing else exactly when all were sent and the run has finished |
| Resuming.ReconnectLosesNothing | taskflow_meter/api/service.py:170-189 | over any number of cuts after any frame, nothing is repeated or missing, and it agrees with any other client's reading |
| Resuming.ReconnectCatchesUp | taskflow_meter/api/service.py:170-189 | however it was cut and whatever the page size: one reconnection, enough polls to page through the history, and delivery bring everything |
| Resuming.PollsReachTheEnd | taskflow_meter/api/sse.py:100-131 | each poll brings a cursor a page nearer the end of the history, until it is there |
| Resuming.IdsIntended | taskflow_meter/api/sse.py:136-141 | the id after each frame is that of the last event so far |
| Resuming.WireKeepsIds | taskflow_meter/api/sse.py:100-141 | the bytes of a stream are read as one message per frame, of the event type that tells a gap, the end and each kind apart, its payload intact, and with the id of the last event so far |
| Pipelining.EventPipeline.Submit | taskflow_meter/collect/pipeline.py:98-118 | the queue, the counters and the answer, full or not, whatever other threads do to the queue between its operations |
| Pipelining.EventPipeline.MakeRoomFor | taskflow_meter/collect/pipeline.py:120-144 | the oldest entry, if there is one, makes way and is counted; the event goes in exactly when there is still room after what others did, and is counted too when not |
| Pipelining.EventPipeline.TakeBatch | taskflow_meter/collect/pipeline.py:207-215 | the front of the queue, up to a batch, comes off it |
| Pipelining.EventPipeline.Deliver | taskflow_meter/collect/pipeline.py:217-229 | one attempt per publisher, whichever raise; errors go up by the number of attempts that raised, delivered by the number of events of those that did not |
| Pipelining.ErrorsAreRaised | taskflow_meter/collect/pipeline.py:221-227 | over any attempts the error counter is the number of those that raised |
| Pipelining.DeliveredAreArrivals | taskflow_meter/collect/pipeline.py:221-229 | and the delivery counter the number of events handed over in the others |
| Pipelining.EventPipeline.Run | taskflow_meter/collect/pipeline.py:188-205 | the sender stops after the batch holding the sentinel, having attempted exactly the batches up to it; what lies behind stays queued |
| Pipelining.BatchesCoverQueue | taskflow_meter/collect/pipeline.py:188-215 | the batches are consecutive pieces of the queue of at most the batch size, the sentinel in the last and no other |
| Pipelining.ReachIs | taskflow_meter/collect/pipeline.py:188-215 | how far the sender gets past a sentinel with events behind it |
| Pipelining.EveryPublisherGetsAll | taskflow_meter/collect/pipeline.py:217-229 | each publisher is handed exactly what was taken, once and in order, whatever others do |
| Pipelining.ShutdownDelivers | taskflow_meter/collect/pipeline.py:162-229 | with the sentinel last, every publisher is handed every queued event once and in order, in finitely many bounded batches |
| Pipelining.ShutdownHandsOver | taskflow_meter/collect/pipeline.py:162-229 | for the events submitted: each publisher is handed these, all and in order, and nothing stays queued |
| Interleaving.StepAccounted | taskflow_meter/collect/pipeline.py:98-144 | each queue or counter operation keeps the queue bounded and every entry and drop accounted for |
| Interleaving.QueueIsFifo | taskflow_meter/collect/pipeline.py:98-215 | in every interleaving the bound holds, no entry comes out twice, and taken then queued is a subsequence of what went in |
| Interleaving.LossIsCounted | taskflow_meter/collect/pipeline.py:120-144 | between submits what was lost is at most what was counted dropped, and equal exactly when no sentinel was discarded and no room found empty |
| Interleaving.UninterruptedSubmit | taskflow_meter/collect/pipeline.py:98-144 | the steps of one submit with nothing in between are the method run by itself |
| Interleaving.UninterruptedBatch | taskflow_meter/collect/pipeline.py:188-215 | an undisturbed sender fills its batch from the front of the queue, and can end it as soon as it is full or the queue is empty and not before |
| SentinelLoss.SentinelCanBeLost | taskflow_meter/collect/pipeline.py:122-124 | making room can take the sentinel, and counts it as a dropped event |
| Pipelining.SentinelSurvives | taskflow_meter/collect/pipeline.py:120-144 | with nothing else touching the queue meanwhile, a queued sentinel outlives the events submitted after it exactly when the free places and the entries ahead of it are enough for them |
| SentinelLoss.SentinelCanBeLostExactly | taskflow_meter/collect/pipeline.py:98-144 | over all interleavings, from any state of the producers and a sender at work: some interleaving with at most so many further arrivals loses a queued sentinel, wherever it is, exactly when a producer is making room already, or one is putting or still to come and there is not room for all of those, for those putting again and for what is queued |
| SentinelLoss.EnoughRoomLosesNothing | taskflow_meter/collect/pipeline.py:98-144 | otherwise no interleaving discards anything |
| SentinelLoss.RoomForAllLosesNothing | taskflow_meter/collect/pipeline.py:98-144 | while no producer is past a failed put and everything fits together, no interleaving counts a drop either |
| SentinelLoss.SentinelLostBehindAnEvent | taskflow_meter/collect/pipeline.py:120-144 | a run that loses a sentinel with an event ahead of it, which it would have kept undisturbed: the sender takes the event between the failed put and the discard |
| Interleaving.SenderCanStop | taskflow_meter/collect/pipeline.py:188-215 | from any state with a sentinel in the batch or the queue, the sender stops by its own steps alone, having taken everything ahead of it and discarded nothing |
| Interleaving.QuietQueueLosesNothing | taskflow_meter/collect/pipeline.py:162-180 | with every producer idle and nothing more submitted, nothing is discarded, no sentinel either, whatever the sender and shutdown do |
| Interleaving.SenderStopsAtSentinel | taskflow_meter/collect/pipeline.py:188-215 | in every interleaving the sender's batches are what it took, in order and bounded; it stops exactly with the batch that holds a sentinel, and takes nothing afterwards |
| Subscribing.Delivery.Settle | taskflow_meter/transports/oslo_messaging.py:125-131 | true for the first caller only |
| Subscribing.Delivery.Finish | taskflow_meter/transports/oslo_messaging.py:133-135 | the verdict is recorded and the delivery is done, whoever settled it |
| Subscribing.Subscriber.Consume | taskflow_meter/transports/oslo_messaging.py:325-355 | which parked deliveries are handed over, skipped and left, each one's verdict, and the count returned |
| Subscribing.Subscriber.HandOver | taskflow_meter/transports/oslo_messaging.py:339-354 | the handler runs exactly on deliveries that had not gone back, and the verdict says how it ended |
| Subscribing.Subscriber.ReleasePending | taskflow_meter/transports/oslo_messaging.py:315-323 | everything parked is let go unhandled, what was already settled untouched |
| Subscribing.SweptInOrder | taskflow_meter/transports/oslo_messaging.py:325-355 | what is handed over is the unsettled deliveries taken, each once and in order |
| Subscribing.SweptAccounts | taskflow_meter/transports/oslo_messaging.py:325-355 | the count is that of exactly the batches whose handler returned; only the last can have been refused |
| Subscribing.EventCountIs | taskflow_meter/transports/oslo_messaging.py:354 | what a sweep reports is a number of events, not of batches |
| Handshake.StepGood | taskflow_meter/transports/oslo_messaging.py:109-183 | every step of thread, consumer, time-out or stop keeps the protocol's invariant |
| Handshake.StepConserves | taskflow_meter/transports/oslo_messaging.py:168-183 | every step keeps each message in exactly one place |
| Handshake.StepTallies | taskflow_meter/transports/oslo_messaging.py:354 | every step keeps the total equal to the events of the deliveries counted |
| Handshake.ParkingHandshake | taskflow_meter/transports/oslo_messaging.py:109-183 | in every interleaving a handler runs at most once per delivery, HANDLED means unreadable or returned normally, and a claimed delivery without a verdict has an owner who has not said it is done |
| Handshake.SettledOnce | taskflow_meter/transports/oslo_messaging.py:125-131 | whoever settles a delivery first is its owner for good |
| Handshake.RequeueIsFinal | taskflow_meter/transports/oslo_messaging.py:172-183 | REQUEUE means the handler never succeeded on that delivery and never will |
| Handshake.DoneIsHeard | taskflow_meter/transports/oslo_messaging.py:172-183 | a verdict that comes in while its thread waits is the one that thread answers with |
| Handshake.ParkedFirstOut | taskflow_meter/transports/oslo_messaging.py:169-336 | over any run, what is still parked is the end of what was, in the order it was, ahead of all parked since |
| Handshake.NothingLostNothingTwice | taskflow_meter/transports/oslo_messaging.py:168-183 | at every step published = waiting + parked or claimed + acknowledged, in number and message by message |
| Handshake.StoredExactlyOnce | taskflow_meter/transports/oslo_messaging.py:333-355 | over all its redeliveries a batch's handler succeeds at most once, exactly once when acknowledged, never while it waits |
| Handshake.TotalsAgree | taskflow_meter/transports/oslo_messaging.py:333-355 | whenever no consumer is between a handler's return and its count, whichever handlers escaped, the total is exactly the events of the batches whose handler returned, and with every thread back the acknowledged ones |
| Handshake.TotalIsHandledEvents | taskflow_meter/transports/oslo_messaging.py:354 | so the total is the number of events of those batches, one by one |
| Handshake.CrashStrandsDelivery | taskflow_meter/transports/oslo_messaging.py:345 | a handler that escapes strands its delivery: no verdict ever comes |
| Handshake.CanBeAnswered | taskflow_meter/transports/oslo_messaging.py:168-183 | the steps that bring an unanswered delivery its verdict, unless a handler escaped while owning it |
| Handshake.VerdictExactly | taskflow_meter/transports/oslo_messaging.py:168-183 | in every reachable state a delivery can get its verdict exactly when no handler escaped while owning it |

## Left out

- Resuming.EndExactly: assumes a history without holes, so in which nothing was refused; EndLeavesUnread says what happens at a hole, over any log.
- Polling.PollerFaithful: assumes that no listing names a run twice; ReadAll names none twice.
- Polling.Poller.PollOnce: whether the source answers and which batch the sink refuses are parameters; the sink is the SQL store, and StoreAgreement carries snapshots over to memory.
- Resuming.WireKeepsIds: takes JSON rendering as any function whose output holds no CR.
- Handshake.TotalsAgree: counts in one shared total; a consumer whose handler escapes loses its own partial total with the exception.
- Subscribing.Subscriber.Consume: a handler returns or raises an `Exception`; what escapes `except Exception` is a step of Handshake instead.
- Driving.IterFrames: the asynchronous twin differs only in being stoppable between two frames.
- Floating point: timestamps and progress are reals.
- Event details: a record of the entries anything reads back; the text conversion of a name that is not a string is not modelled.
- Payloads (failures, progress details, meta): opaque values; JSON and UTF-8 are the identity, so a stream is text.
- Aliasing: snapshots are immutable values, so the copies `_detach` makes are not modelled.
- SQL: each transaction and each read is one atomic step; column types and widths are not modelled.
- `int()` of text with digits outside ASCII.
- Locks and threads: each lock-protected operation and each counter update is one step; wall-clock time is a step that may happen.
- The pipeline's `_idle` flag, `flush`, `start`, `stop` and the drop handler; the poller's background loop and error counter.
- The AMQP and HTTP transports, whose interesting steps belong to other libraries; the oslo.messaging hand-over follows the same rule.
- The persistence datasource, whose listing order depends on the clock at each scan.
- Web adapters, routing, serialisers, configuration, migrations, engine hooks, meter reference counts and completion figures.
