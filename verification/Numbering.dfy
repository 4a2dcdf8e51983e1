/** Per-run sequence numbers. */
module Numbering {

  type Counters = map<string, int>

  /** The number given out most recently under a run id; 0 before the first. */
  function Last(counters: Counters, runId: string): int {
    if runId in counters then counters[runId] else 0
  }

  /** The counters in place; only the named run's ever moves. */
  class SequenceAllocator {
    var counters: Counters

    constructor (counters: Counters)
      ensures this.counters == counters
    {
      this.counters := counters;
    }

    method Allocate(runId: string) returns (next: int)
      modifies this
      ensures next == Last(old(counters), runId) + 1
      ensures counters == old(counters)[runId := next]
    {
      next := (if runId in counters then counters[runId] else 0) + 1;
      counters := counters[runId := next];
    }

    method Peek(runId: string) returns (last: int)
      ensures last == Last(counters, runId)
    {
      last := if runId in counters then counters[runId] else 0;
    }

    /** Continue numbering after `seqNo`; never backwards. */
    method ResumeFrom(runId: string, seqNo: int)
      modifies this
      ensures forall r :: Last(counters, r) ==
                if r != runId then Last(old(counters), r)
                else if seqNo > Last(old(counters), r) then seqNo else Last(old(counters), r)
      ensures counters.Keys == old(counters).Keys + {runId}
    {
      var last := if runId in counters then counters[runId] else 0;
      counters := counters[runId := if last < seqNo then seqNo else last];
    }

    /** The run starts over at 1 should it be numbered again. */
    method Forget(runId: string)
      modifies this
      ensures counters == old(counters) - {runId}
      ensures forall r :: Last(counters, r) == if r == runId then 0 else Last(old(counters), r)
    {
      counters := counters - {runId};
    }
  }
}
