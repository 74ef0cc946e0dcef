/**
 * The stored pipeline-run records and the three operations on them:
 * creating a run, updating its status (which stamps the end time of the
 * terminal statuses), and listing runs by filter, newest first, one page
 * at a time. Timestamps are integers supplied by the caller in place of
 * datetime.utcnow().
 */
module RunStore {
  import opened Common
  import opened Sorting

  datatype RunStatus = Pending | Running | Success | Failed | Cancelled

  /** The statuses that end a run. */
  predicate IsTerminal(s: RunStatus)
  {
    s == Success || s == Failed || s == Cancelled
  }

  datatype Run = Run(
    id: int,
    pipelineId: int,
    triggeredBy: Option<int>,
    status: RunStatus,
    startTime: Option<int>,
    endTime: Option<int>,
    createdAt: int,
    updatedAt: int)

  /** The record after a status update at time `now`. */
  function WithStatus(run: Run, status: RunStatus, endTime: Option<int>, now: int): (r: Run)
  {
    run.(status := status, updatedAt := now,
         endTime := if IsTerminal(status) then Some(endTime.GetOr(now)) else run.endTime)
  }

  /**
   * Any status may follow any status: the new status is written whatever the
   * old one was, `updated_at` is always refreshed, the end time is stamped
   * exactly by the terminal statuses (with the supplied time, else now), and
   * nothing else of the record changes.
   */
  lemma WithStatusFacts(run: Run, status: RunStatus, endTime: Option<int>, now: int)
    ensures var r := WithStatus(run, status, endTime, now);
      r.status == status && r.updatedAt == now
      && (IsTerminal(status) ==> r.endTime.Some? && (endTime.Some? ==> r.endTime == endTime) && (endTime.None? ==> r.endTime == Some(now)))
      && (!IsTerminal(status) ==> r.endTime == run.endTime)
      && r.id == run.id && r.pipelineId == run.pipelineId && r.triggeredBy == run.triggeredBy
      && r.startTime == run.startTime && r.createdAt == run.createdAt
  {
  }

  /**
   * Once a run has ended, moving it back to a non-terminal status keeps the
   * old end time: the record then carries an end time while running.
   */
  lemma ReopenedRunKeepsEndTime(run: Run, status: RunStatus, now: int)
    requires IsTerminal(run.status) && run.endTime.Some? && !IsTerminal(status)
    ensures WithStatus(run, status, None, now).endTime == run.endTime
    ensures WithStatus(run, status, None, now).status == status
  {
  }

  class RunTable {
    var runs: map<int, Run>
    var nextId: int

    /** Every record is stored under its own id, below the next id to hand out. */
    ghost predicate Valid()
      reads this
    {
      forall id :: id in runs ==> runs[id].id == id && id < nextId
    }

    constructor ()
      ensures Valid() && runs == map[] && nextId == 1
    {
      runs := map[];
      nextId := 1;
    }

    function Get(id: int): (r: Option<Run>)
      reads this
      ensures r.Some? <==> id in runs
      ensures r.Some? ==> r.value == runs[id]
    {
      if id in runs then Some(runs[id]) else None
    }

    /** A new run starts PENDING, with its start time already set to the creation time. */
    method Create(pipelineId: int, triggeredBy: Option<int>, now: int) returns (run: Run)
      requires Valid()
      modifies this
      ensures Valid()
      ensures run == Run(old(nextId), pipelineId, triggeredBy, Pending, Some(now), None, now, now)
      ensures run.id !in old(runs)
      ensures runs == old(runs)[run.id := run]
      ensures nextId == old(nextId) + 1
    {
      run := Run(nextId, pipelineId, triggeredBy, Pending, Some(now), None, now, now);
      runs := runs[nextId := run];
      nextId := nextId + 1;
    }

    /** Updating an unknown id changes nothing and returns None. */
    method UpdateStatus(id: int, status: RunStatus, endTime: Option<int>, now: int) returns (r: Option<Run>)
      requires Valid()
      modifies this
      ensures Valid() && nextId == old(nextId)
      ensures id !in old(runs) ==> r.None? && runs == old(runs)
      ensures id in old(runs) ==> r == Some(WithStatus(old(runs[id]), status, endTime, now)) && runs == old(runs)[id := r.value]
    {
      if id !in runs {
        return None;
      }
      var run := WithStatus(runs[id], status, endTime, now);
      runs := runs[id := run];
      r := Some(run);
    }
  }

  // ---------------------------------------------------------------
  // Listing
  // ---------------------------------------------------------------

  /** The optional filters of a listing; each one that is given must match. */
  datatype RunFilter = RunFilter(pipelineId: Option<int>, status: Option<RunStatus>, triggeredBy: Option<int>)

  predicate Matches(f: RunFilter, run: Run)
  {
    (f.pipelineId.None? || f.pipelineId.value == run.pipelineId)
    && (f.status.None? || f.status.value == run.status)
    && (f.triggeredBy.None? || run.triggeredBy == Some(f.triggeredBy.value))
  }

  function Filtered(rows: seq<Run>, f: RunFilter): (r: seq<Run>)
    ensures |r| <= |rows|
    ensures forall k :: 0 <= k < |r| ==> Matches(f, r[k]) && r[k] in rows
    ensures forall x :: x in rows && Matches(f, x) ==> x in r
  {
    if |rows| == 0 then []
    else (if Matches(f, rows[0]) then [rows[0]] else []) + Filtered(rows[1..], f)
  }

  function NewestFirstKey(run: Run): int
  {
    -run.createdAt
  }

  /**
   * The page of runs matching the filter, newest first, skipping `skip`
   * rows and holding at most `limit`. `rows` is the table in storage order;
   * runs created at the same instant keep that order.
   */
  function ListRuns(rows: seq<Run>, f: RunFilter, skip: nat, limit: nat): seq<Run>
  {
    Window(SortBy(Filtered(rows, f), NewestFirstKey), skip, limit)
  }

  /** SQL's OFFSET and LIMIT: skip `skip` rows, then keep at most `limit`. */
  function Window(ordered: seq<Run>, skip: nat, limit: nat): seq<Run>
  {
    var start := if skip < |ordered| then skip else |ordered|;
    var stop := if start + limit < |ordered| then start + limit else |ordered|;
    ordered[start..stop]
  }

  lemma WindowsConcatenate(ordered: seq<Run>, skip: nat, a: nat, b: nat)
    ensures Window(ordered, skip, a) + Window(ordered, skip + a, b) == Window(ordered, skip, a + b)
  {
    var n := |ordered|;
    var s1 := if skip < n then skip else n;
    var e1 := if s1 + a < n then s1 + a else n;
    var s2 := if skip + a < n then skip + a else n;
    var e2 := if s2 + b < n then s2 + b else n;
    assert s2 == e1;
    assert ordered[s1..e1] + ordered[e1..e2] == ordered[s1..e2];
  }

  /**
   * Paging loses and repeats nothing: a page of `a` runs followed by the
   * page of `b` runs that starts where it ends is the page of `a + b` runs.
   */
  lemma ConsecutivePagesConcatenate(rows: seq<Run>, f: RunFilter, skip: nat, a: nat, b: nat)
    ensures ListRuns(rows, f, skip, a) + ListRuns(rows, f, skip + a, b) == ListRuns(rows, f, skip, a + b)
  {
    WindowsConcatenate(SortBy(Filtered(rows, f), NewestFirstKey), skip, a, b);
  }

  lemma {:induction false} SortedMembers(matching: seq<Run>, f: RunFilter, x: Run)
    requires forall k :: 0 <= k < |matching| ==> Matches(f, matching[k])
    requires x in SortBy(matching, NewestFirstKey)
    ensures Matches(f, x) && x in matching
  {
    SortByFacts(matching, NewestFirstKey);
    assert x in multiset(SortBy(matching, NewestFirstKey));
    assert x in multiset(matching);
    var idx :| 0 <= idx < |matching| && matching[idx] == x;
  }

  /**
   * A page holds at most `limit` runs, every one of them matching the
   * filter and stored in the table, ordered by creation time descending;
   * it is the slice of all matching runs (newest first) that starts after
   * `skip` of them.
   */
  lemma {:induction false} ListRunsFacts(rows: seq<Run>, f: RunFilter, skip: nat, limit: nat)
    ensures var page := ListRuns(rows, f, skip, limit);
      |page| <= limit
      && (forall k :: 0 <= k < |page| ==> Matches(f, page[k]) && page[k] in rows)
      && (forall i, j :: 0 <= i < j < |page| ==> page[i].createdAt >= page[j].createdAt)
      && |page| == (if skip >= |Filtered(rows, f)| then 0
                    else if |Filtered(rows, f)| - skip < limit then |Filtered(rows, f)| - skip
                    else limit)
  {
    var ordered := SortBy(Filtered(rows, f), NewestFirstKey);
    OrderedMatching(rows, f);
    var start := if skip < |ordered| then skip else |ordered|;
    var stop := if start + limit < |ordered| then start + limit else |ordered|;
    SliceOfOrdered(rows, ordered, f, start, stop);
  }

  /** The matching runs, newest first, are stored runs that match, ordered by creation time descending. */
  lemma {:induction false} OrderedMatching(rows: seq<Run>, f: RunFilter)
    ensures var ordered := SortBy(Filtered(rows, f), NewestFirstKey);
      |ordered| == |Filtered(rows, f)|
      && (forall k :: 0 <= k < |ordered| ==> Matches(f, ordered[k]) && ordered[k] in rows)
      && (forall i, j :: 0 <= i < j < |ordered| ==> ordered[i].createdAt >= ordered[j].createdAt)
  {
    var matching := Filtered(rows, f);
    var ordered := SortBy(matching, NewestFirstKey);
    SortByFacts(matching, NewestFirstKey);
    SortByLength(matching, NewestFirstKey);
    forall k | 0 <= k < |ordered|
      ensures Matches(f, ordered[k]) && ordered[k] in rows
    {
      SortedMembers(matching, f, ordered[k]);
    }
    forall i, j | 0 <= i < j < |ordered|
      ensures ordered[i].createdAt >= ordered[j].createdAt
    {
      assert NewestFirstKey(ordered[i]) <= NewestFirstKey(ordered[j]);
    }
  }

  lemma SliceOfOrdered(rows: seq<Run>, ordered: seq<Run>, f: RunFilter, start: nat, stop: nat)
    requires start <= stop <= |ordered|
    requires forall k :: 0 <= k < |ordered| ==> Matches(f, ordered[k]) && ordered[k] in rows
    requires forall i, j :: 0 <= i < j < |ordered| ==> ordered[i].createdAt >= ordered[j].createdAt
    ensures var page := ordered[start..stop];
      (forall k :: 0 <= k < |page| ==> Matches(f, page[k]) && page[k] in rows)
      && (forall i, j :: 0 <= i < j < |page| ==> page[i].createdAt >= page[j].createdAt)
  {
    var page := ordered[start..stop];
    assert forall k :: 0 <= k < |page| ==> page[k] == ordered[start + k];
  }

  /**
   * A listing without paging limits returns exactly the stored runs that
   * match the filter, each as often as the table holds it.
   */
  lemma {:induction false} FullListingIsMatchingRuns(rows: seq<Run>, f: RunFilter)
    ensures multiset(ListRuns(rows, f, 0, |rows|)) == multiset(Filtered(rows, f))
    ensures forall x :: multiset(ListRuns(rows, f, 0, |rows|))[x] == (if Matches(f, x) then multiset(rows)[x] else 0)
  {
    var matching := Filtered(rows, f);
    var ordered := SortBy(matching, NewestFirstKey);
    SortByFacts(matching, NewestFirstKey);
    SortByLength(matching, NewestFirstKey);
    assert ordered[0..|ordered|] == ordered;
    forall x
      ensures multiset(matching)[x] == (if Matches(f, x) then multiset(rows)[x] else 0)
    {
      FilteredMultiplicity(rows, f, x);
    }
  }

  /** Filtering keeps every matching run as often as it occurs, and no other. */
  lemma {:induction false} FilteredMultiplicity(rows: seq<Run>, f: RunFilter, x: Run)
    ensures multiset(Filtered(rows, f))[x] == (if Matches(f, x) then multiset(rows)[x] else 0)
  {
    if |rows| > 0 {
      FilteredMultiplicity(rows[1..], f, x);
      assert rows == [rows[0]] + rows[1..];
      assert multiset(rows) == multiset([rows[0]]) + multiset(rows[1..]);
    }
  }

  /** Without filters and paging limits a listing returns every stored run. */
  lemma {:induction false} UnfilteredListingIsComplete(rows: seq<Run>)
    ensures multiset(ListRuns(rows, RunFilter(None, None, None), 0, |rows|)) == multiset(rows)
  {
    var f := RunFilter(None, None, None);
    AllMatch(rows, f);
    SortByFacts(rows, NewestFirstKey);
    SortByLength(rows, NewestFirstKey);
    assert SortBy(rows, NewestFirstKey)[0..|rows|] == SortBy(rows, NewestFirstKey);
  }

  lemma {:induction false} AllMatch(rows: seq<Run>, f: RunFilter)
    requires f == RunFilter(None, None, None)
    ensures Filtered(rows, f) == rows
  {
    if |rows| > 0 {
      AllMatch(rows[1..], f);
      assert [rows[0]] + rows[1..] == rows;
    }
  }
}
