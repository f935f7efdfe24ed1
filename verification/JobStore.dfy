// The `jobs` and `job_logs` tables (crates/decentgpu-master/src/db/jobs.rs).
module JobStore {
  import opened Types

  /** One row of `jobs`; times are in milliseconds. */
  datatype JobRow = JobRow(
    id: Uuid, hirer: Uuid, worker: Option<PeerId>, status: JobStatus, backend: GpuBackend,
    memoryMb: Option<I64>, maxDurationSecs: Option<I64>,
    createdAt: int, assignedAt: Option<int>, startedAt: Option<int>, finishedAt: Option<int>,
    error: Option<string>, resultPath: Option<string>)

  type Jobs = map<Uuid, JobRow>

  /** One row of `job_logs`. */
  datatype LogLine = LogLine(job: Uuid, timestampMs: int, level: string, message: string)

  // ── Status changes ─────────────────────────────────────────────────────────────────────

  function Coalesce<T>(a: Option<T>, b: Option<T>): Option<T> {
    if a.Some? then a else b
  }

  predicate Terminal(status: JobStatus) {
    status in {Completed, Failed, Cancelled}
  }

  /** What one status change asks for besides the status itself. */
  datatype Change = Change(to: JobStatus, worker: Option<PeerId>, error: Option<string>, resultPath: Option<string>)

  function Changed(row: JobRow, c: Change, now: int): JobRow {
    row.(status := c.to,
         worker := Coalesce(c.worker, row.worker),
         error := Coalesce(c.error, row.error),
         resultPath := Coalesce(c.resultPath, row.resultPath),
         assignedAt := if c.to == Assigned then Some(now) else row.assignedAt,
         startedAt := if c.to == Running then Some(now) else row.startedAt,
         finishedAt := if Terminal(c.to) then Some(now) else row.finishedAt)
  }

  predicate Matches(jobs: Jobs, id: Uuid, from: JobStatus) {
    id in jobs && jobs[id].status == from
  }

  /** The guarded UPDATE: a compare-and-set on the status. */
  function Transition(jobs: Jobs, id: Uuid, from: JobStatus, c: Change, now: int): Jobs {
    if Matches(jobs, id, from) then jobs[id := Changed(jobs[id], c, now)] else jobs
  }

  function NewRow(id: Uuid, hirer: Uuid, backend: GpuBackend, memoryMb: Option<I64>,
                  maxDurationSecs: Option<I64>, now: int)
    : JobRow
  {
    JobRow(id, hirer, None, Pending, backend, memoryMb, maxDurationSecs, now, None, None, None, None, None)
  }

  // ── Queries ────────────────────────────────────────────────────────────────────────────

  predicate NewestFirst(rows: seq<JobRow>) {
    forall i, j :: 0 <= i < j < |rows| ==> rows[i].createdAt >= rows[j].createdAt && rows[i].id != rows[j].id
  }

  /** All rows of one hirer, newest first; rows of the same instant may stand in any order. */
  predicate IsListing(rows: seq<JobRow>, jobs: Jobs, hirer: Uuid) {
    && NewestFirst(rows)
    && (forall i :: 0 <= i < |rows| ==>
          rows[i].id in jobs && jobs[rows[i].id] == rows[i] && rows[i].hirer == hirer)
    && (forall id :: id in jobs && jobs[id].hirer == hirer ==> jobs[id] in rows)
  }

  function Page<T>(rows: seq<T>, limit: nat, offset: nat): seq<T> {
    var from := if offset < |rows| then offset else |rows|;
    var to := if from + limit < |rows| then from + limit else |rows|;
    rows[from..to]
  }

  /** A page has as many rows as are left after the offset, up to the limit, and they are those. */
  lemma PageInNumbers<T>(rows: seq<T>, limit: nat, offset: nat)
    ensures |Page(rows, limit, offset)|
         == if |rows| <= offset then 0 else if |rows| - offset < limit then |rows| - offset else limit
    ensures forall i :: 0 <= i < |Page(rows, limit, offset)| ==> Page(rows, limit, offset)[i] == rows[offset + i]
  {
  }

  ghost predicate IsPage(page: seq<JobRow>, jobs: Jobs, hirer: Uuid, limit: nat, offset: nat) {
    exists rows :: IsListing(rows, jobs, hirer) && page == Page(rows, limit, offset)
  }

  predicate OldestFirst(lines: seq<LogLine>) {
    forall i, j :: 0 <= i < j < |lines| ==> lines[i].timestampMs <= lines[j].timestampMs
  }

  predicate Wanted(line: LogLine, job: Uuid, since: int) {
    line.job == job && line.timestampMs > since
  }

  /** All wanted lines, each as often as it was stored, in order of time. */
  ghost predicate IsReplay(lines: seq<LogLine>, logs: seq<LogLine>, job: Uuid, since: int) {
    && OldestFirst(lines)
    && forall x: LogLine :: multiset(lines)[x] == if Wanted(x, job, since) then multiset(logs)[x] else 0
  }

  ghost predicate IsReplayPage(page: seq<LogLine>, logs: seq<LogLine>, job: Uuid, since: int, limit: nat) {
    exists lines :: IsReplay(lines, logs, job, since) && page == Page(lines, limit, 0)
  }

  /** Every row stands under its own id. */
  predicate KeyedById(jobs: Jobs) {
    forall id :: id in jobs ==> jobs[id].id == id
  }

  /** A listing from which only the rows in `left` are missing, none of them newer than those listed. */
  ghost predicate IsListingBut(rows: seq<JobRow>, left: set<Uuid>, jobs: Jobs, hirer: Uuid) {
    && left <= jobs.Keys && NewestFirst(rows)
    && (forall id :: id in left ==> jobs[id].hirer == hirer && jobs[id] !in rows)
    && (forall i, id :: 0 <= i < |rows| && id in left ==> rows[i].createdAt >= jobs[id].createdAt)
    && (forall i :: 0 <= i < |rows| ==> rows[i].id in jobs && jobs[rows[i].id] == rows[i] && rows[i].hirer == hirer)
    && (forall id :: id in jobs && jobs[id].hirer == hirer ==> id in left || jobs[id] in rows)
  }

  lemma ListOneMore(rows: seq<JobRow>, left: set<Uuid>, jobs: Jobs, hirer: Uuid, newest: Uuid)
    requires IsListingBut(rows, left, jobs, hirer) && KeyedById(jobs)
    requires newest in left && forall id :: id in left ==> jobs[newest].createdAt >= jobs[id].createdAt
    ensures IsListingBut(rows + [jobs[newest]], left - {newest}, jobs, hirer)
  {
    var more := rows + [jobs[newest]];
    forall id | id in left - {newest}
      ensures jobs[id] !in more
    {
      assert jobs[id].id == id && jobs[newest].id == newest;
    }
    forall i | 0 <= i < |rows|
      ensures rows[i].id != newest
    {
      assert rows[i] in rows;
    }
    forall id | id in jobs && jobs[id].hirer == hirer
      ensures id in left - {newest} || jobs[id] in more
    {
      assert more[|rows|] == jobs[newest];
      if jobs[id] in rows {
        var i :| 0 <= i < |rows| && rows[i] == jobs[id];
        assert more[i] == jobs[id];
      }
    }
  }

  // ── The repository ─────────────────────────────────────────────────────────────────────

  function InsertByTime(x: LogLine, lines: seq<LogLine>): (r: seq<LogLine>)
    ensures |r| == |lines| + 1
  {
    if lines == [] || x.timestampMs < lines[0].timestampMs then [x] + lines
    else [lines[0]] + InsertByTime(x, lines[1..])
  }

  lemma {:induction false} InsertByTimeAdds(x: LogLine, lines: seq<LogLine>)
    ensures multiset(InsertByTime(x, lines)) == multiset(lines) + multiset{x}
  {
    if lines != [] {
      assert lines == [lines[0]] + lines[1..];
      InsertByTimeAdds(x, lines[1..]);
    }
  }

  lemma {:induction false} InsertByTimeSorts(x: LogLine, lines: seq<LogLine>)
    requires OldestFirst(lines)
    ensures OldestFirst(InsertByTime(x, lines))
    ensures InsertByTime(x, lines)[0] == x || (lines != [] && InsertByTime(x, lines)[0] == lines[0])
  {
    if lines != [] && x.timestampMs >= lines[0].timestampMs {
      InsertByTimeSorts(x, lines[1..]);
    }
  }

  lemma {:induction false} NewestExists(jobs: Jobs, ids: set<Uuid>) returns (newest: Uuid)
    requires ids != {} && ids <= jobs.Keys
    ensures newest in ids && forall id :: id in ids ==> jobs[newest].createdAt >= jobs[id].createdAt
  {
    newest :| newest in ids;
    if ids != {newest} {
      assert ids - {newest} != {};
      var other := NewestExists(jobs, ids - {newest});
      if jobs[other].createdAt > jobs[newest].createdAt {
        newest := other;
      }
    }
  }

  /** `page` is what follows the first `offset` of all the hirer's rows, newest first, up to `limit`. */
  ghost predicate IsNewestOf(page: seq<JobRow>, jobs: Jobs, hirer: Uuid, limit: nat, offset: nat) {
    exists rows: seq<JobRow> ::
      && (forall id :: id in jobs && jobs[id].hirer == hirer ==> jobs[id] in rows)
      && (forall i :: 0 <= i < |rows| ==> rows[i].id in jobs && rows[i] == jobs[rows[i].id] && rows[i].hirer == hirer)
      && (forall i, j :: 0 <= i < j < |rows| ==> rows[i].id != rows[j].id && rows[i].createdAt >= rows[j].createdAt)
      && |page| == (if |rows| <= offset then 0 else if |rows| - offset < limit then |rows| - offset else limit)
      && (forall i :: 0 <= i < |page| ==> page[i] == rows[offset + i])
  }

  /** All the job's lines after `since`, each as often as it is stored, by time. */
  ghost predicate IsAllOf(lines: seq<LogLine>, logs: seq<LogLine>, job: Uuid, since: int) {
    && (forall x: LogLine ::
          multiset(lines)[x] == if x.job == job && x.timestampMs > since then multiset(logs)[x] else 0)
    && (forall i, j :: 0 <= i < j < |lines| ==> lines[i].timestampMs <= lines[j].timestampMs)
  }

  /** `page` is the first `limit` of all the job's lines after `since`, by time. */
  ghost predicate IsOldestOf(page: seq<LogLine>, logs: seq<LogLine>, job: Uuid, since: int, limit: nat) {
    exists lines ::
      && IsAllOf(lines, logs, job, since)
      && |page| == (if |lines| < limit then |lines| else limit)
      && (forall i :: 0 <= i < |page| ==> page[i] == lines[i])
  }

  lemma ListingIsNewest(rows: seq<JobRow>, jobs: Jobs, hirer: Uuid, limit: nat, offset: nat)
    requires IsListing(rows, jobs, hirer)
    ensures IsNewestOf(Page(rows, limit, offset), jobs, hirer, limit, offset)
  {
    PageInNumbers(rows, limit, offset);
  }

  lemma ReplayIsOldest(lines: seq<LogLine>, logs: seq<LogLine>, job: Uuid, since: int, limit: nat)
    requires IsReplay(lines, logs, job, since)
    ensures IsOldestOf(Page(lines, limit, 0), logs, job, since, limit)
  {
    PageInNumbers(lines, limit, 0);
    assert IsAllOf(lines, logs, job, since);
  }

  /** The new row, column by column. */
  predicate IsMoved(row: JobRow, row': JobRow, c: Change, now: int) {
    && row'.id == row.id && row'.hirer == row.hirer && row'.backend == row.backend
    && row'.memoryMb == row.memoryMb && row'.maxDurationSecs == row.maxDurationSecs && row'.createdAt == row.createdAt
    && row'.status == c.to
    && row'.worker == (if c.worker.Some? then c.worker else row.worker)
    && row'.error == (if c.error.Some? then c.error else row.error)
    && row'.resultPath == (if c.resultPath.Some? then c.resultPath else row.resultPath)
    && row'.assignedAt == (if c.to == Assigned then Some(now) else row.assignedAt)
    && row'.startedAt == (if c.to == Running then Some(now) else row.startedAt)
    && row'.finishedAt == (if c.to == Completed || c.to == Failed || c.to == Cancelled then Some(now)
                           else row.finishedAt)
  }

  /** What a status change does to a row, column by column. */
  lemma ChangedInColumns(row: JobRow, c: Change, now: int)
    ensures IsMoved(row, Changed(row, c, now), c, now)
  {
  }

  /** A write that took effect. */
  datatype Write = Inserted(row: JobRow) | Moved(id: Uuid, from: JobStatus, c: Change) | Logged(line: LogLine)

  class JobRepository {
    var jobs: Jobs
    var logs: seq<LogLine>
    /** What has been written through this repository, in order. */
    ghost var writes: seq<Write>

    constructor ()
      ensures jobs == map[] && logs == [] && writes == []
    {
      jobs, logs, writes := map[], [], [];
    }

    /** Inserts a pending job under the id that the database generates; a clash is refused. */
    method Create(id: Uuid, hirer: Uuid, backend: GpuBackend, memoryMb: Option<I64>,
                  maxDurationSecs: Option<I64>, now: int)
      returns (row: Option<JobRow>)
      modifies this`jobs, this`writes
      ensures row.Some? <==> id !in old(jobs)
      ensures row.Some? ==>
                row.value == JobRow(id, hirer, None, Pending, backend, memoryMb, maxDurationSecs, now,
                                    None, None, None, None, None)
      ensures jobs == if row.Some? then old(jobs)[id := row.value] else old(jobs)
      ensures writes == if row.Some? then old(writes) + [Inserted(row.value)] else old(writes)
    {
      if id in jobs {
        return None;
      }
      var created := NewRow(id, hirer, backend, memoryMb, maxDurationSecs, now);
      jobs := jobs[id := created];
      writes := writes + [Inserted(created)];
      return Some(created);
    }

    /** Returns the new row, or `None` for the Conflict error. */
    method TransitionStatus(id: Uuid, from: JobStatus, c: Change, now: int) returns (row: Option<JobRow>)
      modifies this`jobs, this`writes
      ensures jobs == Transition(old(jobs), id, from, c, now)
      ensures row.Some? <==> id in old(jobs) && old(jobs)[id].status == from
      ensures row.Some? ==> IsMoved(old(jobs)[id], row.value, c, now) && jobs == old(jobs)[id := row.value]
      ensures row.None? ==> jobs == old(jobs)
      ensures row.Some? ==> id in jobs && row.value == jobs[id] && row.value.status == c.to
      ensures writes == if row.Some? then old(writes) + [Moved(id, from, c)] else old(writes)
    {
      if id !in jobs || jobs[id].status != from {
        return None;
      }
      var updated := Changed(jobs[id], c, now);
      jobs := jobs[id := updated];
      writes := writes + [Moved(id, from, c)];
      return Some(updated);
    }

    method FindById(id: Uuid) returns (row: Option<JobRow>)
      ensures row == if id in jobs then Some(jobs[id]) else None
    {
      if id in jobs {
        return Some(jobs[id]);
      }
      return None;
    }

    method ListByHirer(hirer: Uuid, limit: nat, offset: nat) returns (page: seq<JobRow>)
      requires KeyedById(jobs)
      ensures IsPage(page, jobs, hirer, limit, offset) && IsNewestOf(page, jobs, hirer, limit, offset)
    {
      var left := set id | id in jobs && jobs[id].hirer == hirer;
      var rows := [];
      while left != {}
        invariant IsListingBut(rows, left, jobs, hirer)
        decreases left
      {
        ghost var latest := NewestExists(jobs, left);
        var newest :| newest in left && forall id :: id in left ==> jobs[newest].createdAt >= jobs[id].createdAt;
        ListOneMore(rows, left, jobs, hirer, newest);
        rows := rows + [jobs[newest]];
        left := left - {newest};
      }
      page := Page(rows, limit, offset);
      ListingIsNewest(rows, jobs, hirer, limit, offset);
    }

    method AppendLog(job: Uuid, timestampMs: int, level: string, message: string)
      modifies this`logs, this`writes
      ensures logs == old(logs) + [LogLine(job, timestampMs, level, message)]
      ensures writes == old(writes) + [Logged(LogLine(job, timestampMs, level, message))]
    {
      logs := logs + [LogLine(job, timestampMs, level, message)];
      writes := writes + [Logged(LogLine(job, timestampMs, level, message))];
    }

    method GetLogsSince(job: Uuid, since: int, limit: nat) returns (page: seq<LogLine>)
      ensures IsReplayPage(page, logs, job, since, limit) && IsOldestOf(page, logs, job, since, limit)
    {
      var lines := [];
      for i := 0 to |logs|
        invariant IsReplay(lines, logs[..i], job, since)
      {
        assert logs[..i + 1] == logs[..i] + [logs[i]];
        if Wanted(logs[i], job, since) {
          InsertByTimeSorts(logs[i], lines);
          InsertByTimeAdds(logs[i], lines);
          lines := InsertByTime(logs[i], lines);
        }
      }
      assert logs[..|logs|] == logs;
      page := Page(lines, limit, 0);
      ReplayIsOldest(lines, logs, job, since, limit);
    }
  }
}
