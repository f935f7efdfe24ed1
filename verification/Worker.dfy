// A worker: its bounded queue of assignments, the executor loop, and what it reports
// (crates/decentgpu-worker/src/main.rs and crates/decentgpu-worker/src/p2p/handler.rs).
module Worker {
  import opened Types
  import opened JobStore
  import opened LogReplay

  datatype JobSpec = JobSpec(job: Uuid, code: string)

  datatype Assignment = Assignment(spec: Option<JobSpec>)

  /** What happens when a job is executed: its files cannot be written, or it runs, emits lines and
      ends with or without success. */
  datatype Execution =
    | NotPrepared(error: string)
    | Ended(lines: seq<string>, success: bool, error: string)

  datatype JobResult = JobResult(job: Uuid, success: bool, output: string)

  datatype JobCompleted = JobCompleted(job: Uuid, success: bool, errorMessage: string, output: string)

  /** The lines the job emitted, and the error after them if there is one. */
  function OutputOf(lines: seq<string>, success: bool, error: string): string {
    if success || error == "" then Join(lines)
    else if Join(lines) == "" then error
    else Join(lines) + "\n" + error
  }

  function ResultOf(spec: JobSpec, x: Execution): JobResult {
    if spec.code == "" then JobResult(spec.job, false, "no code bytes in assignment")
    else
      match x
      case NotPrepared(error) => JobResult(spec.job, false, error)
      case Ended(lines, success, error) => JobResult(spec.job, success, OutputOf(lines, success, error))
  }

  /** The results of the first `n` assignments; one without a spec is skipped. */
  function ResultsUpTo(assignments: seq<Assignment>, xs: seq<Execution>, n: nat): seq<JobResult>
    requires n <= |assignments| && n <= |xs|
  {
    if n == 0 then []
    else
      ResultsUpTo(assignments, xs, n - 1)
      + if assignments[n - 1].spec.None? then [] else [ResultOf(assignments[n - 1].spec.value, xs[n - 1])]
  }

  function MessageOf(r: JobResult): JobCompleted {
    JobCompleted(r.job, r.success, if r.success then "" else r.output, r.output)
  }

  function Reports(results: seq<JobResult>): seq<JobCompleted> {
    seq(|results|, i requires 0 <= i < |results| => MessageOf(results[i]))
  }

  class WorkerNode {
    var master: Option<PeerId>
    var queue: seq<Assignment>
    var results: seq<JobResult>
    var sent: seq<JobCompleted>

    constructor ()
      ensures master == None && queue == [] && results == [] && sent == []
    {
      master, queue, results, sent := None, [], [], [];
    }

    /** An assignment arrives; it is turned away when the executor's queue is full. */
    method Receive(assignment: Assignment) returns (accepted: bool)
      requires |queue| <= JobProtocol.QUEUE_LIMIT
      modifies this`queue
      ensures accepted == (|old(queue)| < 32)
      ensures queue == if accepted then old(queue) + [assignment] else old(queue)
      ensures |queue| <= JobProtocol.QUEUE_LIMIT
    {
      accepted := |queue| < JobProtocol.QUEUE_LIMIT;
      if accepted {
        queue := queue + [assignment];
      }
    }

    /** Executes what is queued, first come first served; `xs` says how each execution goes. */
    method Execute(xs: seq<Execution>)
      requires |xs| == |queue|
      modifies this`queue, this`results
      ensures queue == []
      ensures results == old(results) + ResultsUpTo(old(queue), xs, |xs|)
    {
      ghost var all := queue;
      var i := 0;
      while queue != []
        invariant 0 <= i <= |all| == |xs| && queue == all[i..]
        invariant results == old(results) + ResultsUpTo(all, xs, i)
        decreases |queue|
      {
        var assignment, x := queue[0], xs[i];
        queue := queue[1..];
        i := i + 1;
        if assignment.spec.None? {
          continue;
        }
        var spec := assignment.spec.value;
        if spec.code == "" {
          results := results + [JobResult(spec.job, false, "no code bytes in assignment")];
          continue;
        }
        if x.NotPrepared? {
          results := results + [JobResult(spec.job, false, x.error)];
          continue;
        }
        var output := Collect(x.lines, x.success, x.error);
        results := results + [JobResult(spec.job, x.success, output)];
      }
    }

    /** Sends the results to the master, or drops them while none is known. */
    method SendResults()
      modifies this`results, this`sent
      ensures results == []
      ensures sent == if master.Some? then old(sent) + Reports(old(results)) else old(sent)
      ensures master.Some? ==> |sent| == |old(sent)| + |old(results)| && sent[..|old(sent)|] == old(sent)
      ensures master.Some? ==> forall i :: 0 <= i < |old(results)| ==>
                && sent[|old(sent)| + i].job == old(results)[i].job
                && sent[|old(sent)| + i].success == old(results)[i].success
                && sent[|old(sent)| + i].output == old(results)[i].output
                && sent[|old(sent)| + i].errorMessage == if old(results)[i].success then "" else old(results)[i].output
    {
      ghost var all := results;
      ghost var i := 0;
      while results != []
        invariant i <= |all| && results == all[i..]
        invariant sent == if master.Some? then old(sent) + Reports(all[..i]) else old(sent)
        decreases |results|
      {
        assert Reports(all[..i + 1]) == Reports(all[..i]) + [MessageOf(all[i])];
        if master.Some? {
          sent := sent + [MessageOf(results[0])];
        }
        results := results[1..];
        i := i + 1;
      }
      assert all[..i] == all;
    }
  }

  /** Collects the lines while the job runs, and puts the error after them. */
  method Collect(lines: seq<string>, success: bool, error: string) returns (output: string)
    ensures output == OutputOf(lines, success, error)
  {
    var logLines := [];
    for i := 0 to |lines|
      invariant logLines == lines[..i]
    {
      logLines := logLines + [lines[i]];
    }
    assert logLines == lines;
    var base := Join(logLines);
    if success || error == "" {
      return base;
    }
    return if base == "" then error else base + "\n" + error;
  }

  // ── One result per assignment ──────────────────────────────────────────────────────────

  function SpecJobs(assignments: seq<Assignment>): seq<Uuid> {
    if assignments == [] then []
    else
      var last := assignments[|assignments| - 1];
      SpecJobs(assignments[..|assignments| - 1]) + if last.spec.None? then [] else [last.spec.value.job]
  }

  function ResultJobs(results: seq<JobResult>): seq<Uuid> {
    seq(|results|, i requires 0 <= i < |results| => results[i].job)
  }

  /** The executor succeeded with this job: the job had code, and it ran and ended well. */
  predicate RanWell(assignment: Assignment, x: Execution, job: Uuid) {
    assignment.spec.Some? && assignment.spec.value.job == job && assignment.spec.value.code != ""
    && x.Ended? && x.success
  }

  /** The result that an execution of this job must give. */
  predicate IsResultOf(r: JobResult, spec: JobSpec, x: Execution) {
    && r.job == spec.job
    && (spec.code == "" ==> !r.success && r.output == "no code bytes in assignment")
    && (spec.code != "" && x.NotPrepared? ==> !r.success && r.output == x.error)
    && (spec.code != "" && x.Ended? ==>
          && r.success == x.success
          && r.output == if x.success || x.error == "" then Join(x.lines)
                         else if Join(x.lines) == "" then x.error
                         else Join(x.lines) + "\n" + x.error)
  }

  /** Each assignment with a spec gives one result for its job, in the order of the queue. */
  lemma {:induction false} OneResultPerAssignment(assignments: seq<Assignment>, xs: seq<Execution>, n: nat)
    requires n <= |assignments| && n <= |xs|
    ensures ResultJobs(ResultsUpTo(assignments, xs, n)) == SpecJobs(assignments[..n])
    ensures |ResultsUpTo(assignments, xs, n)| == |SpecJobs(assignments[..n])|
  {
    if n > 0 {
      var before := ResultsUpTo(assignments, xs, n - 1);
      OneResultPerAssignment(assignments, xs, n - 1);
      assert assignments[..n][..n - 1] == assignments[..n - 1];
      var last := assignments[n - 1];
      if last.spec.Some? {
        var r := ResultOf(last.spec.value, xs[n - 1]);
        assert ResultsUpTo(assignments, xs, n) == before + [r];
        assert ResultJobs(before + [r]) == ResultJobs(before) + [r.job];
      }
    }
  }

  lemma ResultIsRight(spec: JobSpec, x: Execution)
    ensures IsResultOf(ResultOf(spec, x), spec, x)
  {
  }

  /** The result that stands in an assignment's place is the one its execution must give. */
  lemma {:induction false} EachResultIsRight(assignments: seq<Assignment>, xs: seq<Execution>, n: nat, k: nat)
    requires k < n <= |assignments| && n <= |xs| && assignments[k].spec.Some?
    ensures var place := |SpecJobs(assignments[..k])|;
            && place < |ResultsUpTo(assignments, xs, n)|
            && IsResultOf(ResultsUpTo(assignments, xs, n)[place], assignments[k].spec.value, xs[k])
  {
    OneResultPerAssignment(assignments, xs, k);
    if k == n - 1 {
      ResultIsRight(assignments[k].spec.value, xs[k]);
    } else {
      EachResultIsRight(assignments, xs, n - 1, k);
    }
  }

  /** Success is reported to the master for a job if and only if some run of it ended well. */
  lemma {:induction false} SuccessOnlyAfterGoodRun(assignments: seq<Assignment>, xs: seq<Execution>, n: nat, job: Uuid)
    requires n <= |assignments| && n <= |xs|
    ensures (exists m :: m in Reports(ResultsUpTo(assignments, xs, n)) && m.job == job && m.success)
       <==> (exists k :: 0 <= k < n && RanWell(assignments[k], xs[k], job))
  {
    if n > 0 {
      var before, reports := ResultsUpTo(assignments, xs, n - 1), Reports(ResultsUpTo(assignments, xs, n));
      SuccessOnlyAfterGoodRun(assignments, xs, n - 1, job);
      var last := assignments[n - 1];
      if last.spec.Some? {
        var r := ResultOf(last.spec.value, xs[n - 1]);
        assert reports == Reports(before) + [MessageOf(r)];
        assert MessageOf(r) in reports;
        assert r.success && r.job == job <==> RanWell(last, xs[n - 1], job);
      } else {
        assert reports == Reports(before);
      }
      assert forall m :: m in Reports(before) ==> m in reports;
    }
  }

  // ── From the job's output to the replay ────────────────────────────────────────────────

  /** The texts a reader of the log sees for a run: the non-empty lines of everything it emitted, and
      of its error if it failed with one. */
  function Seen(texts: seq<string>, success: bool, error: string): seq<string> {
    if !success && error != "" then NonEmpty(Split(texts)) + NonEmpty(Lines(error))
    else if texts == [] then []
    else NonEmpty(Split(texts[..|texts| - 1])) + NonEmpty(Lines(texts[|texts| - 1]))
  }

  /** The worker's output ends where the error begins. */
  lemma OutputIsJoined(texts: seq<string>, success: bool, error: string)
    requires !success && error != "" && Join(texts) != ""
    ensures OutputOf(texts, success, error) == Join(texts + [error])
  {
    var init, last := texts[..|texts| - 1], texts[|texts| - 1];
    assert texts == init + [last];
    JoinIsClosed(init, last);
    JoinIsClosed(texts, error);
    ClosedSnoc(init, last);
  }

  lemma {:induction false} ClosedSnoc(init: seq<string>, last: string)
    ensures Closed(init + [last]) == Closed(init) + last + "\n"
  {
    if init == [] {
      assert init + [last] == [last] && Closed([last][1..]) == "";
      assert Closed([last]) == last + "\n";
    } else {
      assert (init + [last])[1..] == init[1..] + [last];
      ClosedSnoc(init[1..], last);
      assert init[0] + "\n" + (Closed(init[1..]) + last + "\n") == init[0] + "\n" + Closed(init[1..]) + last + "\n";
    }
  }

  lemma OutputIsSeen(texts: seq<string>, success: bool, error: string)
    ensures NonEmpty(Lines(OutputOf(texts, success, error))) == Seen(texts, success, error)
  {
    if !success && error != "" {
      if Join(texts) != "" {
        OutputIsJoined(texts, success, error);
        JoinedLinesComeBack(texts, error);
        NonEmptyConcat(Split(texts), Lines(error));
      } else {
        NothingEmitted(texts);
      }
    } else if texts != [] {
      var init, last := texts[..|texts| - 1], texts[|texts| - 1];
      assert texts == init + [last];
      JoinedLinesComeBack(init, last);
      NonEmptyConcat(Split(init), Lines(last));
    }
  }

  lemma NothingEmitted(texts: seq<string>)
    requires Join(texts) == ""
    ensures NonEmpty(Split(texts)) == []
  {
    assert texts == [] || texts == [""];
    PlainTextsAreLines(texts);
    assert Stripped(texts) == texts;
  }

  /** End to end: what the worker's run emitted is what a replay of the job's log returns, if all of
      it could be stored. */
  lemma ReplayShowsRun(spec: JobSpec, x: Execution, page: seq<LogLine>, logs: seq<LogLine>, level: string, now: int)
    requires spec.code != "" && x.Ended? && now > 0
    requires var lines := Lines(MessageOf(ResultOf(spec, x)).output);
             HoldsReport(logs, spec.job, StoredRows(spec.job, level, lines, now, |lines|))
    requires IsOldestOf(page, logs, spec.job, 0, 10_000)
    ensures ShowsFirst(page, Seen(x.lines, x.success, x.error))
  {
    OutputIsSeen(x.lines, x.success, x.error);
    NothingLost(Lines(ResultOf(spec, x).output));
    ReplayGivesOutput(page, logs, spec.job, level, ResultOf(spec, x).output, now, {});
  }
}
