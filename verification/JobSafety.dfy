// What holds in every reachable state of the job protocol, whatever the interleaving.
module JobSafety {
  import opened Types
  import opened JobStore
  import opened Matcher
  import opened JobProtocol

  // ── Rows ───────────────────────────────────────────────────────────────────────────────

  /** What a row's status promises about its other columns; nothing sets `running`. */
  predicate RowOk(row: JobRow) {
    && row.status != Running
    && (row.status in {Assigned, Completed} ==> row.worker.Some? && row.assignedAt.Some?)
    && (Terminal(row.status) ==> row.finishedAt.Some?)
  }

  ghost predicate RowsInv(s: State) {
    forall id :: id in s.jobs ==> s.jobs[id].id == id && RowOk(s.jobs[id])
  }

  /** What one step may do to a row: leave it, or move it along one of these arrows. */
  predicate Follows(row: JobRow, row': JobRow, a: Action) {
    && row'.id == row.id && row'.hirer == row.hirer && row'.backend == row.backend
    && row'.memoryMb == row.memoryMb && row'.createdAt == row.createdAt
    && (row' == row
        || (row.status == Pending && row'.status == Assigned && a.Assign?)
        || (row.status == Pending && row'.status == Cancelled)
        || (row.status == Assigned && row'.status in {Completed, Failed, Cancelled})
        || (row.status == Failed && row'.status == Pending && a.ResetNext?))
    && (row'.worker == row.worker || a.Assign?)
  }

  ghost predicate RowsFollow(s: State, s': State, a: Action) {
    forall id :: id in s.jobs ==> id in s'.jobs && Follows(s.jobs[id], s'.jobs[id], a)
  }

  /** The status changes that the actions ask for. */
  predicate Arrow(from: JobStatus, c: Change, a: Action) {
    || (from == Pending && c.to == Assigned && c.worker.Some? && a.Assign?)
    || (c.worker.None? &&
        (|| (from in {Pending, Assigned} && c.to == Cancelled)
         || (from == Assigned && c.to in {Completed, Failed})
         || (from == Failed && c.to == Pending && a.ResetNext?)))
  }

  lemma AttemptFollows(jobs: Jobs, target: Uuid, from: JobStatus, c: Change, fate: Fate, now: int, a: Action, id: Uuid)
    requires Arrow(from, c, a)
    requires id in jobs && jobs[id].id == id && RowOk(jobs[id])
    ensures var jobs' := Attempt(jobs, target, from, c, fate, now);
            id in jobs' && Follows(jobs[id], jobs'[id], a) && RowOk(jobs'[id])
  {
  }

  /** Rows listed when a worker left: of nobody's, and still in the table. */
  ghost predicate OfflineInv(s: State) {
    && (s.sched.ctl.FailRow? || s.sched.ctl.ResetRow? ==>
          forall i :: 0 <= i < |s.sched.ctl.rows| ==> Listed(s, s.sched.ctl.rows[i]))
    && (s.sched.ctl.ResetRow? ==> s.sched.ctl.job in s.jobs && s.jobs[s.sched.ctl.job].hirer == NIL_UUID)
  }

  predicate Listed(s: State, row: JobRow) {
    RowOk(row) && row.id in s.jobs && s.jobs[row.id].hirer == NIL_UUID
  }

  ghost predicate CancelsInv(s: State) {
    forall c :: c in s.api.cancels ==> c.1 in {Pending, Assigned}
  }

  lemma StepFollows(s: State, a: Action, id: Uuid)
    requires RowsInv(s) && OfflineInv(s) && CancelsInv(s) && Enabled(s, a) && id in s.jobs
    ensures id in JobsStep(s, a) && Follows(s.jobs[id], JobsStep(s, a)[id], a) && RowOk(JobsStep(s, a)[id])
  {
    assert s.jobs[id].id == id && RowOk(s.jobs[id]);
    match a
    case Assign(fate, now) =>
      var c := s.sched.ctl.choice;
      AttemptFollows(s.jobs, c.job, Pending, AssignChange(c.peer), fate, now, a, id);
    case FailNext(fate, now) =>
      var row := s.sched.ctl.rows[0];
      assert Listed(s, row);
      if HeldBy(row, s.sched.ctl.peer) {
        AttemptFollows(s.jobs, row.id, row.status, OfflineChange(), fate, now, a, id);
      }
    case ResetNext(fate, now) =>
      AttemptFollows(s.jobs, s.sched.ctl.job, Failed, ResetChange(), fate, now, a, id);
    case ApplyCancel(target, from, fate, now) =>
      assert (target, from) in s.api.cancels && (target, from).1 in {Pending, Assigned};
      AttemptFollows(s.jobs, target, from, CancelChange(), fate, now, a, id);
    case ApplyResult(report, message, fate, now) =>
      AttemptFollows(s.jobs, report.job, Assigned, ResultChange(report.success, message), fate, now, a, id);
    case _ =>
  }

  /** Every step keeps the rows sound and moves them only along the arrows. */
  lemma StepEvolves(s: State, a: Action, s': State)
    requires RowsInv(s) && OfflineInv(s) && CancelsInv(s) && Enabled(s, a) && s'.jobs == JobsStep(s, a)
    ensures RowsFollow(s, s', a) && RowsInv(s')
  {
    forall id | id in s.jobs
      ensures id in s'.jobs && Follows(s.jobs[id], s'.jobs[id], a) && RowOk(s'.jobs[id])
    {
      StepFollows(s, a, id);
      assert s.jobs[id].id == id;
    }
    forall id | id in s'.jobs && id !in s.jobs
      ensures s'.jobs[id].id == id && RowOk(s'.jobs[id])
    {
      OnlyCreateAdds(s, a, id);
    }
  }

  lemma OnlyCreateAdds(s: State, a: Action, id: Uuid)
    requires Enabled(s, a) && id in JobsStep(s, a) && id !in s.jobs
    ensures a.CreateJob? && a.id == id
  {
  }

  /** A page of one hirer's rows holds only rows of that hirer, as they stand. */
  lemma PageRows(page: seq<JobRow>, jobs: Jobs, hirer: Uuid, limit: nat, offset: nat, i: nat)
    requires IsPage(page, jobs, hirer, limit, offset) && i < |page|
    ensures page[i].id in jobs && jobs[page[i].id] == page[i] && page[i].hirer == hirer
  {
    var rows :| IsListing(rows, jobs, hirer) && page == Page(rows, limit, offset);
  }

  /** Listed rows come from a query, or have been carried along since. */
  lemma RowsComeFrom(s: State, a: Action, i: nat)
    requires OfflineInv(s) && Enabled(s, a)
    requires (SchedStep(s, a).ctl.FailRow? || SchedStep(s, a).ctl.ResetRow?) && i < |SchedStep(s, a).ctl.rows|
    ensures var row := SchedStep(s, a).ctl.rows[i];
            if a.ListOffline? then IsPage(a.rows, s.jobs, NIL_UUID, 1000, 0) && i < |a.rows| && row == a.rows[i]
            else Listed(s, row)
  {
    if a.FailNext? {
      assert Listed(s, s.sched.ctl.rows[i + 1]);
    }
  }

  lemma ListedStays(s: State, a: Action, s': State, row: JobRow)
    requires Listed(s, row) && RowsFollow(s, s', a)
    ensures Listed(s', row)
  {
    assert Follows(s.jobs[row.id], s'.jobs[row.id], a);
  }

  lemma StepKeepsOffline(s: State, a: Action, s': State)
    requires RowsInv(s) && OfflineInv(s) && Enabled(s, a)
    requires s'.sched == SchedStep(s, a) && RowsFollow(s, s', a)
    ensures OfflineInv(s')
  {
    var ctl, ctl' := s.sched.ctl, s'.sched.ctl;
    if ctl'.FailRow? || ctl'.ResetRow? {
      forall i | 0 <= i < |ctl'.rows|
        ensures Listed(s', ctl'.rows[i])
      {
        RowsComeFrom(s, a, i);
        if a.ListOffline? {
          PageRows(a.rows, s.jobs, NIL_UUID, 1000, 0, i);
        }
        ListedStays(s, a, s', ctl'.rows[i]);
      }
    }
    if ctl'.ResetRow? {
      if a.FailNext? {
        ListedStays(s, a, s', ctl.rows[0]);
      } else {
        assert Follows(s.jobs[ctl.job], s'.jobs[ctl.job], a);
      }
    }
  }

  lemma StepKeepsCancels(s: State, a: Action, s': State)
    requires CancelsInv(s) && Enabled(s, a) && s'.api == ApiStep(s, a)
    ensures CancelsInv(s')
  {
  }

  // ── No lost job ────────────────────────────────────────────────────────────────────────

  /** The row the scheduler has just read may be old, but a row that had left `pending` stays out
      of it while the scheduler does not reset it. */
  ghost predicate GotInv(s: State) {
    s.sched.ctl.Got? ==>
      var row := s.sched.ctl.row;
      && row.id in s.jobs && RequestOf(row) == RequestOf(s.jobs[row.id])
      && (row.status != Pending ==> s.jobs[row.id].status != Pending)
  }

  predicate KnownRequest(s: State, job: Uuid, request: MatchRequest) {
    job in s.jobs && request == RequestOf(s.jobs[job])
  }

  ghost predicate CommandsInv(s: State) {
    && s.api.creating <= s.jobs.Keys
    && forall e :: e in s.api.commands ==> KnownRequest(s, e.job, e.request)
  }

  ghost predicate PickInv(s: State) {
    s.sched.ctl.Pick? ==> KnownRequest(s, s.sched.ctl.job, s.sched.ctl.request)
  }

  predicate HasChoice(ctl: Ctl) {
    ctl.Chosen? || ctl.Build? || ctl.Send?
  }

  ghost predicate ChosenInv(s: State) {
    HasChoice(s.sched.ctl) ==> KnownRequest(s, s.sched.ctl.choice.job, s.sched.ctl.choice.request)
  }

  /** A row is read from the table, or has been carried along since. */
  lemma GotComesFrom(s: State, a: Action)
    requires RowsInv(s) && Enabled(s, a) && SchedStep(s, a).ctl.Got?
    ensures var row := SchedStep(s, a).ctl.row;
            if a.ReadRow? then row.id in s.jobs && s.jobs[row.id] == row
            else s.sched.ctl == SchedStep(s, a).ctl && !a.Assign? && !a.ResetNext?
  {
    if a.ReadRow? {
      assert s.jobs[s.sched.ctl.todo[0]].id == s.sched.ctl.todo[0];
    }
  }

  lemma StepKeepsGot(s: State, a: Action, s': State)
    requires RowsInv(s) && GotInv(s) && Enabled(s, a)
    requires s'.sched == SchedStep(s, a) && RowsFollow(s, s', a)
    ensures GotInv(s')
  {
    if s'.sched.ctl.Got? {
      GotComesFrom(s, a);
      var id := s'.sched.ctl.row.id;
      assert Follows(s.jobs[id], s'.jobs[id], a);
    }
  }

  lemma StepKeepsCommands(s: State, a: Action, s': State)
    requires CommandsInv(s) && Enabled(s, a)
    requires s'.api == ApiStep(s, a) && RowsFollow(s, s', a)
    requires a.CreateJob? ==> a.id in s'.jobs
    ensures CommandsInv(s')
  {
  }

  lemma StepKeepsPick(s: State, a: Action, s': State)
    requires CommandsInv(s) && GotInv(s) && PickInv(s) && Enabled(s, a)
    requires s'.sched == SchedStep(s, a) && RowsFollow(s, s', a)
    ensures PickInv(s')
  {
    if a.Dequeue? {
      assert s.api.commands[0] in s.api.commands;
    }
  }

  /** A choice is made when a worker is picked, and carried along until it is sent. */
  lemma ChoiceComesFrom(s: State, a: Action)
    requires Enabled(s, a) && HasChoice(SchedStep(s, a).ctl)
    ensures var choice := SchedStep(s, a).ctl.choice;
            if a.PickWorker? then
              s.sched.ctl.Pick? && choice.job == s.sched.ctl.job && choice.request == s.sched.ctl.request
            else HasChoice(s.sched.ctl) && choice == s.sched.ctl.choice
                 && SchedStep(s, a).online == s.sched.online && SchedStep(s, a).pending == s.sched.pending
  {
  }

  lemma StepKeepsChosen(s: State, a: Action, s': State)
    requires PickInv(s) && ChosenInv(s) && Enabled(s, a)
    requires s'.sched == SchedStep(s, a) && RowsFollow(s, s', a)
    ensures ChosenInv(s')
  {
    if HasChoice(s'.sched.ctl) {
      ChoiceComesFrom(s, a);
    }
  }

  /** A pending row of an enqueued job is in the cache exactly unless a read failed on a retry. */
  predicate Cached(s: State, id: Uuid) {
    && (id in s.history.enqueued || id in s.sched.pending ==> id in s.jobs)
    && (id in s.history.enqueued && s.jobs[id].status == Pending ==> id in s.sched.pending || id in s.history.dropped)
    && !(id in s.sched.pending && id in s.history.dropped)
  }

  ghost predicate CacheInv(s: State) {
    && (forall id :: Cached(s, id))
    && (s.sched.ctl.ResetRow? ==> s.sched.ctl.job in s.sched.pending)
  }

  /** What a step adds to and takes from the cache. */
  lemma PendingChanges(s: State, a: Action, id: Uuid)
    requires Enabled(s, a)
    ensures id in SchedStep(s, a).pending && id !in s.sched.pending ==>
              || (a.Dequeue? && id == s.api.commands[0].job)
              || (a.SendAssign? && id == s.sched.ctl.choice.job)
              || (a.FailNext? && id == s.sched.ctl.rows[0].id)
    ensures id in s.sched.pending && id !in SchedStep(s, a).pending ==>
              || (a.ReadRow? && s.sched.ctl.todo[0] == id && id in HistoryStep(s, a).dropped)
              || (a.React? && s.sched.ctl.row.id == id && s.sched.ctl.row.status != Pending)
    ensures SchedStep(s, a).ctl.ResetRow? ==>
              || (a.FailNext? && SchedStep(s, a).ctl.job in SchedStep(s, a).pending)
              || (s.sched.ctl.ResetRow? && SchedStep(s, a) == s.sched)
  {
  }

  lemma DroppedChanges(s: State, a: Action, id: Uuid)
    requires Enabled(s, a)
    ensures id in HistoryStep(s, a).dropped && id !in s.history.dropped ==> id !in SchedStep(s, a).pending
    ensures id in s.history.dropped && id !in HistoryStep(s, a).dropped ==> id in SchedStep(s, a).pending
    ensures id in SchedStep(s, a).pending && id !in s.sched.pending ==> id !in HistoryStep(s, a).dropped
    ensures id in HistoryStep(s, a).enqueued && id !in s.history.enqueued ==>
              a.Dequeue? && id == s.api.commands[0].job && id in SchedStep(s, a).pending
  {
  }

  lemma StepKeepsCached(s: State, a: Action, s': State, id: Uuid)
    requires CommandsInv(s) && GotInv(s) && ChosenInv(s) && OfflineInv(s) && Cached(s, id) && Enabled(s, a)
    requires s.sched.ctl.ResetRow? ==> s.sched.ctl.job in s.sched.pending
    requires s'.sched == SchedStep(s, a) && s'.history == HistoryStep(s, a)
    requires RowsFollow(s, s', a)
    requires id in s.jobs && a.ResetNext? && id != s.sched.ctl.job ==> s'.jobs[id] == s.jobs[id]
    ensures Cached(s', id)
  {
    PendingChanges(s, a, id);
    DroppedChanges(s, a, id);
    if a.Dequeue? {
      assert KnownRequest(s, s.api.commands[0].job, s.api.commands[0].request);
    } else if a.FailNext? {
      assert Listed(s, s.sched.ctl.rows[0]);
    }
    assert id in s.jobs ==> Follows(s.jobs[id], s'.jobs[id], a);
  }

  lemma ResetTouchesOne(s: State, a: Action, id: Uuid)
    requires Enabled(s, a) && a.ResetNext? && id in s.jobs && id != s.sched.ctl.job
    ensures id in JobsStep(s, a) && JobsStep(s, a)[id] == s.jobs[id]
  {
  }

  lemma StepKeepsCache(s: State, a: Action, s': State)
    requires CommandsInv(s) && GotInv(s) && ChosenInv(s) && OfflineInv(s) && CacheInv(s) && Enabled(s, a)
    requires s'.sched == SchedStep(s, a) && s'.history == HistoryStep(s, a) && s'.jobs == JobsStep(s, a)
    requires RowsFollow(s, s', a)
    ensures CacheInv(s')
  {
    forall id
      ensures Cached(s', id)
    {
      assert Cached(s, id);
      if id in s.jobs && a.ResetNext? && id != s.sched.ctl.job {
        ResetTouchesOne(s, a, id);
      }
      StepKeepsCached(s, a, s', id);
    }
    PendingChanges(s, a, 0);
  }

  // ── Counting ───────────────────────────────────────────────────────────────────────────

  /** How far wins run ahead of resets, by status; a cancellation may come before or after a win. */
  predicate CountOk(status: JobStatus, ahead: int) {
    match status
    case Pending => ahead == 0
    case Cancelled => ahead == 0 || ahead == 1
    case _ => ahead == 1
  }

  predicate AwaitsSend(s: State, id: Uuid) {
    (s.sched.ctl.Build? || s.sched.ctl.Send?) && s.sched.ctl.choice.job == id
  }

  predicate Counted(s: State, id: Uuid) {
    var h := s.history;
    if id in s.jobs then
      && CountOk(s.jobs[id].status, h.wins[id] as int - h.resets[id] as int)
      && h.sends[id] + (if AwaitsSend(s, id) then 1 else 0) <= h.wins[id]
      && (s.jobs[id].hirer != NIL_UUID ==> h.resets[id] == 0)
    else
      h.wins[id] == 0 && h.resets[id] == 0 && h.sends[id] == 0
  }

  ghost predicate CountsInv(s: State) {
    forall id :: Counted(s, id)
  }

  lemma AssignKeepsCounted(s: State, a: Action, s': State, id: Uuid)
    requires ChosenInv(s) && Counted(s, id) && Enabled(s, a) && a.Assign?
    requires s'.sched == SchedStep(s, a) && s'.history == HistoryStep(s, a) && s'.jobs == JobsStep(s, a)
    ensures Counted(s', id)
  {
  }

  lemma ResetKeepsCounted(s: State, a: Action, s': State, id: Uuid)
    requires OfflineInv(s) && Counted(s, id) && Enabled(s, a) && a.ResetNext?
    requires s'.sched == SchedStep(s, a) && s'.history == HistoryStep(s, a) && s'.jobs == JobsStep(s, a)
    ensures Counted(s', id)
  {
  }

  lemma SendKeepsCounted(s: State, a: Action, s': State, id: Uuid)
    requires ChosenInv(s) && Counted(s, id) && Enabled(s, a) && a.SendAssign?
    requires s'.sched == SchedStep(s, a) && s'.history == HistoryStep(s, a) && s'.jobs == s.jobs
    ensures Counted(s', id)
  {
  }

  /** No other action wins, resets or sends. */
  lemma OthersDoNotCount(s: State, a: Action, s': State, id: Uuid)
    requires Enabled(s, a) && !a.Assign? && !a.ResetNext? && !a.SendAssign?
    requires s'.sched == SchedStep(s, a) && s'.history == HistoryStep(s, a)
    ensures s'.history.wins == s.history.wins && s'.history.resets == s.history.resets
    ensures s'.history.sends == s.history.sends
    ensures AwaitsSend(s', id) ==> AwaitsSend(s, id)
  {
  }

  lemma StepKeepsCounted(s: State, a: Action, s': State, id: Uuid)
    requires RowsInv(s) && OfflineInv(s) && CancelsInv(s) && ChosenInv(s) && Counted(s, id) && Enabled(s, a)
    requires s'.sched == SchedStep(s, a) && s'.history == HistoryStep(s, a) && s'.jobs == JobsStep(s, a)
    ensures Counted(s', id)
  {
    if a.Assign? {
      AssignKeepsCounted(s, a, s', id);
    } else if a.ResetNext? {
      ResetKeepsCounted(s, a, s', id);
    } else if a.SendAssign? {
      SendKeepsCounted(s, a, s', id);
    } else {
      OthersDoNotCount(s, a, s', id);
      if id in s.jobs {
        StepFollows(s, a, id);
        assert RowOk(s.jobs[id]);
      } else if id in s'.jobs {
        OnlyCreateAdds(s, a, id);
      }
    }
  }

  lemma StepKeepsCounts(s: State, a: Action, s': State)
    requires RowsInv(s) && OfflineInv(s) && CancelsInv(s) && ChosenInv(s) && CountsInv(s) && Enabled(s, a)
    requires s'.sched == SchedStep(s, a) && s'.history == HistoryStep(s, a) && s'.jobs == JobsStep(s, a)
    ensures CountsInv(s')
  {
    forall id
      ensures Counted(s', id)
    {
      assert Counted(s, id);
      StepKeepsCounted(s, a, s', id);
    }
  }

  // ── The chosen worker ──────────────────────────────────────────────────────────────────

  /** The peer stands first in the selection among the online workers not yet tried. */
  ghost predicate IsBestChoice(m: Sched, c: Choice) {
    && IsCandidateOrder(c.order, m.online, TriedFor(m.pending, c.job))
    && Selected(c.order, c.request) != []
    && Selected(c.order, c.request)[0] < |c.order|
    && c.peer == c.order[Selected(c.order, c.request)[0]].peer
  }

  ghost predicate ChoiceInv(m: Sched) {
    && (forall p :: p in m.online ==> m.online[p].peer == p)
    && (forall id :: id in m.pending ==> Distinct(m.pending[id]))
    && (HasChoice(m.ctl) ==> IsBestChoice(m, m.ctl.choice))
  }

  /** Online, idle, not tried before, and of maximal score among all such eligible workers. */
  ghost predicate IsBestWorker(m: Sched, c: Choice) {
    && c.peer in m.online && c.peer !in TriedFor(m.pending, c.job)
    && Eligible(m.online[c.peer], c.request) && !m.online[c.peer].busy
    && forall p :: p in m.online && p !in TriedFor(m.pending, c.job) && Eligible(m.online[p], c.request) ==>
         Score(m.online[p], c.request, MaxJobs(c.order)) <= Score(m.online[c.peer], c.request, MaxJobs(c.order))
  }

  lemma BestChoiceMeaning(m: Sched, c: Choice)
    requires ChoiceInv(m) && IsBestChoice(m, c)
    ensures IsBestWorker(m, c)
  {
    BestComesFirst(c.order, c.request);
    var first := c.order[Selected(c.order, c.request)[0]];
    assert first in c.order;
    forall p | p in m.online && p !in TriedFor(m.pending, c.job) && Eligible(m.online[p], c.request)
      ensures Score(m.online[p], c.request, MaxJobs(c.order)) <= Score(m.online[c.peer], c.request, MaxJobs(c.order))
    {
      assert m.online[p].peer == p;
      assert m.online[p] in c.order;
    }
  }

  /** Only registrations, departures and heartbeats change `online`. */
  lemma OnlineStays(s: State, a: Action)
    requires Enabled(s, a) && !a.WorkerOnline? && !a.WorkerOffline? && !a.Heartbeat?
    ensures SchedStep(s, a).online == s.sched.online
  {
  }

  lemma StepKeepsKeys(s: State, a: Action, s': State)
    requires ChoiceInv(s.sched) && Enabled(s, a) && s'.sched == SchedStep(s, a)
    ensures forall p :: p in s'.sched.online ==> s'.sched.online[p].peer == p
  {
    match a
    case WorkerOnline(_, _, _) =>
    case WorkerOffline(_) =>
    case Heartbeat(_, _, _, _, _) =>
    case _ => OnlineStays(s, a);
  }

  lemma StepKeepsTriedDistinct(s: State, a: Action, s': State)
    requires ChoiceInv(s.sched) && Enabled(s, a) && s'.sched == SchedStep(s, a)
    ensures forall id :: id in s'.sched.pending ==> Distinct(s'.sched.pending[id])
  {
    if a.SendAssign? {
      BestChoiceMeaning(s.sched, s.sched.ctl.choice);
    }
  }

  lemma StepKeepsChoice(s: State, a: Action, s': State)
    requires ChoiceInv(s.sched) && Enabled(s, a) && s'.sched == SchedStep(s, a)
    ensures ChoiceInv(s'.sched)
  {
    StepKeepsKeys(s, a, s');
    StepKeepsTriedDistinct(s, a, s');
    if HasChoice(s'.sched.ctl) {
      ChoiceComesFrom(s, a);
      if a.PickWorker? {
        assert s'.sched.online == s.sched.online && s'.sched.pending == s.sched.pending;
        assert IsBestChoice(s'.sched, s'.sched.ctl.choice);
      }
    }
  }

  // ── Attribution ────────────────────────────────────────────────────────────────────────

  /** Everything a worker holds or says about a job comes from an Assign sent to that worker. */
  ghost predicate MessagesInv(n: Net, h: History) {
    && (forall t :: t in n.assigns ==> t in h.sentTo)
    && (forall r :: r in n.results ==> r in h.reports)
  }

  ghost predicate HeldInv(n: Net, h: History) {
    && (forall p, job :: p in n.queues && job in n.queues[p] ==> (p, job) in h.sentTo)
    && (forall p :: p in n.running ==> (p, n.running[p]) in h.sentTo)
  }

  ghost predicate ReportsInv(h: History) {
    forall r :: r in h.reports ==> (r.peer, r.job) in h.sentTo
  }

  /** The Assigns on record are the ones counted. */
  ghost predicate SentInv(h: History) {
    forall t :: t in h.sentTo ==> h.sends[t.1] > 0
  }

  predicate Attributed(s: State, id: Uuid)
    requires id in s.jobs
  {
    s.jobs[id].status == Completed ==>
      s.jobs[id].worker.Some? && Report(s.jobs[id].worker.value, id, true) in s.history.reports
  }

  /** While a job has never been reset, its row names the one peer that was sent the Assign. */
  predicate NamesPeer(s: State, p: PeerId, id: Uuid) {
    (p, id) in s.history.sentTo && id in s.jobs && s.history.resets[id] == 0 ==> s.jobs[id].worker == Some(p)
  }

  lemma HistoryGrows(s: State, a: Action)
    requires Enabled(s, a)
    ensures s.history.sentTo <= HistoryStep(s, a).sentTo && s.history.reports <= HistoryStep(s, a).reports
    ensures a.SendAssign? && a.open ==> (s.sched.ctl.choice.peer, s.sched.ctl.choice.job) in HistoryStep(s, a).sentTo
    ensures a.FinishJob? ==> Report(a.peer, s.net.running[a.peer], a.success) in HistoryStep(s, a).reports
    ensures forall id :: s.history.resets[id] <= HistoryStep(s, a).resets[id]
  {
  }

  lemma StepKeepsMessages(s: State, a: Action, s': State)
    requires MessagesInv(s.net, s.history) && Enabled(s, a) && s'.net == NetStep(s, a)
    requires s'.history == HistoryStep(s, a)
    ensures MessagesInv(s'.net, s'.history)
  {
    HistoryGrows(s, a);
  }

  lemma StepKeepsHeld(s: State, a: Action, s': State)
    requires MessagesInv(s.net, s.history) && HeldInv(s.net, s.history) && Enabled(s, a) && s'.net == NetStep(s, a)
    requires s.history.sentTo <= s'.history.sentTo
    ensures HeldInv(s'.net, s'.history)
  {
    if a.StartJob? {
      var queue := s.net.queues[a.peer];
      assert queue[0] in queue && forall job :: job in queue[1..] ==> job in queue;
    }
  }

  lemma StepKeepsReports(s: State, a: Action, s': State)
    requires HeldInv(s.net, s.history) && ReportsInv(s.history) && Enabled(s, a) && s'.history == HistoryStep(s, a)
    ensures ReportsInv(s'.history)
  {
  }

  /** Only a won assignment changes a row's worker, and only of the chosen job. */
  lemma WorkerStays(s: State, a: Action, id: Uuid)
    requires RowsInv(s) && OfflineInv(s) && CancelsInv(s) && Enabled(s, a) && id in s.jobs
    ensures id in JobsStep(s, a) && JobsStep(s, a)[id].hirer == s.jobs[id].hirer
    ensures JobsStep(s, a)[id].worker == s.jobs[id].worker
            || (a.Assign? && s.sched.ctl.choice.job == id && s.jobs[id].status == Pending
                && JobsStep(s, a)[id].worker == Some(s.sched.ctl.choice.peer))
  {
    StepFollows(s, a, id);
  }

  lemma StepKeepsNames(s: State, a: Action, s': State, p: PeerId, id: Uuid)
    requires RowsInv(s) && OfflineInv(s) && CancelsInv(s) && Enabled(s, a)
    requires Counted(s, id) && SentInv(s.history) && NamesPeer(s, p, id)
    requires AwaitsSend(s, id) ==> id in s.jobs && s.jobs[id].worker == Some(s.sched.ctl.choice.peer)
    requires s'.history == HistoryStep(s, a) && s'.jobs == JobsStep(s, a)
    ensures NamesPeer(s', p, id)
  {
    HistoryGrows(s, a);
    if id in s.jobs {
      WorkerStays(s, a, id);
      assert (p, id) in s.history.sentTo ==> s.history.sends[(p, id).1] > 0;
      if (p, id) in s'.history.sentTo && (p, id) !in s.history.sentTo {
        NewlySent(s, a, p, id);
      }
    } else if id in s'.jobs {
      OnlyCreateAdds(s, a, id);
      assert (p, id) in s.history.sentTo ==> s.history.sends[(p, id).1] > 0;
      if (p, id) in s'.history.sentTo && (p, id) !in s.history.sentTo {
        NewlySent(s, a, p, id);
      }
    }
  }

  lemma NewlySent(s: State, a: Action, p: PeerId, id: Uuid)
    requires Enabled(s, a) && (p, id) in HistoryStep(s, a).sentTo && (p, id) !in s.history.sentTo
    ensures a.SendAssign? && s.sched.ctl.choice.job == id && s.sched.ctl.choice.peer == p
  {
  }

  /** While an Assign is being prepared, the row names the peer it is for. */
  ghost predicate PreparedInv(s: State) {
    s.sched.ctl.Build? || s.sched.ctl.Send? ==>
      s.sched.ctl.choice.job in s.jobs && s.jobs[s.sched.ctl.choice.job].worker == Some(s.sched.ctl.choice.peer)
  }

  /** A won assignment writes the chosen peer into the row. */
  lemma AssignPrepares(s: State, a: Action)
    requires Enabled(s, a) && a.Assign? && SchedStep(s, a).ctl.Build?
    ensures var c := SchedStep(s, a).ctl.choice;
            c.job in JobsStep(s, a) && JobsStep(s, a)[c.job].worker == Some(c.peer)
  {
  }

  lemma StepKeepsPrepared(s: State, a: Action, s': State)
    requires RowsInv(s) && OfflineInv(s) && CancelsInv(s) && PreparedInv(s) && Enabled(s, a)
    requires s'.sched == SchedStep(s, a) && s'.jobs == JobsStep(s, a)
    ensures PreparedInv(s')
  {
    if s'.sched.ctl.Build? || s'.sched.ctl.Send? {
      if a.Assign? {
        AssignPrepares(s, a);
      } else {
        ChoiceComesFrom(s, a);
        WorkerStays(s, a, s'.sched.ctl.choice.job);
      }
    }
  }

  ghost predicate NamesInv(s: State) {
    forall p, id :: NamesPeer(s, p, id)
  }

  ghost predicate AttributedInv(s: State) {
    forall id :: id in s.jobs && s.history.resets[id] == 0 ==> Attributed(s, id)
  }

  /** A row becomes `completed` only through a report of success. */
  lemma CompletedComesFrom(s: State, a: Action, id: Uuid)
    requires RowsInv(s) && OfflineInv(s) && CancelsInv(s) && Enabled(s, a)
    requires id in JobsStep(s, a) && JobsStep(s, a)[id].status == Completed
    ensures id in s.jobs
    ensures s.jobs[id].status == Completed || (a.ApplyResult? && a.report.job == id && a.report.success)
  {
    if id in s.jobs {
      StepFollows(s, a, id);
      assert RowOk(s.jobs[id]);
      if a.FailNext? {
        assert Listed(s, s.sched.ctl.rows[0]);
      }
    } else {
      OnlyCreateAdds(s, a, id);
    }
  }

  lemma StepKeepsAttributed(s: State, a: Action, s': State)
    requires RowsInv(s) && OfflineInv(s) && CancelsInv(s) && Enabled(s, a)
    requires MessagesInv(s.net, s.history) && ReportsInv(s.history) && NamesInv(s) && AttributedInv(s)
    requires s'.history == HistoryStep(s, a) && s'.jobs == JobsStep(s, a)
    ensures AttributedInv(s')
  {
    forall id | id in s'.jobs && s'.history.resets[id] == 0 && s'.jobs[id].status == Completed
      ensures Attributed(s', id)
    {
      CompletedComesFrom(s, a, id);
      WorkerStays(s, a, id);
      HistoryGrows(s, a);
      if s.jobs[id].status == Completed {
        assert Attributed(s, id);
      } else {
        assert NamesPeer(s, a.report.peer, id);
      }
    }
  }

  // ── Every reachable state ──────────────────────────────────────────────────────────────

  ghost predicate Inv(s: State) {
    && RowsInv(s) && OfflineInv(s) && CancelsInv(s)
    && GotInv(s) && CommandsInv(s) && PickInv(s) && ChosenInv(s) && CacheInv(s)
    && CountsInv(s) && ChoiceInv(s.sched)
    && MessagesInv(s.net, s.history) && HeldInv(s.net, s.history) && ReportsInv(s.history) && SentInv(s.history)
    && PreparedInv(s) && NamesInv(s) && AttributedInv(s)
  }

  lemma StepKeepsSent(s: State, a: Action, s': State)
    requires SentInv(s.history) && Enabled(s, a) && s'.history == HistoryStep(s, a)
    ensures SentInv(s'.history)
  {
  }

  lemma StepKeepsNamesInv(s: State, a: Action, s': State)
    requires Inv(s) && Enabled(s, a) && s'.history == HistoryStep(s, a) && s'.jobs == JobsStep(s, a)
    ensures NamesInv(s')
  {
    forall p, id
      ensures NamesPeer(s', p, id)
    {
      assert Counted(s, id) && NamesPeer(s, p, id);
      StepKeepsNames(s, a, s', p, id);
    }
  }

  lemma StepKeepsInv(s: State, a: Action)
    requires Inv(s)
    ensures Inv(Step(s, a))
  {
    if Enabled(s, a) {
      var s' := Step(s, a);
      StepEvolves(s, a, s');
      StepKeepsOffline(s, a, s');
      StepKeepsCancels(s, a, s');
      StepKeepsGot(s, a, s');
      StepKeepsCommands(s, a, s');
      StepKeepsPick(s, a, s');
      StepKeepsChosen(s, a, s');
      StepKeepsCache(s, a, s');
      StepKeepsCounts(s, a, s');
      StepKeepsChoice(s, a, s');
      StepKeepsMessages(s, a, s');
      HistoryGrows(s, a);
      StepKeepsHeld(s, a, s');
      StepKeepsReports(s, a, s');
      StepKeepsSent(s, a, s');
      StepKeepsPrepared(s, a, s');
      StepKeepsNamesInv(s, a, s');
      StepKeepsAttributed(s, a, s');
    }
  }

  lemma {:induction false} Reachable(actions: seq<Action>)
    ensures Inv(Run(actions))
  {
    if actions != [] {
      Reachable(actions[..|actions| - 1]);
      StepKeepsInv(Run(actions[..|actions| - 1]), actions[|actions| - 1]);
    }
  }
}
