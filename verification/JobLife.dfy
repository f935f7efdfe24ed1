// The other actors of the job protocol: what each of their steps does, in plain words, and that
// together with the scheduler they can bring every job to its end.
module JobLife {
  import opened Types
  import opened JobStore
  import opened Matcher
  import opened JobProtocol
  import opened JobSafety
  import opened JobTheorems
  import opened JobProgress

  /** The job's row is moved from this status as asked, if the statement runs and the row is there. */
  predicate IsCas(jobs: Jobs, jobs': Jobs, id: Uuid, from: JobStatus, c: Change, fate: Fate, now: int) {
    if fate != Refused && id in jobs && jobs[id].status == from then
      id in jobs' && jobs' == jobs[id := jobs'[id]] && IsMoved(jobs[id], jobs'[id], c, now)
    else jobs' == jobs
  }

  /** What the steps of the API, the P2P task and the workers do. */
  predicate IsOtherStep(s: State, a: Action, s': State) {
    && s'.sched == s.sched
    && (match a
        case CreateJob(id, hirer, backend, memoryMb, maxDurationSecs, now) =>
          && s'.jobs == s.jobs[id := JobRow(id, hirer, None, Pending, backend, memoryMb, maxDurationSecs, now,
                                            None, None, None, None, None)]
          && s'.api == s.api.(creating := s.api.creating + {id}) && s'.net == s.net
        case EnqueueJob(id) =>
          && s'.jobs == s.jobs && s'.net == s.net
          && s'.api.creating == s.api.creating - {id} && s'.api.cancels == s.api.cancels
          && |s'.api.commands| == |s.api.commands| + 1 && s'.api.commands[..|s.api.commands|] == s.api.commands
          && s'.api.commands[|s.api.commands|].job == id
          && (id in s.jobs ==> s'.api.commands[|s.api.commands|].request.backend == s.jobs[id].backend)
        case RequestCancel(_, id) =>
          && s'.jobs == s.jobs && s'.net == s.net && id in s.jobs
          && s'.api == s.api.(cancels := s.api.cancels + multiset{(id, s.jobs[id].status)})
        case ApplyCancel(id, from, fate, now) =>
          && IsCas(s.jobs, s'.jobs, id, from, Change(Cancelled, None, None, None), fate, now) && s'.net == s.net
          && s'.api == s.api.(cancels := s.api.cancels - multiset{(id, from)})
        case Arrive(peer, job) =>
          && s'.jobs == s.jobs && s'.api == s.api && s'.net.running == s.net.running && s'.net.results == s.net.results
          && s'.net.assigns == s.net.assigns - multiset{(peer, job)}
          && var queue := if peer in s.net.queues then s.net.queues[peer] else [];
             s'.net.queues == if |queue| < 32 then s.net.queues[peer := queue + [job]] else s.net.queues
        case LoseAssign(peer, job) =>
          && s'.jobs == s.jobs && s'.api == s.api
          && s'.net == s.net.(assigns := s.net.assigns - multiset{(peer, job)})
        case StartJob(peer) =>
          && s'.jobs == s.jobs && s'.api == s.api && s'.net.assigns == s.net.assigns && s'.net.results == s.net.results
          && peer in s.net.queues && peer in s'.net.queues && peer in s'.net.running
          && s.net.queues[peer] == [s'.net.running[peer]] + s'.net.queues[peer]
          && s'.net.queues == s.net.queues[peer := s'.net.queues[peer]]
          && s'.net.running == s.net.running[peer := s'.net.running[peer]]
        case FinishJob(peer, success) =>
          && s'.jobs == s.jobs && s'.api == s.api && s'.net.assigns == s.net.assigns && s'.net.queues == s.net.queues
          && peer in s.net.running && s'.net.running == s.net.running - {peer}
          && s'.net.results == s.net.results + multiset{Report(peer, s.net.running[peer], success)}
        case ApplyResult(report, message, fate, now) =>
          && IsCas(s.jobs, s'.jobs, report.job, Assigned,
                   Change(if report.success then Completed else Failed, None,
                          if report.success then None else Some(message), None), fate, now)
          && s'.api == s.api && s'.net == s.net.(results := s.net.results - multiset{report})
        case LoseResult(report) =>
          s'.jobs == s.jobs && s'.api == s.api && s'.net == s.net.(results := s.net.results - multiset{report})
        case _ => false)
  }

  /** When those steps can be taken. */
  predicate CanOther(s: State, a: Action) {
    match a
    case CreateJob(id, _, _, _, _, _) => id !in s.jobs
    case EnqueueJob(id) => id in s.api.creating && id in s.jobs
    case RequestCancel(user, id) =>
      id in s.jobs && s.jobs[id].hirer == user && (s.jobs[id].status == Pending || s.jobs[id].status == Assigned)
    case ApplyCancel(id, from, _, _) => s.api.cancels[(id, from)] > 0
    case Arrive(peer, job) => s.net.assigns[(peer, job)] > 0
    case LoseAssign(peer, job) => s.net.assigns[(peer, job)] > 0
    case StartJob(peer) => peer in s.net.queues && |s.net.queues[peer]| > 0 && peer !in s.net.running
    case FinishJob(peer, _) => peer in s.net.running
    case ApplyResult(report, _, _, _) => s.net.results[report] > 0
    case LoseResult(report) => s.net.results[report] > 0
    case _ => false
  }

  lemma OthersInWords(s: State, a: Action)
    ensures OtherEnabled(s, a) <==> CanOther(s, a)
    ensures CanOther(s, a) ==> IsOtherStep(s, a, Step(s, a))
  {
    if OtherEnabled(s, a) {
      StepInWords(s, a);
    }
  }

  lemma StepInWords(s: State, a: Action)
    requires OtherEnabled(s, a)
    ensures IsOtherStep(s, a, Step(s, a))
  {
    match a
    case ApplyCancel(id, from, fate, now) => CasInWords(s.jobs, id, from, CancelChange(), fate, now);
    case ApplyResult(report, message, fate, now) =>
      CasInWords(s.jobs, report.job, Assigned, ResultChange(report.success, message), fate, now);
    case _ =>
  }

  lemma CasInWords(jobs: Jobs, id: Uuid, from: JobStatus, c: Change, fate: Fate, now: int)
    ensures IsCas(jobs, Attempt(jobs, id, from, c, fate, now), id, from, c, fate, now)
  {
  }

  // ── The life of a job ──────────────────────────────────────────────────────────────────

  lemma Do(actions: seq<Action>, a: Action) returns (more: seq<Action>)
    requires Enabled(Run(actions), a)
    ensures more == actions + [a]
    ensures var s := Run(actions);
            Run(more) == State(JobsStep(s, a), SchedStep(s, a), ApiStep(s, a), NetStep(s, a), HistoryStep(s, a))
  {
    more := actions + [a];
    assert more[..|actions|] == actions;
  }

  lemma {:induction false} OrderExists(online: map<PeerId, WorkerCandidate>, tried: seq<PeerId>, peers: set<PeerId>)
    returns (order: seq<WorkerCandidate>)
    requires peers <= online.Keys && forall p :: p in online ==> online[p].peer == p
    ensures Distinct(order)
    ensures forall c :: c in order <==> c.peer in peers && online[c.peer] == c && c.peer !in tried
  {
    if peers == {} {
      order := [];
    } else {
      var p :| p in peers;
      order := OrderExists(online, tried, peers - {p});
      if p !in tried {
        order := order + [online[p]];
      }
    }
  }

  function FreshRow(id: Uuid, hirer: Uuid, backend: GpuBackend, memoryMb: Option<I64>, maxDurationSecs: Option<I64>,
                    now: int): JobRow
  {
    JobRow(id, hirer, None, Pending, backend, memoryMb, maxDurationSecs, now, None, None, None, None, None)
  }

  /** A job is created, enqueued and taken up. */
  lemma JobIsTakenUp(actions: seq<Action>, row: JobRow) returns (more: seq<Action>)
    requires Run(actions).sched.ctl == Idle && Run(actions).api.commands == [] && row.id !in Run(actions).jobs
    requires row == FreshRow(row.id, row.hirer, row.backend, row.memoryMb, row.maxDurationSecs, row.createdAt)
    ensures actions <= more
    ensures var s, s' := Run(actions), Run(more);
            && s'.jobs == s.jobs[row.id := row] && s'.net == s.net && s'.sched.online == s.sched.online
            && s'.sched.pending == s.sched.pending[row.id := []]
            && s'.sched.ctl == Pick(FromEnqueue, [], row.id, Wishes(row))
  {
    RequestInNumbers(row);
    more := Do(actions, CreateJob(row.id, row.hirer, row.backend, row.memoryMb, row.maxDurationSecs, row.createdAt));
    more := Do(more, EnqueueJob(row.id));
    more := Do(more, Dequeue);
  }

  /** The job at hand, when a worker suits it, is assigned and sent to an idle one that does. */
  lemma JobIsSent(actions: seq<Action>, row: JobRow, time: int) returns (more: seq<Action>, peer: PeerId)
    requires Run(actions).sched.ctl == Pick(FromEnqueue, [], row.id, Wishes(row))
    requires row.id in Run(actions).jobs && Run(actions).jobs[row.id] == row && row.status == Pending
    requires Run(actions).sched.pending[row.id := []] == Run(actions).sched.pending
    requires exists p :: p in Run(actions).sched.online && Suits(Run(actions).sched.online[p], Wishes(row))
    ensures actions <= more
    ensures var s, s' := Run(actions), Run(more);
            && peer in s.sched.online && Suits(s.sched.online[peer], Wishes(row)) && s'.sched.ctl == Idle
            && s'.jobs == s.jobs[row.id := AssignedRow(row, peer, time)]
            && s'.net == s.net.(assigns := s.net.assigns + multiset{(peer, row.id)})
  {
    var s := Run(actions);
    Reachable(actions);
    var order := OrderExists(s.sched.online, [], s.sched.online.Keys);
    var p :| p in s.sched.online && Suits(s.sched.online[p], Wishes(row));
    assert s.sched.online[p] in order;
    EligibleSuits(s.sched.online[p], Wishes(row));
    BestComesFirst(order, Wishes(row));
    var first := order[Selected(order, Wishes(row))[0]];
    assert first in order;
    EligibleSuits(first, Wishes(row));
    peer := first.peer;
    ChangedInColumns(row, AssignChange(peer), time);
    more := Do(actions, PickWorker(order));
    more := ChoiceIsSent(more, row, peer, time);
  }

  lemma ChoiceIsSent(actions: seq<Action>, row: JobRow, peer: PeerId, time: int) returns (more: seq<Action>)
    requires Run(actions).sched.ctl.Chosen? && Run(actions).sched.ctl.todo == []
    requires Run(actions).sched.ctl.choice.job == row.id && Run(actions).sched.ctl.choice.peer == peer
    requires row.id in Run(actions).jobs && Run(actions).jobs[row.id] == row && row.status == Pending
    ensures actions <= more
    ensures var s, s' := Run(actions), Run(more);
            && s'.sched.ctl == Idle && s'.jobs == s.jobs[row.id := AssignedRow(row, peer, time)]
            && s'.net == s.net.(assigns := s.net.assigns + multiset{(peer, row.id)})
  {
    more := ChoiceIsClaimed(actions, row, peer, time);
    SendStep(Run(more), true);
    more := Do(more, SendAssign(true));
  }

  lemma ChoiceIsClaimed(actions: seq<Action>, row: JobRow, peer: PeerId, time: int) returns (more: seq<Action>)
    requires Run(actions).sched.ctl.Chosen? && Run(actions).sched.ctl.todo == []
    requires Run(actions).sched.ctl.choice.job == row.id && Run(actions).sched.ctl.choice.peer == peer
    requires row.id in Run(actions).jobs && Run(actions).jobs[row.id] == row && row.status == Pending
    ensures actions <= more
    ensures var s, s' := Run(actions), Run(more);
            && s'.sched.ctl == Send(s.sched.ctl.origin, [], s.sched.ctl.choice)
            && s'.jobs == s.jobs[row.id := AssignedRow(row, peer, time)] && s'.net == s.net
  {
    ChangedInColumns(row, AssignChange(peer), time);
    AssignStep(Run(actions), Ran, time);
    more := Do(actions, Assign(Ran, time));
    more := Do(more, BuildAssignment(Ran));
  }

  predicate IsFree(n: Net, peer: PeerId) {
    peer !in n.running && (peer in n.queues ==> n.queues[peer] == [])
  }

  /** A free worker that has been sent the job starts it. */
  lemma JobIsStarted(actions: seq<Action>, job: Uuid, peer: PeerId) returns (more: seq<Action>)
    requires (peer, job) in Run(actions).net.assigns && IsFree(Run(actions).net, peer)
    ensures actions <= more && Run(more).sched == Run(actions).sched && Run(more).jobs == Run(actions).jobs
    ensures peer in Run(more).net.running && Run(more).net.running[peer] == job
  {
    more := Do(actions, Arrive(peer, job));
    more := Do(more, StartJob(peer));
  }

  lemma ReportIsApplied(actions: seq<Action>, row: JobRow, peer: PeerId, success: bool, message: string, time: int)
    returns (more: seq<Action>)
    requires Report(peer, row.id, success) in Run(actions).net.results
    requires row.id in Run(actions).jobs && Run(actions).jobs[row.id] == row && row.status == Assigned
    ensures actions <= more && Run(more).sched == Run(actions).sched
    ensures Run(more).jobs
         == Run(actions).jobs[row.id := row.(status := if success then Completed else Failed, finishedAt := Some(time),
                                             error := if success then row.error else Some(message))]
  {
    ChangedInColumns(row, ResultChange(success, message), time);
    more := Do(actions, ApplyResult(Report(peer, row.id, success), message, Ran, time));
  }

  /** It ends the job and reports, and the report is applied. */
  lemma JobIsReported(actions: seq<Action>, row: JobRow, peer: PeerId, success: bool, message: string, time: int)
    returns (more: seq<Action>)
    requires peer in Run(actions).net.running && Run(actions).net.running[peer] == row.id
    requires row.id in Run(actions).jobs && Run(actions).jobs[row.id] == row && row.status == Assigned
    ensures actions <= more && Run(more).sched == Run(actions).sched
    ensures Run(more).jobs
         == Run(actions).jobs[row.id := row.(status := if success then Completed else Failed, finishedAt := Some(time),
                                             error := if success then row.error else Some(message))]
  {
    more := Do(actions, FinishJob(peer, success));
    more := ReportIsApplied(more, row, peer, success, message, time);
  }

  /** From every reachable state in which the scheduler is idle, every new job can be brought to its end by
      a worker that suits it, if one is online and the workers online are free. */
  lemma EveryJobCanEnd(actions: seq<Action>, row: JobRow, success: bool, message: string, time: int, end: int)
    returns (more: seq<Action>, peer: PeerId)
    requires Run(actions).sched.ctl == Idle && Run(actions).api.commands == [] && row.id !in Run(actions).jobs
    requires row == FreshRow(row.id, row.hirer, row.backend, row.memoryMb, row.maxDurationSecs, row.createdAt)
    requires exists p :: p in Run(actions).sched.online && Suits(Run(actions).sched.online[p], Wishes(row))
    requires forall p :: p in Run(actions).sched.online ==> IsFree(Run(actions).net, p)
    ensures actions <= more
    ensures peer in Run(actions).sched.online && Suits(Run(actions).sched.online[peer], Wishes(row))
    ensures Run(more).jobs
         == Run(actions).jobs[row.id := JobRow(
              row.id, row.hirer, Some(peer), if success then Completed else Failed, row.backend, row.memoryMb,
              row.maxDurationSecs, row.createdAt, Some(time), None, Some(end),
              if success then None else Some(message), None)]
  {
    more := JobIsTakenUp(actions, row);
    more, peer := JobIsSent(more, row, time);
    more := JobIsStarted(more, row.id, peer);
    more := JobIsReported(more, AssignedRow(row, peer, time), peer, success, message, end);
  }

  /** And every job of his that is pending or assigned a user can cancel, from every reachable state. */
  lemma EveryJobCanBeCancelled(actions: seq<Action>, user: Uuid, id: Uuid, time: int) returns (more: seq<Action>)
    requires id in Run(actions).jobs && Run(actions).jobs[id].hirer == user
    requires Run(actions).jobs[id].status == Pending || Run(actions).jobs[id].status == Assigned
    ensures actions <= more
    ensures Run(more).jobs
         == Run(actions).jobs[id := Run(actions).jobs[id].(status := Cancelled, finishedAt := Some(time))]
  {
    ChangedInColumns(Run(actions).jobs[id], CancelChange(), time);
    more := Do(actions, RequestCancel(user, id));
    more := Do(more, ApplyCancel(id, Run(actions).jobs[id].status, Ran, time));
  }

  /** No worker's queue ever holds more than 32 jobs. */
  lemma {:induction false} QueuesAreBounded(actions: seq<Action>, peer: PeerId)
    ensures peer in Run(actions).net.queues ==> |Run(actions).net.queues[peer]| <= 32
  {
    if actions != [] {
      QueuesAreBounded(actions[..|actions| - 1], peer);
    }
  }
}
