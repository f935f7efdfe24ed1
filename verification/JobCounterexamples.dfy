// Why the promises of the job protocol have the conditions they have.
module JobCounterexamples {
  import opened Types
  import opened JobStore
  import opened Matcher
  import opened JobProtocol
  import opened JobTheorems

  ghost predicate IsReachable(s: State) {
    exists actions :: Run(actions) == s
  }

  lemma Take(s: State, a: Action) returns (s': State)
    requires IsReachable(s) && Enabled(s, a)
    ensures IsReachable(s')
    ensures s' == State(JobsStep(s, a), SchedStep(s, a), ApiStep(s, a), NetStep(s, a), HistoryStep(s, a))
  {
    var actions :| Run(actions) == s;
    assert (actions + [a])[..|actions|] == actions;
    s' := Step(s, a);
    assert Run(actions + [a]) == s';
  }

  /** Nothing has been created yet, and the scheduler is idle. */
  predicate NoJobs(s: State) {
    s.jobs == map[] && s.api == Init().api && s.sched.pending == map[] && s.sched.ctl == Idle
    && s.net == Init().net && s.history == Init().history
  }

  /** A job of the given hirer is created and taken from the scheduler's channel. */
  lemma Enqueued(s0: State, hirer: Uuid) returns (s: State)
    requires IsReachable(s0) && NoJobs(s0)
    ensures IsReachable(s)
    ensures s.jobs == map[1 := NewRow(1, hirer, CpuOnly, None, None, 0)]
    ensures s.sched == Sched(s0.sched.online, map[1 := []], Pick(FromEnqueue, [], 1, MatchRequest(CpuOnly, 512)))
    ensures s.net == s0.net && s.history == s0.history.(enqueued := {1})
  {
    s := Take(s0, CreateJob(1, hirer, CpuOnly, None, None, 0));
    s := Take(s, EnqueueJob(1));
    s := Take(s, Dequeue);
  }

  /** One failed read on a retry is enough to lose a pending job. */
  lemma FailedReadLosesJob() returns (s: State)
    ensures IsReachable(s)
    ensures 1 in s.history.enqueued && 1 in s.jobs && s.jobs[1].status == Pending && 1 !in s.sched.pending
  {
    assert Run([]) == Init();
    s := Enqueued(Init(), 7);
    BestComesFirst([], s.sched.ctl.request);
    s := Take(s, PickWorker([]));
    s := RetriedInVain(s);
  }

  /** The row of job 1, on its own in the cache, cannot be read on a retry. */
  lemma RetriedInVain(s0: State) returns (s: State)
    requires IsReachable(s0) && s0.sched.ctl == Idle && s0.sched.pending == map[1 := []]
    ensures IsReachable(s) && s.jobs == s0.jobs && s.history.enqueued == s0.history.enqueued && 1 !in s.sched.pending
  {
    s := Take(s0, Tick([1]));
    s := Take(s, ReadRow(Refused));
  }

  lemma OnlyWorkerComesFirst(c: WorkerCandidate, request: MatchRequest)
    requires Eligible(c, request)
    ensures Selected([c], request) != [] && Selected([c], request)[0] == 0
  {
    assert c in [c];
    BestComesFirst([c], request);
  }

  /** With one idle worker online, a CPU job that is about to be matched goes to that worker. */
  lemma Picked(s0: State, peer: PeerId) returns (s: State)
    requires IsReachable(s0)
    requires s0.sched.ctl.Pick? && s0.sched.ctl.todo == [] && s0.sched.ctl.job == 1
    requires s0.sched.ctl.request.backend == CpuOnly
    requires s0.sched.online == map[peer := WorkerCandidate(peer, [], 100.0, 0, false)]
    requires peer !in TriedFor(s0.sched.pending, 1)
    ensures IsReachable(s) && s == s0.(sched := s.sched) && s.sched == s0.sched.(ctl := s.sched.ctl)
    ensures s.sched.ctl.Chosen? && s.sched.ctl.todo == []
    ensures s.sched.ctl.choice.job == 1 && s.sched.ctl.choice.peer == peer
  {
    var c := WorkerCandidate(peer, [], 100.0, 0, false);
    OnlyWorkerComesFirst(c, s0.sched.ctl.request);
    s := Take(s0, PickWorker([c]));
  }

  lemma Dispatched(s0: State, peer: PeerId) returns (s: State)
    requires IsReachable(s0) && 1 in s0.jobs && s0.jobs[1].status == Pending
    requires s0.sched.ctl.Chosen? && s0.sched.ctl.todo == []
    requires s0.sched.ctl.choice.job == 1 && s0.sched.ctl.choice.peer == peer
    ensures IsReachable(s)
    ensures s.jobs == s0.jobs[1 := Changed(s0.jobs[1], AssignChange(peer), 0)]
    ensures s.sched.ctl == Idle && s.sched.online == s0.sched.online
    ensures s.sched.pending == s0.sched.pending[1 := TriedFor(s0.sched.pending, 1) + [peer]]
    ensures s.net == s0.net.(assigns := s0.net.assigns + multiset{(peer, 1)})
    ensures s.history.sends == s0.history.sends + multiset{1} && s.history.reports == s0.history.reports
  {
    s := Take(s0, Assign(Ran, 0));
    s := Take(s, BuildAssignment(Ran));
    s := Take(s, SendAssign(true));
  }

  predicate OnlyJob(jobs: Jobs, status: JobStatus) {
    1 in jobs && jobs == map[1 := jobs[1]] && jobs[1].id == 1 && jobs[1].hirer == NIL_UUID && jobs[1].status == status
  }

  /** The worker is taken for offline, and the job is listed. */
  lemma WorkerListed(s0: State) returns (s: State)
    requires IsReachable(s0) && s0.sched.ctl == Idle && OnlyJob(s0.jobs, Assigned)
    ensures IsReachable(s) && s.jobs == s0.jobs && s.net == s0.net && s.history == s0.history
    ensures s.sched == Sched(s0.sched.online - {10}, s0.sched.pending, FailRow(10, [s0.jobs[1]]))
  {
    var row := s0.jobs[1];
    assert IsListing([row], s0.jobs, NIL_UUID);
    assert Page([row], 1000, 0) == [row];
    s := Take(s0, WorkerOffline(10));
    s := Take(s, ListOffline(Ran, [row]));
  }

  /** The worker at work on the job is taken for offline, which fails the job. */
  lemma WorkerLost(s0: State) returns (s: State)
    requires IsReachable(s0) && s0.sched.ctl == Idle && OnlyJob(s0.jobs, Assigned) && s0.jobs[1].worker == Some(10)
    ensures IsReachable(s) && OnlyJob(s.jobs, Failed) && s.jobs[1].backend == s0.jobs[1].backend
    ensures s.sched == Sched(s0.sched.online - {10}, s0.sched.pending[1 := [10]], ResetRow(10, [], 1))
    ensures s.net == s0.net && s.history.sends == s0.history.sends && s.history.reports == s0.history.reports
  {
    s := WorkerListed(s0);
    FailStep(s, Ran, 0);
    s := Take(s, FailNext(Ran, 0));
  }

  /** The failed job goes back to pending. */
  lemma PutBack(s0: State) returns (s: State)
    requires IsReachable(s0) && s0.sched.ctl == ResetRow(10, [], 1) && OnlyJob(s0.jobs, Failed)
    ensures IsReachable(s) && OnlyJob(s.jobs, Pending) && s.jobs[1].backend == s0.jobs[1].backend
    ensures s.sched == s0.sched.(ctl := Idle)
    ensures s.net == s0.net && s.history.sends == s0.history.sends && s.history.reports == s0.history.reports
  {
    s := Take(s0, ResetNext(Ran, 0));
  }

  /** Another worker comes online, and the job is about to be matched again. */
  lemma MatchedAgain(s0: State) returns (s: State)
    requires IsReachable(s0) && s0.sched == Sched(map[], map[1 := [10]], Idle)
    requires 1 in s0.jobs && s0.jobs[1].id == 1 && s0.jobs[1].status == Pending && s0.jobs[1].backend == CpuOnly
    ensures IsReachable(s) && s.jobs == s0.jobs && s.net == s0.net && s.history == s0.history
    ensures s.sched.ctl.Pick? && s.sched.ctl.todo == [] && s.sched.ctl.job == 1
    ensures s.sched.ctl.request.backend == CpuOnly && s.sched.pending == map[1 := [10]]
    ensures s.sched.online == map[20 := WorkerCandidate(20, [], 100.0, 0, false)]
  {
    s := Take(s0, WorkerOnline(20, [], [1]));
    s := Take(s, ReadRow(Ran));
    s := Take(s, React(0));
  }

  /** Worker 10 is online and has been sent the job. */
  lemma SentTo10() returns (s: State)
    ensures IsReachable(s)
    ensures s.sched == Sched(map[10 := WorkerCandidate(10, [], 100.0, 0, false)], map[1 := [10]], Idle)
    ensures s.jobs == map[1 := Changed(NewRow(1, NIL_UUID, CpuOnly, None, None, 0), AssignChange(10), 0)]
    ensures s.net == Init().net.(assigns := multiset{(10, 1)})
    ensures s.history.sends == multiset{1} && s.history.reports == {}
  {
    assert Run([]) == Init();
    s := Take(Init(), WorkerOnline(10, [], []));
    s := Enqueued(s, NIL_UUID);
    assert TriedFor(s.sched.pending, 1) + [10] == [10];
    s := Picked(s, 10);
    s := Dispatched(s, 10);
  }

  /** Worker 10 has started the job. */
  lemma Started() returns (s: State)
    ensures IsReachable(s)
    ensures s.sched == Sched(map[10 := WorkerCandidate(10, [], 100.0, 0, false)], map[1 := [10]], Idle)
    ensures s.jobs == map[1 := Changed(NewRow(1, NIL_UUID, CpuOnly, None, None, 0), AssignChange(10), 0)]
    ensures s.net.running == map[10 := 1]
    ensures s.history.sends == multiset{1} && s.history.reports == {}
  {
    s := SentTo10();
    s := Take(s, Arrive(10, 1));
    s := Take(s, StartJob(10));
  }

  /** Worker 10 finishes a job that by now is assigned to worker 20. */
  lemma FinishedLate(s0: State) returns (s: State)
    requires IsReachable(s0) && 1 in s0.jobs && s0.jobs[1].status == Assigned && s0.jobs[1].worker == Some(20)
    requires s0.net.running == map[10 := 1] && s0.history.reports == {}
    ensures IsReachable(s) && s.history.sends == s0.history.sends && s.history.reports == {Report(10, 1, true)}
    ensures 1 in s.jobs && s.jobs[1].status == Completed && s.jobs[1].worker == Some(20)
    ensures s.jobs[1].hirer == s0.jobs[1].hirer
  {
    s := Take(s0, FinishJob(10, true));
    s := Take(s, ApplyResult(Report(10, 1, true), "", Ran, 0));
  }

  /** With a nil hirer, one job can be dispatched twice, and its completed row can name a worker
      that never reported anything, while the worker that did the job goes unnamed. */
  lemma NilHirerMisattributes() returns (s: State)
    ensures IsReachable(s)
    ensures 1 in s.jobs && s.jobs[1].hirer == NIL_UUID
    ensures s.jobs[1].status == Completed && s.jobs[1].worker == Some(20)
    ensures s.history.reports == {Report(10, 1, true)} && s.history.sends[1] == 2
  {
    s := Started();
    s := WorkerLost(s);
    s := PutBack(s);
    assert s.sched.online == map[];
    s := MatchedAgain(s);
    s := Picked(s, 20);
    s := Dispatched(s, 20);
    s := FinishedLate(s);
  }

  ghost predicate AlwaysWellAttributed(hirer: Uuid) {
    forall actions, id ::
      id in Run(actions).jobs && Run(actions).jobs[id].hirer == hirer && Run(actions).jobs[id].status == Completed ==>
        WellAttributed(Run(actions), id)
  }

  ghost predicate AlwaysDispatchedOnce(hirer: Uuid) {
    forall actions, id ::
      id in Run(actions).jobs && Run(actions).jobs[id].hirer == hirer ==> Run(actions).history.sends[id] <= 1
  }

  /** In all runs a hirer's completed jobs are well attributed, and his jobs are dispatched at most
      once, if and only if the hirer is not the nil UUID. */
  lemma PromisesByHirer(hirer: Uuid)
    ensures AlwaysWellAttributed(hirer) <==> hirer != NIL_UUID
    ensures AlwaysDispatchedOnce(hirer) <==> hirer != NIL_UUID
  {
    if hirer == NIL_UUID {
      var s := NilHirerMisattributes();
      var actions :| Run(actions) == s;
      assert !WellAttributed(Run(actions), 1);
    } else {
      forall actions, id | id in Run(actions).jobs && Run(actions).jobs[id].hirer == hirer
        ensures Run(actions).jobs[id].status == Completed ==> WellAttributed(Run(actions), id)
        ensures Run(actions).history.sends[id] <= 1
      {
        DispatchedAtMostOnce(actions, id);
        if Run(actions).jobs[id].status == Completed {
          CompletedByNamedPeer(actions, id);
        }
      }
    }
  }
}
