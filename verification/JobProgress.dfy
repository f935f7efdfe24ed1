// What the scheduler gets done: every job of a loop is looked at, a pending one is tried, and when
// nothing fails and nobody interferes, jobs and workers that fit come together.
module JobProgress {
  import opened Types
  import opened JobStore
  import opened Matcher
  import opened JobProtocol
  import opened JobSafety
  import opened JobTheorems
  import opened JobLoss

  /** Every action was enabled when its turn came. */
  ghost predicate Feasible(actions: seq<Action>) {
    actions == []
    || (Feasible(actions[..|actions| - 1]) && Enabled(Run(actions[..|actions| - 1]), actions[|actions| - 1]))
  }

  /** The state before the `n`-th action. */
  ghost function At(actions: seq<Action>, n: nat): State
    requires n <= |actions|
  {
    Run(actions[..n])
  }

  lemma {:induction false} StepAt(actions: seq<Action>, n: nat)
    requires Feasible(actions) && n < |actions|
    ensures Enabled(At(actions, n), actions[n]) && At(actions, n + 1) == Step(At(actions, n), actions[n])
  {
    var before := actions[..|actions| - 1];
    if n < |before| {
      StepAt(before, n);
      assert before[..n] == actions[..n] && before[..n + 1] == actions[..n + 1];
    } else {
      assert actions[..n + 1] == actions && actions[..n + 1][..n] == actions[..n];
    }
  }

  lemma AtEnd(actions: seq<Action>)
    ensures At(actions, |actions|) == Run(actions)
  {
    assert actions[..|actions|] == actions;
  }

  predicate ByScheduler(a: Action) {
    !(a.CreateJob? || a.EnqueueJob? || a.RequestCancel? || a.ApplyCancel? || a.Arrive? || a.LoseAssign?
      || a.StartJob? || a.FinishJob? || a.ApplyResult? || a.LoseResult?)
  }

  lemma OthersKeepSched(s: State, a: Action)
    requires Enabled(s, a) && !ByScheduler(a)
    ensures SchedStep(s, a) == s.sched
  {
  }

  /** If the scheduler is at work and gets idle again, it takes its next step in between. */
  lemma {:induction false} NextMove(actions: seq<Action>, n: nat) returns (j: nat)
    requires Feasible(actions) && n <= |actions| && At(actions, n).sched.ctl != Idle && Run(actions).sched.ctl == Idle
    ensures n <= j < |actions| && ByScheduler(actions[j]) && Enabled(At(actions, j), actions[j])
    ensures At(actions, j).sched == At(actions, n).sched
    decreases |actions| - n
  {
    AtEnd(actions);
    StepAt(actions, n);
    if ByScheduler(actions[n]) {
      j := n;
    } else {
      OthersKeepSched(At(actions, n), actions[n]);
      j := NextMove(actions, n + 1);
    }
  }

  // ── Every job of a loop is looked at ───────────────────────────────────────────────────

  /** The jobs whose rows the loop has yet to read. */
  function ToRead(ctl: Ctl): seq<Uuid> {
    match ctl
    case Loop(_, todo) => todo
    case Got(_, todo, _) => todo
    case Pick(_, todo, _, _) => todo
    case Chosen(_, todo, _) => todo
    case Build(_, todo, _) => todo
    case Send(_, todo, _) => todo
    case _ => []
  }

  predicate ReadsJob(s: State, a: Action, job: Uuid) {
    a.ReadRow? && s.sched.ctl.Loop? && s.sched.ctl.todo != [] && s.sched.ctl.todo[0] == job
  }

  lemma ToReadStays(s: State, a: Action, job: Uuid)
    requires Enabled(s, a) && ByScheduler(a) && job in ToRead(s.sched.ctl) && !ReadsJob(s, a, job)
    ensures job in ToRead(SchedStep(s, a).ctl)
  {
    if a.ReadRow? {
      assert s.sched.ctl.todo == [s.sched.ctl.todo[0]] + s.sched.ctl.todo[1..];
    }
  }

  lemma {:induction false} ReadsEvery(actions: seq<Action>, n: nat, job: Uuid) returns (i: nat)
    requires Feasible(actions) && n <= |actions| && job in ToRead(At(actions, n).sched.ctl)
    requires Run(actions).sched.ctl == Idle
    ensures n <= i < |actions| && ReadsJob(At(actions, i), actions[i], job)
    decreases |actions| - n
  {
    var j := NextMove(actions, n);
    if ReadsJob(At(actions, j), actions[j], job) {
      i := j;
    } else {
      StepAt(actions, j);
      ToReadStays(At(actions, j), actions[j], job);
      i := ReadsEvery(actions, j + 1, job);
    }
  }

  /** After the row was read at `i`, the scheduler reacts to it, and if the row is old enough or the
      loop does not ask, it looks for a worker. */
  ghost predicate Tries(actions: seq<Action>, i: nat, job: Uuid)
    requires i < |actions| && job in At(actions, i).jobs
  {
    var row := At(actions, i).jobs[job];
    exists j :: i < j < |actions| && Reacts(actions, j, job, row)
  }

  ghost predicate Reacts(actions: seq<Action>, j: nat, job: Uuid, row: JobRow)
    requires j < |actions|
  {
    && actions[j].React? && At(actions, j).sched.ctl.Got? && At(actions, j).sched.ctl.row == row
    && (At(actions, j).sched.ctl.origin != FromRetry || (actions[j].now - row.createdAt) / 1000 > 30 ==>
          exists k :: j < k < |actions| && LooksForWorker(actions, k, job))
  }

  ghost predicate LooksForWorker(actions: seq<Action>, k: nat, job: Uuid)
    requires k < |actions|
  {
    actions[k].PickWorker? && At(actions, k).sched.ctl.Pick? && At(actions, k).sched.ctl.job == job
  }

  /** From `n` on the job's row is read, and if the read gives a pending row, the job is tried. */
  ghost predicate LooksAt(actions: seq<Action>, n: nat, job: Uuid) {
    exists i :: n <= i < |actions| && LooksAtFrom(actions, i, job)
  }

  ghost predicate LooksAtFrom(actions: seq<Action>, i: nat, job: Uuid)
    requires i < |actions|
  {
    && ReadsJob(At(actions, i), actions[i], job)
    && (actions[i].fate == Ran && job in At(actions, i).jobs && At(actions, i).jobs[job].status == Pending ==>
          Tries(actions, i, job))
  }

  lemma PickFollows(actions: seq<Action>, n: nat, job: Uuid) returns (k: nat)
    requires Feasible(actions) && n <= |actions| && Run(actions).sched.ctl == Idle
    requires At(actions, n).sched.ctl.Pick? && At(actions, n).sched.ctl.job == job
    ensures n <= k < |actions| && LooksForWorker(actions, k, job)
  {
    k := NextMove(actions, n);
  }

  lemma ReadGives(s: State, a: Action, job: Uuid)
    requires Enabled(s, a) && ReadsJob(s, a, job) && a.fate == Ran && job in s.jobs
    ensures SchedStep(s, a).ctl == Got(s.sched.ctl.origin, s.sched.ctl.todo[1..], s.jobs[job])
  {
  }

  lemma ReactGives(s: State, a: Action)
    requires Enabled(s, a) && s.sched.ctl.Got? && s.sched.ctl.row.status == Pending && ByScheduler(a)
    ensures a.React?
    ensures s.sched.ctl.origin != FromRetry || (a.now - s.sched.ctl.row.createdAt) / 1000 > 30 ==>
              SchedStep(s, a).ctl == Pick(s.sched.ctl.origin, s.sched.ctl.todo, s.sched.ctl.row.id,
                                          RequestOf(s.sched.ctl.row))
  {
  }

  /** What the scheduler does with a pending row that it has. */
  lemma GotIsTried(actions: seq<Action>, n: nat, job: Uuid, row: JobRow) returns (j: nat)
    requires Feasible(actions) && n <= |actions| && Run(actions).sched.ctl == Idle
    requires At(actions, n).sched.ctl.Got? && At(actions, n).sched.ctl.row == row
    requires row.id == job && row.status == Pending
    ensures n <= j < |actions| && Reacts(actions, j, job, row)
  {
    j := NextMove(actions, n);
    StepAt(actions, j);
    ReactGives(At(actions, j), actions[j]);
    if At(actions, j).sched.ctl.origin != FromRetry || (actions[j].now - row.createdAt) / 1000 > 30 {
      var k := PickFollows(actions, j + 1, job);
    }
  }

  lemma ReadIsTried(actions: seq<Action>, i: nat, job: Uuid)
    requires Feasible(actions) && i < |actions| && Run(actions).sched.ctl == Idle
    requires ReadsJob(At(actions, i), actions[i], job) && actions[i].fate == Ran
    requires job in At(actions, i).jobs && At(actions, i).jobs[job].status == Pending
    ensures Tries(actions, i, job)
  {
    StepAt(actions, i);
    ReadGives(At(actions, i), actions[i], job);
    RowsAreSound(actions[..i], job);
    var j := GotIsTried(actions, i + 1, job, At(actions, i).jobs[job]);
  }

  /** A loop looks at each of its jobs. */
  lemma LoopLooksAt(actions: seq<Action>, n: nat, job: Uuid)
    requires Feasible(actions) && n <= |actions| && job in ToRead(At(actions, n).sched.ctl)
    requires Run(actions).sched.ctl == Idle
    ensures LooksAt(actions, n, job)
  {
    var i := ReadsEvery(actions, n, job);
    if actions[i].fate == Ran && job in At(actions, i).jobs && At(actions, i).jobs[job].status == Pending {
      ReadIsTried(actions, i, job);
    }
    assert LooksAtFrom(actions, i, job);
  }

  // ── When nothing fails and nobody interferes ───────────────────────────────────────────

  /** A step of the scheduler whose statement runs and is answered, while the clocks read `time`. */
  predicate IsCalm(a: Action, time: int) {
    match a
    case ReadRow(fate) => fate == Ran
    case React(now) => now == time
    case PickWorker(_) => true
    case Assign(fate, now) => fate == Ran && now == time
    case BuildAssignment(fate) => fate == Ran
    case SendAssign(open) => open
    case ListOffline(fate, _) => fate == Ran
    case FailNext(fate, now) => fate == Ran && now == time
    case ResetNext(fate, now) => fate == Ran && now == time
    case _ => false
  }

  /** A pending job, its row and the workers tried for it, and an idle worker that suits it. */
  datatype Pair = Pair(job: Uuid, row: JobRow, tried: seq<PeerId>, worker: WorkerCandidate)

  function Wishes(row: JobRow): MatchRequest {
    MatchRequest(row.backend, match row.memoryMb case None => 512
                              case Some(m) => if m >= 0 then m else m + 18_446_744_073_709_551_616)
  }

  /** Whether a loop that began this way tries such a row. */
  predicate Tryable(origin: Origin, row: JobRow, time: int) {
    origin == FromRetry ==> (time - row.createdAt) / 1000 > 30
  }

  function AssignedRow(row: JobRow, peer: PeerId, time: int): JobRow {
    row.(status := Assigned, worker := Some(peer), assignedAt := Some(time))
  }

  predicate Available(m: Sched, k: Pair) {
    && k.worker.peer in m.online && m.online[k.worker.peer] == k.worker && k.worker.peer !in k.tried
    && Suits(k.worker, Wishes(k.row)) && TriedFor(m.pending, k.job) == k.tried
  }

  /** The job's turn is still to come, or it is being tried. */
  ghost predicate InLine(ctl: Ctl, k: Pair, time: int) {
    match ctl
    case Loop(origin, todo) => k.job in todo && Tryable(origin, k.row, time)
    case Got(origin, todo, row) => (k.job in todo || row == k.row) && Tryable(origin, k.row, time)
    case Pick(origin, todo, job, request) =>
      if job == k.job then request == Wishes(k.row) else k.job in todo && Tryable(origin, k.row, time)
    case Chosen(origin, todo, choice) => choice.job == k.job || (k.job in todo && Tryable(origin, k.row, time))
    case Build(origin, todo, choice) => choice.job != k.job && k.job in todo && Tryable(origin, k.row, time)
    case Send(origin, todo, choice) => choice.job != k.job && k.job in todo && Tryable(origin, k.row, time)
    case _ => false
  }

  ghost predicate Waiting(s: State, k: Pair, time: int) {
    && k.job in s.jobs && s.jobs[k.job] == k.row && k.row.id == k.job && k.row.status == Pending
    && Available(s.sched, k) && InLine(s.sched.ctl, k, time)
  }

  ghost predicate Claimed(s: State, k: Pair, time: int) {
    && (s.sched.ctl.Build? || s.sched.ctl.Send?) && s.sched.ctl.choice.job == k.job
    && IsNewPeer(s.sched, k, s.sched.ctl.choice.peer)
    && k.job in s.jobs && s.jobs[k.job] == AssignedRow(k.row, s.sched.ctl.choice.peer, time)
    && TriedFor(s.sched.pending, k.job) == k.tried
  }

  predicate IsNewPeer(m: Sched, k: Pair, peer: PeerId) {
    peer in m.online && peer !in k.tried && Suits(m.online[peer], Wishes(k.row))
  }

  /** The job is assigned to a worker that was not tried before, and the Assign is on its way. */
  predicate IsDispatchedTo(s: State, k: Pair, peer: PeerId, time: int) {
    && IsNewPeer(s.sched, k, peer)
    && k.job in s.jobs && s.jobs[k.job] == AssignedRow(k.row, peer, time)
    && (peer, k.job) in s.net.assigns
    && k.job in s.sched.pending && s.sched.pending[k.job] == k.tried + [peer]
  }

  ghost predicate Dispatched(s: State, k: Pair, time: int) {
    k.job !in Agenda(s.sched.ctl) && exists peer :: IsDispatchedTo(s, k, peer, time)
  }

  lemma PickForWaiting(s: State, a: Action, k: Pair, time: int)
    requires Inv(s) && Enabled(s, a) && Waiting(s, k, time) && a.PickWorker? && s.sched.ctl.job == k.job
    ensures SchedStep(s, a).ctl.Chosen? && SchedStep(s, a).ctl.choice.job == k.job
  {
    RequestInNumbers(k.row);
    EligibleSuits(k.worker, s.sched.ctl.request);
    assert k.worker in a.candidates;
    BestComesFirst(a.candidates, s.sched.ctl.request);
  }

  /** What a loop does to its own place, to the rows and to the cache, before it sends anything. */
  lemma ReadKeepsWaiting(s: State, a: Action, k: Pair, time: int)
    requires Inv(s) && AgendaInv(s.sched) && Enabled(s, a) && IsCalm(a, time) && Waiting(s, k, time) && a.ReadRow?
    ensures Waiting(Step(s, a), k, time)
  {
    var todo := s.sched.ctl.todo;
    assert todo == [todo[0]] + todo[1..];
    assert todo[0] in s.sched.pending && Cached(s, todo[0]);
  }

  lemma ReactKeepsWaiting(s: State, a: Action, k: Pair, time: int)
    requires Inv(s) && AgendaInv(s.sched) && Enabled(s, a) && IsCalm(a, time) && Waiting(s, k, time) && a.React?
    ensures Waiting(Step(s, a), k, time)
  {
    var row, todo := s.sched.ctl.row, s.sched.ctl.todo;
    RequestInNumbers(k.row);
    TailOfAgenda(row.id, todo);
    assert s.jobs[k.job].id == k.job;
  }

  lemma PickKeepsWaiting(s: State, a: Action, k: Pair, time: int)
    requires Inv(s) && Enabled(s, a) && IsCalm(a, time) && Waiting(s, k, time) && a.PickWorker?
    ensures Waiting(Step(s, a), k, time)
  {
    if s.sched.ctl.job == k.job {
      PickForWaiting(s, a, k, time);
    }
  }

  lemma SendKeepsWaiting(s: State, a: Action, k: Pair, time: int)
    requires Enabled(s, a) && IsCalm(a, time) && Waiting(s, k, time)
    requires (a.Assign? && s.sched.ctl.choice.job != k.job) || a.BuildAssignment? || a.SendAssign?
    ensures Waiting(Step(s, a), k, time)
  {
  }

  /** A step that has nothing to do with the job leaves it in line. */
  lemma WaitingGoesOn(s: State, a: Action, k: Pair, time: int)
    requires Inv(s) && AgendaInv(s.sched) && Enabled(s, a) && IsCalm(a, time) && Waiting(s, k, time)
    requires !(a.Assign? && s.sched.ctl.choice.job == k.job)
    ensures Waiting(Step(s, a), k, time)
  {
    match a
    case ReadRow(_) => ReadKeepsWaiting(s, a, k, time);
    case React(_) => ReactKeepsWaiting(s, a, k, time);
    case PickWorker(_) => PickKeepsWaiting(s, a, k, time);
    case Assign(_, _) => SendKeepsWaiting(s, a, k, time);
    case BuildAssignment(_) => SendKeepsWaiting(s, a, k, time);
    case SendAssign(_) => SendKeepsWaiting(s, a, k, time);
    case _ =>
  }

  lemma WaitingIsClaimed(s: State, a: Action, k: Pair, time: int)
    requires Inv(s) && Enabled(s, a) && IsCalm(a, time) && Waiting(s, k, time)
    requires a.Assign? && s.sched.ctl.choice.job == k.job
    ensures Claimed(Step(s, a), k, time)
  {
    BestChoiceMeaning(s.sched, s.sched.ctl.choice);
    RequestInNumbers(k.row);
    EligibleSuits(s.sched.online[s.sched.ctl.choice.peer], s.sched.ctl.choice.request);
    ChangedInColumns(k.row, AssignChange(s.sched.ctl.choice.peer), time);
  }

  lemma ClaimedGoesOn(s: State, a: Action, k: Pair, time: int)
    requires AgendaInv(s.sched) && Enabled(s, a) && IsCalm(a, time) && Claimed(s, k, time)
    ensures Claimed(Step(s, a), k, time) || Dispatched(Step(s, a), k, time)
  {
    var agenda := Agenda(s.sched.ctl);
    assert agenda == [agenda[0]] + agenda[1..];
    TailOfAgenda(agenda[0], agenda[1..]);
    if a.SendAssign? {
      assert IsDispatchedTo(Step(s, a), k, s.sched.ctl.choice.peer, time);
    }
  }

  predicate InLoop(ctl: Ctl) {
    !ctl.ListRows? && !ctl.FailRow? && !ctl.ResetRow?
  }

  /** Once dispatched, the job is left alone for the rest of the loop. */
  lemma DispatchedStays(s: State, a: Action, k: Pair, time: int)
    requires RowsInv(s) && Enabled(s, a) && IsCalm(a, time) && InLoop(s.sched.ctl) && Dispatched(s, k, time)
    ensures Dispatched(Step(s, a), k, time)
  {
    var peer :| IsDispatchedTo(s, k, peer, time);
    AgendaChanges(s, a);
    var agenda := Agenda(s.sched.ctl);
    assert agenda == [agenda[0]] + agenda[1..];
    assert agenda[0] in agenda;
    assert IsDispatchedTo(Step(s, a), k, peer, time);
  }

  ghost predicate Underway(s: State, k: Pair, time: int) {
    InLoop(s.sched.ctl) && (Waiting(s, k, time) || Claimed(s, k, time) || Dispatched(s, k, time))
  }

  lemma LoopStaysLoop(s: State, a: Action, time: int)
    requires Enabled(s, a) && IsCalm(a, time) && InLoop(s.sched.ctl)
    ensures InLoop(SchedStep(s, a).ctl)
  {
  }

  lemma UnderwayGoesOn(s: State, a: Action, k: Pair, time: int)
    requires Inv(s) && AgendaInv(s.sched) && Enabled(s, a) && IsCalm(a, time) && Underway(s, k, time)
    ensures Underway(Step(s, a), k, time)
  {
    LoopStaysLoop(s, a, time);
    if Waiting(s, k, time) {
      if a.Assign? && s.sched.ctl.choice.job == k.job {
        WaitingIsClaimed(s, a, k, time);
      } else {
        WaitingGoesOn(s, a, k, time);
      }
    } else if Claimed(s, k, time) {
      ClaimedGoesOn(s, a, k, time);
    } else {
      DispatchedStays(s, a, k, time);
    }
  }

  ghost predicate CalmFrom(actions: seq<Action>, n: nat, time: int) {
    forall i :: n <= i < |actions| ==> IsCalm(actions[i], time)
  }

  lemma UnderwayAfter(actions: seq<Action>, m: nat, k: Pair, time: int)
    requires Feasible(actions) && m < |actions| && IsCalm(actions[m], time) && Underway(At(actions, m), k, time)
    ensures Underway(At(actions, m + 1), k, time)
  {
    var s := At(actions, m);
    StepAt(actions, m);
    Reachable(actions[..m]);
    ReachableLoss(actions[..m]);
    UnderwayGoesOn(s, actions[m], k, time);
  }

  lemma {:induction false} UnderwayUntil(actions: seq<Action>, n: nat, m: nat, k: Pair, time: int)
    requires Feasible(actions) && n <= m <= |actions| && CalmFrom(actions, n, time) && Underway(At(actions, n), k, time)
    ensures Underway(At(actions, m), k, time)
  {
    if n < m {
      UnderwayUntil(actions, n, m - 1, k, time);
      assert IsCalm(actions[m - 1], time);
      UnderwayAfter(actions, m - 1, k, time);
    }
  }

  lemma UnderwayEnds(s: State, k: Pair, time: int)
    requires Underway(s, k, time) && s.sched.ctl == Idle
    ensures exists peer :: IsDispatchedTo(s, k, peer, time)
  {
  }

  /** In a calm loop, a pending job for which an untried idle worker is there gets dispatched. */
  lemma CalmLoopDispatches(actions: seq<Action>, n: nat, k: Pair, time: int)
    requires Feasible(actions) && n <= |actions| && CalmFrom(actions, n, time)
    requires Underway(At(actions, n), k, time) && Run(actions).sched.ctl == Idle
    ensures exists peer :: IsDispatchedTo(Run(actions), k, peer, time)
  {
    UnderwayUntil(actions, n, |actions|, k, time);
    AtEnd(actions);
    UnderwayEnds(Run(actions), k, time);
  }

  // ── What a calm loop leaves alone ──────────────────────────────────────────────────────

  /** A pending row that is too young for a retry. */
  ghost predicate TooYoung(s: State, job: Uuid, row: JobRow, tried: seq<PeerId>, time: int) {
    && row.id == job && row.status == Pending && (time - row.createdAt) / 1000 <= 30
    && job in s.jobs && s.jobs[job] == row && job in s.sched.pending && s.sched.pending[job] == tried
    && RetriesOthers(s.sched.ctl, job, row)
  }

  predicate RetriesOthers(ctl: Ctl, job: Uuid, row: JobRow) {
    match ctl
    case Idle => true
    case Loop(origin, _) => origin == FromRetry
    case Got(origin, _, r) => origin == FromRetry && (r.id == job ==> r == row)
    case Pick(origin, _, j, _) => origin == FromRetry && j != job
    case Chosen(origin, _, choice) => origin == FromRetry && choice.job != job
    case Build(origin, _, choice) => origin == FromRetry && choice.job != job
    case Send(origin, _, choice) => origin == FromRetry && choice.job != job
    case _ => false
  }

  lemma ReadSparesYoung(s: State, a: Action, job: Uuid, row: JobRow, tried: seq<PeerId>, time: int)
    requires Inv(s) && Enabled(s, a) && a.ReadRow? && a.fate == Ran && TooYoung(s, job, row, tried, time)
    ensures TooYoung(Step(s, a), job, row, tried, time)
  {
    assert s.sched.ctl.todo[0] in s.jobs ==> s.jobs[s.sched.ctl.todo[0]].id == s.sched.ctl.todo[0];
  }

  lemma OthersSpareYoung(s: State, a: Action, job: Uuid, row: JobRow, tried: seq<PeerId>, time: int)
    requires Enabled(s, a) && IsCalm(a, time) && !a.ReadRow? && TooYoung(s, job, row, tried, time)
    ensures TooYoung(Step(s, a), job, row, tried, time)
  {
  }

  lemma TooYoungStays(s: State, a: Action, job: Uuid, row: JobRow, tried: seq<PeerId>, time: int)
    requires Inv(s) && Enabled(s, a) && IsCalm(a, time) && TooYoung(s, job, row, tried, time)
    ensures TooYoung(Step(s, a), job, row, tried, time)
  {
    if a.ReadRow? {
      ReadSparesYoung(s, a, job, row, tried, time);
    } else {
      OthersSpareYoung(s, a, job, row, tried, time);
    }
  }

  lemma TooYoungAfter(actions: seq<Action>, m: nat, job: Uuid, row: JobRow, tried: seq<PeerId>, time: int)
    requires Feasible(actions) && m < |actions| && IsCalm(actions[m], time) && TooYoung(At(actions, m), job,
                                                                                        row, tried, time)
    ensures TooYoung(At(actions, m + 1), job, row, tried, time)
  {
    var s := At(actions, m);
    StepAt(actions, m);
    Reachable(actions[..m]);
    TooYoungStays(s, actions[m], job, row, tried, time);
  }

  lemma {:induction false} CalmRetrySparesYoung(actions: seq<Action>, n: nat, m: nat, job: Uuid, row: JobRow,
                                                tried: seq<PeerId>, time: int)
    requires Feasible(actions) && n <= m <= |actions| && CalmFrom(actions, n, time)
    requires TooYoung(At(actions, n), job, row, tried, time)
    ensures TooYoung(At(actions, m), job, row, tried, time)
  {
    if n < m {
      CalmRetrySparesYoung(actions, n, m - 1, job, row, tried, time);
      assert IsCalm(actions[m - 1], time);
      TooYoungAfter(actions, m - 1, job, row, tried, time);
    }
  }

  /** A row that is not pending stays as it is, and its job is dropped when its turn comes. */
  ghost predicate Dropping(s: State, job: Uuid, row: JobRow) {
    && row.id == job && row.status != Pending && job in s.jobs && s.jobs[job] == row
    && InLoop(s.sched.ctl) && !IsBeingTried(s.sched.ctl, job)
    && (s.sched.ctl.Got? && s.sched.ctl.row.id == job ==> s.sched.ctl.row == row)
    && (job in s.sched.pending ==> job in ToRead(s.sched.ctl) || (s.sched.ctl.Got? && s.sched.ctl.row.id == job))
  }

  predicate IsBeingTried(ctl: Ctl, job: Uuid) {
    (ctl.Pick? && ctl.job == job) || (HasChoice(ctl) && ctl.choice.job == job)
  }

  lemma ReadKeepsDropping(s: State, a: Action, job: Uuid, row: JobRow)
    requires Inv(s) && AgendaInv(s.sched) && Enabled(s, a) && a.ReadRow? && a.fate == Ran && Dropping(s, job, row)
    ensures Dropping(Step(s, a), job, row)
  {
    var todo := s.sched.ctl.todo;
    assert todo == [todo[0]] + todo[1..];
    assert todo[0] in s.sched.pending && Cached(s, todo[0]);
    assert s.jobs[todo[0]].id == todo[0];
  }

  lemma ReactKeepsDropping(s: State, a: Action, job: Uuid, row: JobRow)
    requires Enabled(s, a) && a.React? && Dropping(s, job, row)
    ensures Dropping(Step(s, a), job, row)
  {
  }

  lemma SendKeepsDropping(s: State, a: Action, job: Uuid, row: JobRow, time: int)
    requires Enabled(s, a) && IsCalm(a, time) && !a.ReadRow? && !a.React? && Dropping(s, job, row)
    ensures Dropping(Step(s, a), job, row)
  {
  }

  lemma DroppingGoesOn(s: State, a: Action, job: Uuid, row: JobRow, time: int)
    requires Inv(s) && AgendaInv(s.sched) && Enabled(s, a) && IsCalm(a, time) && Dropping(s, job, row)
    ensures Dropping(Step(s, a), job, row)
  {
    match a
    case ReadRow(_) => ReadKeepsDropping(s, a, job, row);
    case React(_) => ReactKeepsDropping(s, a, job, row);
    case _ => SendKeepsDropping(s, a, job, row, time);
  }

  lemma DroppingAfter(actions: seq<Action>, m: nat, job: Uuid, row: JobRow, time: int)
    requires Feasible(actions) && m < |actions| && IsCalm(actions[m], time) && Dropping(At(actions, m), job, row)
    ensures Dropping(At(actions, m + 1), job, row)
  {
    var s := At(actions, m);
    StepAt(actions, m);
    Reachable(actions[..m]);
    ReachableLoss(actions[..m]);
    DroppingGoesOn(s, actions[m], job, row, time);
  }

  lemma {:induction false} CalmLoopDrops(actions: seq<Action>, n: nat, m: nat, job: Uuid, row: JobRow, time: int)
    requires Feasible(actions) && n <= m <= |actions| && CalmFrom(actions, n, time) && Dropping(At(actions, n),
                                                                                                job, row)
    ensures Dropping(At(actions, m), job, row)
  {
    if n < m {
      CalmLoopDrops(actions, n, m - 1, job, row, time);
      assert IsCalm(actions[m - 1], time);
      DroppingAfter(actions, m - 1, job, row, time);
    }
  }

  // ── A worker goes offline ──────────────────────────────────────────────────────────────

  function ResetRowOf(row: JobRow, time: int): JobRow {
    row.(status := Pending, error := Some("worker went offline"), finishedAt := Some(time))
  }

  predicate InList(rows: seq<JobRow>, id: Uuid) {
    exists i :: 0 <= i < |rows| && rows[i].id == id
  }

  /** The row of a job that the peer held is still to be dealt with, or has been put back. */
  ghost predicate Releasing(s: State, peer: PeerId, row: JobRow, time: int) {
    && row.worker == Some(peer) && row.status == Assigned && row.id in s.jobs
    && WorksOnRelease(s.sched.ctl, peer, row)
    && if s.sched.ctl.ResetRow? && s.sched.ctl.job == row.id then IsFailed(s, peer, row, time)
       else if IsToRelease(s.sched.ctl, row) then s.jobs[row.id] == row
       else IsReleased(s, peer, row, time)
  }

  predicate WorksOnRelease(ctl: Ctl, peer: PeerId, row: JobRow) {
    match ctl
    case FailRow(p, rows) => p == peer && NewestFirst(rows) && OnlyAs(rows, row)
    case ResetRow(p, rows, job) => p == peer && NewestFirst(rows) && OnlyAs(rows, row) && !InList(rows, job)
    case Idle => true
    case _ => false
  }

  predicate IsToRelease(ctl: Ctl, row: JobRow) {
    (ctl.FailRow? || ctl.ResetRow?) && InList(ctl.rows, row.id)
  }

  predicate IsFailed(s: State, peer: PeerId, row: JobRow, time: int) {
    && row.id in s.jobs && s.jobs[row.id] == ResetRowOf(row, time).(status := Failed)
    && row.id in s.sched.pending && s.sched.pending[row.id] == [peer]
  }

  /** The row is pending again, and the peer counts as tried. */
  predicate IsReleased(s: State, peer: PeerId, row: JobRow, time: int) {
    && row.id in s.jobs && s.jobs[row.id] == ResetRowOf(row, time)
    && row.id in s.sched.pending && s.sched.pending[row.id] == [peer]
  }

  lemma RestOfList(rows: seq<JobRow>, id: Uuid)
    requires rows != [] && NewestFirst(rows)
    ensures NewestFirst(rows[1..]) && !InList(rows[1..], rows[0].id)
    ensures InList(rows, id) <==> rows[0].id == id || InList(rows[1..], id)
  {
    assert forall i :: 0 <= i < |rows[1..]| ==> rows[1..][i] == rows[i + 1];
    if i :| 0 <= i < |rows| && rows[i].id == id {
      assert i > 0 ==> rows[1..][i - 1].id == id;
    }
    if i :| 0 <= i < |rows[1..]| && rows[1..][i].id == id {
      assert rows[i + 1].id == id;
    }
  }

  lemma ReleasingFails(s: State, a: Action, peer: PeerId, row: JobRow, time: int)
    requires Inv(s) && Enabled(s, a) && IsCalm(a, time) && Releasing(s, peer, row, time) && a.FailNext?
    ensures Releasing(Step(s, a), peer, row, time)
  {
    var rows := s.sched.ctl.rows;
    RestOfList(rows, row.id);
    ChangedInColumns(row, OfflineChange(), time);
  }

  lemma ReleasingResets(s: State, a: Action, peer: PeerId, row: JobRow, time: int)
    requires Enabled(s, a) && IsCalm(a, time) && Releasing(s, peer, row, time) && a.ResetNext?
    ensures Releasing(Step(s, a), peer, row, time)
  {
    ChangedInColumns(ResetRowOf(row, time).(status := Failed), ResetChange(), time);
  }

  lemma ReleasingGoesOn(s: State, a: Action, peer: PeerId, row: JobRow, time: int)
    requires Inv(s) && Enabled(s, a) && IsCalm(a, time) && Releasing(s, peer, row, time)
    ensures Releasing(Step(s, a), peer, row, time)
  {
    if a.FailNext? {
      ReleasingFails(s, a, peer, row, time);
    } else {
      ReleasingResets(s, a, peer, row, time);
    }
  }

  lemma ReleasingAfter(actions: seq<Action>, m: nat, peer: PeerId, row: JobRow, time: int)
    requires Feasible(actions) && m < |actions| && IsCalm(actions[m], time) && Releasing(At(actions, m), peer,
                                                                                         row, time)
    ensures Releasing(At(actions, m + 1), peer, row, time)
  {
    var s := At(actions, m);
    StepAt(actions, m);
    Reachable(actions[..m]);
    ReleasingGoesOn(s, actions[m], peer, row, time);
  }

  lemma {:induction false} ReleasingUntil(actions: seq<Action>, n: nat, m: nat, peer: PeerId, row: JobRow, time: int)
    requires Feasible(actions) && n <= m <= |actions| && CalmFrom(actions, n, time)
    requires Releasing(At(actions, n), peer, row, time)
    ensures Releasing(At(actions, m), peer, row, time)
  {
    if n < m {
      ReleasingUntil(actions, n, m - 1, peer, row, time);
      assert IsCalm(actions[m - 1], time);
      ReleasingAfter(actions, m - 1, peer, row, time);
    }
  }

  ghost function OfNobody(jobs: Jobs): set<Uuid> {
    set id | id in jobs && jobs[id].hirer == NIL_UUID
  }

  /** No more than a page of jobs belong to nobody. */
  ghost predicate FewOfNobody(jobs: Jobs) {
    |OfNobody(jobs)| <= 1000
  }

  lemma {:induction false} ListingIsShort(rows: seq<JobRow>, ids: set<Uuid>)
    requires NewestFirst(rows) && forall i :: 0 <= i < |rows| ==> rows[i].id in ids
    ensures |rows| <= |ids|
  {
    if rows != [] {
      var init, last := rows[..|rows| - 1], rows[|rows| - 1];
      forall i | 0 <= i < |init|
        ensures init[i].id in ids - {last.id}
      {
        assert init[i] == rows[i] && rows[i].id != rows[|rows| - 1].id;
      }
      ListingIsShort(init, ids - {last.id});
    }
  }

  /** A short listing fits on the page. */
  lemma PageIsListing(page: seq<JobRow>, jobs: Jobs)
    requires IsPage(page, jobs, NIL_UUID, 1000, 0) && FewOfNobody(jobs)
    ensures IsListing(page, jobs, NIL_UUID)
  {
    var rows :| IsListing(rows, jobs, NIL_UUID) && page == Page(rows, 1000, 0);
    ListingIsShort(rows, OfNobody(jobs));
    PageInNumbers(rows, 1000, 0);
    assert page == rows;
  }

  /** Listing the rows of nobody starts the release of each job of nobody that the peer held. */
  lemma ListingStartsRelease(s: State, a: Action, peer: PeerId, row: JobRow, time: int)
    requires Inv(s) && Enabled(s, a) && IsCalm(a, time) && s.sched.ctl == ListRows(peer) && FewOfNobody(s.jobs)
    requires row.id in s.jobs && s.jobs[row.id] == row && row.hirer == NIL_UUID
    requires row.worker == Some(peer) && row.status == Assigned
    ensures Releasing(Step(s, a), peer, row, time)
  {
    PageIsListing(a.rows, s.jobs);
    assert s.jobs[row.id] in a.rows;
    var i :| 0 <= i < |a.rows| && a.rows[i] == row;
    assert InList(a.rows, row.id);
  }

  /** When a worker goes offline and all stays calm, every job of nobody that it held is pending again
      and back in the cache. */
  lemma CalmOfflineReleases(actions: seq<Action>, n: nat, peer: PeerId, row: JobRow, time: int)
    requires Feasible(actions) && n < |actions| && CalmFrom(actions, n, time) && Run(actions).sched.ctl == Idle
    requires At(actions, n).sched.ctl == ListRows(peer) && FewOfNobody(At(actions, n).jobs)
    requires row.id in At(actions, n).jobs && At(actions, n).jobs[row.id] == row && row.hirer == NIL_UUID
    requires row.worker == Some(peer) && row.status == Assigned
    ensures IsReleased(Run(actions), peer, row, time)
  {
    StepAt(actions, n);
    Reachable(actions[..n]);
    ListingStartsRelease(At(actions, n), actions[n], peer, row, time);
    ReleasingUntil(actions, n + 1, |actions|, peer, row, time);
    AtEnd(actions);
  }

  /** A row that the peer does not hold is left alone when the peer goes offline. */
  ghost predicate Spared(s: State, peer: PeerId, row: JobRow) {
    && row.id in s.jobs && s.jobs[row.id] == row && (row.worker != Some(peer) || row.hirer != NIL_UUID)
    && ReleasesOthers(s.sched.ctl, peer, row)
  }

  predicate ReleasesOthers(ctl: Ctl, peer: PeerId, row: JobRow) {
    match ctl
    case Idle => true
    case ListRows(p) => p == peer
    case FailRow(p, rows) => p == peer && OnlyAs(rows, row)
    case ResetRow(p, rows, job) => p == peer && job != row.id && OnlyAs(rows, row)
    case _ => false
  }

  predicate OnlyAs(rows: seq<JobRow>, row: JobRow) {
    forall i :: 0 <= i < |rows| && rows[i].id == row.id ==> rows[i] == row
  }

  lemma SparedGoesOn(s: State, a: Action, peer: PeerId, row: JobRow, time: int)
    requires Inv(s) && Enabled(s, a) && IsCalm(a, time) && Spared(s, peer, row)
    ensures Spared(Step(s, a), peer, row)
  {
    if a.ListOffline? {
      forall i | 0 <= i < |a.rows| && a.rows[i].id == row.id
        ensures a.rows[i] == row
      {
        PageRows(a.rows, s.jobs, NIL_UUID, 1000, 0, i);
      }
    } else if a.FailNext? {
      assert Listed(s, s.sched.ctl.rows[0]);
    }
  }

  lemma SparedAfter(actions: seq<Action>, m: nat, peer: PeerId, row: JobRow, time: int)
    requires Feasible(actions) && m < |actions| && IsCalm(actions[m], time) && Spared(At(actions, m), peer, row)
    ensures Spared(At(actions, m + 1), peer, row)
  {
    var s := At(actions, m);
    StepAt(actions, m);
    Reachable(actions[..m]);
    SparedGoesOn(s, actions[m], peer, row, time);
  }

  lemma {:induction false} CalmOfflineSpares(actions: seq<Action>, n: nat, m: nat, peer: PeerId, row: JobRow, time: int)
    requires Feasible(actions) && n <= m <= |actions| && CalmFrom(actions, n, time) && Spared(At(actions, n), peer, row)
    ensures Spared(At(actions, m), peer, row)
  {
    if n < m {
      CalmOfflineSpares(actions, n, m - 1, peer, row, time);
      assert IsCalm(actions[m - 1], time);
      SparedAfter(actions, m - 1, peer, row, time);
    }
  }

  // ── What a whole loop comes to ─────────────────────────────────────────────────────────

  /** Every cached job that is pending, old enough if this is a retry, and has an untried idle worker
      that suits it is dispatched to such a worker. */
  ghost predicate ServesAll(jobs: Jobs, pending: map<Uuid, seq<PeerId>>, s: State, origin: Origin, time: int) {
    forall job, p ::
      && job in pending && job in jobs && jobs[job].status == Pending && Tryable(origin, jobs[job], time)
      && p in s.sched.online && p !in pending[job] && Suits(s.sched.online[p], Wishes(jobs[job])) ==>
        exists q :: IsDispatchedTo(s, Pair(job, jobs[job], pending[job], s.sched.online[p]), q, time)
  }

  /** Jobs that are not pending are dropped from the cache, and their rows stay. */
  ghost predicate DropsAll(jobs: Jobs, pending: map<Uuid, seq<PeerId>>, s: State) {
    forall job :: job in pending && job in jobs && jobs[job].status != Pending ==>
      job !in s.sched.pending && job in s.jobs && s.jobs[job] == jobs[job]
  }

  /** On a retry, pending jobs of 30 seconds or less stay as they are. */
  ghost predicate SparesYoung(jobs: Jobs, pending: map<Uuid, seq<PeerId>>, s: State, time: int) {
    forall job ::
      job in pending && job in jobs && jobs[job].status == Pending && (time - jobs[job].createdAt) / 1000 <= 30 ==>
      && job in s.jobs && s.jobs[job] == jobs[job]
      && job in s.sched.pending && s.sched.pending[job] == pending[job]
  }

  lemma {:induction false} OnlineUntil(actions: seq<Action>, n: nat, m: nat, time: int)
    requires Feasible(actions) && n <= m <= |actions| && CalmFrom(actions, n, time)
    ensures At(actions, m).sched.online == At(actions, n).sched.online
  {
    if n < m {
      OnlineUntil(actions, n, m - 1, time);
      StepAt(actions, m - 1);
      OnlineStays(At(actions, m - 1), actions[m - 1]);
    }
  }

  /** A calm loop over the whole cache serves the jobs that it should. */
  lemma CalmLoopServes(actions: seq<Action>, n: nat, origin: Origin, order: seq<Uuid>, time: int)
    requires Feasible(actions) && n <= |actions| && CalmFrom(actions, n, time) && Run(actions).sched.ctl == Idle
    requires At(actions, n).sched.ctl == LoopOn(origin, order) && IsKeyOrder(order, At(actions, n).sched.pending)
    ensures ServesAll(At(actions, n).jobs, At(actions, n).sched.pending, Run(actions), origin, time)
  {
    var s := At(actions, n);
    OnlineUntil(actions, n, |actions|, time);
    AtEnd(actions);
    Reachable(actions[..n]);
    forall job, p |
        && job in s.sched.pending && job in s.jobs && s.jobs[job].status == Pending && Tryable(origin,
                                                                                               s.jobs[job], time)
        && p in s.sched.online && p !in s.sched.pending[job] && Suits(s.sched.online[p], Wishes(s.jobs[job]))
      ensures exists q :: IsDispatchedTo(Run(actions),
                                         Pair(job, s.jobs[job], s.sched.pending[job], s.sched.online[p]), q, time)
    {
      var k := Pair(job, s.jobs[job], s.sched.pending[job], s.sched.online[p]);
      assert job in order && s.jobs[job].id == job && s.sched.online[p].peer == p;
      assert Waiting(s, k, time);
      CalmLoopDispatches(actions, n, k, time);
    }
  }

  lemma DroppingBegins(s: State, origin: Origin, order: seq<Uuid>, job: Uuid)
    requires Inv(s) && s.sched.ctl == LoopOn(origin, order) && IsKeyOrder(order, s.sched.pending)
    requires job in s.sched.pending && job in s.jobs && s.jobs[job].status != Pending
    ensures Dropping(s, job, s.jobs[job])
  {
    assert job in order && s.jobs[job].id == job;
  }

  lemma DroppingEnds(s: State, job: Uuid, row: JobRow)
    requires Dropping(s, job, row) && s.sched.ctl == Idle
    ensures job !in s.sched.pending && job in s.jobs && s.jobs[job] == row
  {
  }

  lemma CalmLoopDropsAll(actions: seq<Action>, n: nat, origin: Origin, order: seq<Uuid>, time: int)
    requires Feasible(actions) && n <= |actions| && CalmFrom(actions, n, time) && Run(actions).sched.ctl == Idle
    requires At(actions, n).sched.ctl == LoopOn(origin, order) && IsKeyOrder(order, At(actions, n).sched.pending)
    ensures DropsAll(At(actions, n).jobs, At(actions, n).sched.pending, Run(actions))
  {
    var s := At(actions, n);
    AtEnd(actions);
    Reachable(actions[..n]);
    forall job | job in s.sched.pending && job in s.jobs && s.jobs[job].status != Pending
      ensures job !in Run(actions).sched.pending && job in Run(actions).jobs && Run(actions).jobs[job] == s.jobs[job]
    {
      DroppingBegins(s, origin, order, job);
      CalmLoopDrops(actions, n, |actions|, job, s.jobs[job], time);
      DroppingEnds(Run(actions), job, s.jobs[job]);
    }
  }

  lemma CalmRetrySparesAll(actions: seq<Action>, n: nat, order: seq<Uuid>, time: int)
    requires Feasible(actions) && n <= |actions| && CalmFrom(actions, n, time)
    requires At(actions, n).sched.ctl == LoopOn(FromRetry, order)
    ensures SparesYoung(At(actions, n).jobs, At(actions, n).sched.pending, Run(actions), time)
  {
    var s := At(actions, n);
    AtEnd(actions);
    Reachable(actions[..n]);
    forall job | job in s.sched.pending && job in s.jobs && s.jobs[job].status == Pending
                 && (time - s.jobs[job].createdAt) / 1000 <= 30
      ensures job in Run(actions).jobs && Run(actions).jobs[job] == s.jobs[job]
      ensures job in Run(actions).sched.pending && Run(actions).sched.pending[job] == s.sched.pending[job]
    {
      assert s.jobs[job].id == job;
      assert TooYoung(s, job, s.jobs[job], s.sched.pending[job], time);
      CalmRetrySparesYoung(actions, n, |actions|, job, s.jobs[job], s.sched.pending[job], time);
    }
  }

  /** Every job of the cache is looked at. */
  ghost predicate LooksAtAll(actions: seq<Action>, n: nat, pending: map<Uuid, seq<PeerId>>) {
    forall job :: job in pending ==> LooksAt(actions, n, job)
  }

  lemma LoopLooksAtAll(actions: seq<Action>, n: nat, origin: Origin, order: seq<Uuid>)
    requires Feasible(actions) && n <= |actions| && Run(actions).sched.ctl == Idle
    requires At(actions, n).sched.ctl == LoopOn(origin, order) && IsKeyOrder(order, At(actions, n).sched.pending)
    ensures LooksAtAll(actions, n, At(actions, n).sched.pending)
  {
    forall job | job in At(actions, n).sched.pending
      ensures LooksAt(actions, n, job)
    {
      assert job in order;
      LoopLooksAt(actions, n, job);
    }
  }

  /** The rows of nobody that the peer held are released. */
  ghost predicate ReleasesAll(jobs: Jobs, s: State, peer: PeerId, time: int) {
    FewOfNobody(jobs) ==>
      forall id ::
        id in jobs && jobs[id].hirer == NIL_UUID && jobs[id].worker == Some(peer) && jobs[id].status == Assigned ==>
          IsReleased(s, peer, jobs[id], time)
  }

  /** All rows of users, and those that other peers hold, are left alone. */
  ghost predicate SparesOthers(jobs: Jobs, s: State, peer: PeerId) {
    forall id :: id in jobs && (jobs[id].hirer != NIL_UUID || jobs[id].worker != Some(peer)) ==>
      id in s.jobs && s.jobs[id] == jobs[id]
  }

  lemma CalmOfflineServes(actions: seq<Action>, n: nat, peer: PeerId, time: int)
    requires Feasible(actions) && n < |actions| && CalmFrom(actions, n, time) && Run(actions).sched.ctl == Idle
    requires At(actions, n).sched.ctl == ListRows(peer)
    ensures ReleasesAll(At(actions, n).jobs, Run(actions), peer, time)
    ensures SparesOthers(At(actions, n).jobs, Run(actions), peer)
  {
    var s := At(actions, n);
    AtEnd(actions);
    Reachable(actions[..n]);
    if FewOfNobody(s.jobs) {
      forall id | id in s.jobs && s.jobs[id].hirer == NIL_UUID
                  && s.jobs[id].worker == Some(peer) && s.jobs[id].status == Assigned
        ensures IsReleased(Run(actions), peer, s.jobs[id], time)
      {
        assert s.jobs[id].id == id;
        CalmOfflineReleases(actions, n, peer, s.jobs[id], time);
      }
    }
    forall id | id in s.jobs && (s.jobs[id].hirer != NIL_UUID || s.jobs[id].worker != Some(peer))
      ensures id in Run(actions).jobs && Run(actions).jobs[id] == s.jobs[id]
    {
      assert s.jobs[id].id == id;
      assert Spared(s, peer, s.jobs[id]);
      CalmOfflineSpares(actions, n, |actions|, peer, s.jobs[id], time);
    }
  }

  lemma TriedPairMeets(actions: seq<Action>, n: nat, job: Uuid, p: PeerId, time: int)
    requires Feasible(actions) && n <= |actions| && CalmFrom(actions, n, time) && Run(actions).sched.ctl == Idle
    requires At(actions, n).sched.ctl.Pick? && At(actions, n).sched.ctl.job == job
    requires job in At(actions, n).sched.pending && job in At(actions, n).jobs
    requires At(actions, n).jobs[job].status == Pending && p in At(actions, n).sched.online
    requires p !in At(actions, n).sched.pending[job]
    requires Suits(At(actions, n).sched.online[p], Wishes(At(actions, n).jobs[job]))
    ensures var s := At(actions, n);
            var k := Pair(job, s.jobs[job], s.sched.pending[job], s.sched.online[p]);
            exists q :: IsDispatchedTo(Run(actions), k, q, time)
  {
    var s := At(actions, n);
    var k := Pair(job, s.jobs[job], s.sched.pending[job], s.sched.online[p]);
    Reachable(actions[..n]);
    RequestInNumbers(s.jobs[job]);
    assert s.jobs[job].id == job && s.sched.online[p].peer == p;
    assert Waiting(s, k, time);
    CalmLoopDispatches(actions, n, k, time);
  }

  /** A calm attempt at one job dispatches it if an idle worker suits it. */
  lemma CalmTryServes(actions: seq<Action>, n: nat, job: Uuid, time: int)
    requires Feasible(actions) && n <= |actions| && CalmFrom(actions, n, time) && Run(actions).sched.ctl == Idle
    requires At(actions, n).sched.ctl.Pick? && At(actions, n).sched.ctl.job == job && job in At(actions,
                                                                                                n).sched.pending
    ensures ServesAll(At(actions, n).jobs, map[job := At(actions, n).sched.pending[job]], Run(actions),
                      FromEnqueue, time)
  {
    var s := At(actions, n);
    OnlineUntil(actions, n, |actions|, time);
    AtEnd(actions);
    Reachable(actions[..n]);
    forall p | job in s.jobs && s.jobs[job].status == Pending
               && p in s.sched.online && p !in s.sched.pending[job] && Suits(s.sched.online[p], Wishes(s.jobs[job]))
      ensures exists q :: IsDispatchedTo(Run(actions),
                                         Pair(job, s.jobs[job], s.sched.pending[job], s.sched.online[p]), q, time)
    {
      TriedPairMeets(actions, n, job, p, time);
    }
  }
}
