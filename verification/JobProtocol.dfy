// The life of a job across the scheduler, the API, the P2P task and the workers. Every SQL
// statement, message and local update between two awaits is one atomic step, and the steps of
// all actors interleave freely.
module JobProtocol {
  import opened Types
  import opened JobStore
  import opened Matcher

  /** Capacity of a worker's executor queue. */
  const QUEUE_LIMIT := 32

  const U64_RANGE := 0x1_0000_0000_0000_0000

  /** What becomes of an SQL statement: it runs, it is not executed, or it runs and the answer is
      lost. The caller sees an error in the last two cases. */
  datatype Fate = Ran | Refused | AnswerLost

  datatype Origin = FromEnqueue | FromOnline | FromRetry

  /** A worker picked for a job, with the candidates in the order in which they were compared. */
  datatype Choice = Choice(job: Uuid, request: MatchRequest, order: seq<WorkerCandidate>, peer: PeerId)

  /** Where the scheduler stands between two awaits. */
  datatype Ctl =
    | Idle
    | Loop(origin: Origin, todo: seq<Uuid>)                   // about to read the row of todo[0]
    | Got(origin: Origin, todo: seq<Uuid>, row: JobRow)       // the row came back
    | Pick(origin: Origin, todo: seq<Uuid>, job: Uuid, request: MatchRequest)
    | Chosen(origin: Origin, todo: seq<Uuid>, choice: Choice) // about to set pending -> assigned
    | Build(origin: Origin, todo: seq<Uuid>, choice: Choice)  // about to read the row again
    | Send(origin: Origin, todo: seq<Uuid>, choice: Choice)
    | ListRows(peer: PeerId)                                  // the peer went offline
    | FailRow(peer: PeerId, rows: seq<JobRow>)
    | ResetRow(peer: PeerId, rows: seq<JobRow>, job: Uuid)    // about to set failed -> pending

  datatype Enqueue = Enqueue(job: Uuid, request: MatchRequest)

  datatype Report = Report(peer: PeerId, job: Uuid, success: bool)

  /** The scheduler's two maps and where it stands. */
  datatype Sched = Sched(online: map<PeerId, WorkerCandidate>, pending: map<Uuid, seq<PeerId>>, ctl: Ctl)

  /** Jobs created but not enqueued, the scheduler's command channel, cancellations under way. */
  datatype Api = Api(creating: set<Uuid>, commands: seq<Enqueue>, cancels: multiset<(Uuid, JobStatus)>)

  /** Assign messages under way, the workers' queues and executors, results under way. */
  datatype Net = Net(assigns: multiset<(PeerId, Uuid)>, queues: map<PeerId, seq<Uuid>>,
                     running: map<PeerId, Uuid>, results: multiset<Report>)

  /** What has happened: jobs the scheduler took from its channel, jobs it gave up after a failed
      read, won compare-and-sets to `assigned`, resets to `pending`, Assigns sent, results reported. */
  datatype History = History(enqueued: set<Uuid>, dropped: set<Uuid>, wins: multiset<Uuid>, resets: multiset<Uuid>,
                             sends: multiset<Uuid>, sentTo: set<(PeerId, Uuid)>, reports: set<Report>)

  datatype State = State(jobs: Jobs, sched: Sched, api: Api, net: Net, history: History)

  function Init(): State {
    State(map[], Sched(map[], map[], Idle), Api({}, [], multiset{}), Net(multiset{}, map[], map[], multiset{}),
          History({}, {}, multiset{}, multiset{}, multiset{}, {}, {}))
  }

  datatype Action =
    // the scheduler
    | Dequeue
    | FindEmpty                // looks for a command, and there is none
    | WorkerOnline(peer: PeerId, gpus: seq<Gpu>, order: seq<Uuid>)
    | WorkerOffline(peer: PeerId)
    | Heartbeat(peer: PeerId, uptime: real, busy: bool, completed: nat, order: seq<Uuid>)
    | Tick(order: seq<Uuid>)
    | ReadRow(fate: Fate)      // find_by_id of the next job
    | React(now: int)          // to the row that came back
    | PickWorker(candidates: seq<WorkerCandidate>)
    | Assign(fate: Fate, now: int)
    | BuildAssignment(fate: Fate)
    | SendAssign(open: bool)
    | ListOffline(fate: Fate, rows: seq<JobRow>)
    | FailNext(fate: Fate, now: int)
    | ResetNext(fate: Fate, now: int)
    // everybody else
    | CreateJob(id: Uuid, hirer: Uuid, backend: GpuBackend, memoryMb: Option<I64>, maxDurationSecs: Option<I64>,
                now: int)
    | EnqueueJob(id: Uuid)
    | RequestCancel(user: Uuid, id: Uuid)
    | ApplyCancel(id: Uuid, from: JobStatus, fate: Fate, now: int)
    | Arrive(peer: PeerId, job: Uuid)
    | LoseAssign(peer: PeerId, job: Uuid)
    | StartJob(peer: PeerId)
    | FinishJob(peer: PeerId, success: bool)
    | ApplyResult(report: Report, message: string, fate: Fate, now: int)
    | LoseResult(report: Report)

  // ── Pieces of the scheduler ────────────────────────────────────────────────────────────

  /** A Rust cast from a signed to an unsigned 64-bit integer. */
  function AsU64(x: I64): nat {
    if x >= 0 then x else x + U64_RANGE
  }

  function RequestOf(row: JobRow): MatchRequest {
    MatchRequest(row.backend, if row.memoryMb.Some? then AsU64(row.memoryMb.value) else 512)
  }

  /** The job's backend, and its memory limit read as unsigned 64-bit, 512 if it has none. */
  lemma RequestInNumbers(row: JobRow)
    ensures RequestOf(row).backend == row.backend
    ensures RequestOf(row).memoryMb
         == match row.memoryMb case None => 512 case Some(m) => if m >= 0 then m else m + 18_446_744_073_709_551_616
  {
  }

  function TriedFor(pending: map<Uuid, seq<PeerId>>, job: Uuid): seq<PeerId> {
    if job in pending then pending[job] else []
  }

  /** More than 30 whole seconds old. */
  predicate Stale(row: JobRow, now: int) {
    (now - row.createdAt) / 1000 > 30
  }

  predicate Distinct<T(==)>(s: seq<T>) {
    forall i, j :: 0 <= i < j < |s| ==> s[i] != s[j]
  }

  /** The keys of `pending`, in whatever order the hash map yields them. */
  ghost predicate IsKeyOrder(order: seq<Uuid>, pending: map<Uuid, seq<PeerId>>) {
    Distinct(order) && forall job :: job in order <==> job in pending
  }

  /** The online workers not yet tried, in whatever order the hash map yields them. */
  ghost predicate IsCandidateOrder(order: seq<WorkerCandidate>, online: map<PeerId, WorkerCandidate>,
                                   tried: seq<PeerId>) {
    && Distinct(order)
    && forall c :: c in order <==> c.peer in online && online[c.peer] == c && c.peer !in tried
  }

  function LoopOn(origin: Origin, todo: seq<Uuid>): Ctl {
    if todo == [] then Idle else Loop(origin, todo)
  }

  function RowsOn(peer: PeerId, rows: seq<JobRow>): Ctl {
    if rows == [] then Idle else FailRow(peer, rows)
  }

  function AssignChange(peer: PeerId): Change {
    Change(Assigned, Some(peer), None, None)
  }

  function OfflineChange(): Change {
    Change(Failed, None, Some("worker went offline"), None)
  }

  function ResetChange(): Change {
    Change(Pending, None, None, None)
  }

  function CancelChange(): Change {
    Change(Cancelled, None, None, None)
  }

  function ResultChange(success: bool, message: string): Change {
    if success then Change(Completed, None, None, None) else Change(Failed, None, Some(message), None)
  }

  /** A compare-and-set under the given fate. */
  function Attempt(jobs: Jobs, id: Uuid, from: JobStatus, c: Change, fate: Fate, now: int): Jobs {
    if fate == Refused then jobs else Transition(jobs, id, from, c, now)
  }

  /** Whether that compare-and-set changes the row. */
  predicate Wins(jobs: Jobs, id: Uuid, from: JobStatus, fate: Fate) {
    fate != Refused && Matches(jobs, id, from)
  }

  function Times(won: bool, id: Uuid): multiset<Uuid> {
    if won then multiset{id} else multiset{}
  }

  /** The row snapshot asks for failing and resetting the job of the peer that left. */
  predicate HeldBy(row: JobRow, peer: PeerId) {
    row.worker == Some(peer) && row.status in {Assigned, Running}
  }

  // ── Steps ──────────────────────────────────────────────────────────────────────────────

  /** When the scheduler can take this step. */
  ghost predicate SchedulerEnabled(s: State, a: Action) {
    var ctl := s.sched.ctl;
    match a
    case Dequeue => ctl.Idle? && s.api.commands != []
    case FindEmpty => ctl.Idle? && s.api.commands == []
    case WorkerOnline(_, _, order) => ctl.Idle? && IsKeyOrder(order, s.sched.pending)
    case WorkerOffline(_) => ctl.Idle?
    case Heartbeat(_, _, _, _, order) => ctl.Idle? && IsKeyOrder(order, s.sched.pending)
    case Tick(order) => ctl.Idle? && IsKeyOrder(order, s.sched.pending)
    case ReadRow(_) => ctl.Loop? && ctl.todo != []
    case React(_) => ctl.Got?
    case PickWorker(candidates) =>
      ctl.Pick? && IsCandidateOrder(candidates, s.sched.online, TriedFor(s.sched.pending, ctl.job))
    case Assign(_, _) => ctl.Chosen?
    case BuildAssignment(_) => ctl.Build?
    case SendAssign(_) => ctl.Send?
    case ListOffline(fate, rows) => ctl.ListRows? && (fate == Ran ==> IsPage(rows, s.jobs, NIL_UUID, 1000, 0))
    case FailNext(_, _) => ctl.FailRow? && ctl.rows != []
    case ResetNext(_, _) => ctl.ResetRow?
    case _ => false
  }

  /** When the API, the P2P task or a worker can. */
  predicate OtherEnabled(s: State, a: Action) {
    match a
    case CreateJob(id, _, _, _, _, _) => id !in s.jobs
    case EnqueueJob(id) => id in s.api.creating && id in s.jobs
    case RequestCancel(user, id) => id in s.jobs && s.jobs[id].hirer == user && s.jobs[id].status in {Pending, Assigned}
    case ApplyCancel(id, from, _, _) => (id, from) in s.api.cancels
    case Arrive(peer, job) => (peer, job) in s.net.assigns
    case LoseAssign(peer, job) => (peer, job) in s.net.assigns
    case StartJob(peer) => peer in s.net.queues && s.net.queues[peer] != [] && peer !in s.net.running
    case FinishJob(peer, _) => peer in s.net.running
    case ApplyResult(report, _, _, _) => report in s.net.results
    case LoseResult(report) => report in s.net.results
    case _ => false
  }

  ghost predicate Enabled(s: State, a: Action) {
    SchedulerEnabled(s, a) || OtherEnabled(s, a)
  }

  /** What an action does to the jobs table: an insert, or one compare-and-set. */
  function JobsStep(s: State, a: Action): Jobs
    requires Enabled(s, a)
  {
    match a
    case CreateJob(id, hirer, backend, memoryMb, maxDurationSecs, now) =>
      s.jobs[id := NewRow(id, hirer, backend, memoryMb, maxDurationSecs, now)]
    case Assign(fate, now) =>
      Attempt(s.jobs, s.sched.ctl.choice.job, Pending, AssignChange(s.sched.ctl.choice.peer), fate, now)
    case FailNext(fate, now) =>
      var row := s.sched.ctl.rows[0];
      if HeldBy(row, s.sched.ctl.peer) then Attempt(s.jobs, row.id, row.status, OfflineChange(), fate, now) else s.jobs
    case ResetNext(fate, now) => Attempt(s.jobs, s.sched.ctl.job, Failed, ResetChange(), fate, now)
    case ApplyCancel(id, from, fate, now) => Attempt(s.jobs, id, from, CancelChange(), fate, now)
    case ApplyResult(report, message, fate, now) =>
      Attempt(s.jobs, report.job, Assigned, ResultChange(report.success, message), fate, now)
    case _ => s.jobs
  }

  /** What it does to the scheduler's memory. */
  function SchedStep(s: State, a: Action): Sched
    requires Enabled(s, a)
  {
    var m, ctl := s.sched, s.sched.ctl;
    match a
    case Dequeue =>
      var e := s.api.commands[0];
      m.(pending := m.pending[e.job := []], ctl := Pick(FromEnqueue, [], e.job, e.request))
    case WorkerOnline(peer, gpus, order) =>
      m.(online := m.online[peer := WorkerCandidate(peer, gpus, 100.0, 0, false)], ctl := LoopOn(FromOnline, order))
    case WorkerOffline(peer) => m.(online := m.online - {peer}, ctl := ListRows(peer))
    case Heartbeat(peer, uptime, busy, completed, order) =>
      if peer in m.online then
        m.(online := m.online[peer := m.online[peer].(uptime := uptime, busy := busy, jobs := completed)])
      else
        m.(online := m.online[peer := WorkerCandidate(peer, [], uptime, completed, busy)],
           ctl := if busy then Idle else LoopOn(FromOnline, order))
    case Tick(order) => m.(ctl := LoopOn(FromRetry, order))
    case ReadRow(fate) =>
      var job, rest := ctl.todo[0], ctl.todo[1..];
      if fate == Ran && job in s.jobs then m.(ctl := Got(ctl.origin, rest, s.jobs[job]))
      else
        m.(pending := if ctl.origin == FromRetry then m.pending - {job} else m.pending, ctl := LoopOn(ctl.origin, rest))
    case React(now) =>
      if ctl.row.status != Pending then m.(pending := m.pending - {ctl.row.id}, ctl := LoopOn(ctl.origin, ctl.todo))
      else if ctl.origin == FromRetry && !Stale(ctl.row, now) then m.(ctl := LoopOn(ctl.origin, ctl.todo))
      else m.(ctl := Pick(ctl.origin, ctl.todo, ctl.row.id, RequestOf(ctl.row)))
    case PickWorker(candidates) =>
      var best := Selected(candidates, ctl.request);
      if best == [] || best[0] >= |candidates| then m.(ctl := LoopOn(ctl.origin, ctl.todo))
      else
        m.(ctl := Chosen(ctl.origin, ctl.todo, Choice(ctl.job, ctl.request, candidates, candidates[best[0]].peer)))
    case Assign(fate, _) =>
      m.(ctl := if fate == Ran && Matches(s.jobs, ctl.choice.job, Pending) then Build(ctl.origin, ctl.todo, ctl.choice)
                else LoopOn(ctl.origin, ctl.todo))
    case BuildAssignment(fate) =>
      m.(ctl := if fate == Ran && ctl.choice.job in s.jobs then Send(ctl.origin, ctl.todo, ctl.choice)
                else LoopOn(ctl.origin, ctl.todo))
    case SendAssign(_) =>
      m.(pending := m.pending[ctl.choice.job := TriedFor(m.pending, ctl.choice.job) + [ctl.choice.peer]],
         ctl := LoopOn(ctl.origin, ctl.todo))
    case ListOffline(fate, rows) => m.(ctl := if fate == Ran then RowsOn(ctl.peer, rows) else Idle)
    case FailNext(_, _) =>
      var row, rest := ctl.rows[0], ctl.rows[1..];
      if HeldBy(row, ctl.peer) then
        m.(pending := m.pending[row.id := [ctl.peer]], ctl := ResetRow(ctl.peer, rest, row.id))
      else m.(ctl := RowsOn(ctl.peer, rest))
    case ResetNext(_, _) => m.(ctl := RowsOn(ctl.peer, ctl.rows))
    case _ => m
  }

  function ApiStep(s: State, a: Action): Api
    requires Enabled(s, a)
  {
    match a
    case Dequeue => s.api.(commands := s.api.commands[1..])
    case CreateJob(id, _, _, _, _, _) => s.api.(creating := s.api.creating + {id})
    case EnqueueJob(id) =>
      s.api.(creating := s.api.creating - {id}, commands := s.api.commands + [Enqueue(id, RequestOf(s.jobs[id]))])
    case RequestCancel(user, id) => s.api.(cancels := s.api.cancels + multiset{(id, s.jobs[id].status)})
    case ApplyCancel(id, from, _, _) => s.api.(cancels := s.api.cancels - multiset{(id, from)})
    case _ => s.api
  }

  function NetStep(s: State, a: Action): Net
    requires Enabled(s, a)
  {
    var n := s.net;
    match a
    case SendAssign(open) =>
      if open then n.(assigns := n.assigns + multiset{(s.sched.ctl.choice.peer, s.sched.ctl.choice.job)}) else n
    case Arrive(peer, job) =>
      var queue := if peer in n.queues then n.queues[peer] else [];
      n.(assigns := n.assigns - multiset{(peer, job)},
         queues := if |queue| < QUEUE_LIMIT then n.queues[peer := queue + [job]] else n.queues)
    case LoseAssign(peer, job) => n.(assigns := n.assigns - multiset{(peer, job)})
    case StartJob(peer) =>
      n.(queues := n.queues[peer := n.queues[peer][1..]], running := n.running[peer := n.queues[peer][0]])
    case FinishJob(peer, success) =>
      n.(running := n.running - {peer}, results := n.results + multiset{Report(peer, n.running[peer], success)})
    case ApplyResult(report, _, _, _) => n.(results := n.results - multiset{report})
    case LoseResult(report) => n.(results := n.results - multiset{report})
    case _ => n
  }

  function HistoryStep(s: State, a: Action): History
    requires Enabled(s, a)
  {
    var h, ctl := s.history, s.sched.ctl;
    match a
    case Dequeue => h.(enqueued := h.enqueued + {s.api.commands[0].job}, dropped := h.dropped - {s.api.commands[0].job})
    case ReadRow(fate) =>
      if !(fate == Ran && ctl.todo[0] in s.jobs) && ctl.origin == FromRetry && ctl.todo[0] in s.sched.pending then
        h.(dropped := h.dropped + {ctl.todo[0]})
      else h
    case Assign(fate, _) => h.(wins := h.wins + Times(Wins(s.jobs, ctl.choice.job, Pending, fate), ctl.choice.job))
    case SendAssign(open) =>
      var job := ctl.choice.job;
      if open then
        h.(dropped := h.dropped - {job}, sends := h.sends + multiset{job},
           sentTo := h.sentTo + {(ctl.choice.peer, job)})
      else h.(dropped := h.dropped - {job})
    case FailNext(_, _) => if HeldBy(ctl.rows[0], ctl.peer) then h.(dropped := h.dropped - {ctl.rows[0].id}) else h
    case ResetNext(fate, _) => h.(resets := h.resets + Times(Wins(s.jobs, ctl.job, Failed, fate), ctl.job))
    case FinishJob(peer, success) => h.(reports := h.reports + {Report(peer, s.net.running[peer], success)})
    case _ => h
  }

  ghost function Step(s: State, a: Action): State {
    if Enabled(s, a) then State(JobsStep(s, a), SchedStep(s, a), ApiStep(s, a), NetStep(s, a), HistoryStep(s, a))
    else s
  }

  /** Any schedule: an action that is not enabled when its turn comes does nothing. */
  ghost function Run(actions: seq<Action>): State {
    if actions == [] then Init()
    else Step(Run(actions[..|actions| - 1]), actions[|actions| - 1])
  }

  // ── What the last steps of a dispatch and of a loss come to ────────────────────────────

  lemma AssignStep(s: State, fate: Fate, now: int)
    requires s.sched.ctl.Chosen?
    ensures var ctl := s.sched.ctl;
            var a := Assign(fate, now);
            && Enabled(s, a) && ApiStep(s, a) == s.api && NetStep(s, a) == s.net
            && JobsStep(s, a) == Attempt(s.jobs, ctl.choice.job, Pending, AssignChange(ctl.choice.peer), fate, now)
            && SchedStep(s, a).online == s.sched.online && SchedStep(s, a).pending == s.sched.pending
            && SchedStep(s, a).ctl == (if fate == Ran && Matches(s.jobs, ctl.choice.job, Pending)
                                       then Build(ctl.origin, ctl.todo, ctl.choice)
                                       else LoopOn(ctl.origin, ctl.todo))
  {
  }

  lemma SendStep(s: State, open: bool)
    requires s.sched.ctl.Send?
    ensures var job, peer := s.sched.ctl.choice.job, s.sched.ctl.choice.peer;
            var a := SendAssign(open);
            && Enabled(s, a) && JobsStep(s, a) == s.jobs && ApiStep(s, a) == s.api
            && NetStep(s, a) == (if open then s.net.(assigns := s.net.assigns + multiset{(peer, job)}) else s.net)
            && SchedStep(s, a).online == s.sched.online
            && SchedStep(s, a).pending == s.sched.pending[job := TriedFor(s.sched.pending, job) + [peer]]
            && SchedStep(s, a).ctl == LoopOn(s.sched.ctl.origin, s.sched.ctl.todo)
  {
  }

  lemma FailStep(s: State, fate: Fate, now: int)
    requires s.sched.ctl.FailRow? && s.sched.ctl.rows != []
    ensures var row, peer, rest := s.sched.ctl.rows[0], s.sched.ctl.peer, s.sched.ctl.rows[1..];
            var a := FailNext(fate, now);
            && Enabled(s, a) && ApiStep(s, a) == s.api && NetStep(s, a) == s.net
            && JobsStep(s, a) == (if HeldBy(row, peer)
                                  then Attempt(s.jobs, row.id, row.status, OfflineChange(), fate, now)
                                  else s.jobs)
            && SchedStep(s, a).online == s.sched.online
            && SchedStep(s, a).pending == (if HeldBy(row, peer) then s.sched.pending[row.id := [peer]]
                                           else s.sched.pending)
            && SchedStep(s, a).ctl == (if HeldBy(row, peer) then ResetRow(peer, rest, row.id) else RowsOn(peer, rest))
  {
  }

  lemma ResetStep(s: State, fate: Fate, now: int)
    requires s.sched.ctl.ResetRow?
    ensures var a := ResetNext(fate, now);
            && Enabled(s, a) && ApiStep(s, a) == s.api && NetStep(s, a) == s.net
            && JobsStep(s, a) == Attempt(s.jobs, s.sched.ctl.job, Failed, ResetChange(), fate, now)
            && SchedStep(s, a) == s.sched.(ctl := RowsOn(s.sched.ctl.peer, s.sched.ctl.rows))
  {
  }
}
