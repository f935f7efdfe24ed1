// The scheduler (crates/decentgpu-master/src/scheduler/mod.rs) as the program it is: it updates
// its own two maps, and at every await the rest of the system may take any number of steps.
// `Valid` says that all of it together is a run of the job protocol, so that what holds of every
// run of the protocol holds of this program.
module Scheduler {
  import opened Types
  import opened JobStore
  import opened Matcher
  import opened JobProtocol
  import opened JobSafety
  import opened JobTheorems
  import opened JobProgress

  /** What the event loop may wake up to. */
  datatype Wake =
    | Command
    | Online(peer: PeerId, gpus: seq<Gpu>)
    | Offline(peer: PeerId)
    | Beat(peer: PeerId, uptime: real, busy: bool, completed: nat)
    | RetryTick

  /** The actions of the API, the P2P task and the workers neither see nor touch the scheduler. */
  lemma OthersIgnoreScheduler(s: State, t: State, a: Action)
    requires s.jobs == t.jobs && s.api == t.api && s.net == t.net && OtherEnabled(t, a)
    ensures OtherEnabled(s, a) && SchedStep(s, a) == s.sched
    ensures JobsStep(s, a) == JobsStep(t, a) && ApiStep(s, a) == ApiStep(t, a) && NetStep(s, a) == NetStep(t, a)
  {
  }

  predicate Wakes(a: Action) {
    a.Dequeue? || a.FindEmpty? || a.WorkerOnline? || a.WorkerOffline? || a.Heartbeat? || a.Tick?
  }

  /** The events that the scheduler has woken up to, in order. */
  ghost function Events(actions: seq<Action>): seq<Action> {
    if actions == [] then []
    else
      var earlier, last := actions[..|actions| - 1], actions[|actions| - 1];
      if Wakes(last) then Events(earlier) + [last] else Events(earlier)
  }

  lemma RunSnoc(actions: seq<Action>, a: Action)
    ensures Run(actions + [a]) == Step(Run(actions), a)
  {
    assert (actions + [a])[..|actions|] == actions;
  }

  lemma FeasibleSnoc(actions: seq<Action>, a: Action)
    requires Feasible(actions) && Enabled(Run(actions), a)
    ensures Feasible(actions + [a])
  {
    assert (actions + [a])[..|actions|] == actions;
  }

  lemma EventsSnoc(actions: seq<Action>, a: Action)
    ensures Events(actions + [a]) == if Wakes(a) then Events(actions) + [a] else Events(actions)
  {
    assert (actions + [a])[..|actions|] == actions;
  }

  /** A loop over the rest of a list is about to take its next element. */
  lemma NextOf<T>(all: seq<T>, i: nat)
    requires i < |all|
    ensures all[i..] == [all[i]] + all[i + 1..]
  {
  }

  predicate IsEvent(a: Action, wake: Wake) {
    match wake
    case Command => a.Dequeue? || a.FindEmpty?
    case Online(peer, gpus) => a.WorkerOnline? && a.peer == peer && a.gpus == gpus
    case Offline(peer) => a.WorkerOffline? && a.peer == peer
    case Beat(peer, uptime, busy, completed) =>
      a.Heartbeat? && a.peer == peer && a.uptime == uptime && a.busy == busy && a.completed == completed
    case RetryTick => a.Tick?
  }

  /** This event, and no other, has been answered. */
  predicate Answered(before: seq<Action>, after: seq<Action>, wake: Wake) {
    |after| == |before| + 1 && after == before + [after[|before|]] && IsEvent(after[|before|], wake)
  }

  /** Every wake-up is answered, in order; the answer to a command that was not there is to have
      found the channel empty. */
  predicate AnsweredAll(events: seq<Action>, wakes: seq<Wake>) {
    |events| == |wakes| && forall i :: 0 <= i < |wakes| ==> IsEvent(events[i], wakes[i])
  }

  lemma OneMoreAnswered(before: seq<Action>, after: seq<Action>, wakes: seq<Wake>, i: nat)
    requires i < |wakes| && AnsweredAll(before, wakes[..i]) && Answered(before, after, wakes[i])
    ensures AnsweredAll(after, wakes[..i + 1])
  {
  }

  lemma OnlineByPeer(actions: seq<Action>)
    ensures forall p :: p in Run(actions).sched.online ==> Run(actions).sched.online[p].peer == p
  {
    Reachable(actions);
  }

  lemma KeyedRows(actions: seq<Action>)
    ensures KeyedById(Run(actions).jobs)
  {
    Reachable(actions);
  }

  /** A real user's job has been sent at most once. */
  ghost predicate SentAtMostOnce(s: State) {
    forall id :: id in s.jobs && s.jobs[id].hirer != NIL_UUID ==> s.history.sends[id] <= 1
  }

  /** No enqueued job whose row is pending is missing from the cache. */
  ghost predicate NoneLost(s: State) {
    forall id :: id in s.history.enqueued && id in s.jobs && s.jobs[id].status == Pending ==> id in s.sched.pending
  }

  lemma PromisesKept(actions: seq<Action>)
    ensures SentAtMostOnce(Run(actions)) && (ReadsSucceed(actions) ==> NoneLost(Run(actions)))
  {
    var s := Run(actions);
    forall id | id in s.jobs && s.jobs[id].hirer != NIL_UUID
      ensures s.history.sends[id] <= 1
    {
      DispatchedAtMostOnce(actions, id);
    }
    if ReadsSucceed(actions) {
      forall id | id in s.history.enqueued && id in s.jobs && s.jobs[id].status == Pending
        ensures id in s.sched.pending
      {
        NoLostJobWhileReadsSucceed(actions, id);
      }
    }
  }

  /** The event comes first. */
  predicate Begins(before: seq<Action>, base: seq<Action>) {
    |base| == |before| + 1 && base[..|before|] == before && Wakes(base[|before|])
  }

  /** What was the state at the end of a part is the state there in the whole. */
  lemma AtBase(base: seq<Action>, past: seq<Action>, s: State)
    requires base <= past && Run(base) == s
    ensures At(past, |base|) == s
  {
    assert past[..|base|] == base;
  }

  /** A worker is looked for. */
  ghost predicate LooksForOne(past: seq<Action>, n: nat, job: Uuid) {
    exists k :: n <= k < |past| && LooksForWorker(past, k, job)
  }

  /** What an attempt at one job comes to. */
  lemma TryServes(base: seq<Action>, past: seq<Action>, job: Uuid, calm: bool, time: int)
    requires base <= past && Feasible(past) && (calm ==> CalmFrom(past, |base|, time)) && Run(past).sched.ctl == Idle
    requires Run(base).sched.ctl.Pick? && Run(base).sched.ctl.job == job && job in Run(base).sched.pending
    ensures LooksForOne(past, |base|, job)
    ensures calm ==> ServesAll(Run(base).jobs, map[job := Run(base).sched.pending[job]], Run(past), FromEnqueue, time)
  {
    AtBase(base, past, Run(base));
    var k := PickFollows(past, |base|, job);
    if calm {
      CalmTryServes(past, |base|, job, time);
    }
  }

  /** What the handling of a worker that left comes to. */
  lemma OfflineServes(base: seq<Action>, past: seq<Action>, taken: State, peer: PeerId, time: int)
    requires base <= past && Feasible(past) && CalmFrom(past, |base|, time) && Run(past).sched.ctl == Idle
    requires Run(base) == taken && taken.sched.ctl == ListRows(peer)
    ensures ReleasesAll(taken.jobs, Run(past), peer, time) && SparesOthers(taken.jobs, Run(past), peer)
  {
    AtBase(base, past, taken);
    AtEnd(past);
    CalmOfflineServes(past, |base|, peer, time);
  }

  /** What a loop over the cache comes to. */
  lemma LoopServes(base: seq<Action>, past: seq<Action>, origin: Origin, order: seq<Uuid>, calm: bool, time: int)
    requires base <= past && Feasible(past) && (calm ==> CalmFrom(past, |base|, time)) && Run(past).sched.ctl == Idle
    requires Run(base).sched.ctl == LoopOn(origin, order) && IsKeyOrder(order, Run(base).sched.pending)
    ensures LooksAtAll(past, |base|, Run(base).sched.pending)
    ensures calm ==> ServesAll(Run(base).jobs, Run(base).sched.pending, Run(past), origin, time)
                     && DropsAll(Run(base).jobs, Run(base).sched.pending, Run(past))
  {
    AtBase(base, past, Run(base));
    LoopLooksAtAll(past, |base|, origin, order);
    if calm {
      CalmLoopServes(past, |base|, origin, order, time);
      CalmLoopDropsAll(past, |base|, origin, order, time);
    }
  }

  class JobScheduler {
    const db: JobRepository
    var online: map<PeerId, WorkerCandidate>
    var pending: map<Uuid, seq<PeerId>>
    /** The rest of the system: the API with the command channel, and the network. */
    var api: Api
    var net: Net
    /** Where the program stands, and what has happened so far. */
    ghost var ctl: Ctl
    ghost var history: History
    ghost var past: seq<Action>
    ghost var events: seq<Action>
    /** What had happened when the event at hand was taken up. */
    ghost var base: seq<Action>
    /** Whether, from there on, every statement runs and is answered and nobody else does anything,
        and what the clocks then read. */
    var calm: bool
    var time: int

    ghost function Now(): State
      reads this, db
    {
      State(db.jobs, Sched(online, pending, ctl), api, net, history)
    }

    ghost predicate Valid()
      reads this, db
    {
      Feasible(past) && Run(past) == Now() && events == Events(past) && Since()
    }

    ghost predicate Since()
      reads this
    {
      base <= past && (calm ==> CalmFrom(past, |base|, time))
    }

    constructor (db: JobRepository)
      requires db.jobs == map[]
      ensures Valid() && this.db == db && events == [] && ctl == Idle
    {
      this.db := db;
      online, pending := map[], map[];
      api, net := Init().api, Init().net;
      ctl, history, past, events, base := Idle, Init().history, [], [], [];
      calm, time := false, 0;
    }

    /** What the program has done since `before` is the step `a` of the protocol. */
    ghost method Mark(before: State, a: Action)
      requires Feasible(past) && Run(past) == before && events == Events(past) && Since() && Enabled(before, a)
      requires db.jobs == JobsStep(before, a) && api == ApiStep(before, a) && net == NetStep(before, a)
      requires online == SchedStep(before, a).online && pending == SchedStep(before, a).pending
      requires calm ==> IsCalm(a, time)
      modifies this`ctl, this`history, this`past, this`events
      ensures Valid() && ctl == SchedStep(before, a).ctl
      ensures events == if Wakes(a) then old(events) + [a] else old(events)
    {
      Record(before, a);
    }

    /** Takes up an event, which is the step `a` of the protocol. */
    ghost method MarkEvent(before: State, a: Action)
      requires Feasible(past) && Run(past) == before && events == Events(past) && Enabled(before, a) && Wakes(a)
      requires db.jobs == JobsStep(before, a) && api == ApiStep(before, a) && net == NetStep(before, a)
      requires online == SchedStep(before, a).online && pending == SchedStep(before, a).pending
      modifies this`ctl, this`history, this`past, this`events, this`base
      ensures Valid() && ctl == SchedStep(before, a).ctl && events == old(events) + [a]
      ensures base == past == old(past) + [a]
    {
      Record(before, a);
      base := past;
    }

    ghost method Record(before: State, a: Action)
      requires Feasible(past) && Run(past) == before && events == Events(past) && Enabled(before, a)
      requires db.jobs == JobsStep(before, a) && api == ApiStep(before, a) && net == NetStep(before, a)
      requires online == SchedStep(before, a).online && pending == SchedStep(before, a).pending
      modifies this`ctl, this`history, this`past, this`events
      ensures Feasible(past) && Run(past) == Now() && events == Events(past)
      ensures past == old(past) + [a] && ctl == SchedStep(before, a).ctl
      ensures events == if Wakes(a) then old(events) + [a] else old(events)
    {
      RunSnoc(past, a);
      FeasibleSnoc(past, a);
      EventsSnoc(past, a);
      ctl, history, past := SchedStep(before, a).ctl, HistoryStep(before, a), past + [a];
      events := if Wakes(a) then events + [a] else events;
    }

    /** An await: the API, the P2P task and the workers go on, in any way, unless all is calm. */
    method Await()
      requires Valid()
      modifies db`jobs, db`writes, this`api, this`net, this`ctl, this`history, this`past, this`events
      ensures Valid() && events == old(events) && ctl == old(ctl)
      ensures calm ==> past == old(past)
    {
      var steps: int := *;
      while steps > 0 && !calm
        invariant Valid() && events == old(events) && ctl == old(ctl)
        invariant calm ==> past == old(past)
      {
        var a: Action := *;
        var seen := State(db.jobs, Sched(online, pending, Idle), api, net, Init().history);
        if OtherEnabled(seen, a) {
          ghost var before := Now();
          OthersIgnoreScheduler(before, seen, a);
          db.jobs, api, net := JobsStep(seen, a), ApiStep(seen, a), NetStep(seen, a);
          Mark(before, a);
        }
        steps := steps - 1;
      }
    }

    // ── Queries that may fail ────────────────────────────────────────────────────────────

    method FindJob(job: Uuid) returns (row: Option<JobRow>, ghost fate: Fate)
      ensures row == if fate == Ran && job in db.jobs then Some(db.jobs[job]) else None
      ensures calm ==> fate == Ran
    {
      var answered: bool := *;
      if !answered && !calm {
        return None, Refused;
      }
      row := db.FindById(job);
      fate := Ran;
    }

    method ReadClock() returns (now: int)
      ensures calm ==> now == time
    {
      now := *;
      if calm {
        now := time;
      }
    }

    /** Whether the row is known to have changed. */
    method UpdateStatus(job: Uuid, from: JobStatus, c: Change) returns (won: bool, ghost fate: Fate, ghost now: int)
      modifies db`jobs, db`writes
      ensures db.jobs == Attempt(old(db.jobs), job, from, c, fate, now)
      ensures won == (fate == Ran && Matches(old(db.jobs), job, from))
      ensures calm ==> fate == Ran && now == time
    {
      var reached: bool, answered: bool := *, *;
      var clock := ReadClock();
      now := clock;
      if !reached && !calm {
        return false, Refused, now;
      }
      var row := db.TransitionStatus(job, from, c, clock);
      var heard := answered || calm;
      return heard && row.Some?, if heard then Ran else AnswerLost, now;
    }

    // ── Hash maps, in any order ──────────────────────────────────────────────────────────

    method PendingJobs() returns (order: seq<Uuid>)
      ensures IsKeyOrder(order, pending)
    {
      order := [];
      var left := pending.Keys;
      while left != {}
        invariant left <= pending.Keys && Distinct(order)
        invariant forall job :: job in pending <==> job in order || job in left
        invariant forall job :: job in order ==> job !in left
      {
        var job :| job in left;
        order, left := order + [job], left - {job};
      }
    }

    method Candidates(tried: seq<PeerId>) returns (candidates: seq<WorkerCandidate>)
      requires forall p :: p in online ==> online[p].peer == p
      ensures IsCandidateOrder(candidates, online, tried)
    {
      candidates := [];
      var left := online.Keys;
      while left != {}
        invariant left <= online.Keys && Distinct(candidates)
        invariant forall c :: c in candidates <==>
                    c.peer in online && c.peer !in left && online[c.peer] == c && c.peer !in tried
      {
        var p :| p in left;
        if p !in tried {
          candidates := candidates + [online[p]];
        }
        left := left - {p};
      }
    }

    // ── Assignment ───────────────────────────────────────────────────────────────────────

    /** The best untried worker, if there is any. */
    method PickBest(job: Uuid, request: MatchRequest, ghost origin: Origin, ghost todo: seq<Uuid>)
      returns (peer: Option<PeerId>)
      requires Valid() && ctl == Pick(origin, todo, job, request)
      modifies this`ctl, this`history, this`past, this`events
      ensures Valid() && events == old(events)
      ensures if peer.None? then ctl == LoopOn(origin, todo)
              else IsChosen(origin, todo, job, peer.value)
    {
      ghost var picking := Now();
      OnlineByPeer(past);
      var candidates := Candidates(TriedFor(pending, job));
      var selected := SelectWorkers(candidates, request);
      assert |selected| == |Selected(candidates, request)|;
      Mark(picking, PickWorker(candidates));
      if selected == [] {
        return None;
      }
      return Some(selected[0]);
    }

    ghost predicate IsChosen(origin: Origin, todo: seq<Uuid>, job: Uuid, peer: PeerId)
      reads this
    {
      ctl.Chosen? && ctl.origin == origin && ctl.todo == todo && ctl.choice.job == job && ctl.choice.peer == peer
    }

    /** Sets the job from pending to assigned; false unless it is known to be done. */
    method Claim(job: Uuid, peer: PeerId, ghost origin: Origin, ghost todo: seq<Uuid>) returns (won: bool)
      requires Valid() && IsChosen(origin, todo, job, peer)
      modifies this`api, this`net, this`ctl, this`history, this`past, this`events, db`jobs, db`writes
      ensures Valid() && events == old(events)
      ensures ctl == if won then Build(origin, todo, old(ctl).choice) else LoopOn(origin, todo)
    {
      Await();
      ghost var assigning := Now();
      ghost var fate, now;
      won, fate, now := UpdateStatus(job, Pending, AssignChange(peer));
      AssignStep(assigning, fate, now);
      Mark(assigning, Assign(fate, now));
    }

    /** Whether the assignment could be built, which takes another look at the row. */
    method BuildJobAssignment(job: Uuid, ghost origin: Origin, ghost todo: seq<Uuid>, ghost choice: Choice)
      returns (built: bool)
      requires Valid() && ctl == Build(origin, todo, choice) && choice.job == job
      modifies this`api, this`net, this`ctl, this`history, this`past, this`events, db`jobs, db`writes
      ensures Valid() && events == old(events)
      ensures ctl == if built then Send(origin, todo, choice) else LoopOn(origin, todo)
    {
      Await();
      ghost var building := Now();
      var row, fate := FindJob(job);
      Mark(building, BuildAssignment(fate));
      built := row.Some?;
    }

    /** Sends the Assign, unless the channel is closed, and records the worker as tried. */
    method SendAndRecord(job: Uuid, peer: PeerId, ghost origin: Origin, ghost todo: seq<Uuid>, ghost choice: Choice)
      requires Valid() && ctl == Send(origin, todo, choice) && choice.job == job && choice.peer == peer
      modifies this`pending, this`api, this`net, this`ctl, this`history, this`past, this`events, db`jobs, db`writes
      ensures Valid() && events == old(events) && ctl == LoopOn(origin, todo)
      ensures pending == old(pending)[job := TriedFor(old(pending), job) + [peer]]
    {
      Await();
      ghost var sending := Now();
      var open: bool := *;
      open := open || calm;
      net := if open then net.(assigns := net.assigns + multiset{(peer, job)}) else net;
      pending := pending[job := TriedFor(pending, job) + [peer]];
      SendStep(sending, open);
      Mark(sending, SendAssign(open));
    }

    method TryAssignOne(job: Uuid, request: MatchRequest, ghost origin: Origin, ghost todo: seq<Uuid>)
      requires Valid() && ctl == Pick(origin, todo, job, request)
      modifies this`pending, this`api, this`net, this`ctl, this`history, this`past, this`events, db`jobs, db`writes
      ensures Valid() && events == old(events) && ctl == LoopOn(origin, todo)
      ensures pending == old(pending)
              || exists p :: pending == old(pending)[job := TriedFor(old(pending), job) + [p]]
    {
      var best := PickBest(job, request, origin, todo);
      if best.None? {
        return;
      }
      var peer := best.value;
      ghost var choice := ctl.choice;
      var won := Claim(job, peer, origin, todo);
      if !won {
        return;
      }
      var built := BuildJobAssignment(job, origin, todo, choice);
      if !built {
        return;
      }
      SendAndRecord(job, peer, origin, todo, choice);
    }

    /** Reads the job's row; on a retry, a job whose row cannot be read is given up. */
    method ReadJob(job: Uuid, origin: Origin, ghost todo: seq<Uuid>) returns (row: Option<JobRow>)
      requires Valid() && ctl == Loop(origin, [job] + todo)
      modifies this`pending, this`api, this`net, this`ctl, this`history, this`past, this`events, db`jobs, db`writes
      ensures Valid() && events == old(events)
      ensures row.Some? ==> row.value.id == job
      ensures ctl == if row.Some? then Got(origin, todo, row.value) else LoopOn(origin, todo)
      ensures pending == if row.None? && origin == FromRetry then old(pending) - {job} else old(pending)
    {
      Await();
      ghost var reading := Now();
      ghost var fate;
      row, fate := FindJob(job);
      if row.None? && origin == FromRetry {
        pending := pending - {job};
      }
      if row.Some? {
        RowsAreSound(past, job);
      }
      Mark(reading, ReadRow(fate));
    }

    /** Whether the job is still pending; if not, it is dropped. */
    method StillPending(row: JobRow, now: int, ghost origin: Origin, ghost todo: seq<Uuid>) returns (yes: bool)
      requires Valid() && ctl == Got(origin, todo, row) && (calm ==> now == time)
      modifies this`pending, this`ctl, this`history, this`past, this`events
      ensures Valid() && events == old(events) && yes == (row.status == Pending)
      ensures pending == if yes then old(pending) else old(pending) - {row.id}
      ensures ctl == if yes && (origin == FromRetry ==> Stale(row, now)) then Pick(origin, todo, row.id, RequestOf(row))
                     else LoopOn(origin, todo)
    {
      ghost var reacting := Now();
      yes := row.status == Pending;
      if !yes {
        pending := pending - {row.id};
      }
      Mark(reacting, React(now));
    }

    /** What both loops do with a job first: the request to try it with, if it is to be tried. */
    method Reconsider(job: Uuid, origin: Origin, ghost todo: seq<Uuid>) returns (request: Option<MatchRequest>)
      requires Valid() && ctl == Loop(origin, [job] + todo)
      modifies this`pending, this`api, this`net, this`ctl, this`history, this`past, this`events, db`jobs, db`writes
      ensures Valid() && events == old(events)
      ensures ctl == if request.Some? then Pick(origin, todo, job, request.value) else LoopOn(origin, todo)
      ensures pending == old(pending) || (request.None? && pending == old(pending) - {job})
    {
      var row := ReadJob(job, origin, todo);
      if row.None? {
        return None;
      }
      Await();
      var now := ReadClock();
      var yes := StillPending(row.value, now, origin, todo);
      return if yes && (origin == FromRetry ==> Stale(row.value, now)) then Some(RequestOf(row.value)) else None;
    }

    method TryAssignPending(order: seq<Uuid>)
      requires Valid() && ctl == LoopOn(FromOnline, order) && IsKeyOrder(order, pending) && base == past
      modifies this`pending, this`api, this`net, this`ctl, this`history, this`past, this`events, db`jobs, db`writes
      ensures Valid() && events == old(events) && ctl == Idle
      ensures LooksAtAll(past, |base|, old(pending))
      ensures calm ==> ServesAll(old(db.jobs), old(pending), Now(), FromOnline, time)
                       && DropsAll(old(db.jobs), old(pending), Now())
    {
      ghost var taken := Now();
      for i := 0 to |order|
        invariant Valid() && events == old(events) && ctl == LoopOn(FromOnline, order[i..])
      {
        NextOf(order, i);
        var request := Reconsider(order[i], FromOnline, order[i + 1..]);
        if request.Some? {
          TryAssignOne(order[i], request.value, FromOnline, order[i + 1..]);
        }
      }
      AtBase(base, past, taken);
      LoopServes(base, past, FromOnline, order, calm, time);
    }

    method RetryStalePending(order: seq<Uuid>)
      requires Valid() && ctl == LoopOn(FromRetry, order) && IsKeyOrder(order, pending) && base == past
      modifies this`pending, this`api, this`net, this`ctl, this`history, this`past, this`events, db`jobs, db`writes
      ensures Valid() && events == old(events) && ctl == Idle
      ensures LooksAtAll(past, |base|, old(pending))
      ensures calm ==> ServesAll(old(db.jobs), old(pending), Now(), FromRetry, time)
                       && DropsAll(old(db.jobs), old(pending), Now())
                       && SparesYoung(old(db.jobs), old(pending), Now(), time)
    {
      ghost var taken := Now();
      for i := 0 to |order|
        invariant Valid() && events == old(events) && ctl == LoopOn(FromRetry, order[i..])
      {
        NextOf(order, i);
        var request := Reconsider(order[i], FromRetry, order[i + 1..]);
        if request.Some? {
          TryAssignOne(order[i], request.value, FromRetry, order[i + 1..]);
        }
      }
      AtBase(base, past, taken);
      LoopServes(base, past, FromRetry, order, calm, time);
      if calm {
        CalmRetrySparesAll(past, |base|, order, time);
      }
    }

    /** The rows of no user, if the query succeeds. */
    method ListRowsOfNobody(peer: PeerId) returns (rows: seq<JobRow>)
      requires Valid() && ctl == ListRows(peer)
      modifies this`api, this`net, this`ctl, this`history, this`past, this`events, db`jobs, db`writes
      ensures Valid() && events == old(events) && ctl == RowsOn(peer, rows)
    {
      Await();
      ghost var listing := Now();
      var answered: bool := *;
      rows := [];
      if answered || calm {
        KeyedRows(past);
        rows := db.ListByHirer(NIL_UUID, 1000, 0);
        Mark(listing, ListOffline(Ran, rows));
      } else {
        Mark(listing, ListOffline(Refused, []));
      }
    }

    /** Fails the job if the peer held it when the rows were listed, and puts it back into the cache. */
    method FailIfHeld(peer: PeerId, row: JobRow, ghost todo: seq<JobRow>) returns (held: bool)
      requires Valid() && ctl == FailRow(peer, [row] + todo)
      modifies this`pending, this`api, this`net, this`ctl, this`history, this`past, this`events, db`jobs, db`writes
      ensures Valid() && events == old(events) && held == HeldBy(row, peer)
      ensures pending == if held then old(pending)[row.id := [peer]] else old(pending)
      ensures ctl == if held then ResetRow(peer, todo, row.id) else RowsOn(peer, todo)
    {
      Await();
      ghost var failing := Now();
      held := HeldBy(row, peer);
      ghost var fate, now := Ran, time;
      if held {
        var won;
        won, fate, now := UpdateStatus(row.id, row.status, OfflineChange());
        pending := pending[row.id := [peer]];
      }
      FailStep(failing, fate, now);
      Mark(failing, FailNext(fate, now));
    }

    method ResetToPending(peer: PeerId, job: Uuid, ghost todo: seq<JobRow>)
      requires Valid() && ctl == ResetRow(peer, todo, job)
      modifies this`api, this`net, this`ctl, this`history, this`past, this`events, db`jobs, db`writes
      ensures Valid() && events == old(events) && ctl == RowsOn(peer, todo)
    {
      Await();
      ghost var resetting := Now();
      var won, fate, now := UpdateStatus(job, Failed, ResetChange());
      ResetStep(resetting, fate, now);
      Mark(resetting, ResetNext(fate, now));
    }

    /** What the loop does with one listed row. */
    method ReleaseRow(peer: PeerId, row: JobRow, ghost todo: seq<JobRow>)
      requires Valid() && ctl == FailRow(peer, [row] + todo)
      modifies this`pending, this`api, this`net, this`ctl, this`history, this`past, this`events, db`jobs, db`writes
      ensures Valid() && events == old(events) && ctl == RowsOn(peer, todo)
      ensures pending == if HeldBy(row, peer) then old(pending)[row.id := [peer]] else old(pending)
    {
      var held := FailIfHeld(peer, row, todo);
      if held {
        ResetToPending(peer, row.id, todo);
      }
    }

    method HandleWorkerOffline(peer: PeerId)
      requires Valid() && ctl == ListRows(peer) && base == past
      modifies this`pending, this`api, this`net, this`ctl, this`history, this`past, this`events, db`jobs, db`writes
      ensures Valid() && events == old(events) && ctl == Idle
      ensures calm ==> ReleasesAll(old(db.jobs), Now(), peer, time) && SparesOthers(old(db.jobs), Now(), peer)
    {
      ghost var taken := Now();
      var rows := ListRowsOfNobody(peer);
      assert rows[0..] == rows;
      for i := 0 to |rows|
        invariant Valid() && events == old(events) && ctl == RowsOn(peer, rows[i..])
      {
        NextOf(rows, i);
        ReleaseRow(peer, rows[i], rows[i + 1..]);
      }
      if calm {
        OfflineServes(base, past, taken, peer, time);
      }
    }

    // ── The event loop ───────────────────────────────────────────────────────────────────

    method OnCommand()
      requires Valid() && ctl == Idle
      modifies this`pending, this`api, this`net, this`ctl, this`history, this`past, this`events, this`base,
               db`jobs, db`writes
      ensures Valid() && ctl == Idle && Answered(old(events), events, Command) && Begins(old(past), base)
      ensures events[|old(events)|].Dequeue? <==> old(api.commands) != []
      ensures old(api.commands) == [] ==> past == base && Now() == old(Now())
      ensures old(api.commands) != [] ==> LooksForOne(past, |base|, old(api.commands[0].job))
      ensures calm && old(api.commands) != [] ==>
                ServesAll(old(db.jobs), map[old(api.commands[0].job) := []], Now(), FromEnqueue, time)
    {
      ghost var before := Now();
      if api.commands == [] {
        MarkEvent(before, FindEmpty);
        return;
      }
      var e := api.commands[0];
      api := api.(commands := api.commands[1..]);
      pending := pending[e.job := []];
      MarkEvent(before, Dequeue);
      TryAssignOne(e.job, e.request, FromEnqueue, []);
      TryServes(base, past, e.job, calm, time);
    }

    method OnOnline(peer: PeerId, gpus: seq<Gpu>)
      requires Valid() && ctl == Idle
      modifies this`online, this`pending, this`api, this`net, this`ctl, this`history, this`past, this`events, this`base,
               db`jobs, db`writes
      ensures Valid() && ctl == Idle && Answered(old(events), events, Online(peer, gpus)) && Begins(old(past), base)
      ensures online == old(online)[peer := WorkerCandidate(peer, gpus, 100.0, 0, false)]
      ensures LooksAtAll(past, |base|, old(pending))
      ensures calm ==> ServesAll(old(db.jobs), old(pending), Now(), FromOnline, time)
                       && DropsAll(old(db.jobs), old(pending), Now())
    {
      ghost var before := Now();
      online := online[peer := WorkerCandidate(peer, gpus, 100.0, 0, false)];
      var order := PendingJobs();
      MarkEvent(before, WorkerOnline(peer, gpus, order));
      TryAssignPending(order);
    }

    method OnOffline(peer: PeerId)
      requires Valid() && ctl == Idle
      modifies this`online, this`pending, this`api, this`net, this`ctl, this`history, this`past, this`events, this`base,
               db`jobs, db`writes
      ensures Valid() && ctl == Idle && Answered(old(events), events, Offline(peer)) && Begins(old(past), base)
      ensures online == old(online) - {peer}
      ensures calm ==> ReleasesAll(old(db.jobs), Now(), peer, time) && SparesOthers(old(db.jobs), Now(), peer)
    {
      ghost var before := Now();
      online := online - {peer};
      MarkEvent(before, WorkerOffline(peer));
      HandleWorkerOffline(peer);
    }

    /** Takes up a heartbeat. */
    method NoteHeartbeat(peer: PeerId, uptime: real, busy: bool, completed: nat) returns (order: seq<Uuid>)
      requires Valid() && ctl == Idle
      modifies this`online, this`ctl, this`history, this`past, this`events, this`base
      ensures Valid() && IsKeyOrder(order, pending) && past == base && Begins(old(past), base)
      ensures ctl == if peer !in old(online) && !busy then LoopOn(FromOnline, order) else Idle
      ensures Answered(old(events), events, Beat(peer, uptime, busy, completed))
      ensures online == old(online)[peer := if peer in old(online)
                                            then old(online)[peer].(uptime := uptime, busy := busy, jobs := completed)
                                            else WorkerCandidate(peer, [], uptime, completed, busy)]
    {
      ghost var before := Now();
      order := PendingJobs();
      if peer in online {
        online := online[peer := online[peer].(uptime := uptime, busy := busy, jobs := completed)];
      } else {
        online := online[peer := WorkerCandidate(peer, [], uptime, completed, busy)];
      }
      MarkEvent(before, Heartbeat(peer, uptime, busy, completed, order));
    }

    method OnHeartbeat(peer: PeerId, uptime: real, busy: bool, completed: nat)
      requires Valid() && ctl == Idle
      modifies this`online, this`pending, this`api, this`net, this`ctl, this`history, this`past, this`events, this`base,
               db`jobs, db`writes
      ensures Valid() && ctl == Idle && Begins(old(past), base)
      ensures Answered(old(events), events, Beat(peer, uptime, busy, completed))
      ensures online == old(online)[peer := if peer in old(online)
                                            then old(online)[peer].(uptime := uptime, busy := busy, jobs := completed)
                                            else WorkerCandidate(peer, [], uptime, completed, busy)]
      ensures peer in old(online) || busy ==> past == base && db.jobs == old(db.jobs) && pending == old(pending)
      ensures peer !in old(online) && !busy ==>
                && LooksAtAll(past, |base|, old(pending))
                && (calm ==> ServesAll(old(db.jobs), old(pending), Now(), FromOnline, time)
                             && DropsAll(old(db.jobs), old(pending), Now()))
    {
      var known := peer in online;
      var order := NoteHeartbeat(peer, uptime, busy, completed);
      if !known && !busy {
        TryAssignPending(order);
      }
    }

    method OnRetryTick()
      requires Valid() && ctl == Idle
      modifies this`pending, this`api, this`net, this`ctl, this`history, this`past, this`events, this`base,
               db`jobs, db`writes
      ensures Valid() && ctl == Idle && Answered(old(events), events, RetryTick) && Begins(old(past), base)
      ensures LooksAtAll(past, |base|, old(pending))
      ensures calm ==> ServesAll(old(db.jobs), old(pending), Now(), FromRetry, time)
                       && DropsAll(old(db.jobs), old(pending), Now())
                       && SparesYoung(old(db.jobs), old(pending), Now(), time)
    {
      ghost var before := Now();
      var order := PendingJobs();
      MarkEvent(before, Tick(order));
      RetryStalePending(order);
    }

    method Answer(wake: Wake)
      requires Valid() && ctl == Idle
      modifies this`online, this`pending, this`api, this`net, this`ctl, this`history, this`past, this`events, this`base,
               db`jobs, db`writes
      ensures Valid() && ctl == Idle && Answered(old(events), events, wake)
    {
      match wake {
        case Command => OnCommand();
        case Online(peer, gpus) => OnOnline(peer, gpus);
        case Offline(peer) => OnOffline(peer);
        case Beat(peer, uptime, busy, completed) => OnHeartbeat(peer, uptime, busy, completed);
        case RetryTick => OnRetryTick();
      }
    }

    /** Waits for the next event; from then on it may be calm. */
    method AwaitWake()
      requires Valid() && ctl == Idle
      modifies this`api, this`net, this`ctl, this`history, this`past, this`events, this`base, this`calm, this`time,
               db`jobs, db`writes
      ensures Valid() && ctl == Idle && events == old(events)
    {
      calm := false;
      Await();
      base := past;
      calm, time := *, *;
    }

    /** The loop, up to the moment when the events end; any event may be answered in calm. */
    method RunLoop(wakes: seq<Wake>)
      requires Valid() && ctl == Idle && events == []
      modifies this, db`jobs, db`writes
      ensures Valid() && ctl == Idle && AnsweredAll(events, wakes)
      ensures SentAtMostOnce(Now()) && (ReadsSucceed(past) ==> NoneLost(Now()))
    {
      for i := 0 to |wakes|
        invariant Valid() && ctl == Idle && AnsweredAll(events, wakes[..i])
      {
        ghost var before := events;
        AwaitWake();
        Answer(wakes[i]);
        OneMoreAnswered(before, events, wakes, i);
      }
      assert wakes[..|wakes|] == wakes;
      PromisesKept(past);
    }
  }
}
