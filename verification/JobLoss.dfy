// What becomes of a job that the scheduler gave up after a failed read: nothing, ever.
module JobLoss {
  import opened Types
  import opened JobProtocol
  import opened JobSafety
  import opened JobTheorems

  /** The job at hand and the jobs still to come in the scheduler's loop. */
  function Agenda(ctl: Ctl): seq<Uuid> {
    match ctl
    case Loop(_, todo) => todo
    case Got(_, todo, row) => [row.id] + todo
    case Pick(_, todo, job, _) => [job] + todo
    case Chosen(_, todo, choice) => [choice.job] + todo
    case Build(_, todo, choice) => [choice.job] + todo
    case Send(_, todo, choice) => [choice.job] + todo
    case _ => []
  }

  /** The scheduler works on jobs in its cache only, and on each once in a loop. */
  ghost predicate AgendaInv(m: Sched) {
    Distinct(Agenda(m.ctl)) && forall id :: id in Agenda(m.ctl) ==> id in m.pending
  }

  lemma TailOfAgenda(first: Uuid, rest: seq<Uuid>)
    requires Distinct([first] + rest)
    ensures Distinct(rest) && first !in rest
  {
    forall i, j | 0 <= i < j < |rest|
      ensures rest[i] != rest[j]
    {
      assert ([first] + rest)[i + 1] != ([first] + rest)[j + 1];
    }
    forall i | 0 <= i < |rest|
      ensures rest[i] != first
    {
      assert ([first] + rest)[0] != ([first] + rest)[i + 1];
    }
  }

  /** A step goes on with the agenda, drops its first job, or starts a new one. */
  lemma AgendaChanges(s: State, a: Action)
    requires RowsInv(s) && Enabled(s, a)
    ensures var before, after := Agenda(s.sched.ctl), Agenda(SchedStep(s, a).ctl);
            || after == before
            || (before != [] && after == before[1..])
            || after == []
            || (a.Dequeue? && after == [s.api.commands[0].job])
            || ((a.WorkerOnline? || a.Heartbeat? || a.Tick?) && after == a.order)
  {
  }

  /** Only the first job on the agenda can leave the cache. */
  lemma CacheKeepsRest(s: State, a: Action, id: Uuid)
    requires RowsInv(s) && Enabled(s, a) && id in s.sched.pending && id !in SchedStep(s, a).pending
    ensures var before := Agenda(s.sched.ctl);
            before != [] && before[0] == id && Agenda(SchedStep(s, a).ctl) == before[1..]
  {
    PendingChanges(s, a, id);
  }

  lemma StepKeepsAgenda(s: State, a: Action)
    requires RowsInv(s) && AgendaInv(s.sched) && Enabled(s, a)
    ensures AgendaInv(SchedStep(s, a))
  {
    var before, m' := Agenda(s.sched.ctl), SchedStep(s, a);
    AgendaChanges(s, a);
    if before != [] {
      assert before == [before[0]] + before[1..];
      TailOfAgenda(before[0], before[1..]);
    }
    forall id | id in Agenda(m'.ctl)
      ensures id in m'.pending
    {
      if id in s.sched.pending && id !in m'.pending {
        CacheKeepsRest(s, a, id);
      }
    }
  }

  /** Each job is created, waits in the channel, and is taken from it once. */
  ghost predicate OnceInv(api: Api, h: History) {
    && (forall i, j :: 0 <= i < j < |api.commands| ==> api.commands[i].job != api.commands[j].job)
    && (forall i :: 0 <= i < |api.commands| ==>
          api.commands[i].job !in api.creating && api.commands[i].job !in h.enqueued)
    && (forall id :: id in api.creating ==> id !in h.enqueued)
  }

  lemma StepKeepsOnce(s: State, a: Action)
    requires CommandsInv(s) && CacheInv(s) && OnceInv(s.api, s.history) && Enabled(s, a)
    ensures OnceInv(ApiStep(s, a), HistoryStep(s, a))
  {
    if a.CreateJob? {
      assert Cached(s, a.id);
      forall i | 0 <= i < |s.api.commands|
        ensures s.api.commands[i].job != a.id
      {
        assert s.api.commands[i] in s.api.commands;
      }
    } else if a.EnqueueJob? {
      var commands := ApiStep(s, a).commands;
      assert forall i :: 0 <= i < |s.api.commands| ==> commands[i] == s.api.commands[i];
    }
  }

  /** Nothing of a real user's gets into the cache except from the channel. */
  ghost predicate OwnedInv(s: State) {
    forall id :: id in s.sched.pending || id in s.history.dropped ==>
      id in s.history.enqueued || (id in s.jobs && s.jobs[id].hirer == NIL_UUID)
  }

  lemma StepKeepsOwned(s: State, a: Action, s': State)
    requires Inv(s) && OwnedInv(s) && AgendaInv(s.sched) && Enabled(s, a) && RowsFollow(s, s', a)
    requires s'.sched == SchedStep(s, a) && s'.history == HistoryStep(s, a)
    ensures OwnedInv(s')
  {
    if a.SendAssign? {
      assert Agenda(s.sched.ctl)[0] == s.sched.ctl.choice.job;
    }
    forall id | id in s'.sched.pending || id in s'.history.dropped
      ensures id in s'.history.enqueued || (id in s'.jobs && s'.jobs[id].hirer == NIL_UUID)
    {
      PendingChanges(s, a, id);
      EnqueuedGrows(s, a);
      DroppedComesFromCache(s, a, id);
      if id in s.sched.pending || id in s.history.dropped {
        assert id in s.jobs ==> Follows(s.jobs[id], s'.jobs[id], a);
      } else if a.FailNext? {
        assert Listed(s, s.sched.ctl.rows[0]);
        assert Follows(s.jobs[id], s'.jobs[id], a);
      }
    }
  }

  lemma EnqueuedGrows(s: State, a: Action)
    requires Enabled(s, a)
    ensures s.history.enqueued <= HistoryStep(s, a).enqueued
    ensures a.Dequeue? ==> s.api.commands[0].job in HistoryStep(s, a).enqueued
  {
  }

  lemma DroppedComesFromCache(s: State, a: Action, id: Uuid)
    requires Enabled(s, a)
    ensures id in HistoryStep(s, a).dropped ==> id in s.history.dropped || id in s.sched.pending
  {
  }

  lemma {:induction false} ReachableLoss(actions: seq<Action>)
    ensures var s := Run(actions); AgendaInv(s.sched) && OnceInv(s.api, s.history) && OwnedInv(s)
  {
    if actions != [] {
      var before, a := actions[..|actions| - 1], actions[|actions| - 1];
      var s := Run(before);
      ReachableLoss(before);
      Reachable(before);
      if Enabled(s, a) {
        StepKeepsAgenda(s, a);
        StepKeepsOnce(s, a);
        StepEvolves(s, a, Step(s, a));
        StepKeepsOwned(s, a, Step(s, a));
      }
    }
  }

  /** No step takes notice of a real user's job that was given up, except to cancel it or to
      report on an earlier dispatch. */
  lemma StepKeepsLost(s: State, a: Action, id: Uuid)
    requires Inv(s) && AgendaInv(s.sched) && OnceInv(s.api, s.history) && OwnedInv(s) && Enabled(s, a)
    requires id in s.history.dropped && id in s.jobs && s.jobs[id].hirer != NIL_UUID
    ensures id in HistoryStep(s, a).dropped && HistoryStep(s, a).sends[id] == s.history.sends[id]
    ensures a.Assign? ==> s.sched.ctl.choice.job != id
  {
    assert Cached(s, id);
    PendingChanges(s, a, id);
    DroppedChanges(s, a, id);
    if a.SendAssign? || a.Assign? {
      assert Agenda(s.sched.ctl)[0] == s.sched.ctl.choice.job;
    } else if a.FailNext? {
      assert Listed(s, s.sched.ctl.rows[0]);
    }
  }

  lemma AssignChangesOne(s: State, a: Action, id: Uuid)
    requires Enabled(s, a) && a.Assign? && id in s.jobs && s.sched.ctl.choice.job != id
    ensures id in JobsStep(s, a) && JobsStep(s, a)[id] == s.jobs[id]
  {
  }

  /** What stays true of a lost job from `s` on. */
  predicate StaysLost(s: State, s': State, id: Uuid)
    requires id in s.jobs
  {
    && id in s'.history.dropped && s'.history.sends[id] == s.history.sends[id]
    && id in s'.jobs && s'.jobs[id].hirer == s.jobs[id].hirer
    && (s.jobs[id].status in {Pending, Cancelled} ==> s'.jobs[id] == s.jobs[id] || s'.jobs[id].status == Cancelled)
  }

  lemma LostStep(actions: seq<Action>, a: Action, id: Uuid)
    requires id in Run(actions).history.dropped && id in Run(actions).jobs && Run(actions).jobs[id].hirer != NIL_UUID
    ensures StaysLost(Run(actions), Run(actions + [a]), id)
  {
    var s := Run(actions);
    assert (actions + [a])[..|actions|] == actions;
    Reachable(actions);
    ReachableLoss(actions);
    RowStep(actions, a, id);
    if Enabled(s, a) {
      StepKeepsLost(s, a, id);
      if a.Assign? {
        AssignChangesOne(s, a, id);
      }
    }
  }

  lemma {:induction false} LostStaysLost(actions: seq<Action>, more: seq<Action>, id: Uuid)
    requires id in Run(actions).history.dropped && id in Run(actions).jobs && Run(actions).jobs[id].hirer != NIL_UUID
    ensures StaysLost(Run(actions), Run(actions + more), id)
  {
    if more == [] {
      assert actions + more == actions;
    } else {
      var before, a := more[..|more| - 1], more[|more| - 1];
      LostStaysLost(actions, before, id);
      assert actions + before + [a] == actions + more;
      LostStep(actions + before, a, id);
    }
  }

  /** Once given up, a real user's job never returns to the cache and is never dispatched again; if
      its row says `pending`, that can only ever change to `cancelled`. */
  lemma LostForGood(actions: seq<Action>, more: seq<Action>, id: Uuid)
    requires id in Run(actions).history.dropped && id in Run(actions).jobs && Run(actions).jobs[id].hirer != NIL_UUID
    ensures var s, s' := Run(actions), Run(actions + more);
            && id !in s'.sched.pending
            && s'.history.sends[id] == s.history.sends[id]
            && id in s'.jobs
            && (s.jobs[id].status == Pending ==> s'.jobs[id] == s.jobs[id] || s'.jobs[id].status == Cancelled)
  {
    LostStaysLost(actions, more, id);
    Reachable(actions + more);
    assert Cached(Run(actions + more), id);
  }
}
