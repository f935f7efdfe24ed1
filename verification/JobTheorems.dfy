// The promises of the job protocol, for every schedule of every actor.
module JobTheorems {
  import opened Types
  import opened JobProtocol
  import opened JobSafety

  // ── Lifecycle ──────────────────────────────────────────────────────────────────────────

  /** In every reachable state nothing is `running`, an assigned or completed row has a worker and
      an assignment time, and a terminal row has a finish time. */
  lemma RowsAreSound(actions: seq<Action>, id: Uuid)
    requires id in Run(actions).jobs
    ensures Run(actions).jobs[id].id == id && RowOk(Run(actions).jobs[id])
  {
    Reachable(actions);
  }

  lemma RowStep(actions: seq<Action>, a: Action, id: Uuid)
    requires id in Run(actions).jobs
    ensures id in Run(actions + [a]).jobs && Follows(Run(actions).jobs[id], Run(actions + [a]).jobs[id], a)
  {
    Reachable(actions);
    assert (actions + [a])[..|actions|] == actions;
    if Enabled(Run(actions), a) {
      StepFollows(Run(actions), a, id);
    }
  }

  /** Once completed or cancelled, a row never changes again, whatever races are under way. */
  lemma {:induction false} FinishedForGood(actions: seq<Action>, more: seq<Action>, id: Uuid)
    requires id in Run(actions).jobs && Run(actions).jobs[id].status in {Completed, Cancelled}
    ensures id in Run(actions + more).jobs && Run(actions + more).jobs[id] == Run(actions).jobs[id]
  {
    if more == [] {
      assert actions + more == actions;
    } else {
      var before, a := more[..|more| - 1], more[|more| - 1];
      FinishedForGood(actions, before, id);
      RowStep(actions + before, a, id);
      assert actions + before + [a] == actions + more;
    }
  }

  /** `failed` is left only by the reset after a worker went offline, and only for a job whose
      hirer is the nil UUID; a real user's failed job stays failed. */
  lemma {:induction false} FailedForGood(actions: seq<Action>, more: seq<Action>, id: Uuid)
    requires id in Run(actions).jobs && Run(actions).jobs[id].status == Failed
    requires Run(actions).jobs[id].hirer != NIL_UUID || forall a :: a in more ==> !a.ResetNext?
    ensures id in Run(actions + more).jobs && Run(actions + more).jobs[id] == Run(actions).jobs[id]
  {
    if more == [] {
      assert actions + more == actions;
    } else {
      var before, a := more[..|more| - 1], more[|more| - 1];
      assert forall b :: b in before ==> b in more;
      assert a in more;
      FailedForGood(actions, before, id);
      RowStep(actions + before, a, id);
      assert actions + before + [a] == actions + more;
      if Run(actions).jobs[id].hirer != NIL_UUID {
        DispatchCounts(actions + before, id);
        DispatchCounts(actions + more, id);
      }
    }
  }

  // ── No lost job ────────────────────────────────────────────────────────────────────────

  /** An enqueued job whose row says `pending` is in the scheduler's cache exactly unless the
      scheduler gave it up after a failed read. */
  lemma NoLostJob(actions: seq<Action>, id: Uuid)
    requires id in Run(actions).history.enqueued && id in Run(actions).jobs
    requires Run(actions).jobs[id].status == Pending
    ensures id in Run(actions).sched.pending <==> id !in Run(actions).history.dropped
  {
    Reachable(actions);
    assert Cached(Run(actions), id);
  }

  predicate ReadsSucceed(actions: seq<Action>) {
    forall a :: a in actions && a.ReadRow? ==> a.fate == Ran
  }

  /** While database reads succeed, no pending job is ever missing from the cache. */
  lemma NoLostJobWhileReadsSucceed(actions: seq<Action>, id: Uuid)
    requires ReadsSucceed(actions)
    requires id in Run(actions).history.enqueued && id in Run(actions).jobs
    requires Run(actions).jobs[id].status == Pending
    ensures id in Run(actions).sched.pending
  {
    NoLostJob(actions, id);
    NothingDropped(actions);
  }

  /** A job is given up only when a read fails. */
  lemma ReadsKeepDropped(s: State, a: Action)
    requires Enabled(s, a) && s.history.dropped == {} && (forall id :: Cached(s, id))
    requires a.ReadRow? ==> a.fate == Ran
    ensures HistoryStep(s, a).dropped == {}
  {
    if a.ReadRow? {
      assert Cached(s, s.sched.ctl.todo[0]);
    }
  }

  lemma {:induction false} NothingDropped(actions: seq<Action>)
    requires ReadsSucceed(actions)
    ensures Run(actions).history.dropped == {}
  {
    if actions != [] {
      var before, a := actions[..|actions| - 1], actions[|actions| - 1];
      assert forall b :: b in before ==> b in actions;
      assert a in actions;
      NothingDropped(before);
      Reachable(before);
      if Enabled(Run(before), a) {
        ReadsKeepDropped(Run(before), a);
      }
    }
  }

  // ── Dispatch ───────────────────────────────────────────────────────────────────────────

  /** Assigns sent never exceed won assignments, which never exceed one plus the resets (and equal
      the resets while the job is pending); only a nil hirer's job is ever reset. */
  lemma DispatchCounts(actions: seq<Action>, id: Uuid)
    ensures var s := Run(actions);
            && s.history.sends[id] <= s.history.wins[id] <= 1 + s.history.resets[id]
            && (id in s.jobs && s.jobs[id].status == Pending ==> s.history.wins[id] == s.history.resets[id])
            && (id in s.jobs && s.jobs[id].status in {Assigned, Completed, Failed} ==>
                  s.history.wins[id] == 1 + s.history.resets[id])
            && (id in s.jobs && s.jobs[id].hirer != NIL_UUID ==> s.history.resets[id] == 0)
  {
    Reachable(actions);
    assert Counted(Run(actions), id);
    assert id in Run(actions).jobs ==> RowOk(Run(actions).jobs[id]);
  }

  /** A real user's job is dispatched at most once. */
  lemma DispatchedAtMostOnce(actions: seq<Action>, id: Uuid)
    requires id in Run(actions).jobs && Run(actions).jobs[id].hirer != NIL_UUID
    ensures Run(actions).history.sends[id] <= 1
  {
    DispatchCounts(actions, id);
  }

  /** Every Assign goes to a worker that is online, idle, eligible for the job's own request, not
      tried before for this job, and of maximal score among all such workers. */
  lemma AssignGoesToBest(actions: seq<Action>)
    requires Run(actions).sched.ctl.Send?
    ensures var s := Run(actions);
            var c := s.sched.ctl.choice;
            && c.job in s.jobs && c.request == RequestOf(s.jobs[c.job])
            && IsBestWorker(s.sched, c)
  {
    Reachable(actions);
    BestChoiceMeaning(Run(actions).sched, Run(actions).sched.ctl.choice);
  }

  /** No worker is ever twice in the tried list of a job. */
  lemma TriedOnce(actions: seq<Action>, id: Uuid)
    requires id in Run(actions).sched.pending
    ensures Distinct(Run(actions).sched.pending[id])
  {
    Reachable(actions);
  }

  // ── Attribution ────────────────────────────────────────────────────────────────────────

  /** The row names the one peer that was ever sent the job, and that peer reported its success. */
  predicate WellAttributed(s: State, id: Uuid)
    requires id in s.jobs
  {
    && s.jobs[id].worker.Some?
    && (s.jobs[id].worker.value, id) in s.history.sentTo
    && (forall t :: t in s.history.sentTo && t.1 == id ==> t.0 == s.jobs[id].worker.value)
    && Report(s.jobs[id].worker.value, id, true) in s.history.reports
  }

  /** A completed job that was never reset is well attributed, whoever its hirer is. */
  lemma CompletedWithoutReset(actions: seq<Action>, id: Uuid)
    requires id in Run(actions).jobs
    requires Run(actions).history.resets[id] == 0 && Run(actions).jobs[id].status == Completed
    ensures WellAttributed(Run(actions), id)
  {
    Reachable(actions);
    var s := Run(actions);
    assert Attributed(s, id);
    var r := Report(s.jobs[id].worker.value, id, true);
    assert r in s.history.reports && (r.peer, r.job) in s.history.sentTo;
    forall t | t in s.history.sentTo && t.1 == id
      ensures t.0 == s.jobs[id].worker.value
    {
      assert t == (t.0, id) && NamesPeer(s, t.0, id);
    }
  }

  /** A real user's completed job is always well attributed. */
  lemma CompletedByNamedPeer(actions: seq<Action>, id: Uuid)
    requires id in Run(actions).jobs
    requires Run(actions).jobs[id].hirer != NIL_UUID && Run(actions).jobs[id].status == Completed
    ensures WellAttributed(Run(actions), id)
  {
    DispatchCounts(actions, id);
    CompletedWithoutReset(actions, id);
  }
}
