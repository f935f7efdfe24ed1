// What callers must keep to so that the accounting holds of concurrent ledgers: a settlement or a
// refund begins only for a reservation that its caller knows to have succeeded, and no two of them
// close the same reservation.
module LedgerDiscipline {
  import opened Types
  import opened Ledger
  import opened LedgerTransactions
  import opened LedgerAccounting

  /** Which reservation, by its transaction, a closing transaction is meant for. */
  type Claims = map<nat, nat>

  predicate Closing(op: Op) {
    op.Settle? || op.RefundFull?
  }

  /** The finished transaction `r` is a reservation that was answered with success and that `op` closes. */
  predicate IsReservationOf(f: Finished, r: nat, op: Op) {
    && f.id == r && f.op.Reserve? && f.outcome.Returned?
    && Closing(op) && op.hirer == f.op.hirer && op.job == f.op.job && op.amount == f.op.amount
  }

  /** The ledger itself reported the error; nothing was changed. */
  predicate Refused(f: Finished) {
    f.answered && f.outcome.Error?
  }

  /** The transaction had no effect. A caller cannot tell a connection that died before COMMIT from a
      COMMIT that went unanswered, so only one that closes a reservation at most once is always safe. */
  predicate HadNoEffect(s: Sys, t: nat) {
    t in s.dropped || exists i :: 0 <= i < |s.done| && s.done[i].id == t && Refused(s.done[i])
  }

  /** A closing transaction begins after its reservation is known to have succeeded, and after all
      earlier attempts to close it, if any, had no effect. */
  ghost predicate MayBegin(s: Sys, t: nat, op: Op, claims: Claims) {
    match op
    case Allocate(_, amount) => amount > 0
    case Reserve(_, _, amount) => amount >= 0
    case _ =>
      && t in claims
      && (exists i :: 0 <= i < |s.done| && IsReservationOf(s.done[i], claims[t], op))
      && (forall u :: u in s.begun && Closing(s.begun[u]) && u in claims && claims[u] == claims[t] ==>
            HadNoEffect(s, u))
  }

  /** Every transaction that begins may begin. */
  ghost predicate Disciplined(db: Db, actions: seq<Action>, claims: Claims) {
    actions == []
    || (var before, a := actions[..|actions| - 1], actions[|actions| - 1];
        && Disciplined(db, before, claims)
        && (a.Begin? && Enabled(Run(Init(db), before), a) ==> MayBegin(Run(Init(db), before), a.t, a.op, claims)))
  }

  // ── Running transactions and the books ─────────────────────────────────────────────────

  predicate SameTerms(r: Reservation, op: Op) {
    !op.Allocate? && op.hirer == r.hirer && op.job == r.job && op.amount == r.amount
  }

  /** `slot` says where the books keep the reservation that a transaction made. */
  ghost predicate SlotsInv(done: seq<Finished>, rs: seq<Reservation>, slot: map<nat, nat>) {
    && (forall r :: r in slot ==> slot[r] < |rs|)
    && (forall r, q :: r in slot && q in slot && r != q ==> slot[r] != slot[q])
    && (forall i :: 0 <= i < |done| && done[i].op.Reserve? && done[i].outcome.Returned? ==>
          done[i].id in slot && slot[done[i].id] < |rs| && SameTerms(rs[slot[done[i].id]], done[i].op))
  }

  /** A closing transaction that may have had an effect ended for this reservation. */
  predicate ClosedBySomeone(done: seq<Finished>, claims: Claims, r: nat) {
    exists i :: 0 <= i < |done| && Closes(done[i], claims, r)
  }

  predicate Closes(f: Finished, claims: Claims, r: nat) {
    Closing(f.op) && f.id in claims && claims[f.id] == r && !Refused(f)
  }

  ghost predicate ClosedInv(done: seq<Finished>, rs: seq<Reservation>, slot: map<nat, nat>, claims: Claims) {
    forall r :: r in slot && slot[r] < |rs| && !rs[slot[r]].open ==> ClosedBySomeone(done, claims, r)
  }

  /** A running transaction has a proper amount; a closing one has an open reservation of its own. */
  predicate Backed(op: Op, t: nat, rs: seq<Reservation>, slot: map<nat, nat>, claims: Claims) {
    match op
    case Allocate(_, amount) => amount > 0
    case Reserve(_, _, amount) => amount >= 0
    case _ =>
      && t in claims && claims[t] in slot && slot[claims[t]] < |rs|
      && rs[slot[claims[t]]].open && SameTerms(rs[slot[claims[t]]], op)
  }

  ghost predicate RunningInv(txns: map<nat, Txn>, rs: seq<Reservation>, slot: map<nat, nat>, claims: Claims) {
    && (forall t :: t in txns ==> Backed(txns[t].op, t, rs, slot, claims))
    && (forall t, u :: t in txns && u in txns && t != u && Closing(txns[t].op) && Closing(txns[u].op) ==>
          t in claims && u in claims && claims[t] != claims[u])
  }

  ghost predicate Linked(s: Sys, rs: seq<Reservation>, slot: map<nat, nat>, claims: Claims) {
    && SlotsInv(s.done, rs, slot) && slot.Keys <= DoneIds(s)
    && ClosedInv(s.done, rs, slot, claims)
    && RunningInv(s.txns, rs, slot, claims)
  }

  lemma EffectiveEnd(s: Sys, k: nat)
    requires BookkeepingInv(s) && k < |s.done| && !Refused(s.done[k])
    ensures s.done[k].id in s.begun && s.begun[s.done[k].id] == s.done[k].op && !HadNoEffect(s, s.done[k].id)
  {
    assert s.done[k].id in DoneIds(s);
  }

  /** A closing transaction that may begin finds its reservation open. */
  lemma BeginIsBacked(s: Sys, t: nat, op: Op, rs: seq<Reservation>, slot: map<nat, nat>, claims: Claims)
    requires Linked(s, rs, slot, claims) && BookkeepingInv(s) && MayBegin(s, t, op, claims)
    ensures Backed(op, t, rs, slot, claims)
  {
    if Closing(op) {
      var r := claims[t];
      var i :| 0 <= i < |s.done| && IsReservationOf(s.done[i], r, op);
      if ClosedBySomeone(s.done, claims, r) {
        var k :| 0 <= k < |s.done| && Closes(s.done[k], claims, r);
        EffectiveEnd(s, k);
        assert false;
      }
    }
  }

  lemma RunningHasNotEnded(s: Sys, t: nat)
    requires BookkeepingInv(s) && t in s.txns
    ensures t in s.begun && s.begun[t] == s.txns[t].op && !HadNoEffect(s, t)
  {
    assert forall i :: 0 <= i < |s.done| ==> s.done[i].id in DoneIds(s);
  }

  /** A closing transaction that may begin claims what no running one claims. */
  lemma BeginIsAlone(s: Sys, t: nat, op: Op, claims: Claims, u: nat)
    requires BookkeepingInv(s) && MayBegin(s, t, op, claims)
    requires u in s.txns && Closing(op) && Closing(s.txns[u].op) && u in claims
    ensures claims[u] != claims[t]
  {
    RunningHasNotEnded(s, u);
  }

  lemma RunningWithOneMore(txns: map<nat, Txn>, t: nat, x: Txn, rs: seq<Reservation>, slot: map<nat, nat>,
                           claims: Claims)
    requires RunningInv(txns, rs, slot, claims) && t !in txns && Backed(x.op, t, rs, slot, claims)
    requires forall u :: u in txns && Closing(txns[u].op) && Closing(x.op) ==> u in claims && claims[u] != claims[t]
    ensures RunningInv(txns[t := x], rs, slot, claims)
  {
  }

  lemma BeginKeepsRunning(s: Sys, t: nat, op: Op, rs: seq<Reservation>, slot: map<nat, nat>, claims: Claims)
    requires Linked(s, rs, slot, claims) && BookkeepingInv(s) && t !in s.txns && MayBegin(s, t, op, claims)
    ensures RunningInv(s.txns[t := Txn(op, Program(op), 0, FRESH)], rs, slot, claims)
  {
    BeginIsBacked(s, t, op, rs, slot, claims);
    forall u | u in s.txns && Closing(s.txns[u].op) && Closing(op)
      ensures u in claims && claims[u] != claims[t]
    {
      assert Backed(s.txns[u].op, u, rs, slot, claims);
      BeginIsAlone(s, t, op, claims, u);
    }
    RunningWithOneMore(s.txns, t, Txn(op, Program(op), 0, FRESH), rs, slot, claims);
  }

  lemma BeginKeepsLinked(s: Sys, t: nat, op: Op, rs: seq<Reservation>, slot: map<nat, nat>, claims: Claims)
    requires Linked(s, rs, slot, claims) && BookkeepingInv(s) && Enabled(s, Begin(t, op)) && MayBegin(s, t, op, claims)
    ensures Linked(Apply(s, Begin(t, op)), rs, slot, claims)
  {
    BeginKeepsRunning(s, t, op, rs, slot, claims);
  }

  // ── Ending ─────────────────────────────────────────────────────────────────────────────

  /** The use of the books that a running transaction amounts to. */
  function UseOf(op: Op, t: nat, slot: map<nat, nat>, claims: Claims): Use
    requires Closing(op) ==> t in claims && claims[t] in slot
  {
    match op
    case Allocate(user, amount) => Grant(user, amount)
    case Reserve(hirer, job, amount) => Hold(hirer, job, amount)
    case Settle(_, worker, _, _, secs, backend) => Close(slot[claims[t]], worker, secs, backend)
    case RefundFull(_, _, _) => GiveBack(slot[claims[t]])
  }

  lemma UseIsProper(op: Op, t: nat, b: Books, slot: map<nat, nat>, claims: Claims)
    requires Backed(op, t, b.reservations, slot, claims)
    ensures Proper(b, UseOf(op, t, slot, claims)) && OpOf(b, UseOf(op, t, slot, claims)) == op
  {
  }

  function SlotsAfter(f: Finished, rs: seq<Reservation>, slot: map<nat, nat>): map<nat, nat> {
    if f.op.Reserve? && f.outcome.Returned? then slot[f.id := |rs|] else slot
  }

  lemma ClosedStays(done: seq<Finished>, f: Finished, claims: Claims, r: nat)
    requires ClosedBySomeone(done, claims, r)
    ensures ClosedBySomeone(done + [f], claims, r)
  {
    var i :| 0 <= i < |done| && Closes(done[i], claims, r);
    assert Closes((done + [f])[i], claims, r);
  }

  /** A transaction ends that neither makes nor closes a reservation. */
  lemma IdleEnd(done: seq<Finished>, f: Finished, rs: seq<Reservation>, slot: map<nat, nat>, claims: Claims)
    requires SlotsInv(done, rs, slot) && ClosedInv(done, rs, slot, claims)
    requires !(f.op.Reserve? && f.outcome.Returned?)
    ensures SlotsInv(done + [f], rs, slot) && ClosedInv(done + [f], rs, slot, claims)
  {
    forall r | r in slot && slot[r] < |rs| && !rs[slot[r]].open
      ensures ClosedBySomeone(done + [f], claims, r)
    {
      ClosedStays(done, f, claims, r);
    }
  }

  function Held(op: Op): Reservation
    requires op.Reserve?
  {
    Reservation(op.job, op.hirer, op.amount, true)
  }

  /** A reservation succeeds and is answered. */
  lemma HoldGetsSlot(done: seq<Finished>, f: Finished, rs: seq<Reservation>, slot: map<nat, nat>)
    requires SlotsInv(done, rs, slot) && f.op.Reserve? && f.id !in slot
    ensures SlotsInv(done + [f], rs + [Held(f.op)], slot[f.id := |rs|])
  {
    var rs', slot' := rs + [Held(f.op)], slot[f.id := |rs|];
    forall i | 0 <= i < |done| && done[i].op.Reserve? && done[i].outcome.Returned?
      ensures done[i].id in slot' && slot'[done[i].id] < |rs'| && SameTerms(rs'[slot'[done[i].id]], done[i].op)
    {
      assert done[i].id in slot && slot'[done[i].id] == slot[done[i].id] < |rs|;
    }
  }

  /** A reservation succeeds but goes unanswered. */
  lemma HoldWithoutSlot(done: seq<Finished>, f: Finished, rs: seq<Reservation>, slot: map<nat, nat>)
    requires SlotsInv(done, rs, slot) && f.op.Reserve? && f.outcome.Error?
    ensures SlotsInv(done + [f], rs + [Held(f.op)], slot)
  {
    var rs' := rs + [Held(f.op)];
    forall i | 0 <= i < |done| && done[i].op.Reserve? && done[i].outcome.Returned?
      ensures done[i].id in slot && slot[done[i].id] < |rs'| && SameTerms(rs'[slot[done[i].id]], done[i].op)
    {
      assert done[i].id in slot && slot[done[i].id] < |rs|;
    }
  }

  lemma HoldKeepsClosed(done: seq<Finished>, f: Finished, rs: seq<Reservation>, slot: map<nat, nat>,
                        slot': map<nat, nat>, claims: Claims)
    requires ClosedInv(done, rs, slot, claims) && f.op.Reserve? && (slot' == slot || slot' == slot[f.id := |rs|])
    ensures ClosedInv(done + [f], rs + [Held(f.op)], slot', claims)
  {
    var rs' := rs + [Held(f.op)];
    forall r | r in slot' && slot'[r] < |rs'| && !rs'[slot'[r]].open
      ensures ClosedBySomeone(done + [f], claims, r)
    {
      assert slot'[r] != |rs|;
      assert r in slot && slot[r] == slot'[r] && rs'[slot[r]] == rs[slot[r]];
      ClosedStays(done, f, claims, r);
    }
  }

  lemma HoldEnd(done: seq<Finished>, f: Finished, rs: seq<Reservation>, slot: map<nat, nat>, claims: Claims)
    requires SlotsInv(done, rs, slot) && ClosedInv(done, rs, slot, claims)
    requires f.op.Reserve? && f.id !in slot
    ensures SlotsInv(done + [f], rs + [Held(f.op)], SlotsAfter(f, rs, slot))
    ensures ClosedInv(done + [f], rs + [Held(f.op)], SlotsAfter(f, rs, slot), claims)
  {
    HoldKeepsClosed(done, f, rs, slot, SlotsAfter(f, rs, slot), claims);
    if f.outcome.Returned? {
      HoldGetsSlot(done, f, rs, slot);
    } else {
      HoldWithoutSlot(done, f, rs, slot);
    }
  }

  /** A reservation is closed. */
  lemma CloseEnd(done: seq<Finished>, f: Finished, rs: seq<Reservation>, slot: map<nat, nat>, claims: Claims)
    requires SlotsInv(done, rs, slot) && ClosedInv(done, rs, slot, claims)
    requires f.id in claims && claims[f.id] in slot && Closes(f, claims, claims[f.id])
    ensures var i := slot[claims[f.id]];
            var rs' := rs[i := rs[i].(open := false)];
            SlotsInv(done + [f], rs', slot) && ClosedInv(done + [f], rs', slot, claims)
  {
    var i := slot[claims[f.id]];
    var rs' := rs[i := rs[i].(open := false)];
    forall r | r in slot && slot[r] < |rs'| && !rs'[slot[r]].open
      ensures ClosedBySomeone(done + [f], claims, r)
    {
      if r == claims[f.id] {
        assert Closes((done + [f])[|done|], claims, r);
      } else {
        assert slot[r] != i && !rs[slot[r]].open;
        ClosedStays(done, f, claims, r);
      }
    }
  }

  /** Ending one transaction leaves the others backed, if only its own reservation is touched. */
  lemma OthersStayBacked(txns: map<nat, Txn>, t: nat, rs: seq<Reservation>, rs': seq<Reservation>,
                         slot: map<nat, nat>, slot': map<nat, nat>, claims: Claims)
    requires RunningInv(txns, rs, slot, claims) && t in txns
    requires |rs| <= |rs'| && forall r :: r in slot ==> r in slot' && slot'[r] == slot[r]
    requires forall r :: r in slot && slot[r] < |rs| && rs'[slot[r]] != rs[slot[r]] ==>
               Closing(txns[t].op) && t in claims && claims[t] == r
    ensures RunningInv(txns - {t}, rs', slot', claims)
  {
    forall u | u in txns && u != t
      ensures Backed(txns[u].op, u, rs', slot', claims)
    {
      assert Backed(txns[u].op, u, rs, slot, claims);
    }
  }

  /** What a use does to the reservations. */
  lemma DoReservations(b: Books, use: Use)
    requires Proper(b, use)
    ensures var rs, rs' := b.reservations, Do(b, use).reservations;
            if Effect(b.db, OpOf(b, use)).1.Error? then rs' == rs
            else
              match use
              case Grant(_, _) => rs' == rs
              case Hold(hirer, job, amount) => rs' == rs + [Reservation(job, hirer, amount, true)]
              case Close(i, _, _, _) => rs' == rs[i := rs[i].(open := false)]
              case GiveBack(i) => rs' == rs[i := rs[i].(open := false)]
  {
  }

  /** The finished transaction and its use of the books do the same to the reservations. */
  lemma EndKeepsSlots(done: seq<Finished>, f: Finished, b: Books, slot: map<nat, nat>, claims: Claims)
    requires SlotsInv(done, b.reservations, slot) && ClosedInv(done, b.reservations, slot, claims)
    requires Backed(f.op, f.id, b.reservations, slot, claims) && f.id !in slot && Fits(f, Effect(b.db, f.op).1)
    ensures var rs' := Do(b, UseOf(f.op, f.id, slot, claims)).reservations;
            var slot' := SlotsAfter(f, b.reservations, slot);
            SlotsInv(done + [f], rs', slot') && ClosedInv(done + [f], rs', slot', claims)
  {
    var use := UseOf(f.op, f.id, slot, claims);
    UseIsProper(f.op, f.id, b, slot, claims);
    DoReservations(b, use);
    if Effect(b.db, f.op).1.Error? || f.op.Allocate? {
      IdleEnd(done, f, b.reservations, slot, claims);
    } else if f.op.Reserve? {
      HoldEnd(done, f, b.reservations, slot, claims);
    } else {
      assert Closes(f, claims, claims[f.id]);
      CloseEnd(done, f, b.reservations, slot, claims);
    }
  }

  lemma EndKeepsRunning(txns: map<nat, Txn>, f: Finished, b: Books, slot: map<nat, nat>, claims: Claims)
    requires RunningInv(txns, b.reservations, slot, claims) && f.id in txns && txns[f.id].op == f.op && f.id !in slot
    requires forall r :: r in slot ==> slot[r] < |b.reservations|
    requires forall r, q :: r in slot && q in slot && r != q ==> slot[r] != slot[q]
    ensures Backed(f.op, f.id, b.reservations, slot, claims)
    ensures RunningInv(txns - {f.id}, Do(b, UseOf(f.op, f.id, slot, claims)).reservations,
                       SlotsAfter(f, b.reservations, slot), claims)
  {
    assert Backed(txns[f.id].op, f.id, b.reservations, slot, claims);
    var use := UseOf(f.op, f.id, slot, claims);
    UseIsProper(f.op, f.id, b, slot, claims);
    DoReservations(b, use);
    OthersStayBacked(txns, f.id, b.reservations, Do(b, use).reservations, slot,
                     SlotsAfter(f, b.reservations, slot), claims);
  }

  lemma EndKeepsLinked(s: Sys, s': Sys, f: Finished, b: Books, slot: map<nat, nat>, claims: Claims)
    requires Linked(s, b.reservations, slot, claims) && BookkeepingInv(s) && s.db == b.db
    requires f.id in s.txns && s.txns[f.id].op == f.op && Fits(f, Effect(s.db, f.op).1)
    requires s'.txns == s.txns - {f.id} && s'.done == s.done + [f]
    ensures Backed(f.op, f.id, b.reservations, slot, claims)
    ensures Linked(s', Do(b, UseOf(f.op, f.id, slot, claims)).reservations, SlotsAfter(f, b.reservations, slot), claims)
  {
    DoneIdsAppend(s, s', f);
    EndKeepsRunning(s.txns, f, b, slot, claims);
    EndKeepsSlots(s.done, f, b, slot, claims);
  }

  // ── Main result ────────────────────────────────────────────────────────────────────────

  /** What a transaction gets that ends in a step is what its operation gets alone. */
  lemma EndIsSerial(db: Db, actions: seq<Action>, a: Action)
    requires Enabled(Run(Init(db), actions), a) && Ends(a)
    ensures var s := Run(Init(db), actions);
            Fits(EndOf(s, a.t, !a.CommitUnanswered?), Effect(s.db, s.txns[a.t].op).1)
  {
    var s, s' := Run(Init(db), actions), Run(Init(db), actions + [a]);
    assert (actions + [a])[..|actions|] == actions;
    Serializable(db, actions);
    Serializable(db, actions + [a]);
    assert OutcomeIsSerial(db, s'.done, |s.done|);
    assert s'.done[..|s.done|] == s.done;
  }

  lemma DoneOpsAppend(done: seq<Finished>, f: Finished)
    ensures DoneOps(done + [f]) == DoneOps(done) + [f.op]
  {
    assert (done + [f])[..|done|] == done;
  }

  lemma OpsOfAppend(b: Books, uses: seq<Use>, use: Use)
    requires Proper(After(b, uses), use)
    ensures OpsOf(b, uses + [use]) == OpsOf(b, uses) + [OpOf(After(b, uses), use)]
    ensures After(b, uses + [use]) == Do(After(b, uses), use)
  {
    assert (uses + [use])[..|uses|] == uses;
  }

  lemma ExecuteKeepsLinked(s: Sys, t: nat, rs: seq<Reservation>, slot: map<nat, nat>, claims: Claims)
    requires Linked(s, rs, slot, claims) && Enabled(s, Execute(t))
    ensures Linked(Apply(s, Execute(t)), rs, slot, claims)
  {
    var s' := Apply(s, Execute(t));
    forall u | u in s'.txns
      ensures Backed(s'.txns[u].op, u, rs, slot, claims)
    {
      assert Backed(s.txns[u].op, u, rs, slot, claims);
    }
  }

  lemma DisconnectKeepsLinked(s: Sys, t: nat, rs: seq<Reservation>, slot: map<nat, nat>, claims: Claims)
    requires Linked(s, rs, slot, claims) && t in s.txns
    ensures Linked(Apply(s, Disconnect(t)), rs, slot, claims)
  {
    OthersStayBacked(s.txns, t, rs, rs, slot, slot, claims);
  }

  predicate Ends(a: Action) {
    a.Commit? || a.CommitUnanswered? || a.Rollback?
  }

  /** The books follow the finished transactions. */
  ghost predicate Followed(accounts: set<Uuid>, s: Sys, uses: seq<Use>, slot: map<nat, nat>, claims: Claims) {
    && DoneOps(s.done) == OpsOf(Start(accounts), uses)
    && Linked(s, After(Start(accounts), uses).reservations, slot, claims)
  }

  lemma EndIsFollowed(accounts: set<Uuid>, s: Sys, s': Sys, f: Finished, claims: Claims, uses: seq<Use>,
                      slot: map<nat, nat>)
    returns (uses': seq<Use>, slot': map<nat, nat>)
    requires Followed(accounts, s, uses, slot, claims) && BookkeepingInv(s) && s.db == After(Start(accounts), uses).db
    requires f.id in s.txns && s.txns[f.id].op == f.op && Fits(f, Effect(s.db, f.op).1)
    requires s'.txns == s.txns - {f.id} && s'.done == s.done + [f]
    ensures Followed(accounts, s', uses', slot', claims)
  {
    var b := After(Start(accounts), uses);
    EndKeepsLinked(s, s', f, b, slot, claims);
    var use := UseOf(f.op, f.id, slot, claims);
    UseIsProper(f.op, f.id, b, slot, claims);
    DoneOpsAppend(s.done, f);
    OpsOfAppend(Start(accounts), uses, use);
    uses', slot' := uses + [use], SlotsAfter(f, b.reservations, slot);
  }

  /** The uses and slots after one more action. */
  lemma StepIsFollowed(accounts: set<Uuid>, actions: seq<Action>, a: Action, claims: Claims, uses: seq<Use>,
                       slot: map<nat, nat>)
    returns (uses': seq<Use>, slot': map<nat, nat>)
    requires Followed(accounts, Run(Init(Start(accounts).db), actions), uses, slot, claims)
    requires var s := Run(Init(Start(accounts).db), actions);
             a.Begin? && Enabled(s, a) ==> MayBegin(s, a.t, a.op, claims)
    ensures Followed(accounts, Step(Run(Init(Start(accounts).db), actions), a), uses', slot', claims)
  {
    var s := Run(Init(Start(accounts).db), actions);
    var rs := After(Start(accounts), uses).reservations;
    uses', slot' := uses, slot;
    Serializable(Start(accounts).db, actions);
    if Enabled(s, a) {
      if Ends(a) {
        TablesOfUses(accounts, actions, uses);
        EndIsSerial(Start(accounts).db, actions, a);
        var f := EndOf(s, a.t, !a.CommitUnanswered?);
        uses', slot' := EndIsFollowed(accounts, s, Apply(s, a), f, claims, uses, slot);
      } else if a.Begin? {
        BeginKeepsLinked(s, a.t, a.op, rs, slot, claims);
      } else if a.Execute? {
        ExecuteKeepsLinked(s, a.t, rs, slot, claims);
      } else {
        DisconnectKeepsLinked(s, a.t, rs, slot, claims);
      }
    }
  }

  lemma {:induction false} DisciplinedUses(accounts: set<Uuid>, actions: seq<Action>, claims: Claims)
    returns (uses: seq<Use>, slot: map<nat, nat>)
    requires Disciplined(Start(accounts).db, actions, claims)
    ensures Followed(accounts, Run(Init(Start(accounts).db), actions), uses, slot, claims)
  {
    if actions == [] {
      uses, slot := [], map[];
    } else {
      var before, a := actions[..|actions| - 1], actions[|actions| - 1];
      uses, slot := DisciplinedUses(accounts, before, claims);
      uses, slot := StepIsFollowed(accounts, before, a, claims, uses, slot);
    }
  }

  /** The accounting holds of concurrent ledgers whose callers are disciplined: the operations that
      finished are a run of proper uses, and the tables are what that run leaves. */
  lemma ConcurrentAccounting(accounts: set<Uuid>, actions: seq<Action>, claims: Claims) returns (uses: seq<Use>)
    requires Disciplined(Start(accounts).db, actions, claims)
    ensures var s := Run(Init(Start(accounts).db), actions);
            && DoneOps(s.done) == OpsOf(Start(accounts), uses)
            && s.db == After(Start(accounts), uses).db
    ensures BooksInv(After(Start(accounts), uses)) && Conserved(After(Start(accounts), uses))
  {
    var slot;
    uses, slot := DisciplinedUses(accounts, actions, claims);
    TablesOfUses(accounts, actions, uses);
    Accounting(accounts, uses);
  }
}
