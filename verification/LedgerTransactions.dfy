// Concurrent ledger transactions: every SQL statement is one atomic step, a row stays locked
// from the statement that first touches it until its transaction ends, and a transaction's
// own writes become visible to others when it commits.
module LedgerTransactions {
  import opened Types
  import opened Ledger
  import opened Sums

  // ── Programs ───────────────────────────────────────────────────────────────────────────

  datatype Stmt =
    | SelectForUpdate(user: Uuid, mustExist: bool)
    | CheckAvailable(user: Uuid, amount: int)   // Rust code over the row just read
    | SetBalance(user: Uuid, amount: int)       // writes the balance computed from that row
    | Add(user: Uuid, db: int, dr: int)
    | Insert(row: LogRow)

  /** Locks both rows, lower UUID first, before it updates the hirer and then the worker. */
  function SettleProgram(hirer: Uuid, worker: Uuid, job: Uuid, amount: int, refund: int, payout: int)
    : (p: seq<Stmt>)
    ensures 5 <= |p| <= 6
  {
    var (first, second) := if hirer < worker then (hirer, worker) else (worker, hirer);
    [SelectForUpdate(first, false), SelectForUpdate(second, false),
     Add(hirer, refund, -amount), Add(worker, payout, 0)]
    + (if refund > 0 then [Insert(LogRow(hirer, refund, JobRefund, Some(job)))] else [])
    + [Insert(LogRow(worker, payout, JobCredit, Some(job)))]
  }

  /** The statements of each operation, in program order. */
  function Program(op: Op): (p: seq<Stmt>)
    ensures 2 <= |p| <= 6
  {
    match op
    case Allocate(user, amount) =>
      [SelectForUpdate(user, true), SetBalance(user, amount), Insert(LogRow(user, amount, Allocation, None))]
    case Reserve(hirer, job, amount) =>
      [SelectForUpdate(hirer, true), CheckAvailable(hirer, amount), Add(hirer, 0, amount),
       Insert(LogRow(hirer, -amount, JobDebit, Some(job)))]
    case Settle(hirer, worker, job, amount, secs, backend) =>
      var charge := Pricing.Charge(backend, secs, amount);
      SettleProgram(hirer, worker, job, amount, amount - charge, Pricing.Payout(charge))
    case RefundFull(hirer, job, amount) =>
      [Add(hirer, amount, -amount), Insert(LogRow(hirer, amount, JobRefund, Some(job)))]
  }

  /** What one transaction knows and has written so far. */
  datatype Local = Local(read: Option<Balance>, writes: map<Uuid, Balance>, inserted: seq<LogRow>,
                         error: Option<LedgerError>)

  const FRESH := Local(None, map[], [], None)

  function Write(local: Local, user: Uuid, b: Balance): Local {
    if Storable(b) then local.(writes := local.writes[user := b]) else local.(error := Some(Database))
  }

  /** One statement, seeing the committed rows overlaid with the transaction's own writes. */
  function ExecStmt(stmt: Stmt, rows: map<Uuid, Balance>, local: Local): Local {
    var view := rows + local.writes;
    if local.error.Some? then local
    else
      match stmt
      case SelectForUpdate(user, mustExist) =>
        if user in view then local.(read := Some(view[user]))
        else if mustExist then local.(error := Some(NotFound))
        else local
      case CheckAvailable(user, amount) =>
        (match local.read
         case None => local
         case Some(b) =>
           var available := b.balance - b.reserved;
           if available < amount then local.(error := Some(Insufficient(available, amount))) else local)
      case SetBalance(user, amount) =>
        if user in view && local.read.Some? then
          Write(local, user, Balance(local.read.value.balance + amount, view[user].reserved))
        else local
      case Add(user, db, dr) =>
        if user in view then Write(local, user, Balance(view[user].balance + db, view[user].reserved + dr))
        else local
      case Insert(row) => local.(inserted := local.inserted + [row])
  }

  /** The local state after the first `k` statements over fixed rows. */
  function RunTo(p: seq<Stmt>, k: nat, rows: map<Uuid, Balance>): Local
    requires k <= |p|
  {
    if k == 0 then FRESH else ExecStmt(p[k - 1], rows, RunTo(p, k - 1, rows))
  }

  /** What the caller gets once every statement has run. */
  function ReturnOf(op: Op, local: Local): Outcome {
    match local.error
    case Some(e) => Error(e)
    case None =>
      if op.Allocate? && local.read.Some? then Returned(Some(local.read.value.balance + op.amount))
      else Returned(None)
  }

  function Install(db: Db, local: Local): Db {
    Db(db.rows + local.writes, db.log + local.inserted)
  }

  lemma {:induction false} ErrorsStick(p: seq<Stmt>, j: nat, k: nat, rows: map<Uuid, Balance>)
    requires j <= k <= |p| && RunTo(p, j, rows).error.Some?
    ensures RunTo(p, k, rows) == RunTo(p, j, rows)
  {
    if j < k {
      ErrorsStick(p, j, k - 1, rows);
    }
  }

  lemma {:induction false} RunThree(p: seq<Stmt>, rows: map<Uuid, Balance>)
    requires |p| >= 3
    ensures RunTo(p, 3, rows) == ExecStmt(p[2], rows, ExecStmt(p[1], rows, ExecStmt(p[0], rows, FRESH)))
  {
    assert RunTo(p, 1, rows) == ExecStmt(p[0], rows, RunTo(p, 0, rows));
    assert RunTo(p, 2, rows) == ExecStmt(p[1], rows, RunTo(p, 1, rows));
  }

  /** An UPDATE seen through the transaction's own writes is the UPDATE of the whole table. */
  lemma AddIsAddTo(rows: map<Uuid, Balance>, local: Local, user: Uuid, db: int, dr: int)
    requires local.error.None?
    ensures var local' := ExecStmt(Add(user, db, dr), rows, local);
            match AddTo(rows + local.writes, user, db, dr)
            case None => local' == local.(error := Some(Database))
            case Some(rows') => local' == local.(writes := local'.writes) && rows' == rows + local'.writes
  {
    var local' := ExecStmt(Add(user, db, dr), rows, local);
    if user in rows + local.writes {
      var b := (rows + local.writes)[user];
      var b' := Balance(b.balance + db, b.reserved + dr);
      assert (rows + local.writes)[user := b'] == rows + local.writes[user := b'];
    }
  }

  lemma {:induction false} SettleMeansEffect(db: Db, hirer: Uuid, worker: Uuid, job: Uuid, amount: int,
                                             refund: int, payout: int)
    ensures var p := SettleProgram(hirer, worker, job, amount, refund, payout);
            var local := RunTo(p, |p|, db.rows);
            SettleEffect(db, hirer, worker, job, amount, refund, payout)
              == if local.error.Some? then (db, Error(local.error.value)) else (Install(db, local), Returned(None))
  {
    var p := SettleProgram(hirer, worker, job, amount, refund, payout);
    RunThree(p, db.rows);
    var r2 := ExecStmt(p[1], db.rows, ExecStmt(p[0], db.rows, FRESH));
    assert r2.writes == map[] && r2.inserted == [] && r2.error == None;
    assert db.rows + r2.writes == db.rows;
    AddIsAddTo(db.rows, r2, hirer, refund, -amount);
    var r3 := RunTo(p, 3, db.rows);
    if r3.error.Some? {
      ErrorsStick(p, 3, |p|, db.rows);
    } else {
      var r4 := RunTo(p, 4, db.rows);
      assert r4 == ExecStmt(p[3], db.rows, r3);
      AddIsAddTo(db.rows, r3, worker, payout, 0);
      if r4.error.Some? {
        ErrorsStick(p, 4, |p|, db.rows);
      } else {
        var r5 := RunTo(p, 5, db.rows);
        assert r5 == ExecStmt(p[4], db.rows, r4);
        assert |p| == 6 ==> RunTo(p, 6, db.rows) == ExecStmt(p[5], db.rows, r5);
        assert RunTo(p, |p|, db.rows).inserted == SettleRows(hirer, worker, job, refund, payout);
      }
    }
  }

  /** What running a program alone amounts to. */
  function Alone(db: Db, op: Op): (Db, Outcome) {
    var local := RunTo(Program(op), |Program(op)|, db.rows);
    (if local.error.Some? then db else Install(db, local), ReturnOf(op, local))
  }

  lemma {:induction false} AllocateMeansEffect(db: Db, op: Op)
    requires op.Allocate?
    ensures Effect(db, op) == Alone(db, op)
  {
    var p := Program(op);
    RunThree(p, db.rows);
    var local := RunTo(p, 3, db.rows);
    var row := LogRow(op.user, op.amount, Allocation, None);
    if op.user in db.rows && local.error.None? {
      assert (db.rows + FRESH.writes)[op.user] == db.rows[op.user];
      var b := Balance(db.rows[op.user].balance + op.amount, db.rows[op.user].reserved);
      assert local.writes == map[op.user := b] && local.inserted == [row];
      assert db.rows + local.writes == db.rows[op.user := b];
    }
  }

  lemma {:induction false} ReserveMeansEffect(db: Db, op: Op)
    requires op.Reserve?
    ensures Effect(db, op) == Alone(db, op)
  {
    var p := Program(op);
    RunThree(p, db.rows);
    assert RunTo(p, 4, db.rows) == ExecStmt(p[3], db.rows, RunTo(p, 3, db.rows));
    var r2 := ExecStmt(p[1], db.rows, ExecStmt(p[0], db.rows, FRESH));
    assert db.rows + r2.writes == db.rows;
    if r2.error.None? {
      AddIsAddTo(db.rows, r2, op.hirer, 0, op.amount);
      assert RunTo(p, 3, db.rows) == ExecStmt(Add(op.hirer, 0, op.amount), db.rows, r2);
      var row := LogRow(op.hirer, -op.amount, JobDebit, Some(op.job));
      assert RunTo(p, 3, db.rows).error.None? ==> RunTo(p, 4, db.rows).inserted == [row];
    }
  }

  lemma {:induction false} RefundMeansEffect(db: Db, op: Op)
    requires op.RefundFull?
    ensures Effect(db, op) == Alone(db, op)
  {
    var p := Program(op);
    assert db.rows + FRESH.writes == db.rows;
    AddIsAddTo(db.rows, FRESH, op.hirer, op.amount, -op.amount);
    var r1 := ExecStmt(Add(op.hirer, op.amount, -op.amount), db.rows, FRESH);
    assert RunTo(p, 1, db.rows) == ExecStmt(p[0], db.rows, RunTo(p, 0, db.rows)) == r1;
    var row := LogRow(op.hirer, op.amount, JobRefund, Some(op.job));
    assert RunTo(p, 2, db.rows) == ExecStmt(Insert(row), db.rows, r1);
    assert r1.error.None? ==> RunTo(p, 2, db.rows).inserted == [row];
  }

  /** An operation run alone, statement by statement, has exactly its documented effect. */
  lemma {:induction false} ProgramMeansEffect(db: Db, op: Op)
    ensures Effect(db, op) == Alone(db, op)
  {
    match op
    case Allocate(_, _) =>
      AllocateMeansEffect(db, op);
    case Reserve(_, _, _) =>
      ReserveMeansEffect(db, op);
    case Settle(hirer, worker, job, amount, secs, backend) =>
      var charge := Pricing.Charge(backend, secs, amount);
      SettleMeansEffect(db, hirer, worker, job, amount, amount - charge, Pricing.Payout(charge));
    case RefundFull(_, _, _) =>
      RefundMeansEffect(db, op);
  }

  // ── Locks ──────────────────────────────────────────────────────────────────────────────

  /** The row a statement locks, if the row exists. */
  function Target(stmt: Stmt): Option<Uuid> {
    match stmt
    case SelectForUpdate(user, _) => Some(user)
    case SetBalance(user, _) => Some(user)
    case Add(user, _, _) => Some(user)
    case CheckAvailable(_, _) => None
    case Insert(_) => None
  }

  predicate Touched(p: seq<Stmt>, k: nat, r: Uuid)
    requires k <= |p|
  {
    exists i :: 0 <= i < k && Target(p[i]) == Some(r)
  }

  /** Every row is either locked already or above all rows locked so far. */
  lemma LocksAscend(op: Op, k: nat, r: Uuid, held: Uuid)
    requires k < |Program(op)|
    requires Target(Program(op)[k]) == Some(r) && !Touched(Program(op), k, r)
    requires Touched(Program(op), k, held)
    ensures held < r
  {
    var p := Program(op);
    var i :| 0 <= i < k && Target(p[i]) == Some(held);
    if op.Settle? {
      assert Target(p[0]) != Some(r);
      assert k == 1 || Target(p[1]) != Some(r);
    }
  }

  /** A transaction writes only rows it has locked. */
  lemma {:induction false} WritesAreLocked(p: seq<Stmt>, k: nat, rows: map<Uuid, Balance>)
    requires k <= |p|
    ensures forall r :: r in RunTo(p, k, rows).writes ==> r in rows && Touched(p, k, r)
  {
    if k > 0 {
      WritesAreLocked(p, k - 1, rows);
      forall r | r in RunTo(p, k, rows).writes
        ensures r in rows && Touched(p, k, r)
      {
        if r !in RunTo(p, k - 1, rows).writes {
          assert Target(p[k - 1]) == Some(r);
        }
      }
    }
  }

  /** A statement sees no more of the table than which rows exist and what its target holds. */
  lemma TargetDecides(stmt: Stmt, rows: map<Uuid, Balance>, rows': map<Uuid, Balance>, local: Local)
    requires rows.Keys == rows'.Keys
    requires Target(stmt).Some? && Target(stmt).value in rows ==> rows[Target(stmt).value] == rows'[Target(stmt).value]
    ensures ExecStmt(stmt, rows, local) == ExecStmt(stmt, rows', local)
  {
  }

  lemma TouchedGrows(p: seq<Stmt>, k: nat, r: Uuid)
    requires 0 < k <= |p|
    ensures Touched(p, k, r) <==> Touched(p, k - 1, r) || Target(p[k - 1]) == Some(r)
  {
    if Target(p[k - 1]) == Some(r) {
      assert Touched(p, k, r);
    }
  }

  /** What a transaction has done so far depends only on the rows it has locked. */
  lemma {:induction false} LockedRowsDecide(p: seq<Stmt>, k: nat, rows: map<Uuid, Balance>, rows': map<Uuid, Balance>)
    requires k <= |p| && rows.Keys == rows'.Keys
    requires forall r :: r in rows && Touched(p, k, r) ==> rows[r] == rows'[r]
    ensures RunTo(p, k, rows) == RunTo(p, k, rows')
  {
    if k > 0 {
      forall r: Uuid ensures Touched(p, k, r) <==> Touched(p, k - 1, r) || Target(p[k - 1]) == Some(r) {
        TouchedGrows(p, k, r);
      }
      LockedRowsDecide(p, k - 1, rows, rows');
      TargetDecides(p[k - 1], rows, rows', RunTo(p, k - 1, rows));
    }
  }

  // ── The concurrent system ──────────────────────────────────────────────────────────────

  datatype Txn = Txn(op: Op, program: seq<Stmt>, pc: nat, local: Local)

  /** A transaction that ended with `outcome` for its caller; `answered` is false when it was
      committed but the reply was lost. */
  datatype Finished = Finished(id: nat, op: Op, outcome: Outcome, answered: bool)

  /** Committed tables, running transactions, row locks, and what has ended so far:
      `done` lists finished transactions in the order in which they ended. */
  datatype Sys = Sys(db: Db, txns: map<nat, Txn>, owner: map<Uuid, nat>,
                     begun: map<nat, Op>, done: seq<Finished>, dropped: set<nat>)

  datatype Action =
    | Begin(t: nat, op: Op)
    | Execute(t: nat)
    | Commit(t: nat)
    | CommitUnanswered(t: nat)   // committed, but the caller gets a database error
    | Rollback(t: nat)
    | Disconnect(t: nat)         // the connection dies before commit

  function Init(db: Db): Sys {
    Sys(db, map[], map[], map[], [], {})
  }

  /** The row transaction `t` must lock to run its next statement. */
  function Wanted(s: Sys, t: nat): Option<Uuid> {
    if t in s.txns && s.txns[t].local.error.None? && s.txns[t].pc < |s.txns[t].program| then
      var target := Target(s.txns[t].program[s.txns[t].pc]);
      if target.Some? && target.value in s.db.rows then target else None
    else None
  }

  predicate WaitsFor(s: Sys, t: nat, u: nat) {
    Wanted(s, t).Some? && Wanted(s, t).value in s.owner && s.owner[Wanted(s, t).value] == u && u != t
  }

  /** Every statement has run, and none of them failed. */
  predicate Complete(s: Sys, t: nat) {
    t in s.txns && s.txns[t].local.error.None? && s.txns[t].pc == |s.txns[t].program|
  }

  /** The record of a transaction that ends now. */
  function EndOf(s: Sys, t: nat, answered: bool): Finished
    requires t in s.txns
  {
    var x := s.txns[t];
    Finished(t, x.op, if answered then ReturnOf(x.op, x.local) else Error(Database), answered)
  }

  predicate Enabled(s: Sys, a: Action) {
    match a
    case Begin(t, op) => t !in s.begun
    case Execute(t) =>
      t in s.txns && s.txns[t].local.error.None? && s.txns[t].pc < |s.txns[t].program|
      && (Wanted(s, t).Some? && Wanted(s, t).value in s.owner ==> s.owner[Wanted(s, t).value] == t)
    case Commit(t) => Complete(s, t)
    case CommitUnanswered(t) => Complete(s, t)
    case Rollback(t) => t in s.txns && s.txns[t].local.error.Some?
    case Disconnect(t) => t in s.txns
  }

  /** All locks of a transaction go at once, when it ends. */
  function Release(owner: map<Uuid, nat>, t: nat): map<Uuid, nat> {
    map r | r in owner && owner[r] != t :: owner[r]
  }

  function Apply(s: Sys, a: Action): Sys
    requires Enabled(s, a)
  {
    match a
    case Begin(t, op) => s.(txns := s.txns[t := Txn(op, Program(op), 0, FRESH)], begun := s.begun[t := op])
    case Execute(t) =>
      var x := s.txns[t];
      var owner := if Wanted(s, t).Some? then s.owner[Wanted(s, t).value := t] else s.owner;
      var local := ExecStmt(x.program[x.pc], s.db.rows, x.local);
      s.(txns := s.txns[t := x.(pc := x.pc + 1, local := local)], owner := owner)
    case Commit(t) =>
      s.(db := Install(s.db, s.txns[t].local), txns := s.txns - {t}, owner := Release(s.owner, t),
         done := s.done + [EndOf(s, t, true)])
    case CommitUnanswered(t) =>
      s.(db := Install(s.db, s.txns[t].local), txns := s.txns - {t}, owner := Release(s.owner, t),
         done := s.done + [EndOf(s, t, false)])
    case Rollback(t) =>
      s.(txns := s.txns - {t}, owner := Release(s.owner, t), done := s.done + [EndOf(s, t, true)])
    case Disconnect(t) =>
      s.(txns := s.txns - {t}, owner := Release(s.owner, t), dropped := s.dropped + {t})
  }

  function Step(s: Sys, a: Action): Sys {
    if Enabled(s, a) then Apply(s, a) else s
  }

  /** Any schedule: an action that is not enabled when its turn comes does nothing. */
  function Run(s: Sys, actions: seq<Action>): Sys {
    if actions == [] then s
    else Step(Run(s, actions[..|actions| - 1]), actions[|actions| - 1])
  }

  lemma {:induction false} RunAppend(s: Sys, xs: seq<Action>, ys: seq<Action>)
    ensures Run(s, xs + ys) == Run(Run(s, xs), ys)
  {
    if ys == [] {
      assert xs + ys == xs;
    } else {
      RunAppend(s, xs, ys[..|ys| - 1]);
      assert (xs + ys)[..|xs + ys| - 1] == xs + ys[..|ys| - 1];
    }
  }

  /** A transaction can lose its connection at any time. Nothing of it stays: the tables and the other
      transactions are as before, and only its locks are free. */
  lemma LostConnectionLeavesNothing(s: Sys, actions: seq<Action>, t: nat)
    requires t in Run(s, actions).txns
    ensures var before, after := Run(s, actions), Run(s, actions + [Disconnect(t)]);
            && after.db == before.db && after.done == before.done && after.begun == before.begun
            && after.dropped == before.dropped + {t}
            && t !in after.txns && (forall u :: u != t && u in before.txns ==> u in after.txns)
            && (forall u :: u in after.txns ==> u in before.txns && after.txns[u] == before.txns[u])
            && (forall r :: r in after.owner <==> r in before.owner && before.owner[r] != t)
            && (forall r :: r in after.owner ==> after.owner[r] == before.owner[r])
  {
    assert (actions + [Disconnect(t)])[..|actions|] == actions;
  }

  /** When all statements have run, the commit can go through, and then all is as if it had been answered
      but for what the caller is told. */
  lemma LostAnswerChangesNothing(s: Sys, actions: seq<Action>, t: nat)
    requires t in Run(s, actions).txns && Run(s, actions).txns[t].local.error.None?
    requires Run(s, actions).txns[t].pc == |Run(s, actions).txns[t].program|
    ensures var before := Run(s, actions);
            var answered, lost := Run(s, actions + [Commit(t)]), Run(s, actions + [CommitUnanswered(t)]);
            && t !in answered.txns && |answered.done| == |before.done| + 1
            && lost == answered.(done := before.done + [Finished(t, before.txns[t].op, Error(Database), false)])
  {
    assert (actions + [Commit(t)])[..|actions|] == actions;
    assert (actions + [CommitUnanswered(t)])[..|actions|] == actions;
  }

  // ── The serial account of a run ────────────────────────────────────────────────────────

  /** The finished operations run one at a time, in the order in which they ended. */
  function Serially(db: Db, done: seq<Finished>): Db {
    if done == [] then db
    else Effect(Serially(db, done[..|done| - 1]), done[|done| - 1].op).0
  }

  /** An answered caller got the answer of the serial run; an unanswered one got a database error
      for an operation that succeeded. */
  predicate Fits(f: Finished, serial: Outcome) {
    if f.answered then f.outcome == serial else f.outcome == Error(Database) && serial.Returned?
  }

  predicate OutcomeIsSerial(db: Db, done: seq<Finished>, i: nat)
    requires i < |done|
  {
    Fits(done[i], Effect(Serially(db, done[..i]), done[i].op).1)
  }

  ghost predicate OutcomesAreSerial(db: Db, done: seq<Finished>) {
    forall i :: 0 <= i < |done| ==> OutcomeIsSerial(db, done, i)
  }

  lemma SeriallyAppend(db: Db, done: seq<Finished>, f: Finished)
    requires OutcomesAreSerial(db, done) && Fits(f, Effect(Serially(db, done), f.op).1)
    ensures Serially(db, done + [f]) == Effect(Serially(db, done), f.op).0
    ensures OutcomesAreSerial(db, done + [f])
  {
    var more := done + [f];
    assert more[..|more| - 1] == done;
    forall i | 0 <= i < |more|
      ensures OutcomeIsSerial(db, more, i)
    {
      assert more[..i] == done[..i];
      assert done[..|done|] == done;
      assert i < |done| ==> OutcomeIsSerial(db, done, i);
    }
  }

  /** The transaction is where it would be had it run alone over the committed rows. */
  ghost predicate Faithful(x: Txn, rows: map<Uuid, Balance>) {
    x.pc <= |x.program| && x.local == RunTo(x.program, x.pc, rows)
  }

  predicate Holds(x: Txn, r: Uuid) {
    x.pc <= |x.program| && Touched(x.program, x.pc, r)
  }

  ghost predicate AllFaithful(s: Sys) {
    forall t :: t in s.txns ==> Faithful(s.txns[t], s.db.rows)
  }

  /** A running transaction owns exactly the existing rows that it has touched. */
  ghost predicate LocksInv(s: Sys) {
    && (forall t, r :: t in s.txns && r in s.db.rows && Holds(s.txns[t], r) ==> r in s.owner && s.owner[r] == t)
    && (forall r :: r in s.owner ==> s.owner[r] in s.txns && r in s.db.rows && Holds(s.txns[s.owner[r]], r))
  }

  ghost predicate TxnsInv(s: Sys) {
    AllFaithful(s) && LocksInv(s)
  }

  function DoneIds(s: Sys): set<nat> {
    set i | 0 <= i < |s.done| :: s.done[i].id
  }

  predicate Loaded(x: Txn) {
    x.program == Program(x.op) && x.pc <= |x.program|
  }

  ghost predicate AllLoaded(s: Sys) {
    forall t :: t in s.txns ==> Loaded(s.txns[t])
  }

  /** Each transaction that began is exactly one of running, finished and disconnected. */
  ghost predicate BookkeepingInv(s: Sys) {
    && s.begun.Keys == s.txns.Keys + DoneIds(s) + s.dropped
    && s.txns.Keys !! DoneIds(s) && s.txns.Keys !! s.dropped && DoneIds(s) !! s.dropped
    && (forall i, j :: 0 <= i < j < |s.done| ==> s.done[i].id != s.done[j].id)
    && (forall i :: 0 <= i < |s.done| ==> s.begun[s.done[i].id] == s.done[i].op)
    && (forall t :: t in s.txns ==> s.begun[t] == s.txns[t].op)
    && AllLoaded(s)
  }

  ghost predicate SerialInv(db: Db, s: Sys) {
    s.db == Serially(db, s.done) && OutcomesAreSerial(db, s.done)
  }

  /** One more statement touches at most its own target. */
  lemma HoldsAfter(x: Txn, x': Txn, r: Uuid)
    requires x.pc < |x.program| && x'.program == x.program && x'.pc == x.pc + 1
    ensures Holds(x', r) <==> Holds(x, r) || Target(x.program[x.pc]) == Some(r)
  {
    var p := x.program;
    if Holds(x, r) {
      var i :| 0 <= i < x.pc && Target(p[i]) == Some(r);
      assert Target(p[i]) == Some(r) && i < x'.pc;
    } else if Target(p[x.pc]) == Some(r) {
      assert Touched(p, x.pc + 1, r);
    }
  }

  lemma ExecuteKeepsLocks(s: Sys, t: nat)
    requires LocksInv(s) && Enabled(s, Execute(t))
    ensures LocksInv(Apply(s, Execute(t)))
  {
    var s' := Apply(s, Execute(t));
    forall r {
      HoldsAfter(s.txns[t], s'.txns[t], r);
    }
  }

  lemma ExecuteKeepsFaithful(s: Sys, t: nat)
    requires AllFaithful(s) && Enabled(s, Execute(t))
    ensures AllFaithful(Apply(s, Execute(t)))
  {
    var x := s.txns[t];
    assert RunTo(x.program, x.pc + 1, s.db.rows)
        == ExecStmt(x.program[x.pc], s.db.rows, RunTo(x.program, x.pc, s.db.rows));
  }

  lemma BeginKeepsTxns(s: Sys, t: nat, op: Op)
    requires TxnsInv(s) && t !in s.txns && Enabled(s, Begin(t, op))
    ensures TxnsInv(Apply(s, Begin(t, op)))
  {
    var s' := Apply(s, Begin(t, op));
    assert Faithful(s'.txns[t], s.db.rows);
    forall r ensures !Holds(s'.txns[t], r) {}
  }

  /** Rows that a transaction has locked are out of reach of every other transaction's writes. */
  lemma InstallKeepsFaithful(s: Sys, t: nat, u: nat)
    requires TxnsInv(s) && t in s.txns && u in s.txns && u != t
    ensures Faithful(s.txns[u], s.db.rows + s.txns[t].local.writes)
  {
    var x := s.txns[u];
    var writes := s.txns[t].local.writes;
    assert Faithful(s.txns[t], s.db.rows) && Faithful(x, s.db.rows);
    WritesAreLocked(s.txns[t].program, s.txns[t].pc, s.db.rows);
    assert (s.db.rows + writes).Keys == s.db.rows.Keys;
    forall r | r in s.db.rows && Touched(x.program, x.pc, r)
      ensures s.db.rows[r] == (s.db.rows + writes)[r]
    {
      assert Holds(x, r);
      if r in writes {
        assert Holds(s.txns[t], r);
      }
    }
    LockedRowsDecide(x.program, x.pc, s.db.rows, s.db.rows + writes);
  }

  lemma EndKeepsLocks(s: Sys, t: nat, s': Sys)
    requires LocksInv(s) && t in s.txns && s'.db.rows.Keys == s.db.rows.Keys
    requires s'.txns == s.txns - {t} && s'.owner == Release(s.owner, t)
    ensures LocksInv(s')
  {
  }

  /** Ending a transaction, with or without installing its writes, leaves the others undisturbed. */
  lemma EndKeepsTxns(s: Sys, t: nat, s': Sys)
    requires TxnsInv(s) && t in s.txns
    requires s'.txns == s.txns - {t} && s'.owner == Release(s.owner, t)
    requires s'.db.rows == s.db.rows || s'.db.rows == s.db.rows + s.txns[t].local.writes
    ensures TxnsInv(s')
  {
    assert Faithful(s.txns[t], s.db.rows);
    WritesAreLocked(s.txns[t].program, s.txns[t].pc, s.db.rows);
    EndKeepsLocks(s, t, s');
    forall u | u in s'.txns
      ensures Faithful(s'.txns[u], s'.db.rows)
    {
      assert Faithful(s.txns[u], s.db.rows);
      InstallKeepsFaithful(s, t, u);
    }
  }

  lemma DoneIdsAppend(s: Sys, s': Sys, f: Finished)
    requires s'.done == s.done + [f]
    ensures DoneIds(s') == DoneIds(s) + {f.id}
  {
    forall id | id in DoneIds(s) + {f.id}
      ensures id in DoneIds(s')
    {
      if id in DoneIds(s) {
        var i :| 0 <= i < |s.done| && s.done[i].id == id;
        assert s'.done[i].id == id;
      } else {
        assert s'.done[|s.done|].id == id;
      }
    }
  }

  lemma FinishKeepsBookkeeping(s: Sys, t: nat, s': Sys, answered: bool)
    requires BookkeepingInv(s) && t in s.txns
    requires s'.txns == s.txns - {t} && s'.begun == s.begun && s'.dropped == s.dropped
    requires s'.done == s.done + [EndOf(s, t, answered)]
    ensures BookkeepingInv(s')
  {
    DoneIdsAppend(s, s', EndOf(s, t, answered));
    forall i | 0 <= i < |s.done|
      ensures s.done[i].id != t
    {
      assert s.done[i].id in DoneIds(s);
    }
  }

  lemma StepKeepsBookkeeping(s: Sys, a: Action)
    requires BookkeepingInv(s)
    ensures BookkeepingInv(Step(s, a))
  {
    if Enabled(s, a) {
      var s' := Apply(s, a);
      match a
      case Begin(t, op) =>
        assert Loaded(s'.txns[t]);
        forall i | 0 <= i < |s.done|
          ensures s.done[i].id != t
        {
          assert s.done[i].id in DoneIds(s);
        }
      case Execute(t) =>
        assert Loaded(s.txns[t]) && Loaded(s'.txns[t]);
      case Commit(t) =>
        FinishKeepsBookkeeping(s, t, s', true);
      case CommitUnanswered(t) =>
        FinishKeepsBookkeeping(s, t, s', false);
      case Rollback(t) =>
        FinishKeepsBookkeeping(s, t, s', true);
      case Disconnect(t) =>
    }
  }

  lemma StepKeepsTxns(s: Sys, a: Action)
    requires TxnsInv(s) && BookkeepingInv(s)
    ensures TxnsInv(Step(s, a))
  {
    if Enabled(s, a) {
      match a
      case Begin(t, op) =>
        BeginKeepsTxns(s, t, op);
      case Execute(t) =>
        ExecuteKeepsLocks(s, t);
        ExecuteKeepsFaithful(s, t);
      case Commit(t) =>
        EndKeepsTxns(s, t, Apply(s, a));
      case CommitUnanswered(t) =>
        EndKeepsTxns(s, t, Apply(s, a));
      case Rollback(t) =>
        EndKeepsTxns(s, t, Apply(s, a));
      case Disconnect(t) =>
        EndKeepsTxns(s, t, Apply(s, a));
    }
  }

  /** A transaction that ends does what its operation does alone to the tables it ends on. */
  lemma StepKeepsSerial(db: Db, s: Sys, a: Action)
    requires SerialInv(db, s) && AllFaithful(s) && BookkeepingInv(s)
    ensures SerialInv(db, Step(s, a))
  {
    if Enabled(s, a) && (a.Commit? || a.CommitUnanswered? || a.Rollback?) {
      var x := s.txns[a.t];
      assert Faithful(x, s.db.rows) && Loaded(x);
      if a.Rollback? {
        ErrorsStick(x.program, x.pc, |x.program|, s.db.rows);
      }
      ProgramMeansEffect(s.db, x.op);
      SeriallyAppend(db, s.done, EndOf(s, a.t, !a.CommitUnanswered?));
    }
  }

  // ── Serializability ────────────────────────────────────────────────────────────────────

  lemma {:induction false} ReachableInv(db: Db, actions: seq<Action>)
    ensures var s := Run(Init(db), actions); TxnsInv(s) && BookkeepingInv(s) && SerialInv(db, s)
  {
    if actions != [] {
      var before, a := actions[..|actions| - 1], actions[|actions| - 1];
      ReachableInv(db, before);
      StepKeepsTxns(Run(Init(db), before), a);
      StepKeepsSerial(db, Run(Init(db), before), a);
      StepKeepsBookkeeping(Run(Init(db), before), a);
    }
  }

  /** However any number of transactions interleave, the committed tables are those of running
      the finished ones one at a time in the order in which they ended. Every caller got the answer
      it would have got there, except that a caller whose COMMIT went unanswered got a database
      error although its operation succeeded. No transaction is lost or counted twice. */
  lemma Serializable(db: Db, actions: seq<Action>)
    ensures var s := Run(Init(db), actions);
            && s.db == Serially(db, s.done)
            && OutcomesAreSerial(db, s.done)
            && BookkeepingInv(s)
  {
    ReachableInv(db, actions);
  }

  // ── No overspending ────────────────────────────────────────────────────────────────────

  predicate Solvent(db: Db) {
    forall u :: u in db.rows ==> 0 <= db.rows[u].reserved <= db.rows[u].balance
  }

  predicate NonNegative(op: Op) {
    op.amount >= 0
  }

  lemma EffectKeepsSolvent(db: Db, op: Op)
    requires Solvent(db) && NonNegative(op)
    ensures Solvent(Effect(db, op).0)
  {
    if op.Settle? {
      Pricing.ChargeWithinReservation(op.backend, op.secs, op.amount);
      Pricing.PayoutRoundsDown(Pricing.Charge(op.backend, op.secs, op.amount));
    }
  }

  lemma {:induction false} SerialKeepsSolvent(db: Db, done: seq<Finished>)
    requires Solvent(db) && forall i :: 0 <= i < |done| ==> NonNegative(done[i].op)
    ensures Solvent(Serially(db, done))
  {
    if done != [] {
      SerialKeepsSolvent(db, done[..|done| - 1]);
      EffectKeepsSolvent(Serially(db, done[..|done| - 1]), done[|done| - 1].op);
    }
  }

  /** No interleaving reserves more than an account holds. */
  lemma NoOverspending(db: Db, actions: seq<Action>)
    requires Solvent(db)
    requires forall i :: 0 <= i < |actions| && actions[i].Begin? ==> NonNegative(actions[i].op)
    ensures Solvent(Run(Init(db), actions).db)
  {
    Serializable(db, actions);
    BegunByActions(db, actions);
    var s := Run(Init(db), actions);
    forall i | 0 <= i < |s.done|
      ensures NonNegative(s.done[i].op)
    {
      assert s.done[i].id in DoneIds(s);
      assert s.begun[s.done[i].id] == s.done[i].op;
    }
    SerialKeepsSolvent(db, s.done);
  }

  lemma {:induction false} BegunByActions(db: Db, actions: seq<Action>)
    requires forall i :: 0 <= i < |actions| && actions[i].Begin? ==> NonNegative(actions[i].op)
    ensures var s := Run(Init(db), actions); forall t :: t in s.begun ==> NonNegative(s.begun[t])
  {
    if actions != [] {
      var before := actions[..|actions| - 1];
      BegunByActions(db, before);
      assert Run(Init(db), actions) == Step(Run(Init(db), before), actions[|actions| - 1]);
      assert actions[|actions| - 1].Begin? ==> NonNegative(actions[|actions| - 1].op);
    }
  }

  // ── Freedom from deadlock ──────────────────────────────────────────────────────────────

  /** A transaction that waits already holds only rows below the one it waits for. */
  lemma WaitersHoldLess(s: Sys, t: nat, u: nat, r: Uuid)
    requires LocksInv(s) && AllLoaded(s) && WaitsFor(s, t, u) && r in s.owner && s.owner[r] == t
    ensures r < Wanted(s, t).value
  {
    assert Loaded(s.txns[t]) && Holds(s.txns[t], r);
    LocksAscend(s.txns[t].op, s.txns[t].pc, Wanted(s, t).value, r);
  }

  /** Along two links of a chain the wanted row rises. */
  lemma WantedRises(s: Sys, t: nat, u: nat, v: nat)
    requires LocksInv(s) && AllLoaded(s) && WaitsFor(s, t, u) && WaitsFor(s, u, v)
    ensures Wanted(s, t).value < Wanted(s, u).value
  {
    WaitersHoldLess(s, u, v, Wanted(s, t).value);
  }

  ghost predicate IsWaitChain(s: Sys, chain: seq<nat>) {
    |chain| >= 2 && forall i :: 0 <= i < |chain| - 1 ==> WaitsFor(s, chain[i], chain[i + 1])
  }

  /** Along a chain of waiting transactions, however long, the wanted rows rise. */
  lemma {:induction false} WaitingClimbs(s: Sys, chain: seq<nat>, n: nat)
    requires LocksInv(s) && AllLoaded(s) && IsWaitChain(s, chain) && n <= |chain| - 2
    ensures Wanted(s, chain[0]).Some? && Wanted(s, chain[n]).Some?
    ensures Wanted(s, chain[0]).value <= Wanted(s, chain[n]).value
  {
    assert WaitsFor(s, chain[n], chain[n + 1]);
    if n > 0 {
      WaitingClimbs(s, chain, n - 1);
      assert WaitsFor(s, chain[n - 1], chain[n - 1 + 1]);
      WantedRises(s, chain[n - 1], chain[n], chain[n + 1]);
    }
  }

  /** No such chain comes back to where it started. */
  lemma NoWaitCycle(db: Db, actions: seq<Action>, chain: seq<nat>)
    requires IsWaitChain(Run(Init(db), actions), chain)
    ensures chain[0] != chain[|chain| - 1]
  {
    var s := Run(Init(db), actions);
    var last := |chain| - 2;
    ReachableInv(db, actions);
    WaitingClimbs(s, chain, last);
    if chain[0] == chain[|chain| - 1] {
      assert WaitsFor(s, chain[last], chain[last + 1]);
      assert WaitsFor(s, chain[0], chain[0 + 1]);
      WaitersHoldLess(s, chain[0], chain[1], Wanted(s, chain[last]).value);
    }
  }

  /** The step a running transaction takes next. */
  function NextAction(s: Sys, t: nat): Action
    requires t in s.txns
  {
    if s.txns[t].local.error.Some? then Rollback(t)
    else if s.txns[t].pc < |s.txns[t].program| then Execute(t)
    else Commit(t)
  }

  /** Following the waits-for chain from any running transaction ends at one that can step. */
  lemma {:induction false} FindUnblocked(s: Sys, t: nat, bound: nat) returns (u: nat)
    requires LocksInv(s) && AllLoaded(s) && t in s.txns
    requires forall r :: r in s.db.rows ==> r < bound
    ensures u in s.txns && Enabled(s, NextAction(s, u))
    decreases bound - (if Wanted(s, t).Some? then Wanted(s, t).value else bound)
  {
    if Enabled(s, NextAction(s, t)) {
      return t;
    }
    var owner := s.owner[Wanted(s, t).value];
    if Enabled(s, NextAction(s, owner)) {
      return owner;
    }
    var next := s.owner[Wanted(s, owner).value];
    WaitersHoldLess(s, owner, next, Wanted(s, t).value);
    u := FindUnblocked(s, owner, bound);
  }

  lemma {:induction false} AccountsBounded(accounts: set<Uuid>) returns (bound: nat)
    ensures forall r :: r in accounts ==> r < bound
  {
    if accounts == {} {
      bound := 0;
    } else {
      var r :| r in accounts;
      var rest := AccountsBounded(accounts - {r});
      bound := if rest <= r then r + 1 else rest;
      assert forall q :: q in accounts ==> q == r || q in accounts - {r};
    }
  }

  /** Statements still to run, plus one for ending, over all running transactions. */
  ghost function WorkOf(s: Sys): map<nat, int> {
    map t | t in s.txns :: |s.txns[t].program| + 1 - s.txns[t].pc
  }

  lemma ExecuteShrinksWork(s: Sys, t: nat)
    requires t in s.txns && s.txns[t].pc <= |s.txns[t].program| && Enabled(s, Execute(t))
    ensures SumMap(WorkOf(Apply(s, Execute(t)))) < SumMap(WorkOf(s))
  {
    var w := |s.txns[t].program| - s.txns[t].pc;
    SumUpdate(WorkOf(s), t, w);
    assert WorkOf(Apply(s, Execute(t))) == WorkOf(s)[t := w];
  }

  lemma EndShrinksWork(s: Sys, t: nat, s': Sys)
    requires t in s.txns && s.txns[t].pc <= |s.txns[t].program| && s'.txns == s.txns - {t}
    ensures SumMap(WorkOf(s')) < SumMap(WorkOf(s))
  {
    SumWithout(WorkOf(s), t);
    assert WorkOf(s') == WorkOf(s) - {t};
  }

  lemma WorkShrinks(s: Sys, t: nat)
    requires t in s.txns && s.txns[t].pc <= |s.txns[t].program| && Enabled(s, NextAction(s, t))
    ensures SumMap(WorkOf(Step(s, NextAction(s, t)))) < SumMap(WorkOf(s))
  {
    if NextAction(s, t).Execute? {
      ExecuteShrinksWork(s, t);
    } else {
      EndShrinksWork(s, t, Step(s, NextAction(s, t)));
    }
  }

  lemma WorkNonNegative(s: Sys)
    requires AllFaithful(s)
    ensures SumMap(WorkOf(s)) >= 0
  {
    forall t | t in s.txns
      ensures WorkOf(s)[t] >= 0
    {
      assert Faithful(s.txns[t], s.db.rows);
    }
    SumNonNegative(WorkOf(s));
  }

  lemma NextStepKeeps(s: Sys, t: nat)
    requires TxnsInv(s) && BookkeepingInv(s) && t in s.txns
    ensures var a := NextAction(s, t);
            !a.Begin? && !a.Disconnect? && !a.CommitUnanswered? && TxnsInv(Step(s, a)) && BookkeepingInv(Step(s, a))
  {
    StepKeepsTxns(s, NextAction(s, t));
    StepKeepsBookkeeping(s, NextAction(s, t));
  }

  lemma NextStepWorks(s: Sys, t: nat)
    requires AllFaithful(s) && t in s.txns && Enabled(s, NextAction(s, t))
    ensures SumMap(WorkOf(Step(s, NextAction(s, t)))) < SumMap(WorkOf(s))
  {
    assert Faithful(s.txns[t], s.db.rows);
    WorkShrinks(s, t);
  }

  /** Some running transaction can step, and its step leaves less work. */
  lemma SomeoneSteps(s: Sys) returns (a: Action, s': Sys)
    requires TxnsInv(s) && BookkeepingInv(s) && s.txns != map[]
    ensures !a.Begin? && !a.Disconnect? && !a.CommitUnanswered? && Enabled(s, a) && s' == Step(s, a)
    ensures TxnsInv(s') && BookkeepingInv(s')
    ensures 0 <= SumMap(WorkOf(s')) < SumMap(WorkOf(s))
  {
    var bound := AccountsBounded(s.db.rows.Keys);
    var t0 :| t0 in s.txns;
    var t := FindUnblocked(s, t0, bound);
    NextStepKeeps(s, t);
    NextStepWorks(s, t);
    a := NextAction(s, t);
    s' := Step(s, a);
    WorkNonNegative(s');
  }

  lemma RunCons(s: Sys, a: Action, rest: seq<Action>)
    ensures Run(s, [a] + rest) == Run(Step(s, a), rest)
  {
    RunAppend(s, [a], rest);
    assert [a][..0] == [];
    assert Run(s, [a]) == Step(Run(s, []), a);
  }

  lemma {:induction false} Drains(s: Sys) returns (more: seq<Action>)
    requires TxnsInv(s) && BookkeepingInv(s)
    ensures Run(s, more).txns == map[]
    ensures forall a :: a in more ==> !a.Begin? && !a.Disconnect? && !a.CommitUnanswered?
    decreases SumMap(WorkOf(s))
  {
    if s.txns == map[] {
      more := [];
    } else {
      var a, s' := SomeoneSteps(s);
      var rest := Drains(s');
      more := [a] + rest;
      RunCons(s, a, rest);
    }
  }

  /** From every reachable state all running transactions can finish, without any of them
      losing its connection and without waiting for a new one. */
  lemma EveryoneFinishes(db: Db, actions: seq<Action>) returns (more: seq<Action>)
    ensures Run(Init(db), actions + more).txns == map[]
    ensures forall a :: a in more ==> !a.Begin? && !a.Disconnect? && !a.CommitUnanswered?
  {
    ReachableInv(db, actions);
    more := Drains(Run(Init(db), actions));
    RunAppend(Init(db), actions, more);
  }
}
