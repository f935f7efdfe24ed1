// The Compute Unit ledger (crates/decentgpu-master/src/credits/engine.rs): its two tables,
// what each operation does to them, and the imperative ledger proved against that.
module Ledger {
  import opened Types
  import Pricing

  /** One row of `compute_unit_balances`. */
  datatype Balance = Balance(balance: int, reserved: int)

  datatype TxType = Allocation | JobDebit | JobCredit | JobRefund

  /** One row of `compute_unit_transactions`. */
  datatype LogRow = LogRow(user: Uuid, amount: int, kind: TxType, job: Option<Uuid>)

  /** The two tables. Log rows stand in the order in which they became visible. */
  datatype Db = Db(rows: map<Uuid, Balance>, log: seq<LogRow>)

  datatype Op =
    | Allocate(user: Uuid, amount: int)
    | Reserve(hirer: Uuid, job: Uuid, amount: int)
    | Settle(hirer: Uuid, worker: Uuid, job: Uuid, amount: int, secs: nat, backend: GpuBackend)
    | RefundFull(hirer: Uuid, job: Uuid, amount: int)

  datatype LedgerError =
    | NotFound
    | Insufficient(available: int, required: int)
    | Database

  /** What the caller gets back; only `allocate` returns a number. */
  datatype Outcome =
    | Returned(newBalance: Option<int>)
    | Error(error: LedgerError)

  /** The column CHECK constraints together with the range of BIGINT. */
  predicate Storable(b: Balance) {
    0 <= b.balance <= I64_MAX && 0 <= b.reserved <= I64_MAX
  }

  /** `UPDATE ... SET cu_balance = cu_balance + db, cu_reserved = cu_reserved + dr`:
      no effect on a missing row, and `None` when the new row is not storable. */
  function AddTo(rows: map<Uuid, Balance>, user: Uuid, db: int, dr: int): Option<map<Uuid, Balance>> {
    if user !in rows then
      Some(rows)
    else
      var b := Balance(rows[user].balance + db, rows[user].reserved + dr);
      if Storable(b) then Some(rows[user := b]) else None
  }

  /** The log rows of a settlement; an empty refund leaves no row. */
  function SettleRows(hirer: Uuid, worker: Uuid, job: Uuid, refund: int, payout: int): seq<LogRow> {
    (if refund > 0 then [LogRow(hirer, refund, JobRefund, Some(job))] else [])
    + [LogRow(worker, payout, JobCredit, Some(job))]
  }

  /** Releases `amount` with its refund, then pays the worker; all or nothing. */
  function SettleEffect(db: Db, hirer: Uuid, worker: Uuid, job: Uuid, amount: int, refund: int, payout: int)
    : (Db, Outcome)
  {
    match AddTo(db.rows, hirer, refund, -amount)
    case None => (db, Error(Database))
    case Some(released) =>
      match AddTo(released, worker, payout, 0)
      case None => (db, Error(Database))
      case Some(rows) => (Db(rows, db.log + SettleRows(hirer, worker, job, refund, payout)), Returned(None))
  }

  /** The documented effect of one operation that runs alone. A failed one changes nothing. */
  function Effect(db: Db, op: Op): (Db, Outcome) {
    match op
    case Allocate(user, amount) =>
      if user !in db.rows then
        (db, Error(NotFound))
      else (
        match AddTo(db.rows, user, amount, 0)
        case None => (db, Error(Database))
        case Some(rows) =>
          (Db(rows, db.log + [LogRow(user, amount, Allocation, None)]), Returned(Some(rows[user].balance))))
    case Reserve(hirer, job, amount) =>
      if hirer !in db.rows then
        (db, Error(NotFound))
      else
        var available := db.rows[hirer].balance - db.rows[hirer].reserved;
        if available < amount then
          (db, Error(Insufficient(available, amount)))
        else (
          match AddTo(db.rows, hirer, 0, amount)
          case None => (db, Error(Database))
          case Some(rows) =>
            (Db(rows, db.log + [LogRow(hirer, -amount, JobDebit, Some(job))]), Returned(None)))
    case Settle(hirer, worker, job, amount, secs, backend) =>
      var charge := Pricing.Charge(backend, secs, amount);
      SettleEffect(db, hirer, worker, job, amount, amount - charge, Pricing.Payout(charge))
    case RefundFull(hirer, job, amount) =>
      match AddTo(db.rows, hirer, amount, -amount)
      case None => (db, Error(Database))
      case Some(rows) => (Db(rows, db.log + [LogRow(hirer, amount, JobRefund, Some(job))]), Returned(None))
  }

  /** The set of accounts is fixed by `initialize`; no operation adds or removes one. */
  lemma EffectKeepsAccounts(db: Db, op: Op)
    ensures Effect(db, op).0.rows.Keys == db.rows.Keys
  {
  }

  // ── What the operations do, in plain numbers ───────────────────────────────────────────

  /** Both columns within BIGINT and not negative. */
  predicate InRange(balance: int, reserved: int) {
    0 <= balance <= 9_223_372_036_854_775_807 && 0 <= reserved <= 9_223_372_036_854_775_807
  }

  /** Allocating adds to the balance and logs it, or reports why not and changes nothing. */
  predicate Allocated(db: Db, db': Db, out: Outcome, user: Uuid, amount: int) {
    if user !in db.rows then out == Error(NotFound) && db' == db
    else
      var b := db.rows[user];
      if InRange(b.balance + amount, b.reserved) then
        && out == Returned(Some(b.balance + amount))
        && db'.rows == db.rows[user := Balance(b.balance + amount, b.reserved)]
        && db'.log == db.log + [LogRow(user, amount, Allocation, None)]
      else out == Error(Database) && db' == db
  }

  /** Reserving needs that much balance not yet reserved; it raises the reserved column only. */
  predicate Reserved(db: Db, db': Db, out: Outcome, hirer: Uuid, job: Uuid, amount: int) {
    if hirer !in db.rows then out == Error(NotFound) && db' == db
    else
      var b := db.rows[hirer];
      if b.balance - b.reserved < amount then
        out == Error(Insufficient(b.balance - b.reserved, amount)) && db' == db
      else if InRange(b.balance, b.reserved + amount) then
        && out == Returned(None)
        && db'.rows == db.rows[hirer := Balance(b.balance, b.reserved + amount)]
        && db'.log == db.log + [LogRow(hirer, -amount, JobDebit, Some(job))]
      else out == Error(Database) && db' == db
  }

  /** The hirer's row after a release of `amount` with a refund, unless it has none. */
  function Released(rows: map<Uuid, Balance>, hirer: Uuid, refund: int, amount: int): map<Uuid, Balance> {
    if hirer in rows then rows[hirer := Balance(rows[hirer].balance + refund, rows[hirer].reserved - amount)] else rows
  }

  /** The worker's row after a payout, unless it has none. */
  function Paid(rows: map<Uuid, Balance>, worker: Uuid, payout: int): map<Uuid, Balance> {
    if worker in rows then rows[worker := Balance(rows[worker].balance + payout, rows[worker].reserved)] else rows
  }

  predicate RowFits(rows: map<Uuid, Balance>, user: Uuid) {
    user in rows ==> InRange(rows[user].balance, rows[user].reserved)
  }

  /** With this charge and payout, the hirer gets back what was not charged and the reservation is
      released, the worker is paid, and both are logged; or nothing changes. */
  predicate Settled(db: Db, db': Db, out: Outcome, hirer: Uuid, worker: Uuid, job: Uuid, amount: int,
                    charge: int, payout: int) {
    var released := Released(db.rows, hirer, amount - charge, amount);
    var paid := Paid(released, worker, payout);
    if RowFits(released, hirer) && RowFits(paid, worker) then
      && out == Returned(None) && db'.rows == paid
      && db'.log == db.log
           + (if amount > charge then [LogRow(hirer, amount - charge, JobRefund, Some(job))] else [])
           + [LogRow(worker, payout, JobCredit, Some(job))]
    else out == Error(Database) && db' == db
  }

  predicate Refunded(db: Db, db': Db, out: Outcome, hirer: Uuid, job: Uuid, amount: int) {
    var rows := Released(db.rows, hirer, amount, amount);
    if RowFits(rows, hirer) then
      && out == Returned(None) && db'.rows == rows
      && db'.log == db.log + [LogRow(hirer, amount, JobRefund, Some(job))]
    else out == Error(Database) && db' == db
  }

  /** What each operation does, with the charge and the payout in plain numbers. */
  lemma EffectInNumbers(db: Db, op: Op) returns (charge: int, payout: int)
    ensures var (db', out) := Effect(db, op);
            match op
            case Allocate(user, amount) => Allocated(db, db', out, user, amount)
            case Reserve(hirer, job, amount) => Reserved(db, db', out, hirer, job, amount)
            case Settle(hirer, worker, job, amount, secs, backend) =>
              && Pricing.IsCharge(charge, backend, secs, amount) && Pricing.IsPayout(payout, charge)
              && Settled(db, db', out, hirer, worker, job, amount, charge, payout)
            case RefundFull(hirer, job, amount) => Refunded(db, db', out, hirer, job, amount)
  {
    charge, payout := 0, 0;
    if op.Settle? {
      charge := Pricing.Charge(op.backend, op.secs, op.amount);
      payout := Pricing.Payout(charge);
      Pricing.ChargeIsPriceWithinReservation(op.backend, op.secs, op.amount);
      Pricing.PayoutTruncates(charge);
      SettleInNumbers(db, op.hirer, op.worker, op.job, op.amount, charge, payout);
    }
  }

  lemma SettleInNumbers(db: Db, hirer: Uuid, worker: Uuid, job: Uuid, amount: int, charge: int, payout: int)
    ensures var (db', out) := SettleEffect(db, hirer, worker, job, amount, amount - charge, payout);
            Settled(db, db', out, hirer, worker, job, amount, charge, payout)
  {
  }

  /** Between two accounts that exist: the hirer's balance rises by what was not charged and the
      reservation goes, the worker's balance rises by 85 hundredths of the charge, and nobody else's
      account changes. */
  lemma SettlementBetweenTwo(db: Db, op: Op)
    requires op.Settle? && op.hirer in db.rows && op.worker in db.rows && op.hirer != op.worker
    requires Effect(db, op).1.Returned?
    ensures var rows, rows' := db.rows, Effect(db, op).0.rows;
            && op.hirer in rows' && op.worker in rows'
            && var charge := op.amount - (rows'[op.hirer].balance - rows[op.hirer].balance);
               var payout := rows'[op.worker].balance - rows[op.worker].balance;
               && Pricing.IsCharge(charge, op.backend, op.secs, op.amount) && Pricing.IsPayout(payout, charge)
               && rows'[op.hirer].reserved == rows[op.hirer].reserved - op.amount
               && rows'[op.worker].reserved == rows[op.worker].reserved
               && rows' - {op.hirer, op.worker} == rows - {op.hirer, op.worker}
  {
    var charge, payout := EffectInNumbers(db, op);
  }

  /** A ledger over live tables. Each method is one SQL transaction with nothing beside it. */
  class ComputeUnitLedger {
    var rows: map<Uuid, Balance>
    var log: seq<LogRow>

    function Tables(): Db
      reads this
    {
      Db(rows, log)
    }

    constructor ()
      ensures Tables() == Db(map[], [])
    {
      rows, log := map[], [];
    }

    /** Gives a new user a zero row; keeps an existing one. */
    method Initialize(user: Uuid)
      modifies this
      ensures user in rows && log == old(log)
      ensures rows == if user in old(rows) then old(rows) else old(rows)[user := Balance(0, 0)]
    {
      if user !in rows {
        rows := rows[user := Balance(0, 0)];
      }
    }

    /** One UPDATE statement; on a constraint violation it reports failure and changes nothing. */
    method Update(user: Uuid, db: int, dr: int) returns (ok: bool)
      modifies this`rows
      ensures ok == AddTo(old(rows), user, db, dr).Some?
      ensures rows == if ok then AddTo(old(rows), user, db, dr).value else old(rows)
    {
      ok := true;
      if user in rows {
        var b := Balance(rows[user].balance + db, rows[user].reserved + dr);
        if Storable(b) {
          rows := rows[user := b];
        } else {
          ok := false;
        }
      }
    }

    method Allocate(user: Uuid, amount: int) returns (out: Outcome)
      modifies this
      ensures (Tables(), out) == Effect(old(Tables()), Op.Allocate(user, amount))
      ensures Allocated(old(Tables()), Tables(), out, user, amount)
    {
      if user !in rows {
        return Error(NotFound);
      }
      var newBalance := rows[user].balance + amount;
      var ok := Update(user, amount, 0);
      if !ok {
        return Error(Database);
      }
      log := log + [LogRow(user, amount, Allocation, None)];
      return Returned(Some(newBalance));
    }

    method Reserve(hirer: Uuid, job: Uuid, amount: int) returns (out: Outcome)
      modifies this
      ensures (Tables(), out) == Effect(old(Tables()), Op.Reserve(hirer, job, amount))
      ensures Reserved(old(Tables()), Tables(), out, hirer, job, amount)
    {
      if hirer !in rows {
        return Error(NotFound);
      }
      var available := rows[hirer].balance - rows[hirer].reserved;
      if available < amount {
        return Error(Insufficient(available, amount));
      }
      var ok := Update(hirer, 0, amount);
      if !ok {
        return Error(Database);
      }
      log := log + [LogRow(hirer, -amount, JobDebit, Some(job))];
      return Returned(None);
    }

    method Settle(hirer: Uuid, worker: Uuid, job: Uuid, amount: int, secs: nat, backend: GpuBackend)
      returns (out: Outcome, ghost charge: int, ghost payout: int)
      modifies this
      ensures (Tables(), out) == Effect(old(Tables()), Op.Settle(hirer, worker, job, amount, secs, backend))
      ensures Pricing.IsCharge(charge, backend, secs, amount) && Pricing.IsPayout(payout, charge)
      ensures Settled(old(Tables()), Tables(), out, hirer, worker, job, amount, charge, payout)
    {
      var actual := Pricing.Charge(backend, secs, amount);
      var refund := amount - actual;
      var paid := Pricing.Payout(actual);
      Pricing.ChargeIsPriceWithinReservation(backend, secs, amount);
      Pricing.PayoutTruncates(actual);
      charge, payout := actual, paid;
      SettleInNumbers(Tables(), hirer, worker, job, amount, actual, paid);
      var before := rows;
      var ok := Update(hirer, refund, -amount);
      if !ok {
        return Error(Database), actual, paid;
      }
      ok := Update(worker, paid, 0);
      if !ok {
        rows := before;  // rollback
        return Error(Database), actual, paid;
      }
      if refund > 0 {
        log := log + [LogRow(hirer, refund, JobRefund, Some(job))];
      }
      log := log + [LogRow(worker, paid, JobCredit, Some(job))];
      assert log == old(log) + SettleRows(hirer, worker, job, refund, paid);
      return Returned(None), actual, paid;
    }

    method RefundFull(hirer: Uuid, job: Uuid, amount: int) returns (out: Outcome)
      modifies this
      ensures (Tables(), out) == Effect(old(Tables()), Op.RefundFull(hirer, job, amount))
      ensures Refunded(old(Tables()), Tables(), out, hirer, job, amount)
    {
      var ok := Update(hirer, amount, -amount);
      if !ok {
        return Error(Database);
      }
      log := log + [LogRow(hirer, amount, JobRefund, Some(job))];
      return Returned(None);
    }
  }
}
