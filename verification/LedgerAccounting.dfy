// What the ledger's columns mean over whole runs, and how far the coded balance is from the
// documented one ("moves balance to reserved").
module LedgerAccounting {
  import opened Types
  import opened Ledger
  import opened Sums
  import opened LedgerTransactions

  /** A successful `reserve`; it is open until it is settled or refunded. */
  datatype Reservation = Reservation(job: Uuid, hirer: Uuid, amount: int, open: bool)

  /** The tables beside what an auditor would keep: `documented` is the balance of a ledger
      that takes the amount out of the balance when it is reserved, `fees` the platform's share,
      and `unpaid` the payouts to workers who have no balance row. */
  datatype Books = Books(db: Db, reservations: seq<Reservation>, documented: map<Uuid, int>,
                         granted: int, fees: int, unpaid: int)

  /** How callers use the ledger: allocations are positive, and each reservation is closed at
      most once, with its own amount. A caller whose COMMIT went unanswered cannot tell whether its
      operation succeeded; `LedgerDiscipline` says which callers keep to this use all the same. */
  datatype Use =
    | Grant(user: Uuid, amount: int)
    | Hold(hirer: Uuid, job: Uuid, amount: int)
    | Close(i: nat, worker: Uuid, secs: nat, backend: GpuBackend)
    | GiveBack(i: nat)

  function Start(accounts: set<Uuid>): Books {
    Books(Db(map u | u in accounts :: Balance(0, 0), []), [], map u | u in accounts :: 0, 0, 0, 0)
  }

  predicate Proper(b: Books, use: Use) {
    match use
    case Grant(_, amount) => amount > 0
    case Hold(_, _, amount) => amount >= 0
    case Close(i, _, _, _) => i < |b.reservations| && b.reservations[i].open
    case GiveBack(i) => i < |b.reservations| && b.reservations[i].open
  }

  function OpOf(b: Books, use: Use): Op
    requires Proper(b, use)
  {
    match use
    case Grant(user, amount) => Allocate(user, amount)
    case Hold(hirer, job, amount) => Reserve(hirer, job, amount)
    case Close(i, worker, secs, backend) =>
      var r := b.reservations[i];
      Settle(r.hirer, worker, r.job, r.amount, secs, backend)
    case GiveBack(i) => RefundFull(b.reservations[i].hirer, b.reservations[i].job, b.reservations[i].amount)
  }

  function Bump(m: map<Uuid, int>, u: Uuid, d: int): map<Uuid, int> {
    if u in m then m[u := m[u] + d] else m
  }

  /** The auditor's own entries for a use that succeeded. */
  function Audit(b: Books, use: Use): Books
    requires Proper(b, use)
  {
    match use
    case Grant(user, amount) =>
      b.(documented := Bump(b.documented, user, amount), granted := b.granted + amount)
    case Hold(hirer, job, amount) =>
      b.(documented := Bump(b.documented, hirer, -amount),
         reservations := b.reservations + [Reservation(job, hirer, amount, true)])
    case Close(i, worker, secs, backend) =>
      var r := b.reservations[i];
      var charge := Pricing.Charge(backend, secs, r.amount);
      var payout := Pricing.Payout(charge);
      b.(documented := Bump(Bump(b.documented, r.hirer, r.amount - charge), worker, payout),
         reservations := b.reservations[i := r.(open := false)],
         fees := b.fees + charge - payout,
         unpaid := b.unpaid + if worker in b.documented then 0 else payout)
    case GiveBack(i) =>
      var r := b.reservations[i];
      b.(documented := Bump(b.documented, r.hirer, r.amount),
         reservations := b.reservations[i := r.(open := false)])
  }

  function Do(b: Books, use: Use): Books {
    if !Proper(b, use) then b
    else
      var (db, outcome) := Effect(b.db, OpOf(b, use));
      if outcome.Error? then b else Audit(b, use).(db := db)
  }

  function After(b: Books, uses: seq<Use>): Books {
    if uses == [] then b else Do(After(b, uses[..|uses| - 1]), uses[|uses| - 1])
  }

  // ── Sums over the log and the reservations ─────────────────────────────────────────────

  /** The user's log amounts, with or without the `job_debit` rows. */
  function LogSum(log: seq<LogRow>, u: Uuid, debits: bool): int {
    if log == [] then 0
    else
      var row := log[|log| - 1];
      LogSum(log[..|log| - 1], u, debits) + if row.user == u && (debits || row.kind != JobDebit) then row.amount else 0
  }

  lemma LogAppend(log: seq<LogRow>, row: LogRow, u: Uuid, debits: bool)
    ensures LogSum(log + [row], u, debits)
         == LogSum(log, u, debits) + if row.user == u && (debits || row.kind != JobDebit) then row.amount else 0
  {
    assert (log + [row])[..|log|] == log;
  }

  /** What the user's open (or closed) reservations add up to. */
  function HeldBy(rs: seq<Reservation>, u: Uuid, open: bool): int {
    if rs == [] then 0
    else
      var r := rs[|rs| - 1];
      HeldBy(rs[..|rs| - 1], u, open) + if r.hirer == u && r.open == open then r.amount else 0
  }

  lemma HeldAppend(rs: seq<Reservation>, r: Reservation, u: Uuid, open: bool)
    ensures HeldBy(rs + [r], u, open) == HeldBy(rs, u, open) + if r.hirer == u && r.open == open then r.amount else 0
  {
    assert (rs + [r])[..|rs|] == rs;
  }

  /** Closing one reservation moves its amount from the open sum to the closed sum. */
  lemma {:induction false} HeldClose(rs: seq<Reservation>, i: nat, u: Uuid)
    requires i < |rs| && rs[i].open
    ensures var rs' := rs[i := rs[i].(open := false)];
            var amount := if rs[i].hirer == u then rs[i].amount else 0;
            HeldBy(rs', u, true) == HeldBy(rs, u, true) - amount
            && HeldBy(rs', u, false) == HeldBy(rs, u, false) + amount
  {
    var rs' := rs[i := rs[i].(open := false)];
    var n := |rs| - 1;
    if i < n {
      HeldClose(rs[..n], i, u);
      assert rs'[..n] == rs[..n][i := rs[..n][i].(open := false)];
    } else {
      assert rs'[..n] == rs[..n];
    }
  }

  lemma {:induction false} HeldNonNegative(rs: seq<Reservation>, u: Uuid, open: bool)
    requires forall r :: r in rs ==> r.amount >= 0
    ensures HeldBy(rs, u, open) >= 0
    ensures forall r :: r in rs && r.hirer == u && r.open == open ==> r.amount <= HeldBy(rs, u, open)
  {
    if rs != [] {
      HeldNonNegative(rs[..|rs| - 1], u, open);
      assert rs == rs[..|rs| - 1] + [rs[|rs| - 1]];
    }
  }

  // ── Invariants ─────────────────────────────────────────────────────────────────────────

  /** What one account's two columns mean. */
  ghost predicate AccountInv(b: Books, u: Uuid)
    requires u in b.db.rows && u in b.documented
  {
    var row := b.db.rows[u];
    && row.reserved == HeldBy(b.reservations, u, true)
    && row.balance == LogSum(b.db.log, u, false)
    && b.documented[u] == LogSum(b.db.log, u, true)
    && row.balance - row.reserved == b.documented[u] + HeldBy(b.reservations, u, false)
    && 0 <= row.reserved <= row.balance
  }

  ghost predicate Shape(b: Books) {
    && b.documented.Keys == b.db.rows.Keys
    && (forall r :: r in b.reservations ==> r.hirer in b.db.rows && r.amount >= 0)
  }

  ghost predicate BooksInv(b: Books) {
    && Shape(b)
    && (forall u :: u in b.db.rows ==> AccountInv(b, u))
  }

  ghost function ReservedMap(db: Db): map<Uuid, int> {
    map u | u in db.rows :: db.rows[u].reserved
  }

  /** Every unit ever allocated is in a documented balance, reserved, a fee, or owed. */
  ghost predicate Conserved(b: Books) {
    SumMap(b.documented) + SumMap(ReservedMap(b.db)) + b.fees + b.unpaid == b.granted
  }

  lemma GrantKeepsBooks(b: Books, use: Use)
    requires BooksInv(b) && use.Grant? && Proper(b, use)
    ensures BooksInv(Do(b, use))
  {
    var b' := Do(b, use);
    forall u | u in b'.db.rows
      ensures AccountInv(b', u)
    {
      assert AccountInv(b, u);
      LogAppend(b.db.log, LogRow(use.user, use.amount, Allocation, None), u, false);
      LogAppend(b.db.log, LogRow(use.user, use.amount, Allocation, None), u, true);
    }
  }

  /** What a successful reservation does to the books. */
  lemma HoldChanges(b: Books, use: Use)
    requires use.Hold? && Proper(b, use) && Effect(b.db, OpOf(b, use)).1.Returned?
    ensures var b', h := Do(b, use), use.hirer;
            && h in b.db.rows && b.db.rows[h].balance - b.db.rows[h].reserved >= use.amount
            && b'.db.rows == b.db.rows[h := Balance(b.db.rows[h].balance, b.db.rows[h].reserved + use.amount)]
            && b'.db.log == b.db.log + [LogRow(h, -use.amount, JobDebit, Some(use.job))]
            && b'.documented == Bump(b.documented, h, -use.amount)
            && b'.reservations == b.reservations + [Reservation(use.job, h, use.amount, true)]
  {
  }

  lemma HoldKeepsAccount(b: Books, use: Use, u: Uuid)
    requires Shape(b) && use.Hold? && Proper(b, use) && u in b.db.rows && AccountInv(b, u)
    ensures u in Do(b, use).db.rows && u in Do(b, use).documented && AccountInv(Do(b, use), u)
  {
    if Effect(b.db, OpOf(b, use)).1.Returned? {
      var row := LogRow(use.hirer, -use.amount, JobDebit, Some(use.job));
      HoldChanges(b, use);
      LogAppend(b.db.log, row, u, false);
      LogAppend(b.db.log, row, u, true);
      HeldAppend(b.reservations, Reservation(use.job, use.hirer, use.amount, true), u, false);
      HeldAppend(b.reservations, Reservation(use.job, use.hirer, use.amount, true), u, true);
    }
  }

  lemma HoldKeepsBooks(b: Books, use: Use)
    requires BooksInv(b) && use.Hold? && Proper(b, use)
    ensures BooksInv(Do(b, use))
  {
    forall u | u in Do(b, use).db.rows
      ensures AccountInv(Do(b, use), u)
    {
      HoldKeepsAccount(b, use, u);
    }
  }

  /** What a successful refund does to the books. */
  lemma GiveBackChanges(b: Books, use: Use)
    requires Shape(b) && use.GiveBack? && Proper(b, use) && Effect(b.db, OpOf(b, use)).1.Returned?
    ensures var b', r := Do(b, use), b.reservations[use.i];
            && r in b.reservations && r.hirer in b.db.rows
            && b'.db.rows == b.db.rows[r.hirer := Balance(b.db.rows[r.hirer].balance + r.amount,
                                                         b.db.rows[r.hirer].reserved - r.amount)]
            && b.db.rows[r.hirer].reserved - r.amount >= 0
            && b'.db.log == b.db.log + [LogRow(r.hirer, r.amount, JobRefund, Some(r.job))]
            && b'.documented == Bump(b.documented, r.hirer, r.amount)
            && b'.reservations == b.reservations[use.i := r.(open := false)]
  {
  }

  lemma GiveBackKeepsSums(b: Books, use: Use, u: Uuid)
    requires Shape(b) && use.GiveBack? && Proper(b, use) && Effect(b.db, OpOf(b, use)).1.Returned?
    ensures var b', r := Do(b, use), b.reservations[use.i];
            var amount := if r.hirer == u then r.amount else 0;
            && LogSum(b'.db.log, u, false) == LogSum(b.db.log, u, false) + amount
            && LogSum(b'.db.log, u, true) == LogSum(b.db.log, u, true) + amount
            && HeldBy(b'.reservations, u, true) == HeldBy(b.reservations, u, true) - amount
            && HeldBy(b'.reservations, u, false) == HeldBy(b.reservations, u, false) + amount
  {
    var r := b.reservations[use.i];
    var row := LogRow(r.hirer, r.amount, JobRefund, Some(r.job));
    GiveBackChanges(b, use);
    LogAppend(b.db.log, row, u, false);
    LogAppend(b.db.log, row, u, true);
    HeldClose(b.reservations, use.i, u);
  }

  lemma GiveBackKeepsAccount(b: Books, use: Use, u: Uuid)
    requires Shape(b) && use.GiveBack? && Proper(b, use) && u in b.db.rows && AccountInv(b, u)
    ensures u in Do(b, use).db.rows && u in Do(b, use).documented && AccountInv(Do(b, use), u)
  {
    if Effect(b.db, OpOf(b, use)).1.Returned? {
      GiveBackChanges(b, use);
      GiveBackKeepsSums(b, use, u);
    }
  }

  lemma GiveBackKeepsBooks(b: Books, use: Use)
    requires BooksInv(b) && use.GiveBack? && Proper(b, use)
    ensures BooksInv(Do(b, use))
  {
    forall u | u in Do(b, use).db.rows
      ensures AccountInv(Do(b, use), u)
    {
      GiveBackKeepsAccount(b, use, u);
    }
  }

  /** The log rows of a settlement add up to the refund for the hirer and the payout for the worker. */
  lemma SettleRowsSum(log: seq<LogRow>, hirer: Uuid, worker: Uuid, job: Uuid, refund: nat, payout: int, u: Uuid,
                      debits: bool)
    ensures LogSum(log + SettleRows(hirer, worker, job, refund, payout), u, debits)
         == LogSum(log, u, debits) + (if u == hirer then refund else 0) + (if u == worker then payout else 0)
  {
    var credit := LogRow(worker, payout, JobCredit, Some(job));
    if refund > 0 {
      var back := LogRow(hirer, refund, JobRefund, Some(job));
      LogAppend(log, back, u, debits);
      LogAppend(log + [back], credit, u, debits);
      assert log + SettleRows(hirer, worker, job, refund, payout) == log + [back] + [credit];
    } else {
      LogAppend(log, credit, u, debits);
      assert log + SettleRows(hirer, worker, job, refund, payout) == log + [credit];
    }
  }

  /** A settlement keeps an account's equations, whatever charge and payout are. */
  lemma SettlementKeepsAccount(b: Books, b': Books, i: nat, worker: Uuid, charge: nat, payout: nat, u: Uuid)
    requires Shape(b) && u in b.db.rows && AccountInv(b, u)
    requires i < |b.reservations| && b.reservations[i].open && charge <= b.reservations[i].amount
    requires var r := b.reservations[i];
             && SettleEffect(b.db, r.hirer, worker, r.job, r.amount, r.amount - charge, payout)
                == (b'.db, Returned(None))
             && b'.documented == Bump(Bump(b.documented, r.hirer, r.amount - charge), worker, payout)
             && b'.reservations == b.reservations[i := r.(open := false)]
    ensures u in b'.db.rows && u in b'.documented && AccountInv(b', u)
  {
    var r := b.reservations[i];
    SettleRowsSum(b.db.log, r.hirer, worker, r.job, r.amount - charge, payout, u, false);
    SettleRowsSum(b.db.log, r.hirer, worker, r.job, r.amount - charge, payout, u, true);
    HeldClose(b.reservations, i, u);
  }

  lemma CloseKeepsBooks(b: Books, use: Use)
    requires BooksInv(b) && use.Close? && Proper(b, use)
    ensures BooksInv(Do(b, use))
  {
    var b' := Do(b, use);
    if b' != b {
      var r := b.reservations[use.i];
      var charge := Pricing.Charge(use.backend, use.secs, r.amount);
      Pricing.ChargeWithinReservation(use.backend, use.secs, r.amount);
      Pricing.PayoutRoundsDown(charge);
      forall u | u in b'.db.rows
        ensures AccountInv(b', u)
      {
        SettlementKeepsAccount(b, b', use.i, use.worker, charge, Pricing.Payout(charge), u);
      }
    }
  }

  lemma BumpSum(m: map<Uuid, int>, u: Uuid, d: int)
    ensures SumMap(Bump(m, u, d)) == SumMap(m) + if u in m then d else 0
  {
    if u in m {
      SumUpdate(m, u, m[u] + d);
    }
  }

  lemma AddToReserved(db: Db, rows': map<Uuid, Balance>, u: Uuid, delta: int, dr: int)
    requires AddTo(db.rows, u, delta, dr) == Some(rows')
    ensures ReservedMap(Db(rows', [])) == Bump(ReservedMap(db), u, dr)
    ensures SumMap(ReservedMap(Db(rows', []))) == SumMap(ReservedMap(db)) + if u in db.rows then dr else 0
  {
    assert ReservedMap(Db(rows', [])) == Bump(ReservedMap(db), u, dr);
    BumpSum(ReservedMap(db), u, dr);
  }

  lemma GrantConserves(b: Books, use: Use)
    requires Shape(b) && Conserved(b) && use.Grant?
    ensures Conserved(Do(b, use))
  {
    var b' := Do(b, use);
    if b' != b {
      assert ReservedMap(b'.db) == ReservedMap(Db(b'.db.rows, []));
      AddToReserved(b.db, b'.db.rows, use.user, use.amount, 0);
      BumpSum(b.documented, use.user, use.amount);
    }
  }

  lemma HoldConserves(b: Books, use: Use)
    requires Shape(b) && Conserved(b) && use.Hold?
    ensures Conserved(Do(b, use))
  {
    var b' := Do(b, use);
    if b' != b {
      assert ReservedMap(b'.db) == ReservedMap(Db(b'.db.rows, []));
      AddToReserved(b.db, b'.db.rows, use.hirer, 0, use.amount);
      BumpSum(b.documented, use.hirer, -use.amount);
    }
  }

  lemma GiveBackConserves(b: Books, use: Use)
    requires Shape(b) && Conserved(b) && use.GiveBack?
    ensures Conserved(Do(b, use))
  {
    var b' := Do(b, use);
    if b' != b {
      var r := b.reservations[use.i];
      assert r in b.reservations;
      assert ReservedMap(b'.db) == ReservedMap(Db(b'.db.rows, []));
      AddToReserved(b.db, b'.db.rows, r.hirer, r.amount, -r.amount);
      BumpSum(b.documented, r.hirer, r.amount);
    }
  }

  /** Refund, payout, fee and debt of a settlement share out the reservation, whatever the charge is. */
  lemma SettlementShares(db: Db, documented: map<Uuid, int>, hirer: Uuid, worker: Uuid, job: Uuid,
                         amount: int, charge: int, payout: int)
    requires documented.Keys == db.rows.Keys && hirer in db.rows
    requires SettleEffect(db, hirer, worker, job, amount, amount - charge, payout).1.Returned?
    ensures var db' := SettleEffect(db, hirer, worker, job, amount, amount - charge, payout).0;
            SumMap(Bump(Bump(documented, hirer, amount - charge), worker, payout)) + SumMap(ReservedMap(db'))
              + (charge - payout) + (if worker in documented then 0 else payout)
              == SumMap(documented) + SumMap(ReservedMap(db))
  {
    var db' := SettleEffect(db, hirer, worker, job, amount, amount - charge, payout).0;
    var released := AddTo(db.rows, hirer, amount - charge, -amount).value;
    AddToReserved(db, released, hirer, amount - charge, -amount);
    AddToReserved(Db(released, []), db'.rows, worker, payout, 0);
    assert ReservedMap(db') == ReservedMap(Db(db'.rows, []));
    BumpSum(documented, hirer, amount - charge);
    BumpSum(Bump(documented, hirer, amount - charge), worker, payout);
  }

  lemma CloseConserves(b: Books, use: Use)
    requires Shape(b) && Conserved(b) && use.Close?
    ensures Conserved(Do(b, use))
  {
    var b' := Do(b, use);
    if b' != b {
      var r := b.reservations[use.i];
      assert r in b.reservations;
      var charge := Pricing.Charge(use.backend, use.secs, r.amount);
      var payout := Pricing.Payout(charge);
      assert b'.db == SettleEffect(b.db, r.hirer, use.worker, r.job, r.amount, r.amount - charge, payout).0;
      assert b'.documented == Bump(Bump(b.documented, r.hirer, r.amount - charge), use.worker, payout);
      SettlementShares(b.db, b.documented, r.hirer, use.worker, r.job, r.amount, charge, payout);
    }
  }

  lemma DoKeepsBooks(b: Books, use: Use)
    requires BooksInv(b) && Conserved(b)
    ensures BooksInv(Do(b, use)) && Conserved(Do(b, use))
  {
    if Proper(b, use) {
      match use
      case Grant(_, _) =>
        GrantKeepsBooks(b, use);
        GrantConserves(b, use);
      case Hold(_, _, _) =>
        HoldKeepsBooks(b, use);
        HoldConserves(b, use);
      case Close(_, _, _, _) =>
        CloseKeepsBooks(b, use);
        CloseConserves(b, use);
      case GiveBack(_) =>
        GiveBackKeepsBooks(b, use);
        GiveBackConserves(b, use);
    }
  }

  lemma {:induction false} ZeroSum(m: map<Uuid, int>)
    requires forall u :: u in m ==> m[u] == 0
    ensures SumMap(m) == 0
    decreases |m|
  {
    if m != map[] {
      var k :| k in m && SumMap(m) == m[k] + SumMap(m - {k});
      ZeroSum(m - {k});
    }
  }

  // ── Main results ───────────────────────────────────────────────────────────────────────

  /** In every run of proper uses from empty accounts: `cu_reserved` is the sum of the open
      reservations, `cu_balance` the sum of the log rows other than debits, 0 <= reserved <= balance,
      the documented balance is the full log sum, the coded available balance exceeds it by the
      closed reservations, and nothing allocated is lost. */
  lemma {:induction false} Accounting(accounts: set<Uuid>, uses: seq<Use>)
    ensures BooksInv(After(Start(accounts), uses))
    ensures Conserved(After(Start(accounts), uses))
  {
    var b0 := Start(accounts);
    if uses == [] {
      ZeroSum(b0.documented);
      ZeroSum(ReservedMap(b0.db));
    } else {
      var b, use := After(b0, uses[..|uses| - 1]), uses[|uses| - 1];
      Accounting(accounts, uses[..|uses| - 1]);
      DoKeepsBooks(b, use);
    }
  }

  /** The coded available balance is the documented one exactly while the user has closed no
      reservation of a positive amount. */
  lemma AvailableAsDocumented(accounts: set<Uuid>, uses: seq<Use>, u: Uuid)
    requires u in accounts
    ensures var b := After(Start(accounts), uses);
            && u in b.db.rows && u in b.documented
            && (b.db.rows[u].balance - b.db.rows[u].reserved == b.documented[u]
                <==> forall r :: r in b.reservations && r.hirer == u && !r.open ==> r.amount == 0)
  {
    var b := After(Start(accounts), uses);
    Accounting(accounts, uses);
    AccountsStay(Start(accounts), uses);
    assert AccountInv(b, u);
    HeldNonNegative(b.reservations, u, false);
    if forall r :: r in b.reservations && r.hirer == u && !r.open ==> r.amount == 0 {
      HeldZero(b.reservations, u);
    }
  }

  lemma {:induction false} HeldZero(rs: seq<Reservation>, u: Uuid)
    requires forall r :: r in rs && r.hirer == u && !r.open ==> r.amount == 0
    ensures HeldBy(rs, u, false) == 0
  {
    if rs != [] {
      HeldZero(rs[..|rs| - 1], u);
    }
  }

  lemma {:induction false} AccountsStay(b: Books, uses: seq<Use>)
    ensures After(b, uses).db.rows.Keys == b.db.rows.Keys
  {
    if uses != [] {
      var earlier, use := After(b, uses[..|uses| - 1]), uses[|uses| - 1];
      AccountsStay(b, uses[..|uses| - 1]);
      if Proper(earlier, use) {
        EffectKeepsAccounts(earlier.db, OpOf(earlier, use));
      }
    }
  }

  /** The two part ways: an account of 10 units pays for a 10-unit job and can then reserve
      another 10, which the documented ledger would have to cover with a debt. */
  lemma DocumentedOverdraft()
    ensures var b := After(Start({1, 2}), OverdraftUses());
            && 1 in b.documented && b.documented[1] == -10
            && 1 in b.db.rows && b.db.rows[1] == Balance(10, 10)
  {
    AfterFour(Start({1, 2}), Grant(1, 10), Hold(1, 7, 10), Close(0, 2, 3600, CpuOnly), Hold(1, 8, 10));
    GrantThenHold();
    CloseThenHold(Do(Do(Start({1, 2}), Grant(1, 10)), Hold(1, 7, 10)));
  }

  function OverdraftUses(): seq<Use> {
    [Grant(1, 10), Hold(1, 7, 10), Close(0, 2, 3600, CpuOnly), Hold(1, 8, 10)]
  }

  lemma GrantThenHold()
    ensures var b := Do(Do(Start({1, 2}), Grant(1, 10)), Hold(1, 7, 10));
            && b.db.rows == map[1 := Balance(10, 10), 2 := Balance(0, 0)]
            && b.documented == map[1 := 0, 2 := 0]
            && b.reservations == [Reservation(7, 1, 10, true)]
  {
    var b0 := Start({1, 2});
    var b1 := Do(b0, Grant(1, 10));
    assert b1.db.rows == map[1 := Balance(10, 0), 2 := Balance(0, 0)];
    assert b1.documented == map[1 := 10, 2 := 0];
  }

  lemma CloseThenHold(b: Books)
    requires b.db.rows == map[1 := Balance(10, 10), 2 := Balance(0, 0)]
    requires b.documented == map[1 := 0, 2 := 0]
    requires b.reservations == [Reservation(7, 1, 10, true)]
    ensures var b' := Do(Do(b, Close(0, 2, 3600, CpuOnly)), Hold(1, 8, 10));
            1 in b'.documented && b'.documented[1] == -10 && b'.db.rows == map[1 := Balance(10, 10), 2 := Balance(8, 0)]
  {
    Pricing.PriceRoundsUp(CpuOnly, 3600);
    assert Pricing.Charge(CpuOnly, 3600, 10) == 10;
    assert Pricing.Payout(10) == 8;
    var b1 := Do(b, Close(0, 2, 3600, CpuOnly));
    assert b1.db.rows == map[1 := Balance(10, 0), 2 := Balance(8, 0)];
    assert b1.documented == map[1 := 0, 2 := 8];
    assert Do(b1, Hold(1, 8, 10)).db.rows == map[1 := Balance(10, 10), 2 := Balance(8, 0)];
  }

  lemma AfterAppend(b: Books, uses: seq<Use>, use: Use)
    ensures After(b, uses + [use]) == Do(After(b, uses), use)
  {
    assert (uses + [use])[..|uses|] == uses;
  }

  lemma AfterFour(b: Books, u1: Use, u2: Use, u3: Use, u4: Use)
    ensures After(b, [u1, u2, u3, u4]) == Do(Do(Do(Do(b, u1), u2), u3), u4)
  {
    AfterAppend(b, [], u1);
    AfterAppend(b, [u1], u2);
    AfterAppend(b, [u1, u2], u3);
    AfterAppend(b, [u1, u2, u3], u4);
    assert [] + [u1] == [u1] && [u1] + [u2] == [u1, u2] && [u1, u2] + [u3] == [u1, u2, u3];
    assert [u1, u2, u3] + [u4] == [u1, u2, u3, u4];
  }

  /** Closing an open reservation never fails for lack of reserved units: a refund fails exactly
      when the balance would leave BIGINT. */
  lemma RefundFailsOnlyByOverflow(accounts: set<Uuid>, uses: seq<Use>, i: nat)
    requires var b := After(Start(accounts), uses); Proper(b, GiveBack(i))
    ensures var b := After(Start(accounts), uses);
            var r := b.reservations[i];
            && r.hirer in b.db.rows
            && (Effect(b.db, OpOf(b, GiveBack(i))).1.Error? <==> b.db.rows[r.hirer].balance + r.amount > I64_MAX)
  {
    OpenIsCovered(accounts, uses, i);
  }

  /** A settlement fails exactly when one of its two new balances would leave BIGINT. */
  predicate SettleOverflows(db: Db, hirer: Uuid, worker: Uuid, refund: int, payout: int)
    requires hirer in db.rows
  {
    || db.rows[hirer].balance + refund > I64_MAX
    || (worker in db.rows && db.rows[worker].balance + payout + (if worker == hirer then refund else 0) > I64_MAX)
  }

  lemma CoveredSettleFails(db: Db, hirer: Uuid, worker: Uuid, job: Uuid, amount: nat, refund: nat, payout: nat)
    requires AllStorable(db) && hirer in db.rows && amount <= db.rows[hirer].reserved
    ensures SettleEffect(db, hirer, worker, job, amount, refund, payout).1.Error?
        <==> SettleOverflows(db, hirer, worker, refund, payout)
  {
  }

  lemma SettleFailsOnlyByOverflow(accounts: set<Uuid>, uses: seq<Use>, i: nat, worker: Uuid, secs: nat,
                                  backend: GpuBackend)
    requires Proper(After(Start(accounts), uses), Close(i, worker, secs, backend))
    ensures var b := After(Start(accounts), uses);
            var r := b.reservations[i];
            var charge := Pricing.Charge(backend, secs, r.amount);
            && r.hirer in b.db.rows
            && (Effect(b.db, OpOf(b, Close(i, worker, secs, backend))).1.Error? <==>
                SettleOverflows(b.db, r.hirer, worker, r.amount - charge, Pricing.Payout(charge)))
  {
    OpenIsCovered(accounts, uses, i);
    var b := After(Start(accounts), uses);
    var r := b.reservations[i];
    var charge := Pricing.Charge(backend, secs, r.amount);
    Pricing.ChargeWithinReservation(backend, secs, r.amount);
    Pricing.PayoutRoundsDown(charge);
    CoveredSettleFails(b.db, r.hirer, worker, r.job, r.amount, r.amount - charge, Pricing.Payout(charge));
  }

  lemma OpenIsCovered(accounts: set<Uuid>, uses: seq<Use>, i: nat)
    requires var b := After(Start(accounts), uses); i < |b.reservations| && b.reservations[i].open
    ensures var b := After(Start(accounts), uses);
            && Shape(b)
            && b.reservations[i].hirer in b.db.rows
            && 0 <= b.reservations[i].amount <= b.db.rows[b.reservations[i].hirer].reserved
            && AllStorable(b.db)
  {
    Accounting(accounts, uses);
    var b := After(Start(accounts), uses);
    var r := b.reservations[i];
    assert r in b.reservations;
    assert AccountInv(b, r.hirer);
    HeldNonNegative(b.reservations, r.hirer, true);
    RowsStorable(accounts, uses);
  }

  ghost predicate AllStorable(db: Db) {
    forall u :: u in db.rows ==> Storable(db.rows[u])
  }

  lemma EffectKeepsStorable(db: Db, op: Op)
    requires AllStorable(db)
    ensures AllStorable(Effect(db, op).0)
  {
  }

  lemma {:induction false} RowsStorable(accounts: set<Uuid>, uses: seq<Use>)
    ensures AllStorable(After(Start(accounts), uses).db)
  {
    if uses != [] {
      var b, use := After(Start(accounts), uses[..|uses| - 1]), uses[|uses| - 1];
      RowsStorable(accounts, uses[..|uses| - 1]);
      if Proper(b, use) {
        EffectKeepsStorable(b.db, OpOf(b, use));
      }
    }
  }

  // ── Concurrent runs ────────────────────────────────────────────────────────────────────

  /** The ledger operations that a run of uses makes. */
  function OpsOf(b: Books, uses: seq<Use>): seq<Op> {
    if uses == [] then []
    else
      var before, use := uses[..|uses| - 1], uses[|uses| - 1];
      OpsOf(b, before) + if Proper(After(b, before), use) then [OpOf(After(b, before), use)] else []
  }

  function DoneOps(done: seq<Finished>): seq<Op> {
    if done == [] then [] else DoneOps(done[..|done| - 1]) + [done[|done| - 1].op]
  }

  function OneByOne(db: Db, ops: seq<Op>): Db {
    if ops == [] then db else Effect(OneByOne(db, ops[..|ops| - 1]), ops[|ops| - 1]).0
  }

  lemma OneByOneAppend(db: Db, ops: seq<Op>, op: Op)
    ensures OneByOne(db, ops + [op]) == Effect(OneByOne(db, ops), op).0
  {
    assert (ops + [op])[..|ops|] == ops;
  }

  lemma {:induction false} SeriallyIsOneByOne(db: Db, done: seq<Finished>)
    ensures Serially(db, done) == OneByOne(db, DoneOps(done))
  {
    if done != [] {
      SeriallyIsOneByOne(db, done[..|done| - 1]);
      OneByOneAppend(db, DoneOps(done[..|done| - 1]), done[|done| - 1].op);
    }
  }

  lemma FailureChangesNothing(db: Db, op: Op)
    ensures Effect(db, op).1.Error? ==> Effect(db, op).0 == db
  {
  }

  lemma {:induction false} UsesAreOneByOne(b: Books, uses: seq<Use>)
    ensures OneByOne(b.db, OpsOf(b, uses)) == After(b, uses).db
  {
    if uses != [] {
      var before, use := uses[..|uses| - 1], uses[|uses| - 1];
      UsesAreOneByOne(b, before);
      if Proper(After(b, before), use) {
        var op := OpOf(After(b, before), use);
        OneByOneAppend(b.db, OpsOf(b, before), op);
        FailureChangesNothing(After(b, before).db, op);
      } else {
        assert OpsOf(b, uses) == OpsOf(b, before);
      }
    }
  }

  /** If the transactions that finished are those of a run of proper uses, in the order in which
      they ended, the tables are that run's. */
  lemma TablesOfUses(accounts: set<Uuid>, actions: seq<Action>, uses: seq<Use>)
    requires DoneOps(Run(Init(Start(accounts).db), actions).done) == OpsOf(Start(accounts), uses)
    ensures Run(Init(Start(accounts).db), actions).db == After(Start(accounts), uses).db
  {
    Serializable(Start(accounts).db, actions);
    SeriallyIsOneByOne(Start(accounts).db, Run(Init(Start(accounts).db), actions).done);
    UsesAreOneByOne(Start(accounts), uses);
  }
}
