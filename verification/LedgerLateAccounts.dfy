// What the lock order does and does not give when accounts are opened while transactions run: the
// transactions of `LedgerTransactions`, seen only as the rows they lock, beside `initialize`.
module LedgerLateAccounts {
  import opened Types
  import opened Ledger
  import opened LedgerTransactions

  /** A running transaction: the rows it has looked for in vain are `missed`. */
  datatype Locker = Locker(op: Op, pc: nat, missed: set<Uuid>)

  datatype Locks = Locks(rows: set<Uuid>, lockers: map<nat, Locker>, owner: map<Uuid, nat>)

  datatype Move =
    | Open(user: Uuid)          // `initialize` commits
    | Start(t: nat, op: Op)
    | Next(t: nat)
    | Finish(t: nat)            // commit, rollback or a lost connection, at any moment

  function Begin(rows: set<Uuid>): Locks {
    Locks(rows, map[], map[])
  }

  /** The row that the next statement is about. */
  function Aim(x: Locker): Option<Uuid> {
    if x.pc < |Program(x.op)| then Target(Program(x.op)[x.pc]) else None
  }

  /** The existing row that transaction `t` must lock next. */
  function Wants(s: Locks, t: nat): Option<Uuid> {
    if t in s.lockers && Aim(s.lockers[t]).Some? && Aim(s.lockers[t]).value in s.rows then Aim(s.lockers[t]) else None
  }

  predicate Waits(s: Locks, t: nat, u: nat) {
    Wants(s, t).Some? && Wants(s, t).value in s.owner && s.owner[Wants(s, t).value] == u && u != t
  }

  predicate CanMove(s: Locks, m: Move) {
    match m
    case Open(_) => true
    case Start(t, _) => t !in s.lockers
    case Next(t) =>
      t in s.lockers && s.lockers[t].pc < |Program(s.lockers[t].op)|
      && (Wants(s, t).Some? && Wants(s, t).value in s.owner ==> s.owner[Wants(s, t).value] == t)
    case Finish(t) => t in s.lockers
  }

  function After(s: Locks, m: Move): Locks {
    if !CanMove(s, m) then s
    else
      match m
      case Open(user) => s.(rows := s.rows + {user})
      case Start(t, op) => s.(lockers := s.lockers[t := Locker(op, 0, {})])
      case Next(t) =>
        var x := s.lockers[t];
        var missed := if Aim(x).Some? && Wants(s, t).None? then {Aim(x).value} else {};
        s.(lockers := s.lockers[t := Locker(x.op, x.pc + 1, x.missed + missed)],
           owner := if Wants(s, t).Some? then s.owner[Wants(s, t).value := t] else s.owner)
      case Finish(t) => s.(lockers := s.lockers - {t}, owner := Release(s.owner, t))
  }

  function Moves(rows: set<Uuid>, moves: seq<Move>): Locks {
    if moves == [] then Begin(rows) else After(Moves(rows, moves[..|moves| - 1]), moves[|moves| - 1])
  }

  // ── Cycles need a row that was missed ──────────────────────────────────────────────────

  predicate Reached(x: Locker, r: Uuid) {
    x.pc <= |Program(x.op)| && Touched(Program(x.op), x.pc, r)
  }

  /** What a transaction owns it has reached, and what it has reached it owns or has missed. */
  ghost predicate OwnsInv(s: Locks) {
    && (forall t :: t in s.lockers ==> s.lockers[t].pc <= |Program(s.lockers[t].op)|)
    && (forall r :: r in s.owner ==> s.owner[r] in s.lockers && Reached(s.lockers[s.owner[r]], r))
    && (forall t, r :: t in s.lockers && Reached(s.lockers[t], r) ==> OwnsOrMissed(s, t, r))
  }

  predicate OwnsOrMissed(s: Locks, t: nat, r: Uuid)
    requires t in s.lockers
  {
    r in s.lockers[t].missed || (r in s.owner && s.owner[r] == t)
  }

  lemma ReachedNext(x: Locker, missed: set<Uuid>, r: Uuid)
    requires x.pc < |Program(x.op)|
    ensures Reached(Locker(x.op, x.pc + 1, missed), r) <==> Reached(x, r) || Aim(x) == Some(r)
  {
    TouchedGrows(Program(x.op), x.pc + 1, r);
  }

  lemma NextKeepsOwns(s: Locks, t: nat)
    requires OwnsInv(s) && CanMove(s, Next(t))
    ensures OwnsInv(After(s, Next(t)))
  {
    var x, s' := s.lockers[t], After(s, Next(t));
    forall r: Uuid
      ensures Reached(s'.lockers[t], r) <==> Reached(x, r) || Aim(x) == Some(r)
    {
      ReachedNext(x, s'.lockers[t].missed, r);
    }
    forall u, r | u in s'.lockers && Reached(s'.lockers[u], r)
      ensures OwnsOrMissed(s', u, r)
    {
      if u != t || Reached(x, r) {
        assert OwnsOrMissed(s, u, r);
      }
    }
  }

  lemma StartKeepsOwns(s: Locks, t: nat, op: Op)
    requires OwnsInv(s) && t !in s.lockers
    ensures OwnsInv(After(s, Start(t, op)))
  {
    var s' := After(s, Start(t, op));
    forall u, r | u in s'.lockers && Reached(s'.lockers[u], r)
      ensures OwnsOrMissed(s', u, r)
    {
      assert OwnsOrMissed(s, u, r);
    }
  }

  lemma FinishKeepsOwns(s: Locks, t: nat)
    requires OwnsInv(s) && t in s.lockers
    ensures OwnsInv(After(s, Finish(t)))
  {
    var s' := After(s, Finish(t));
    forall u, r | u in s'.lockers && Reached(s'.lockers[u], r)
      ensures OwnsOrMissed(s', u, r)
    {
      assert OwnsOrMissed(s, u, r);
    }
  }

  lemma OpenKeepsOwns(s: Locks, user: Uuid)
    requires OwnsInv(s)
    ensures OwnsInv(After(s, Open(user)))
  {
    forall u, r | u in s.lockers && Reached(s.lockers[u], r)
      ensures OwnsOrMissed(After(s, Open(user)), u, r)
    {
      assert OwnsOrMissed(s, u, r);
    }
  }

  lemma StepKeepsOwns(s: Locks, m: Move)
    requires OwnsInv(s)
    ensures OwnsInv(After(s, m))
  {
    if CanMove(s, m) {
      match m
      case Open(user) => OpenKeepsOwns(s, user);
      case Start(t, op) => StartKeepsOwns(s, t, op);
      case Next(t) => NextKeepsOwns(s, t);
      case Finish(t) => FinishKeepsOwns(s, t);
    }
  }

  lemma {:induction false} ReachableOwns(rows: set<Uuid>, moves: seq<Move>)
    ensures OwnsInv(Moves(rows, moves))
  {
    if moves != [] {
      ReachableOwns(rows, moves[..|moves| - 1]);
      StepKeepsOwns(Moves(rows, moves[..|moves| - 1]), moves[|moves| - 1]);
    }
  }

  /** The transaction waits for a row that it has looked for before, when the row did not exist. */
  predicate WaitsForMissed(s: Locks, t: nat) {
    Wants(s, t).Some? && Wants(s, t).value in s.lockers[t].missed
  }

  /** A transaction that waits for any other row holds only lower rows. */
  lemma OthersHoldLess(s: Locks, t: nat, u: nat, r: Uuid)
    requires OwnsInv(s) && Waits(s, t, u) && !WaitsForMissed(s, t) && r in s.owner && s.owner[r] == t
    ensures r < Wants(s, t).value
  {
    var x, wanted := s.lockers[t], Wants(s, t).value;
    assert Reached(x, r);
    assert Reached(x, wanted) ==> OwnsOrMissed(s, t, wanted);
    LocksAscend(x.op, x.pc, wanted, r);
  }

  ghost predicate IsChain(s: Locks, chain: seq<nat>) {
    |chain| >= 2 && forall i :: 0 <= i < |chain| - 1 ==> Waits(s, chain[i], chain[i + 1])
  }

  predicate SomeoneMissed(s: Locks, chain: seq<nat>) {
    exists t :: t in chain && WaitsForMissed(s, t)
  }

  lemma {:induction false} ChainClimbs(s: Locks, chain: seq<nat>, n: nat)
    requires OwnsInv(s) && IsChain(s, chain) && n <= |chain| - 2 && !SomeoneMissed(s, chain)
    ensures Wants(s, chain[0]).Some? && Wants(s, chain[n]).Some?
    ensures Wants(s, chain[0]).value <= Wants(s, chain[n]).value
  {
    assert Waits(s, chain[n], chain[n + 1]);
    if n > 0 {
      ChainClimbs(s, chain, n - 1);
      assert Waits(s, chain[n - 1], chain[n - 1 + 1]);
      assert chain[n] in chain;
      OthersHoldLess(s, chain[n], chain[n + 1], Wants(s, chain[n - 1]).value);
    }
  }

  /** Even with accounts opened at any moment, a cycle of waiting transactions has a member that waits
      for a row it had looked for before the row existed. */
  lemma CycleNeedsMissedRow(rows: set<Uuid>, moves: seq<Move>, chain: seq<nat>)
    requires IsChain(Moves(rows, moves), chain) && chain[0] == chain[|chain| - 1]
    ensures SomeoneMissed(Moves(rows, moves), chain)
  {
    var s := Moves(rows, moves);
    var last := |chain| - 2;
    ReachableOwns(rows, moves);
    if !SomeoneMissed(s, chain) {
      ChainClimbs(s, chain, last);
      assert Waits(s, chain[last], chain[last + 1]) && Waits(s, chain[0], chain[0 + 1]);
      assert chain[0] in chain;
      OthersHoldLess(s, chain[0], chain[1], Wants(s, chain[last]).value);
      assert false;
    }
  }

  // ── And such a row is enough ───────────────────────────────────────────────────────────

  lemma Go(rows: set<Uuid>, moves: seq<Move>, m: Move) returns (more: seq<Move>)
    ensures more == moves + [m] && Moves(rows, more) == After(Moves(rows, moves), m)
  {
    more := moves + [m];
    assert more[..|moves|] == moves;
  }

  /** The rows that a settlement is about, in the order in which it goes for them. */
  lemma SettleAims(op: Op, low: Uuid, high: Uuid)
    requires op.Settle? && low < high && {op.hirer, op.worker} == {low, high}
    ensures |Program(op)| >= 5
    ensures Target(Program(op)[0]) == Some(low) && Target(Program(op)[1]) == Some(high)
    ensures Target(Program(op)[2]) == Some(op.hirer) && Target(Program(op)[3]) == Some(op.worker)
  {
    assert low in {op.hirer, op.worker} && high in {op.hirer, op.worker};
    assert op.hirer in {low, high} && op.worker in {low, high};
  }

  /** One settlement holds the higher row and has missed the lower one, which exists by now. */
  ghost predicate HalfLocked(s: Locks, x: Op, low: Uuid, high: Uuid) {
    && s.rows == {low, high} && s.owner == map[high := 1]
    && s.lockers == map[1 := Locker(x, 2, {low})]
  }

  lemma FirstGetsAhead(x: Op, low: Uuid, high: Uuid) returns (moves: seq<Move>)
    requires x.Settle? && low < high && {x.hirer, x.worker} == {low, high}
    ensures StartsOnly(moves, {x}) && HalfLocked(Moves({high}, moves), x, low, high)
  {
    SettleAims(x, low, high);
    assert Moves({high}, []) == Begin({high});
    moves := Go({high}, [], Start(1, x));
    moves := Go({high}, moves, Next(1));
    assert Moves({high}, moves).lockers[1].missed == {low};
    moves := Go({high}, moves, Next(1));
    assert Moves({high}, moves).lockers[1].missed == {low};
    moves := Go({high}, moves, Open(low));
    assert Moves({high}, moves).lockers == map[1 := Locker(x, 2, {low})];
  }

  /** The other settlement locks the lower row, and waits. */
  lemma SecondComesBetween(x: Op, y: Op, low: Uuid, high: Uuid) returns (moves: seq<Move>)
    requires x.Settle? && y.Settle? && low < high
    requires {x.hirer, x.worker} == {low, high} && {y.hirer, y.worker} == {low, high}
    ensures StartsOnly(moves, {x, y})
    ensures var s := Moves({high}, moves);
            s.rows == {low, high} && s.owner == map[high := 1, low := 2]
            && s.lockers == map[1 := Locker(x, 2, {low}), 2 := Locker(y, 1, {})]
  {
    SettleAims(y, low, high);
    moves := FirstGetsAhead(x, low, high);
    moves := Go({high}, moves, Start(2, y));
    moves := Go({high}, moves, Next(2));
    assert Moves({high}, moves).lockers[2].missed == {};
  }

  /** If the low account is opened after one settlement between two users has looked for it, any other
      settlement between the same users can end up waiting for it, and it for the other. */
  lemma MissedRowDeadlocks(x: Op, y: Op, low: Uuid, high: Uuid) returns (moves: seq<Move>)
    requires x.Settle? && y.Settle? && low < high
    requires {x.hirer, x.worker} == {low, high} && {y.hirer, y.worker} == {low, high}
    ensures StartsOnly(moves, {x, y}) && IsChain(Moves({high}, moves), [1, 2, 1])
  {
    SettleAims(x, low, high);
    SettleAims(y, low, high);
    moves := SecondComesBetween(x, y, low, high);
    if x.hirer == high {
      moves := Go({high}, moves, Next(1));
    }
    var s := Moves({high}, moves);
    assert Waits(s, 1, 2) && Waits(s, 2, 1);
  }

  // ── Which operations can deadlock ──────────────────────────────────────────────────────

  predicate StartsOnly(moves: seq<Move>, ops: set<Op>) {
    forall m :: m in moves && m.Start? ==> m.op in ops
  }

  /** Cycles of waiting transactions can occur among these operations, if accounts are opened meanwhile. */
  ghost predicate CyclesAmong(ops: set<Op>) {
    exists rows, moves, chain ::
      StartsOnly(moves, ops) && IsChain(Moves(rows, moves), chain) && chain[0] == chain[|chain| - 1]
  }

  predicate BetweenTwo(op: Op) {
    op.Settle? && op.hirer != op.worker
  }

  lemma TwoRowsBetweenTwo(op: Op, i: nat, j: nat)
    requires i < |Program(op)| && j < |Program(op)|
    requires Target(Program(op)[i]).Some? && Target(Program(op)[j]).Some?
    requires Target(Program(op)[i]) != Target(Program(op)[j])
    ensures BetweenTwo(op)
  {
  }

  lemma {:induction false} OnlyStarted(rows: set<Uuid>, moves: seq<Move>, ops: set<Op>)
    requires StartsOnly(moves, ops)
    ensures forall t :: t in Moves(rows, moves).lockers ==> Moves(rows, moves).lockers[t].op in ops
  {
    if moves != [] {
      assert moves[|moves| - 1] in moves && forall m :: m in moves[..|moves| - 1] ==> m in moves;
      OnlyStarted(rows, moves[..|moves| - 1], ops);
    }
  }

  /** Somebody who waits while others wait for him is at work on two rows. */
  lemma WaiterOwnsAnother(s: Locks, t: nat, u: nat, r: Uuid)
    requires OwnsInv(s) && Waits(s, t, u) && r in s.owner && s.owner[r] == t
    ensures BetweenTwo(s.lockers[t].op)
  {
    var x := s.lockers[t];
    assert Reached(x, r);
    var i :| 0 <= i < x.pc && Target(Program(x.op)[i]) == Some(r);
    TwoRowsBetweenTwo(x.op, i, x.pc);
  }

  /** Accounts opened while transactions run can lead to a cycle among some operations if and only if
      one of them is a settlement between two different users. */
  lemma LateAccountsDeadlock(ops: set<Op>)
    ensures CyclesAmong(ops) <==> exists op :: op in ops && BetweenTwo(op)
  {
    if CyclesAmong(ops) {
      var rows, moves, chain :|
        StartsOnly(moves, ops) && IsChain(Moves(rows, moves), chain) && chain[0] == chain[|chain| - 1];
      var s, last := Moves(rows, moves), |chain| - 2;
      ReachableOwns(rows, moves);
      OnlyStarted(rows, moves, ops);
      assert Waits(s, chain[0], chain[0 + 1]) && Waits(s, chain[last], chain[last + 1]);
      WaiterOwnsAnother(s, chain[0], chain[1], Wants(s, chain[last]).value);
    }
    if op :| op in ops && BetweenTwo(op) {
      var (low, high) := if op.hirer < op.worker then (op.hirer, op.worker) else (op.worker, op.hirer);
      var moves := MissedRowDeadlocks(op, op, low, high);
      assert StartsOnly(moves, ops);
      assert IsChain(Moves({high}, moves), [1, 2, 1]) && [1, 2, 1][0] == [1, 2, 1][|[1, 2, 1]| - 1];
    }
  }
}
