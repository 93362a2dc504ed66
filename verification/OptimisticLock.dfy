/**
 * Optimistic locking of shared debts, goals and budgets. A transaction reads a row, decides from what
 * it read, and writes only where the row's version still equals the version its caller expects. Reads
 * and writes of any number of transactions interleave freely.
 */
module OptimisticLock {
  import opened Prelude
  import opened SharedElementRules

  datatype Row =
    | DebtRow(balance: int, version: nat)
    | GoalRow(funded: int, target: int, status: GoalStatus, version: nat)
    | BudgetRow(spent: int, limit: int, version: nat)

  datatype Op = PayOff(amount: int) | Deposit(amount: int) | Expense(amount: int) | Touch

  /** The columns a write sets, the version apart. */
  datatype Data = Balance(balance: int) | Funded(funded: int, status: GoalStatus) | Spent(spent: int) | Nothing

  /** What a transaction decides to write after reading a row; a row of another table is not found. */
  function Decide(op: Op, row: Row): Result<Data> {
    match (op, row)
    case (PayOff(a), DebtRow(balance, _)) =>
      var r := Pay(balance, a);
      if r.Err? then Err(r.error) else Ok(Balance(r.value))
    case (Deposit(a), GoalRow(funded, target, _, _)) =>
      var r := Fund(funded, a);
      if r.Err? then Err(r.error) else Ok(Funded(r.value, StatusAt(r.value, target)))
    case (Expense(a), BudgetRow(spent, _, _)) =>
      var r := Spend(spent, a);
      if r.Err? then Err(r.error) else Ok(Spent(r.value))
    case (Touch, DebtRow(_, _)) => Ok(Nothing)
    case _ => Err(NotFound)
  }

  predicate Fits(row: Row, d: Data) {
    match d
    case Balance(_) => row.DebtRow?
    case Funded(_, _) => row.GoalRow?
    case Spent(_) => row.BudgetRow?
    case Nothing => row.DebtRow?
  }

  function Overwrite(row: Row, d: Data): Row
    requires Fits(row, d)
  {
    var written := match d
      case Balance(b) => row.(balance := b)
      case Funded(f, s) => row.(funded := f, status := s)
      case Spent(x) => row.(spent := x)
      case Nothing => row;
    written.(version := row.version + 1)
  }

  /** The versioned update: sets the columns and bumps the version where id and version match. */
  predicate Matches(rows: map<Id, Row>, id: Id, expected: nat, d: Data) {
    id in rows && rows[id].version == expected && Fits(rows[id], d)
  }

  function VersionedUpdate(rows: map<Id, Row>, id: Id, expected: nat, d: Data): map<Id, Row> {
    if Matches(rows, id, expected, d) then rows[id := Overwrite(rows[id], d)] else rows
  }

  // --- interleaved transactions -------------------------------------------------------------

  /** A transaction that has read: the row as it was then, and the version its caller sent. */
  datatype Seen = Seen(id: Id, row: Row, expected: nat)

  datatype Commit = Commit(id: Id, op: Op)

  /** `log` lists the committed writes, oldest first. */
  datatype Store = Store(rows: map<Id, Row>, pending: map<nat, Seen>, log: seq<Commit>)

  datatype Step = Read(tx: nat, id: Id, expected: nat) | Write(tx: nat, op: Op)

  predicate Commits(s: Store, tx: nat, op: Op) {
    && tx in s.pending
    && var seen := s.pending[tx];
      var d := Decide(op, seen.row);
      d.Ok? && Matches(s.rows, seen.id, seen.expected, d.value)
  }

  function DoRead(s: Store, tx: nat, id: Id, expected: nat): Store {
    if id in s.rows then s.(pending := s.pending[tx := Seen(id, s.rows[id], expected)]) else s
  }

  /** A rejected decision and a stale version both end the transaction with nothing written. */
  function DoWrite(s: Store, tx: nat, op: Op): Store {
    if Commits(s, tx, op) then
      var seen := s.pending[tx];
      Store(VersionedUpdate(s.rows, seen.id, seen.expected, Decide(op, seen.row).value),
            s.pending - {tx}, s.log + [Commit(seen.id, op)])
    else s.(pending := s.pending - {tx})
  }

  function Advance(s: Store, step: Step): Store {
    match step
    case Read(tx, id, expected) => DoRead(s, tx, id, expected)
    case Write(tx, op) => DoWrite(s, tx, op)
  }

  function RunSteps(s: Store, steps: seq<Step>): Store
    decreases |steps|
  {
    if steps == [] then s else RunSteps(Advance(s, steps[0]), steps[1..])
  }

  /** The caller's version is not above the one the transaction reads. */
  predicate Honest(s: Store, step: Step) {
    step.Read? && step.id in s.rows ==> step.expected <= s.rows[step.id].version
  }

  predicate AllHonest(s: Store, steps: seq<Step>)
    decreases |steps|
  {
    steps != [] ==> Honest(s, steps[0]) && AllHonest(Advance(s, steps[0]), steps[1..])
  }

  // --- the ledger ---------------------------------------------------------------------------

  function ValueOf(row: Row): int {
    match row
    case DebtRow(balance, _) => balance
    case GoalRow(funded, _, _, _) => funded
    case BudgetRow(spent, _, _) => spent
  }

  function Change(op: Op): int {
    match op
    case PayOff(a) => -a
    case Deposit(a) => a
    case Expense(a) => a
    case Touch => 0
  }

  function ChangeOf(id: Id): Commit -> int { (c: Commit) => if c.id == id then Change(c.op) else 0 }
  function OneOf(id: Id): Commit -> int { (c: Commit) => if c.id == id then 1 else 0 }

  /** Same table and same fixed columns. */
  predicate SameKind(a: Row, b: Row) {
    match a
    case DebtRow(_, _) => b.DebtRow?
    case GoalRow(_, target, _, _) => b.GoalRow? && b.target == target
    case BudgetRow(_, limit, _) => b.BudgetRow? && b.limit == limit
  }

  /** No debt below zero, and a goal is achieved exactly when its funding reaches the target. */
  predicate Sound(row: Row) {
    match row
    case DebtRow(balance, _) => balance >= 0
    case GoalRow(funded, target, status, _) => status == GOAL_ACHIEVED <==> funded >= target
    case BudgetRow(_, _, _) => true
  }

  /** Every row is its opening value plus all committed changes; its version counts the commits. */
  ghost predicate Ledger(opening: map<Id, Row>, s: Store) {
    && s.rows.Keys == opening.Keys
    && forall id <- opening :: Balanced(opening[id], s.rows[id], id, s.log)
  }

  ghost predicate Balanced(was: Row, now: Row, id: Id, log: seq<Commit>) {
    && SameKind(was, now)
    && ValueOf(now) == ValueOf(was) + Total(log, ChangeOf(id))
    && now.version == was.version + Total(log, OneOf(id))
  }

  ghost predicate AllSound(rows: map<Id, Row>) { forall id <- rows :: Sound(rows[id]) }

  /** What a transaction holds is an older version of the row, or the row itself. */
  ghost predicate PendingOk(s: Store) {
    forall tx <- s.pending ::
      && s.pending[tx].id in s.rows
      && SeenOk(s.pending[tx], s.rows[s.pending[tx].id])
  }

  predicate SeenOk(seen: Seen, now: Row) {
    && SameKind(now, seen.row) && Sound(seen.row)
    && seen.expected <= seen.row.version <= now.version
    && (seen.row.version == now.version ==> seen.row == now)
  }

  // --- what commits -------------------------------------------------------------------------

  /** The change fits the row it was decided from: positive, of the right table, and never an overpayment. */
  predicate Payable(op: Op, row: Row) {
    match op
    case PayOff(a) => row.DebtRow? && 0 < a <= row.balance
    case Deposit(a) => row.GoalRow? && a > 0
    case Expense(a) => row.BudgetRow? && a > 0
    case Touch => row.DebtRow?
  }

  /**
   * A write commits exactly when the change fits the row read and the row still has the expected
   * version; otherwise no row and no ledger entry changes.
   */
  lemma WriteMeaning(s: Store, tx: nat, op: Op)
    requires PendingOk(s) && tx in s.pending
    ensures var seen := s.pending[tx]; var s' := DoWrite(s, tx, op);
      && (Commits(s, tx, op) <==> Payable(op, seen.row) && s.rows[seen.id].version == seen.expected)
      && (Commits(s, tx, op) ==>
            && s'.log == s.log + [Commit(seen.id, op)] && s'.rows.Keys == s.rows.Keys
            && s'.rows[seen.id].version == seen.expected + 1
            && ValueOf(s'.rows[seen.id]) == ValueOf(s.rows[seen.id]) + Change(op)
            && forall id <- s.rows :: id != seen.id ==> s'.rows[id] == s.rows[id])
      && (!Commits(s, tx, op) ==> s'.rows == s.rows && s'.log == s.log)
      && tx !in s'.pending
  {
    assert SeenOk(s.pending[tx], s.rows[s.pending[tx].id]);
  }

  // --- no lost update -----------------------------------------------------------------------

  lemma DecisionFits(op: Op, row: Row, now: Row)
    requires Decide(op, row).Ok? && SameKind(now, row) && Sound(row)
    ensures Fits(now, Decide(op, row).value)
    ensures var after := Overwrite(now, Decide(op, row).value);
      && SameKind(now, after) && after.version == now.version + 1 && (Sound(now) ==> Sound(after))
      && (ValueOf(after) == ValueOf(now) + Change(op) <==> op.Touch? || ValueOf(row) == ValueOf(now))
  {
  }

  lemma SameKindJoins(a: Row, b: Row, c: Row)
    requires SameKind(a, b) && SameKind(b, c)
    ensures SameKind(a, c) && SameKind(b, a)
  {
  }

  lemma LogGrows(log: seq<Commit>, c: Commit, id: Id)
    ensures Total(log + [c], ChangeOf(id)) == Total(log, ChangeOf(id)) + (if c.id == id then Change(c.op) else 0)
    ensures Total(log + [c], OneOf(id)) == Total(log, OneOf(id)) + (if c.id == id then 1 else 0)
  {
    TotalSnoc(log, c, ChangeOf(id));
    TotalSnoc(log, c, OneOf(id));
  }

  /**
   * When a write commits, the ledger is kept exactly if the value decided from is the value
   * overwritten (a touch decides from nothing).
   */
  lemma CommitKeepsLedgerIff(opening: map<Id, Row>, s: Store, tx: nat, op: Op)
    requires Ledger(opening, s) && Commits(s, tx, op)
    requires SameKind(s.rows[s.pending[tx].id], s.pending[tx].row) && Sound(s.pending[tx].row)
    ensures Ledger(opening, DoWrite(s, tx, op)) <==>
      op.Touch? || ValueOf(s.pending[tx].row) == ValueOf(s.rows[s.pending[tx].id])
  {
    var seen := s.pending[tx];
    var id := seen.id;
    var s' := DoWrite(s, tx, op);
    DecisionFits(op, seen.row, s.rows[id]);
    SameKindJoins(opening[id], s.rows[id], s'.rows[id]);
    forall x | x in opening && x != id ensures Balanced(opening[x], s'.rows[x], x, s'.log) {
      LogGrows(s.log, Commit(id, op), x);
      assert s'.rows[x] == s.rows[x];
    }
    LogGrows(s.log, Commit(id, op), id);
    assert s'.rows.Keys == s.rows.Keys;
    assert Ledger(opening, s') <==> Balanced(opening[id], s'.rows[id], id, s'.log);
  }

  lemma WriteKeeps(opening: map<Id, Row>, s: Store, tx: nat, op: Op)
    requires Ledger(opening, s) && PendingOk(s) && AllSound(s.rows)
    ensures var s' := DoWrite(s, tx, op); Ledger(opening, s') && PendingOk(s') && AllSound(s'.rows)
  {
    if Commits(s, tx, op) {
      var seen := s.pending[tx];
      assert SeenOk(seen, s.rows[seen.id]);
      SameKindJoins(s.rows[seen.id], seen.row, seen.row);
      DecisionFits(op, seen.row, s.rows[seen.id]);
      CommitKeepsLedgerIff(opening, s, tx, op);
      var s' := DoWrite(s, tx, op);
      forall t | t in s'.pending ensures s'.pending[t].id in s'.rows && SeenOk(s'.pending[t], s'.rows[s'.pending[t].id]) {
        assert SeenOk(s.pending[t], s.rows[s.pending[t].id]);
        StillSeen(s.pending[t], s.rows[s.pending[t].id], s'.rows[s.pending[t].id]);
      }
    }
  }

  lemma StillSeen(seen: Seen, now: Row, next: Row)
    requires SeenOk(seen, now) && (next == now || (SameKind(now, next) && next.version == now.version + 1))
    ensures SeenOk(seen, next)
  {
  }

  lemma ReadKeeps(s: Store, tx: nat, id: Id, expected: nat)
    requires PendingOk(s) && AllSound(s.rows) && Honest(s, Read(tx, id, expected))
    ensures PendingOk(DoRead(s, tx, id, expected))
  {
  }

  lemma AdvanceKeeps(opening: map<Id, Row>, s: Store, step: Step)
    requires Ledger(opening, s) && PendingOk(s) && AllSound(s.rows) && Honest(s, step)
    ensures var s' := Advance(s, step); Ledger(opening, s') && PendingOk(s') && AllSound(s'.rows)
  {
    match step
    case Read(tx, id, expected) => ReadKeeps(s, tx, id, expected);
    case Write(tx, op) => WriteKeeps(opening, s, tx, op);
  }

  lemma {:induction false} RunKeeps(opening: map<Id, Row>, s: Store, steps: seq<Step>)
    requires Ledger(opening, s) && PendingOk(s) && AllSound(s.rows) && AllHonest(s, steps)
    ensures var s' := RunSteps(s, steps); Ledger(opening, s') && PendingOk(s') && AllSound(s'.rows)
    decreases |steps|
  {
    hide Ledger, PendingOk, AllSound, Honest, Advance;
    if steps != [] {
      AdvanceKeeps(opening, s, steps[0]);
      RunKeeps(opening, Advance(s, steps[0]), steps[1..]);
    }
  }

  /**
   * For every interleaving of reads and writes whose callers send versions not above those read, a
   * row equals its opening value plus all committed changes, its version counts the commits, no debt
   * is negative, and a goal's status agrees with its funding.
   */
  lemma NoLostUpdate(opening: map<Id, Row>, steps: seq<Step>, id: Id)
    requires AllSound(opening) && id in opening && AllHonest(Store(opening, map[], []), steps)
    ensures var s := RunSteps(Store(opening, map[], []), steps);
      && id in s.rows && Sound(s.rows[id]) && SameKind(opening[id], s.rows[id])
      && ValueOf(s.rows[id]) == ValueOf(opening[id]) + Total(s.log, ChangeOf(id))
      && s.rows[id].version == opening[id].version + Total(s.log, OneOf(id))
  {
    var start := Store(opening, map[], []);
    assert Ledger(opening, start);
    RunKeeps(opening, start, steps);
  }

  /** A version a record has had is never above the version it has later: echoing it is honest. */
  lemma {:induction false} VersionsNeverDrop(s: Store, steps: seq<Step>, id: Id)
    requires id in s.rows
    ensures id in RunSteps(s, steps).rows && s.rows[id].version <= RunSteps(s, steps).rows[id].version
    decreases |steps|
  {
    if steps != [] {
      VersionsNeverDrop(Advance(s, steps[0]), steps[1..], id);
    }
  }

  // --- the condition is needed --------------------------------------------------------------

  function LostUpdateRun(): seq<Step> {
    [Read(1, "debt", 1), Read(2, "debt", 0), Write(2, PayOff(30)), Write(1, PayOff(10))]
  }

  /** A caller that guesses a version above the one read overwrites a payment made in between. */
  lemma AheadOfItsReadLosesAnUpdate()
    ensures var opening := map["debt" := DebtRow(100, 0)];
      var s := RunSteps(Store(opening, map[], []), LostUpdateRun());
      && !AllHonest(Store(opening, map[], []), LostUpdateRun())
      && s.log == [Commit("debt", PayOff(30)), Commit("debt", PayOff(10))]
      && s.rows["debt"] == DebtRow(90, 2)
      && !Ledger(opening, s)
  {
  }

  // --- the helper in the form the source has ------------------------------------------------

  class VersionedTable {
    var rows: map<Id, Row>

    constructor (initial: map<Id, Row>)
      ensures rows == initial
    {
      rows := initial;
    }

    /** The guarded write; returns the number of affected rows. */
    method UpdateMany(id: Id, expected: nat, d: Data) returns (count: nat)
      modifies this
      ensures rows == VersionedUpdate(old(rows), id, expected, d)
      ensures count == if Matches(old(rows), id, expected, d) then 1 else 0
    {
      if id !in rows || rows[id].version != expected || !Fits(rows[id], d) { return 0; }
      rows := rows[id := Overwrite(rows[id], d)];
      return 1;
    }

    /** Zero affected rows is a conflict; otherwise the fresh row comes back. */
    method UpdateWithOptimisticLock(id: Id, expected: nat, d: Data) returns (r: Result<Row>)
      modifies this
      ensures rows == VersionedUpdate(old(rows), id, expected, d)
      ensures r == if Matches(old(rows), id, expected, d) then Ok(rows[id]) else Err(Conflict)
    {
      var affected := UpdateMany(id, expected, d);
      if affected == 0 { return Err(Conflict); }
      return Ok(rows[id]);
    }

    /** The second half of a transaction: decide from the row read, then write under the lock. */
    method FinishTransaction(ghost s: Store, ghost tx: nat, seen: Seen, op: Op) returns (r: Result<Row>)
      requires s.rows == rows && tx in s.pending && s.pending[tx] == seen
      modifies this
      ensures rows == DoWrite(s, tx, op).rows
      ensures r.Ok? <==> Commits(s, tx, op)
      ensures r.Err? ==> r.error == if Decide(op, seen.row).Err? then Decide(op, seen.row).error else Conflict
    {
      var decision := Decide(op, seen.row);
      if decision.Err? { return Err(decision.error); }
      r := UpdateWithOptimisticLock(seen.id, seen.expected, decision.value);
    }
  }
}
