/**
 * Contributions: versioned plans with in-place allocations, periods that snapshot incomes and a plan
 * version, append-only records, and rollover, as atomic steps over the tables of one tenant.
 */
module Contributions {
  import opened Prelude
  import opened Calendar
  import opened Governance

  // --- basis points -------------------------------------------------------------------------

  /** Floors to whole cents; a percentage out of range cannot be built. */
  function ApplyToCents(bp: int, amount: nat): Result<nat> {
    if bp < 0 || bp > FULL_BP then Err(RangeError) else Ok(amount * bp / FULL_BP)
  }

  // --- the cross-profile cap ----------------------------------------------------------------

  datatype Commitment = Commitment(profile: Id, bp: int)

  function CommitmentBp(c: Commitment): int { c.bp }

  function CommittedTotalBp(cs: seq<Commitment>): int { Total(cs, CommitmentBp) }

  function RemainingBp(cs: seq<Commitment>): int {
    var left := FULL_BP - CommittedTotalBp(cs);
    if left > 0 then left else 0
  }

  /** The commitments in every profile but one. */
  function Others(cs: seq<Commitment>, profile: Id): seq<Commitment> {
    if cs == [] then []
    else (if cs[0].profile == profile then [] else [cs[0]]) + Others(cs[1..], profile)
  }

  /** The decision once the commitments elsewhere are added up. */
  function CapDecision(elsewhere: int, newBp: int): Result<()> {
    if newBp < 0 || newBp > FULL_BP then Err(Validation)
    else if elsewhere + newBp > FULL_BP then
      Err(CapExceeded(if FULL_BP - elsewhere > 0 then FULL_BP - elsewhere else 0))
    else Ok(())
  }

  function CheckAllocationWithinCap(current: seq<Commitment>, target: Id, newBp: int): Result<()> {
    CapDecision(CommittedTotalBp(Others(current, target)), newBp)
  }

  // --- tables -------------------------------------------------------------------------------

  /** Dates are milliseconds; a period is identified by its position in the table. */
  datatype Period = Period(
    profile: Id, start: int, end: int, open: bool, planVersion: nat, income: map<Id, nat>)

  datatype Record = Record(profile: Id, period: nat, member: Id, amount: int)

  type Allocations = map<Id, int>
  type Plans = map<(Id, nat), Allocations>

  datatype ConEvent =
    | DeclaredIncomeSet(member: Id, amount: int)
    | AllocationSet(profile: Id, version: nat, member: Id, bp: int)
    | PercentageRedistributed(profile: Id, version: nat)
    | ContributionRecorded(period: nat, member: Id, amount: int)
    | PeriodOpened(period: nat, profile: Id, planVersion: nat)
    | PeriodClosed(period: nat, profile: Id, total: int)

  /**
   * `income` is the declared-income column of the membership table (0 where absent); plans are keyed
   * by their unique (profile, version); `log` is this module's part of the outbox.
   */
  datatype Con = Con(
    income: map<Id, nat>,
    plans: Plans,
    periods: seq<Period>,
    records: seq<Record>,
    log: seq<ConEvent>)

  const EmptyCon := Con(map[], map[], [], [], [])

  function Income(c: Con, m: Id): nat { if m in c.income then c.income[m] else 0 }

  function Versions(plans: Plans, profile: Id): set<nat> {
    set k | k in plans && k.0 == profile :: k.1
  }

  /** The highest plan version of a profile; 0 when it has no plan. */
  ghost function LatestVersion(plans: Plans, profile: Id): nat { MaxOf(Versions(plans, profile)) }

  /** The percentage a plan version gives a member; absent means 0. */
  function BpAt(plans: Plans, profile: Id, version: nat, m: Id): int {
    if (profile, version) in plans && m in plans[(profile, version)] then plans[(profile, version)][m] else 0
  }

  ghost function CurrentBp(g: Gov, plans: Plans): Id -> int {
    (m: Id) =>
      if m in g.members then BpAt(plans, g.members[m].profile, LatestVersion(plans, g.members[m].profile), m) else 0
  }

  function UserActive(g: Gov, user: Id): set<Id> {
    set m | m in g.members && g.members[m].user == user && g.members[m].status == ACTIVE
  }

  function UserActiveElsewhere(g: Gov, user: Id, profile: Id): set<Id> {
    set m | m in UserActive(g, user) && g.members[m].profile != profile
  }

  ghost function CommittedBy(g: Gov, plans: Plans, user: Id): int {
    SumSet(UserActive(g, user), CurrentBp(g, plans))
  }

  ghost function CommittedElsewhere(g: Gov, plans: Plans, user: Id, profile: Id): int {
    SumSet(UserActiveElsewhere(g, user, profile), CurrentBp(g, plans))
  }

  function LogEvent(c: Con, e: ConEvent): Con { c.(log := c.log + [e]) }

  // --- guards -------------------------------------------------------------------------------

  /** The caller's own ACTIVE membership, in that profile, with a role that grants the capability. */
  function SelfMember(g: Gov, profile: Id, member: Id, user: Id, cap: Capability): Result<Id> {
    if member !in g.members || g.members[member].profile != profile || g.members[member].user != user then
      Err(Forbidden)
    else if g.members[member].status != ACTIVE then Err(Forbidden)
    else if !Can(g.members[member].role, cap) then Err(Forbidden)
    else Ok(member)
  }

  // --- income and allocation ----------------------------------------------------------------

  function DoSetIncome(g: Gov, c: Con, user: Id, profile: Id, member: Id, amount: int): Result<Con> {
    var self := SelfMember(g, profile, member, user, SET_OWN_INCOME);
    if self.Err? then Err(self.error)
    else if amount < 0 then Err(Validation)
    else Ok(LogEvent(c.(income := c.income[member := amount]), DeclaredIncomeSet(member, amount)))
  }

  /** Writes the current plan in place, creating version 1 when the profile has none. */
  ghost function WriteAllocation(c: Con, profile: Id, member: Id, bp: int): Con {
    var v := LatestVersion(c.plans, profile);
    if (profile, v) in c.plans then
      LogEvent(c.(plans := c.plans[(profile, v) := c.plans[(profile, v)][member := bp]]),
               AllocationSet(profile, v, member, bp))
    else
      LogEvent(c.(plans := c.plans[(profile, 1) := map[member := bp]]), AllocationSet(profile, 1, member, bp))
  }

  ghost function DoSetAllocation(g: Gov, c: Con, user: Id, profile: Id, member: Id, bp: int): Result<Con> {
    var self := SelfMember(g, profile, member, user, SET_OWN_ALLOCATION);
    if self.Err? then Err(self.error)
    else
      var cap := CapDecision(CommittedElsewhere(g, c.plans, user, profile), bp);
      if cap.Err? then Err(cap.error) else Ok(WriteAllocation(c, profile, member, bp))
  }

  // --- redistribution -----------------------------------------------------------------------

  datatype NewShare = NewShare(member: Id, bp: int)

  /** In range, and each membership at most once; the first offender decides. */
  function ValidShape(allocs: seq<NewShare>, seen: set<Id>): bool
    decreases |allocs|
  {
    allocs == [] ||
    (allocs[0].member !in seen && 0 <= allocs[0].bp <= FULL_BP && ValidShape(allocs[1..], seen + {allocs[0].member}))
  }

  ghost function CheckTargets(g: Gov, plans: Plans, profile: Id, allocs: seq<NewShare>): Result<()>
    decreases |allocs|
  {
    if allocs == [] then Ok(())
    else
      var a := allocs[0];
      if a.member !in g.members || g.members[a.member].profile != profile || g.members[a.member].status != ACTIVE then
        Err(Validation)
      else
        var cap := CapDecision(CommittedElsewhere(g, plans, g.members[a.member].user, profile), a.bp);
        if cap.Err? then cap else CheckTargets(g, plans, profile, allocs[1..])
  }

  /** The rows of the new plan version. */
  function NewAllocations(allocs: seq<NewShare>): Allocations
    decreases |allocs|
  {
    if allocs == [] then map[]
    else NewAllocations(allocs[..|allocs| - 1])[allocs[|allocs| - 1].member := allocs[|allocs| - 1].bp]
  }

  ghost function DoRedistribute(g: Gov, c: Con, user: Id, profile: Id, allocs: seq<NewShare>): Result<Con> {
    var actor := RequireCapability(g, profile, user, REDISTRIBUTE_PERCENTAGES);
    if actor.Err? then Err(actor.error)
    else if profile !in g.profiles then Err(NotFound)
    else if g.profiles[profile].status != OPEN_PROFILE then Err(Archived)
    else if allocs == [] || !ValidShape(allocs, {}) then Err(Validation)
    else
      var targets := CheckTargets(g, c.plans, profile, allocs);
      if targets.Err? then Err(targets.error)
      else
        var v := LatestVersion(c.plans, profile) + 1;
        Ok(LogEvent(c.(plans := c.plans[(profile, v) := NewAllocations(allocs)]), PercentageRedistributed(profile, v)))
  }

  // --- periods and records ------------------------------------------------------------------

  /** The OPEN period of a profile with the latest start. */
  function OpenPeriodOf(ps: seq<Period>, profile: Id): (r: Option<nat>)
    ensures r.Some? ==> r.value < |ps| && ps[r.value].profile == profile && ps[r.value].open
    ensures r.None? ==> forall i | 0 <= i < |ps| :: ps[i].profile == profile ==> !ps[i].open
  {
    if ps == [] then None
    else
      var n := |ps| - 1;
      var best := OpenPeriodOf(ps[..n], profile);
      if ps[n].profile == profile && ps[n].open && (best.None? || ps[n].start > ps[best.value].start) then Some(n)
      else best
  }

  /** Opens a period, freezing the plan version and the active members' incomes. */
  ghost function OpenPeriod(g: Gov, c: Con, profile: Id, start: int, end: int): Con {
    var v := LatestVersion(c.plans, profile);
    var income := map m | m in ActiveMembers(g, profile) :: Income(c, m);
    LogEvent(c.(periods := c.periods + [Period(profile, start, end, true, v, income)]),
             PeriodOpened(|c.periods|, profile, v))
  }

  ghost function EnsureOpenPeriod(g: Gov, c: Con, profile: Id, now: int): (Con, nat)
    requires profile in g.profiles
  {
    var found := OpenPeriodOf(c.periods, profile);
    if found.Some? then (c, found.value)
    else (OpenPeriod(g, c, profile, now, PeriodEnd(now, g.profiles[profile].length)), |c.periods|)
  }

  ghost function DoRecord(g: Gov, c: Con, user: Id, profile: Id, member: Id, amount: int, now: int): Result<Con> {
    var self := SelfMember(g, profile, member, user, RECORD_CONTRIBUTION);
    if self.Err? then Err(self.error)
    else if amount <= 0 then Err(Validation)
    else if profile !in g.profiles then Err(NotFound)
    else if g.profiles[profile].status != OPEN_PROFILE then Err(Archived)
    else
      var (c1, i) := EnsureOpenPeriod(g, c, profile, now);
      Ok(LogEvent(c1.(records := c1.records + [Record(profile, i, member, amount)]),
                  ContributionRecorded(i, member, amount)))
  }

  // --- snapshots and reconciliation ---------------------------------------------------------

  /** What a period expects of a member: frozen income times the percentage of its plan version. */
  function ExpectedAt(c: Con, i: nat, m: Id): int
    requires i < |c.periods| && m in c.periods[i].income
  {
    c.periods[i].income[m] * BpAt(c.plans, c.periods[i].profile, c.periods[i].planVersion, m) / FULL_BP
  }

  function Expectations(c: Con, i: nat): map<Id, int>
    requires i < |c.periods|
  {
    map m | m in c.periods[i].income :: ExpectedAt(c, i, m)
  }

  function AmountIn(i: nat): Record -> int { (r: Record) => if r.period == i then r.amount else 0 }

  function AmountOf(i: nat, m: Id): Record -> int {
    (r: Record) => if r.period == i && r.member == m then r.amount else 0
  }

  /** All records of a period, whoever made them. */
  function RecordedTotal(c: Con, i: nat): int { Total(c.records, AmountIn(i)) }

  /** Grouped sums, one per membership with a record in the period. */
  function ActualByMember(records: seq<Record>, i: nat): map<Id, int> {
    map m | m in Contributors(records, i) :: Total(records, AmountOf(i, m))
  }

  function Contributors(records: seq<Record>, i: nat): set<Id> {
    set r | r in records && r.period == i :: r.member
  }

  function Lookup(actual: map<Id, int>): Id -> int { (m: Id) => if m in actual then actual[m] else 0 }

  /** Snapshot members first, then whoever else paid in. */
  ghost function PoolActual(members: set<Id>, actual: map<Id, int>): int {
    SumSet(members, Lookup(actual)) + SumSet(actual.Keys - members, Lookup(actual))
  }

  // --- rollover -----------------------------------------------------------------------------

  predicate IsDue(c: Con, i: nat, now: int) { i < |c.periods| && c.periods[i].open && now >= c.periods[i].end }

  /** Closes a due period with its reconciled total and, unless the profile is archived, opens the next. */
  ghost function RollOne(g: Gov, c: Con, i: nat, now: int): Con {
    if !IsDue(c, i, now) then c
    else
      var p := c.periods[i];
      var total := PoolActual(p.income.Keys, ActualByMember(c.records, i));
      var closed := LogEvent(c.(periods := c.periods[i := p.(open := false)]), PeriodClosed(i, p.profile, total));
      if p.profile !in g.profiles || g.profiles[p.profile].status != OPEN_PROFILE then closed
      else OpenPeriod(g, closed, p.profile, p.end, PeriodEnd(p.end, g.profiles[p.profile].length))
  }

  ghost function RollAll(g: Gov, c: Con, due: seq<nat>, now: int): Con {
    if due == [] then c else RollOne(g, RollAll(g, c, due[..|due| - 1], now), due[|due| - 1], now)
  }

  // --- commands -----------------------------------------------------------------------------

  datatype ConCommand =
    | SetDeclaredIncome(user: Id, profile: Id, member: Id, amount: int)
    | SetAllocation(user: Id, profile: Id, member: Id, bp: int)
    | Redistribute(user: Id, profile: Id, allocs: seq<NewShare>)
    | RecordContribution(user: Id, profile: Id, member: Id, amount: int, now: int)
    | Rollover(due: seq<nat>, now: int)

  ghost function ConExec(g: Gov, c: Con, cmd: ConCommand): Result<Con> {
    match cmd
    case SetDeclaredIncome(user, profile, member, amount) => DoSetIncome(g, c, user, profile, member, amount)
    case SetAllocation(user, profile, member, bp) => DoSetAllocation(g, c, user, profile, member, bp)
    case Redistribute(user, profile, allocs) => DoRedistribute(g, c, user, profile, allocs)
    case RecordContribution(user, profile, member, amount, now) => DoRecord(g, c, user, profile, member, amount, now)
    case Rollover(due, now) => Ok(RollAll(g, c, due, now))
  }

  ghost function ConStep(g: Gov, c: Con, cmd: ConCommand): Con {
    var r := ConExec(g, c, cmd);
    if r.Ok? then r.value else c
  }
}
