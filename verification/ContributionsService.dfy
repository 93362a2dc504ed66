/**
 * The contribution and period use cases in the form the services have: loops over fetched rows,
 * row-by-row writes, an event at the end. Every command is proved to commit exactly the step
 * `Contributions` specifies, or to leave the tables alone.
 */
module ContributionsService {
  import opened Prelude
  import opened Calendar
  import opened Governance
  import opened Contributions
  import opened PlanProperties
  import opened PeriodProperties
  import Tenant

  ghost predicate Committed<T>(before: Con, spec: Result<Con>, after: Con, r: Result<T>) {
    match spec
    case Ok(c') => r.Ok? && after == c'
    case Err(e) => r.Err? && r.error == e && after == before
  }

  /** What runs of steps keep, a method that commits its step keeps. */
  lemma CommittedKeeps<T>(g: Gov, before: Con, cmd: ConCommand, after: Con, r: Result<T>)
    requires Tenant.TenantInv(Tenant.State(g, before)) && Committed(before, ConExec(g, before, cmd), after, r)
    ensures Tenant.State(g, after) == Tenant.Act(Tenant.State(g, before), Tenant.Contribute(cmd))
    ensures Tenant.TenantInv(Tenant.State(g, after))
  {
    hide Tenant.TenantInv, ConExec;
    Tenant.ActKeeps(Tenant.State(g, before), Tenant.Contribute(cmd));
  }

  datatype MemberSnapshot = MemberSnapshot(member: Id, income: nat, bp: int)

  datatype Reconciliation = Reconciliation(expected: int, actual: int, variance: int, shortfall: int, reconciled: bool)

  function ExpectedOf(m: MemberSnapshot): int { m.income * m.bp / FULL_BP }
  function PaidOf(actual: map<Id, int>): MemberSnapshot -> int {
    (m: MemberSnapshot) => if m.member in actual then actual[m.member] else 0
  }

  predicate InRange(m: MemberSnapshot) { 0 <= m.bp <= FULL_BP }

  /** The snapshot pairs a frozen income with the percentage of the frozen plan version. */
  ghost predicate Snapshots(plans: Plans, p: Period, m: MemberSnapshot) {
    m.member in p.income && m.income == p.income[m.member] && m.bp == BpAt(plans, p.profile, p.planVersion, m.member)
  }

  function IdsOf(members: seq<MemberSnapshot>): set<Id> { set m | m in members :: m.member }

  // --- pure domain loops --------------------------------------------------------------------

  method ValidateRedistribution(allocs: seq<NewShare>) returns (r: Result<()>)
    ensures r == if allocs == [] || !ValidShape(allocs, {}) then Err(Validation) else Ok(())
  {
    if |allocs| == 0 { return Err(Validation); }
    var seen: set<Id> := {};
    for i := 0 to |allocs|
      invariant ValidShape(allocs, {}) <==> ValidShape(allocs[i..], seen)
    {
      assert allocs[i..][1..] == allocs[i + 1..];
      var a := allocs[i];
      if a.member in seen { return Err(Validation); }
      seen := seen + {a.member};
      if a.bp < 0 || a.bp > FULL_BP { return Err(Validation); }
    }
    return Ok(());
  }

  /** Adds up what was expected and what was paid; a percentage out of range cannot be built. */
  method Reconcile(members: seq<MemberSnapshot>, actual: map<Id, int>) returns (r: Result<Reconciliation>)
    ensures r.Ok? <==> forall m <- members :: InRange(m)
    ensures r.Err? ==> r.error == RangeError
    ensures r.Ok? ==>
      && r.value.expected == Total(members, ExpectedOf)
      && r.value.actual == Total(members, PaidOf(actual)) + SumSet(actual.Keys - IdsOf(members), Lookup(actual))
      && r.value.variance == r.value.actual - r.value.expected
      && r.value.shortfall == (if r.value.actual < r.value.expected then r.value.expected - r.value.actual else 0)
      && (r.value.reconciled <==> r.value.actual == r.value.expected)
  {
    var expectedSum, actualSum := 0, 0;
    for i := 0 to |members|
      invariant forall m <- members[..i] :: InRange(m)
      invariant expectedSum == Total(members[..i], ExpectedOf)
      invariant actualSum == Total(members[..i], PaidOf(actual))
    {
      var m := members[i];
      assert members[..i + 1] == members[..i] + [m];
      var e := ApplyToCents(m.bp, m.income);
      if e.Err? {
        assert m in members && !InRange(m);
        return Err(e.error);
      }
      TotalSnoc(members[..i], m, ExpectedOf);
      TotalSnoc(members[..i], m, PaidOf(actual));
      expectedSum := expectedSum + e.value;
      actualSum := actualSum + (if m.member in actual then actual[m.member] else 0);
    }
    assert members[..|members|] == members;
    var outside := AddOutsiders(members, actual);
    actualSum := actualSum + outside;
    var variance := actualSum - expectedSum;
    return Ok(Reconciliation(expectedSum, actualSum, variance, if variance < 0 then -variance else 0, variance == 0));
  }

  /** Records of members outside the snapshot still belong to the pool. */
  method AddOutsiders(members: seq<MemberSnapshot>, actual: map<Id, int>) returns (sum: int)
    ensures sum == SumSet(actual.Keys - IdsOf(members), Lookup(actual))
  {
    sum := 0;
    var rows := actual.Keys;
    ghost var all := actual.Keys - IdsOf(members);
    while rows != {}
      invariant rows <= actual.Keys
      invariant sum + SumSet(rows - IdsOf(members), Lookup(actual)) == SumSet(all, Lookup(actual))
      decreases rows
    {
      var mid :| mid in rows;
      ghost var left := rows - IdsOf(members);
      rows := rows - {mid};
      if mid !in IdsOf(members) {
        SumSetRemove(left, Lookup(actual), mid);
        assert left - {mid} == rows - IdsOf(members);
        sum := sum + actual[mid];
      } else {
        assert left == rows - IdsOf(members);
      }
    }
    assert {} - IdsOf(members) == {};
  }

  // --- the tables ---------------------------------------------------------------------------

  class ContributionTables {
    var income: map<Id, nat>
    var plans: Plans
    var periods: seq<Period>
    var records: seq<Record>
    var log: seq<ConEvent>

    function State(): Con
      reads this
    {
      Con(income, plans, periods, records, log)
    }

    constructor ()
      ensures State() == EmptyCon
    {
      income, plans, periods, records, log := map[], map[], [], [], [];
    }

    method Emit(e: ConEvent)
      modifies this`log
      ensures State() == LogEvent(old(State()), e)
    {
      log := log + [e];
    }

    // --- plans ------------------------------------------------------------------------------

    /** The highest version among the profile's plan rows; 0 for none. */
    method CurrentPlan(profile: Id) returns (v: nat)
      ensures v == LatestVersion(plans, profile)
    {
      v := 0;
      var rows := plans.Keys;
      ghost var done: set<(Id, nat)> := {};
      while rows != {}
        invariant done + rows == plans.Keys
        invariant forall k <- done :: k.0 == profile ==> k.1 <= v
        invariant v == 0 || (profile, v) in plans
        decreases rows
      {
        var k: (Id, nat) :| k in rows;
        rows := rows - {k};
        done := done + {k};
        if k.0 == profile && k.1 > v { v := k.1; }
      }
      assert done == plans.Keys;
      VersionsMember(plans, profile, v);
      VersionsMember(plans, profile, LatestVersion(plans, profile));
    }

    /** One entry per ACTIVE membership whose profile has a plan, in whatever order the rows come. */
    method CommittedByUser(gov: Gov, user: Id) returns (cs: seq<Commitment>)
      ensures CommittedTotalBp(cs) == CommittedBy(gov, plans, user)
      ensures forall p :: CommittedTotalBp(Others(cs, p)) == CommittedElsewhere(gov, plans, user, p)
    {
      cs := [];
      var rows := UserActive(gov, user);
      AccountedAtStart(gov, plans, user);
      while rows != {}
        invariant rows <= UserActive(gov, user)
        invariant Accounted(gov, plans, user, cs, rows)
        decreases rows
      {
        var m :| m in rows;
        var profile := gov.members[m].profile;
        var v := CurrentPlan(profile);
        AccountForRow(gov, plans, user, cs, rows, m);
        if (profile, v) in plans {
          var bp := if m in plans[(profile, v)] then plans[(profile, v)][m] else 0;
          cs := cs + [Commitment(profile, bp)];
        }
        rows := rows - {m};
      }
      AccountedAtEnd(gov, plans, user, cs);
    }

    // --- income and allocations -------------------------------------------------------------

    method SetDeclaredIncome(gov: Gov, user: Id, profile: Id, member: Id, amount: int) returns (r: Result<()>)
      modifies this
      ensures Committed(old(State()), DoSetIncome(gov, old(State()), user, profile, member, amount), State(), r)
    {
      var self := SelfMember(gov, profile, member, user, SET_OWN_INCOME);
      if self.Err? { return Err(self.error); }
      if amount < 0 { return Err(Validation); }
      income := income[member := amount];
      Emit(DeclaredIncomeSet(member, amount));
      return Ok(());
    }

    method UpsertAllocation(profile: Id, version: nat, member: Id, bp: int)
      requires (profile, version) in plans
      modifies this`plans
      ensures plans == old(plans)[(profile, version) := old(plans)[(profile, version)][member := bp]]
    {
      plans := plans[(profile, version) := plans[(profile, version)][member := bp]];
    }

    /** Finds or creates the current plan and writes the member's row in it. */
    method WriteCurrentPlan(profile: Id, member: Id, bp: int) returns (version: nat)
      requires Contiguous(plans)
      modifies this
      ensures State() == WriteAllocation(old(State()), profile, member, bp)
    {
      version := CurrentPlan(profile);
      VersionsExactly(plans, profile, version);
      if version == 0 {
        version := 1;
        plans := plans[(profile, version) := map[]];
      }
      UpsertAllocation(profile, version, member, bp);
      Emit(AllocationSet(profile, version, member, bp));
    }

    method SetAllocation(gov: Gov, user: Id, profile: Id, member: Id, bp: int) returns (r: Result<nat>)
      requires Contiguous(plans)
      modifies this
      ensures Committed(old(State()), DoSetAllocation(gov, old(State()), user, profile, member, bp), State(), r)
    {
      var self := SelfMember(gov, profile, member, user, SET_OWN_ALLOCATION);
      if self.Err? { return Err(self.error); }
      var committed := CommittedByUser(gov, user);
      var cap := CheckAllocationWithinCap(committed, profile, bp);
      if cap.Err? { return Err(cap.error); }
      var version := WriteCurrentPlan(profile, member, bp);
      return Ok(version);
    }

    /** The rows of a new version, one upsert each. */
    method WriteNewPlan(profile: Id, version: nat, allocs: seq<NewShare>)
      modifies this`plans
      ensures plans == old(plans)[(profile, version) := NewAllocations(allocs)]
    {
      plans := plans[(profile, version) := map[]];
      for i := 0 to |allocs|
        invariant plans == old(plans)[(profile, version) := NewAllocations(allocs[..i])]
      {
        assert allocs[..i + 1][..i] == allocs[..i];
        UpsertAllocation(profile, version, allocs[i].member, allocs[i].bp);
      }
      assert allocs[..|allocs|] == allocs;
    }

    method Redistribute(gov: Gov, user: Id, profile: Id, allocs: seq<NewShare>) returns (r: Result<nat>)
      modifies this
      ensures Committed(old(State()), DoRedistribute(gov, old(State()), user, profile, allocs), State(), r)
    {
      hide RequireCapability, ValidShape, CheckTargets, NewAllocations, LatestVersion;
      var actor := RequireCapability(gov, profile, user, REDISTRIBUTE_PERCENTAGES);
      if actor.Err? { return Err(actor.error); }
      if profile !in gov.profiles { return Err(NotFound); }
      if gov.profiles[profile].status != OPEN_PROFILE { return Err(Archived); }
      var shape := ValidateRedistribution(allocs);
      if shape.Err? { return Err(shape.error); }
      var targets := CheckEachTarget(gov, profile, allocs);
      if targets.Err? { return Err(targets.error); }
      var current := CurrentPlan(profile);
      var version := current + 1;
      WriteNewPlan(profile, version, allocs);
      Emit(PercentageRedistributed(profile, version));
      return Ok(version);
    }

    /** Every target must be an ACTIVE member whose other profiles leave room; the first offender decides. */
    method CheckEachTarget(gov: Gov, profile: Id, allocs: seq<NewShare>) returns (r: Result<()>)
      ensures r == CheckTargets(gov, plans, profile, allocs)
    {
      for i := 0 to |allocs|
        invariant CheckTargets(gov, plans, profile, allocs) == CheckTargets(gov, plans, profile, allocs[i..])
      {
        assert allocs[i..][1..] == allocs[i + 1..];
        var a := allocs[i];
        if a.member !in gov.members || gov.members[a.member].profile != profile || gov.members[a.member].status != ACTIVE {
          return Err(Validation);
        }
        var committed := CommittedByUser(gov, gov.members[a.member].user);
        var cap := CheckAllocationWithinCap(committed, profile, a.bp);
        if cap.Err? { return cap; }
      }
      return Ok(());
    }

    // --- periods ----------------------------------------------------------------------------

    method OpenNewPeriod(gov: Gov, profile: Id, start: int, end: int) returns (i: nat)
      modifies this
      ensures i == |old(periods)| && State() == OpenPeriod(gov, old(State()), profile, start, end)
    {
      var version := CurrentPlan(profile);
      var members := ActiveMembers(gov, profile);
      var rows := members;
      var snapshot: map<Id, nat> := map[];
      while rows != {}
        invariant rows <= members && snapshot.Keys == members - rows
        invariant forall m <- snapshot :: snapshot[m] == Income(State(), m)
        decreases rows
      {
        var m :| m in rows;
        snapshot := snapshot[m := Income(State(), m)];
        rows := rows - {m};
      }
      assert snapshot == map m | m in ActiveMembers(gov, profile) :: Income(State(), m);
      i := |periods|;
      periods := periods + [Period(profile, start, end, true, version, snapshot)];
      Emit(PeriodOpened(i, profile, version));
    }

    method EnsureOpen(gov: Gov, profile: Id, now: int) returns (i: nat)
      requires profile in gov.profiles
      modifies this
      ensures (State(), i) == EnsureOpenPeriod(gov, old(State()), profile, now)
    {
      var found := OpenPeriodOf(periods, profile);
      if found.Some? { return found.value; }
      var end := PeriodEndDate(now, gov.profiles[profile].length);
      i := OpenNewPeriod(gov, profile, now, end);
    }

    method RecordPayment(gov: Gov, user: Id, profile: Id, member: Id, amount: int, now: int) returns (r: Result<nat>)
      modifies this
      ensures Committed(old(State()), DoRecord(gov, old(State()), user, profile, member, amount, now), State(), r)
    {
      var self := SelfMember(gov, profile, member, user, RECORD_CONTRIBUTION);
      if self.Err? { return Err(self.error); }
      if amount <= 0 { return Err(Validation); }
      if profile !in gov.profiles { return Err(NotFound); }
      if gov.profiles[profile].status != OPEN_PROFILE { return Err(Archived); }
      var i := EnsureOpen(gov, profile, now);
      records := records + [Record(profile, i, member, amount)];
      Emit(ContributionRecorded(i, member, amount));
      return Ok(i);
    }

    // --- rollover ---------------------------------------------------------------------------

    /** One snapshot per member whose income was frozen, each once. */
    method SnapshotMembers(i: nat) returns (members: seq<MemberSnapshot>)
      requires i < |periods|
      ensures IdsOf(members) == periods[i].income.Keys
      ensures forall a, b | 0 <= a < b < |members| :: members[a].member != members[b].member
      ensures forall m <- members :: Snapshots(plans, periods[i], m)
    {
      members := [];
      var p := periods[i];
      var rows := p.income.Keys;
      while rows != {}
        invariant rows <= p.income.Keys && IdsOf(members) == p.income.Keys - rows
        invariant forall a, b | 0 <= a < b < |members| :: members[a].member != members[b].member
        invariant forall m <- members :: Snapshots(plans, p, m)
        decreases rows
      {
        var m :| m in rows;
        rows := rows - {m};
        var next := MemberSnapshot(m, p.income[m], BpAt(plans, p.profile, p.planVersion, m));
        assert forall a | 0 <= a < |members| :: members[a] in members && members[a].member in IdsOf(members);
        assert IdsOf(members + [next]) == IdsOf(members) + {m};
        members := members + [next];
      }
    }

    /** The reconciled total of a period is what its records add up to, and the rest of the arithmetic follows. */
    method ReconcilePeriod(i: nat) returns (r: Reconciliation)
      requires i < |periods|
      requires forall k <- plans :: forall m <- plans[k] :: 0 <= plans[k][m] <= FULL_BP
      ensures r.actual == RecordedTotal(State(), i)
      ensures r.expected == SumSet(periods[i].income.Keys, Lookup(Expectations(State(), i)))
      ensures r.shortfall == (if r.actual < r.expected then r.expected - r.actual else 0)
    {
      var actual := ActualByMember(records, i);
      var members := SnapshotMembers(i);
      var result := Reconcile(members, actual);
      r := result.value;
      SnapshotTotal(members, PaidOf(actual), Lookup(actual));
      SnapshotTotal(members, ExpectedOf, Lookup(Expectations(State(), i)));
      ReconciledIsRecorded(State(), i, periods[i].income.Keys);
    }

    /** A page of due periods: all of them unless there are more than 500. */
    method DuePeriods(now: int) returns (due: seq<nat>)
      ensures IsPage(State(), now, due)
    {
      due := [];
      var i := 0;
      while i < |periods| && |due| < 500
        invariant 0 <= i <= |periods| && |due| <= 500
        invariant forall k | 0 <= k < |due| :: due[k] < i && IsDue(State(), due[k], now)
        invariant forall a, b | 0 <= a < b < |due| :: due[a] != due[b]
        invariant forall k: nat | k < i :: IsDue(State(), k, now) ==> k in due
      {
        if periods[i].open && now >= periods[i].end { due := due + [i]; }
        i := i + 1;
      }
    }

    /** Closes one fetched period and opens its successor unless the profile is archived. */
    method RollPeriod(gov: Gov, i: nat, now: int) returns (successor: bool)
      requires IsDue(State(), i, now)
      requires forall k <- plans :: forall m <- plans[k] :: 0 <= plans[k][m] <= FULL_BP
      modifies this
      ensures State() == RollOne(gov, old(State()), i, now)
      ensures plans == old(plans)
      ensures |periods| == |old(periods)| + if successor then 1 else 0
    {
      ghost var c := State();
      var period := periods[i];
      var reconciliation := ReconcilePeriod(i);
      ReconciledIsRecorded(c, i, period.income.Keys);
      periods := periods[i := period.(open := false)];
      Emit(PeriodClosed(i, period.profile, reconciliation.actual));
      if period.profile !in gov.profiles || gov.profiles[period.profile].status != OPEN_PROFILE { return false; }
      var end := PeriodEndDate(period.end, gov.profiles[period.profile].length);
      var _ := OpenNewPeriod(gov, period.profile, period.end, end);
      return true;
    }

    /** The sweep of one tenant: every fetched period is rolled over, counting the successors opened. */
    method RolloverForTenant(gov: Gov, now: int) returns (rolled: nat, due: seq<nat>)
      requires forall k <- plans :: forall m <- plans[k] :: 0 <= plans[k][m] <= FULL_BP
      modifies this
      ensures IsPage(old(State()), now, due)
      ensures State() == RollAll(gov, old(State()), due, now)
      ensures |periods| == |old(periods)| + rolled
    {
      ghost var c := State();
      due := DuePeriods(now);
      rolled := 0;
      for i := 0 to |due|
        invariant State() == RollAll(gov, c, due[..i], now)
        invariant plans == c.plans && |periods| == |c.periods| + rolled
        invariant forall j | i <= j < |due| :: due[j] < |periods| && periods[due[j]] == c.periods[due[j]]
      {
        assert due[..i + 1][..i] == due[..i];
        var successor := RollPeriod(gov, due[i], now);
        if successor { rolled := rolled + 1; }
      }
      assert due[..|due|] == due;
    }
  }

  // --- helpers of the loops -----------------------------------------------------------------

  ghost function NotIn(g: Gov, rows: set<Id>, profile: Id): set<Id> {
    set m | m in rows && !(m in g.members && g.members[m].profile == profile)
  }

  /** What is listed and what is still to be read add up to the user's commitments, overall and elsewhere. */
  ghost predicate Accounted(g: Gov, plans: Plans, user: Id, cs: seq<Commitment>, rows: set<Id>) {
    var f := CurrentBp(g, plans);
    && CommittedTotalBp(cs) + SumSet(rows, f) == CommittedBy(g, plans, user)
    && forall p :: AccountedElsewhere(g, plans, user, cs, rows, p)
  }

  ghost predicate AccountedElsewhere(g: Gov, plans: Plans, user: Id, cs: seq<Commitment>, rows: set<Id>, p: Id) {
    CommittedTotalBp(Others(cs, p)) + SumSet(NotIn(g, rows, p), CurrentBp(g, plans)) == CommittedElsewhere(g, plans, user, p)
  }

  lemma AccountedAtStart(g: Gov, plans: Plans, user: Id)
    ensures Accounted(g, plans, user, [], UserActive(g, user))
  {
    forall p ensures AccountedElsewhere(g, plans, user, [], UserActive(g, user), p) {
      assert NotIn(g, UserActive(g, user), p) == UserActiveElsewhere(g, user, p);
    }
  }

  lemma AccountedAtEnd(g: Gov, plans: Plans, user: Id, cs: seq<Commitment>)
    requires Accounted(g, plans, user, cs, {})
    ensures CommittedTotalBp(cs) == CommittedBy(g, plans, user)
    ensures forall p :: CommittedTotalBp(Others(cs, p)) == CommittedElsewhere(g, plans, user, p)
  {
    forall p ensures CommittedTotalBp(Others(cs, p)) == CommittedElsewhere(g, plans, user, p) {
      assert AccountedElsewhere(g, plans, user, cs, {}, p);
      assert NotIn(g, {}, p) == {};
    }
  }

  /** Reading one row: a profile without a plan commits nothing, any other adds one entry. */
  lemma AccountForRow(g: Gov, plans: Plans, user: Id, cs: seq<Commitment>, rows: set<Id>, m: Id)
    requires Accounted(g, plans, user, cs, rows) && m in rows && m in g.members
    ensures var profile := g.members[m].profile; var v := LatestVersion(plans, profile);
      if (profile, v) in plans then
        Accounted(g, plans, user, cs + [Commitment(profile, BpAt(plans, profile, v, m))], rows - {m})
      else Accounted(g, plans, user, cs, rows - {m})
  {
    var profile := g.members[m].profile;
    var v := LatestVersion(plans, profile);
    var c := Commitment(profile, BpAt(plans, profile, v, m));
    var f := CurrentBp(g, plans);
    SumSetRemove(rows, f, m);
    TotalSnoc(cs, c, CommitmentBp);
    forall p
      ensures AccountedElsewhere(g, plans, user, cs + [c], rows - {m}, p)
      ensures c.bp == 0 ==> AccountedElsewhere(g, plans, user, cs, rows - {m}, p)
    {
      assert AccountedElsewhere(g, plans, user, cs, rows, p);
      TakeOut(g, rows, m, f, p);
      OthersSnoc(cs, c, p);
    }
  }

  lemma TakeOut(g: Gov, rows: set<Id>, m: Id, f: Id -> int, p: Id)
    requires m in rows && m in g.members
    ensures SumSet(NotIn(g, rows, p), f) == (if g.members[m].profile == p then 0 else f(m)) + SumSet(NotIn(g, rows - {m}, p), f)
  {
    if g.members[m].profile == p {
      assert NotIn(g, rows, p) == NotIn(g, rows - {m}, p);
    } else {
      SumSetRemove(NotIn(g, rows, p), f, m);
      assert NotIn(g, rows, p) - {m} == NotIn(g, rows - {m}, p);
    }
  }

  lemma OthersSnoc(cs: seq<Commitment>, c: Commitment, p: Id)
    ensures CommittedTotalBp(Others(cs + [c], p)) == CommittedTotalBp(Others(cs, p)) + if c.profile == p then 0 else c.bp
  {
    OthersConcat(cs, [c], p);
    TotalConcat(Others(cs, p), Others([c], p), CommitmentBp);
    assert [c][1..] == [];
    if c.profile != p { assert Others([c], p) == [c]; }
  }

  lemma {:induction false} OthersConcat(cs: seq<Commitment>, ds: seq<Commitment>, p: Id)
    ensures Others(cs + ds, p) == Others(cs, p) + Others(ds, p)
  {
    if cs == [] {
      assert cs + ds == ds;
    } else {
      assert (cs + ds)[1..] == cs[1..] + ds;
      OthersConcat(cs[1..], ds, p);
    }
  }

  /** Summing over distinct snapshots is summing over the set of their members. */
  lemma {:induction false} SnapshotTotal(members: seq<MemberSnapshot>, f: MemberSnapshot -> int, h: Id -> int)
    requires forall a, b | 0 <= a < b < |members| :: members[a].member != members[b].member
    requires forall m <- members :: f(m) == h(m.member)
    ensures Total(members, f) == SumSet(IdsOf(members), h)
  {
    if members != [] {
      var rest := members[1..];
      SnapshotTotal(rest, f, h);
      assert members == [members[0]] + rest;
      assert members[0].member !in IdsOf(rest);
      SumSetRemove(IdsOf(members), h, members[0].member);
      assert IdsOf(members) - {members[0].member} == IdsOf(rest);
    }
  }
}
