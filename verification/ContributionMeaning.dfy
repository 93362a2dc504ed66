/**
 * When each contribution command succeeds and what it writes, in terms of the rows alone: incomes,
 * plan versions, records, and what a newly opened period freezes.
 */
module ContributionMeaning {
  import opened Prelude
  import opened Calendar
  import opened Governance
  import G = GovernanceProperties
  import opened Authority
  import opened GovernanceMeaning
  import opened Contributions
  import opened PlanProperties
  import opened PeriodProperties

  /** The caller's own ACTIVE membership of the profile, not as a viewer. */
  ghost predicate OwnSeat(g: Gov, user: Id, profile: Id, member: Id) {
    && member in g.members && g.members[member].profile == profile && g.members[member].user == user
    && g.members[member].status == ACTIVE && g.members[member].role != VIEWER
  }

  /** `n` is the highest plan version of the profile, 0 for none. */
  ghost predicate Highest(plans: Plans, profile: Id, n: nat) {
    && (n == 0 || (profile, n) in plans)
    && forall w: nat :: (profile, w) in plans ==> w <= n
  }

  lemma HighestIsLatest(plans: Plans, profile: Id, n: nat)
    ensures Highest(plans, profile, n) <==> n == LatestVersion(plans, profile)
  {
    var l := LatestVersion(plans, profile);
    VersionsMember(plans, profile, l);
    if n != 0 || (profile, n) in plans { VersionsMember(plans, profile, n); }
    forall w: nat | (profile, w) in plans ensures w <= l {
      LatestBounds(plans, profile, w);
    }
    assert Versions(plans, profile) != {} ==> (profile, l) in plans;
    if l != 0 { assert (profile, l) in plans; }
  }

  /** What counts against the cap: the current percentage in the profile of each ACTIVE membership. */
  lemma CommitmentMeaning(g: Gov, plans: Plans, user: Id, m: Id, n: nat)
    requires m in g.members && Highest(plans, g.members[m].profile, n)
    ensures m in UserActive(g, user) <==> g.members[m].user == user && g.members[m].status == ACTIVE
    ensures var k := (g.members[m].profile, n);
      CurrentBp(g, plans)(m) == if k in plans && m in plans[k] then plans[k][m] else 0
    ensures m in UserActive(g, user) ==>
      CommittedBy(g, plans, user) == CurrentBp(g, plans)(m) + SumSet(UserActive(g, user) - {m}, CurrentBp(g, plans))
  {
    HighestIsLatest(plans, g.members[m].profile, n);
    if m in UserActive(g, user) { SumSetRemove(UserActive(g, user), CurrentBp(g, plans), m); }
  }

  // --- income -------------------------------------------------------------------------------

  lemma SetIncomeMeaning(g: Gov, c: Con, user: Id, profile: Id, member: Id, amount: int)
    ensures var r := ConExec(g, c, SetDeclaredIncome(user, profile, member, amount));
      && (r.Ok? <==> OwnSeat(g, user, profile, member) && amount >= 0)
      && (r.Ok? ==> r.value == Con(c.income[member := amount], c.plans, c.periods, c.records,
            c.log + [DeclaredIncomeSet(member, amount)]))
  {
  }

  // --- allocations --------------------------------------------------------------------------

  /**
   * An allocation is accepted exactly when it is the caller's own, in range, and fits beside the
   * caller's other profiles; it then sets that one row of the current plan, or starts version 1.
   */
  lemma SetAllocationMeaning(g: Gov, c: Con, user: Id, profile: Id, member: Id, bp: int, n: nat)
    requires PlanInv(g, c.plans) && Highest(c.plans, profile, n)
    ensures var r := ConExec(g, c, SetAllocation(user, profile, member, bp));
      var elsewhere := CommittedElsewhere(g, c.plans, user, profile);
      && (r.Ok? <==> OwnSeat(g, user, profile, member) && 0 <= bp <= 10000 && elsewhere + bp <= 10000)
      && (OwnSeat(g, user, profile, member) && 0 <= bp <= 10000 < elsewhere + bp ==>
            r == Err(CapExceeded(if elsewhere < 10000 then 10000 - elsewhere else 0)))
      && (r.Ok? ==>
            var v := if n == 0 then 1 else n;
            var rows := if n == 0 then map[] else c.plans[(profile, n)];
            r.value == Con(c.income, c.plans[(profile, v) := rows[member := bp]], c.periods, c.records,
              c.log + [AllocationSet(profile, v, member, bp)]))
  {
    hide PlanInv, CommittedElsewhere, LatestVersion;
    HighestIsLatest(c.plans, profile, n);
    PlanKeyPositive(g, c.plans, profile);
  }

  lemma PlanKeyPositive(g: Gov, plans: Plans, profile: Id)
    requires PlanInv(g, plans)
    ensures (profile, 0) !in plans
  {
  }

  // --- redistribution -----------------------------------------------------------------------

  ghost predicate DistinctTargets(allocs: seq<NewShare>) {
    forall i, j | 0 <= i < j < |allocs| :: allocs[i].member != allocs[j].member
  }

  lemma {:induction false} ShapeIff(allocs: seq<NewShare>, seen: set<Id>)
    ensures ValidShape(allocs, seen) <==>
      && DistinctTargets(allocs)
      && forall a <- allocs :: 0 <= a.bp <= 10000 && a.member !in seen
    decreases |allocs|
  {
    if allocs != [] {
      ShapeIff(allocs[1..], seen + {allocs[0].member});
      assert allocs == [allocs[0]] + allocs[1..];
      if DistinctTargets(allocs) {
        forall a | a in allocs[1..] ensures a.member != allocs[0].member {
          var k :| 0 <= k < |allocs[1..]| && allocs[1..][k] == a;
          assert allocs[k + 1] == a;
        }
      }
    }
  }

  /** An ACTIVE member of the profile whose other profiles leave room for the share. */
  ghost predicate Fits(g: Gov, plans: Plans, profile: Id, a: NewShare) {
    && a.member in g.members && g.members[a.member].profile == profile && g.members[a.member].status == ACTIVE
    && 0 <= a.bp <= 10000 && CommittedElsewhere(g, plans, g.members[a.member].user, profile) + a.bp <= 10000
  }

  lemma HeadFits(g: Gov, plans: Plans, profile: Id, allocs: seq<NewShare>)
    requires allocs != []
    ensures CheckTargets(g, plans, profile, allocs).Ok? <==>
      Fits(g, plans, profile, allocs[0]) && CheckTargets(g, plans, profile, allocs[1..]).Ok?
  {
    hide CommittedElsewhere;
  }

  lemma {:induction false} TargetsIff(g: Gov, plans: Plans, profile: Id, allocs: seq<NewShare>)
    ensures CheckTargets(g, plans, profile, allocs).Ok? <==> forall a <- allocs :: Fits(g, plans, profile, a)
    decreases |allocs|
  {
    hide Fits;
    if allocs != [] {
      assert allocs == [allocs[0]] + allocs[1..];
      HeadFits(g, plans, profile, allocs);
      TargetsIff(g, plans, profile, allocs[1..]);
    }
  }

  /** Exactly the requested rows. */
  ghost predicate RowsAre(rows: Allocations, allocs: seq<NewShare>) {
    && (forall i | 0 <= i < |allocs| :: allocs[i].member in rows && rows[allocs[i].member] == allocs[i].bp)
    && forall m <- rows :: exists i | 0 <= i < |allocs| :: allocs[i].member == m
  }

  /**
   * A redistribution is accepted exactly when an owner or admin of an open profile names distinct
   * active members whose new shares fit; the next version then holds exactly those rows.
   */
  lemma RedistributeMeaning(g: Gov, c: Con, user: Id, profile: Id, allocs: seq<NewShare>, n: nat)
    requires G.Indexed(g) && Highest(c.plans, profile, n)
    ensures var r := ConExec(g, c, Redistribute(user, profile, allocs));
      && (r.Ok? <==>
            && ActsAs(g, user, profile, {OWNER, ADMIN}) && IsOpen(g, profile) && allocs != []
            && DistinctTargets(allocs) && forall a <- allocs :: Fits(g, c.plans, profile, a))
      && (r.Ok? ==>
            && (profile, n + 1) in r.value.plans && RowsAre(r.value.plans[(profile, n + 1)], allocs)
            && r.value == Con(c.income, c.plans[(profile, n + 1) := r.value.plans[(profile, n + 1)]], c.periods,
                 c.records, c.log + [PercentageRedistributed(profile, n + 1)]))
  {
    hide RequireCapability, CommittedElsewhere, CheckTargets, ValidShape, NewAllocations, LatestVersion;
    CapabilityIff(g, profile, user, REDISTRIBUTE_PERCENTAGES);
    HighestIsLatest(c.plans, profile, n);
    ShapeIff(allocs, {});
    TargetsIff(g, c.plans, profile, allocs);
    if DistinctTargets(allocs) { RequestedRows(allocs); }
  }

  lemma RequestedRows(allocs: seq<NewShare>)
    requires DistinctTargets(allocs)
    ensures RowsAre(NewAllocations(allocs), allocs)
  {
    NewAllocationsRows(allocs);
  }

  // --- newly opened periods -----------------------------------------------------------------

  /**
   * What a period holds when it opens: the highest plan version, the declared income of exactly the
   * active members, and an end on the profile's own schedule.
   */
  ghost predicate Fresh(g: Gov, c: Con, p: Period) {
    && p.open && IsOpen(g, p.profile)
    && Highest(c.plans, p.profile, p.planVersion)
    && (forall m :: m in p.income <==> m in g.members && g.members[m].profile == p.profile && g.members[m].status == ACTIVE)
    && (forall m <- p.income :: p.income[m] == if m in c.income then c.income[m] else 0)
    && EndsOnSchedule(p.start, p.end, g.profiles[p.profile].length)
  }

  lemma OpenedIsFresh(g: Gov, c: Con, profile: Id, start: int)
    requires IsOpen(g, profile)
    ensures var end := PeriodEnd(start, g.profiles[profile].length);
      var c' := OpenPeriod(g, c, profile, start, end);
      && |c'.periods| == |c.periods| + 1 && c'.periods[..|c.periods|] == c.periods
      && var p := c'.periods[|c.periods|];
        && p.profile == profile && p.start == start && Fresh(g, c, p)
        && c' == Con(c.income, c.plans, c.periods + [p], c.records, c.log + [PeriodOpened(|c.periods|, profile, p.planVersion)])
  {
    hide LatestVersion, EndsOnSchedule, PeriodEnd;
    HighestIsLatest(c.plans, profile, LatestVersion(c.plans, profile));
    PeriodEndDates(start, PeriodEnd(start, g.profiles[profile].length), g.profiles[profile].length);
  }

  /** Hence a new period expects of every active member the current income times the current share. */
  lemma FreshExpectation(g: Gov, c: Con, c': Con, i: nat, m: Id, n: nat)
    requires i < |c'.periods| && Fresh(g, c, c'.periods[i]) && c'.plans == c.plans
    requires m in c'.periods[i].income && Highest(c.plans, c'.periods[i].profile, n)
    ensures var income := if m in c.income then c.income[m] else 0;
      var k := (c'.periods[i].profile, n);
      var bp := if k in c.plans && m in c.plans[k] then c.plans[k][m] else 0;
      ExpectedAt(c', i, m) == income * bp / 10000
  {
    HighestIsLatest(c.plans, c'.periods[i].profile, n);
    HighestIsLatest(c.plans, c'.periods[i].profile, c'.periods[i].planVersion);
  }

  // --- recording ----------------------------------------------------------------------------

  ghost predicate OpenAt(ps: seq<Period>, profile: Id, i: nat) { i < |ps| && ps[i].profile == profile && ps[i].open }

  /** The record goes to the open period; without one, to a first period that starts now. */
  ghost predicate Recorded(g: Gov, c: Con, profile: Id, member: Id, amount: int, now: int, i: nat, c': Con) {
    && c'.records == c.records + [Record(profile, i, member, amount)]
    && c'.income == c.income && c'.plans == c.plans
    && OpenAt(c'.periods, profile, i)
    && (OpenAt(c.periods, profile, i) ==>
          c'.periods == c.periods && c'.log == c.log + [ContributionRecorded(i, member, amount)])
    && (!OpenAt(c.periods, profile, i) ==>
          && (forall j: nat :: !OpenAt(c.periods, profile, j))
          && i == |c.periods| && c'.periods == c.periods + [c'.periods[i]]
          && c'.periods[i].start == now && Fresh(g, c, c'.periods[i])
          && c'.log == c.log + [PeriodOpened(i, profile, c'.periods[i].planVersion), ContributionRecorded(i, member, amount)])
  }

  lemma RecordMeaning(g: Gov, c: Con, user: Id, profile: Id, member: Id, amount: int, now: int)
    ensures var r := ConExec(g, c, RecordContribution(user, profile, member, amount, now));
      && (r.Ok? <==> OwnSeat(g, user, profile, member) && amount > 0 && IsOpen(g, profile))
      && (r.Ok? ==> exists i :: Recorded(g, c, profile, member, amount, now, i, r.value))
  {
    hide Recorded, OpenPeriod, EnsureOpenPeriod;
    var r := DoRecord(g, c, user, profile, member, amount, now);
    if r.Ok? {
      RecordEffect(g, c, profile, member, amount, now, r.value);
    }
  }

  lemma RecordEffect(g: Gov, c: Con, profile: Id, member: Id, amount: int, now: int, c': Con)
    requires IsOpen(g, profile)
    requires var (c1, i) := EnsureOpenPeriod(g, c, profile, now);
      c' == LogEvent(c1.(records := c1.records + [Record(profile, i, member, amount)]), ContributionRecorded(i, member, amount))
    ensures exists i :: Recorded(g, c, profile, member, amount, now, i, c')
  {
    hide OpenPeriod, Fresh, PeriodEnd, EndsOnSchedule;
    var found := OpenPeriodOf(c.periods, profile);
    if found.Some? {
      assert Recorded(g, c, profile, member, amount, now, found.value, c');
    } else {
      OpenedIsFresh(g, c, profile, now);
      forall j: nat ensures !OpenAt(c.periods, profile, j) {
      }
      FreshIsOpen(g, c, c'.periods[|c.periods|]);
      assert Recorded(g, c, profile, member, amount, now, |c.periods|, c');
    }
  }

  lemma FreshIsOpen(g: Gov, c: Con, p: Period)
    requires Fresh(g, c, p)
    ensures p.open
  {
  }

  // --- rollover -----------------------------------------------------------------------------

  /** The period that takes over: it starts where the old one ended. */
  ghost predicate Successor(g: Gov, c: Con, i: nat, p: Period) {
    i < |c.periods| && p.profile == c.periods[i].profile && p.start == c.periods[i].end && Fresh(g, c, p)
  }

  /** Rolling a due period over closes it with the sum of its records and opens its successor, if any. */
  lemma RollMeaning(g: Gov, c: Con, i: nat, now: int)
    requires i < |c.periods| && c.periods[i].open && now >= c.periods[i].end
    ensures var c' := RollOne(g, c, i, now); var p := c.periods[i];
      var closed := c.periods[i := p.(open := false)];
      var announced := c.log + [PeriodClosed(i, p.profile, Total(c.records, AmountIn(i)))];
      && c'.income == c.income && c'.plans == c.plans && c'.records == c.records
      && (!IsOpen(g, p.profile) ==> c'.periods == closed && c'.log == announced)
      && (IsOpen(g, p.profile) ==>
            && |c'.periods| == |c.periods| + 1 && c'.periods == closed + [c'.periods[|c.periods|]]
            && Successor(g, c, i, c'.periods[|c.periods|])
            && c'.log == announced + [PeriodOpened(|c.periods|, p.profile, c'.periods[|c.periods|].planVersion)])
  {
    hide OpenPeriod, Fresh, PeriodEnd, EndsOnSchedule, PoolActual, ActualByMember;
    var p := c.periods[i];
    ReconciledIsRecorded(c, i, p.income.Keys);
    if IsOpen(g, p.profile) {
      var closed := LogEvent(c.(periods := c.periods[i := p.(open := false)]),
                             PeriodClosed(i, p.profile, RecordedTotal(c, i)));
      OpenedIsFresh(g, closed, p.profile, p.end);
      var c' := RollOne(g, c, i, now);
      FreshElsewhere(g, closed, c, c'.periods[|c.periods|]);
    }
  }

  lemma FreshElsewhere(g: Gov, c: Con, c': Con, p: Period)
    requires Fresh(g, c, p) && c'.plans == c.plans && c'.income == c.income
    ensures Fresh(g, c', p)
  {
  }

  /** What a sweep does to the period table. */
  ghost predicate Swept(g: Gov, c: Con, due: seq<nat>, c': Con) {
    && c'.income == c.income && c'.plans == c.plans && c'.records == c.records
    && |c'.periods| >= |c.periods|
    && (forall i: nat | i < |c.periods| ::
          c'.periods[i] == if i in due then c.periods[i].(open := false) else c.periods[i])
    && (forall j: nat | |c.periods| <= j < |c'.periods| :: SucceedsOne(g, c, due, c'.periods[j]))
    && (forall i <- due :: i < |c.periods| && (IsOpen(g, c.periods[i].profile) ==> HasSuccessor(g, c, i, c')))
  }

  ghost predicate SucceedsOne(g: Gov, c: Con, due: seq<nat>, p: Period) { exists i <- due :: Successor(g, c, i, p) }

  ghost predicate HasSuccessor(g: Gov, c: Con, i: nat, c': Con) {
    exists j: nat :: |c.periods| <= j < |c'.periods| && Successor(g, c, i, c'.periods[j])
  }

  lemma SweptOneMore(g: Gov, c: Con, due: seq<nat>, i: nat, c1: Con, now: int)
    requires Swept(g, c, due, c1) && i !in due && IsDue(c, i, now)
    ensures Swept(g, c, due + [i], RollOne(g, c1, i, now))
  {
    hide Successor, RollOne, HasSuccessor, SucceedsOne;
    var c2 := RollOne(g, c1, i, now);
    RollEffect(g, c, c1, i, now);
    forall j: nat | |c.periods| <= j < |c2.periods| ensures SucceedsOne(g, c, due + [i], c2.periods[j]) {
      StillSucceeds(g, c, due, i, c2.periods[j]);
    }
    forall k | k in due + [i] ensures k < |c.periods| && (IsOpen(g, c.periods[k].profile) ==> HasSuccessor(g, c, k, c2)) {
      if k in due && IsOpen(g, c.periods[k].profile) { SuccessorStays(g, c, k, c1, c2); }
    }
  }

  /** One roll seen from the start of the sweep. */
  lemma RollEffect(g: Gov, c: Con, c1: Con, i: nat, now: int)
    requires c1.income == c.income && c1.plans == c.plans && |c.periods| <= |c1.periods|
    requires IsDue(c, i, now) && c1.periods[i] == c.periods[i]
    ensures var c2 := RollOne(g, c1, i, now); var closed := c1.periods[i := c.periods[i].(open := false)];
      && c2.income == c1.income && c2.plans == c1.plans && c2.records == c1.records
      && (!IsOpen(g, c.periods[i].profile) ==> c2.periods == closed)
      && (IsOpen(g, c.periods[i].profile) ==>
            && |c2.periods| == |c1.periods| + 1 && c2.periods == closed + [c2.periods[|c1.periods|]]
            && Successor(g, c, i, c2.periods[|c1.periods|]) && HasSuccessor(g, c, i, c2))
  {
    hide Fresh, RollOne;
    RollMeaning(g, c1, i, now);
    if IsOpen(g, c.periods[i].profile) {
      FreshElsewhere(g, c1, c, RollOne(g, c1, i, now).periods[|c1.periods|]);
    }
  }

  lemma StillSucceeds(g: Gov, c: Con, due: seq<nat>, i: nat, p: Period)
    ensures SucceedsOne(g, c, due, p) || Successor(g, c, i, p) ==> SucceedsOne(g, c, due + [i], p)
  {
    hide Successor;
    assert i in due + [i];
    assert forall k <- due :: k in due + [i];
  }

  lemma SuccessorStays(g: Gov, c: Con, k: nat, c1: Con, c2: Con)
    requires HasSuccessor(g, c, k, c1) && |c1.periods| <= |c2.periods|
    requires forall j: nat | |c.periods| <= j < |c1.periods| :: c2.periods[j] == c1.periods[j]
    ensures HasSuccessor(g, c, k, c2)
  {
    hide Successor;
    var j: nat :| |c.periods| <= j < |c1.periods| && Successor(g, c, k, c1.periods[j]);
    assert Successor(g, c, k, c2.periods[j]);
  }

  /**
   * A sweep over distinct due periods closes exactly those and leaves the others; every one of an open
   * profile gets a fresh successor, and every new period succeeds one of them.
   */
  lemma {:induction false} RolloverMeaning(g: Gov, c: Con, due: seq<nat>, now: int)
    requires forall i | 0 <= i < |due| :: IsDue(c, due[i], now)
    requires forall i, j | 0 <= i < j < |due| :: due[i] != due[j]
    ensures Swept(g, c, due, RollAll(g, c, due, now))
    decreases |due|
  {
    hide Swept, RollOne;
    if due == [] {
      NothingSwept(g, c);
    } else {
      var rest, last := due[..|due| - 1], due[|due| - 1];
      RolloverMeaning(g, c, rest, now);
      assert due == rest + [last];
      SweptOneMore(g, c, rest, last, RollAll(g, c, rest, now), now);
    }
  }

  lemma NothingSwept(g: Gov, c: Con)
    ensures Swept(g, c, [], c)
  {
  }
}
